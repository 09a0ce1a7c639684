/**
 * The derived maker and OS tables of WmClient/WmClient.cs
 * (LoadDeviceMakesData, LoadDeviceOsesData, GetAllVersionsForOS): rows
 * grouped by a key into a dictionary, the set of distinct keys, and the
 * removal of empty version strings.
 */
module Tables {
  import opened DeviceModel

  /** The dictionary a grouping loop builds: each key maps to its values in row order. */
  function Group<T>(pairs: seq<(string, T)>): map<string, seq<T>> {
    if |pairs| == 0 then map[]
    else
      var m := Group(pairs[..|pairs| - 1]);
      var k := pairs[|pairs| - 1].0;
      m[k := (if k in m then m[k] else []) + [pairs[|pairs| - 1].1]]
  }

  /**
   * The keys, each once, in the order they first occur: what a HashSet that
   * is only ever added to enumerates.
   */
  function Names<T>(pairs: seq<(string, T)>): seq<string> {
    if |pairs| == 0 then []
    else
      var ns := Names(pairs[..|pairs| - 1]);
      var k := pairs[|pairs| - 1].0;
      if k in ns then ns else ns + [k]
  }

  /** The values of the rows with key `k`, in row order. */
  function Members<T>(pairs: seq<(string, T)>, k: string): seq<T> {
    if |pairs| == 0 then []
    else (if pairs[0].0 == k then [pairs[0].1] else []) + Members(pairs[1..], k)
  }

  /** Some row has key `k`. */
  predicate HasKey<T>(pairs: seq<(string, T)>, k: string) {
    exists i :: 0 <= i < |pairs| && pairs[i].0 == k
  }

  lemma {:induction false} MembersSnoc<T>(pairs: seq<(string, T)>, p: (string, T), k: string)
    ensures Members(pairs + [p], k) == Members(pairs, k) + (if p.0 == k then [p.1] else [])
    decreases |pairs|
  {
    if |pairs| > 0 {
      assert (pairs + [p])[1..] == pairs[1..] + [p];
      MembersSnoc(pairs[1..], p, k);
    } else {
      assert [p][1..] == [];
    }
  }

  /** One more row appends its value under its key. */
  lemma GroupSnoc<T>(front: seq<(string, T)>, p: (string, T))
    ensures Group(front + [p]) == Group(front)[p.0 := (if p.0 in Group(front) then Group(front)[p.0] else []) + [p.1]]
  {
    assert (front + [p])[..|front|] == front;
  }

  lemma {:induction false} HasKeySnoc<T>(front: seq<(string, T)>, p: (string, T), k: string)
    ensures HasKey(front + [p], k) <==> HasKey(front, k) || p.0 == k
  {
    var pairs := front + [p];
    if HasKey(front, k) {
      var i :| 0 <= i < |front| && front[i].0 == k;
      assert pairs[i] == front[i];
    }
    if HasKey(pairs, k) && k != p.0 {
      var i :| 0 <= i < |pairs| && pairs[i].0 == k;
      assert front[i] == pairs[i];
    }
    assert pairs[|front|] == p;
  }

  /** Under one key, the grouped dictionary holds that key's values, none when the key is absent. */
  lemma {:induction false} GroupAt<T>(pairs: seq<(string, T)>, k: string)
    ensures (if k in Group(pairs) then Group(pairs)[k] else []) == Members(pairs, k)
    ensures k in Group(pairs) <==> HasKey(pairs, k)
    decreases |pairs|
  {
    if |pairs| > 0 {
      var front := pairs[..|pairs| - 1];
      var p := pairs[|pairs| - 1];
      assert pairs == front + [p];
      GroupAt(front, k);
      MembersSnoc(front, p, k);
      GroupSnoc(front, p);
      HasKeySnoc(front, p, k);
    }
  }

  /**
   * The grouped dictionary has exactly the keys of the rows, and holds under
   * each key exactly that key's values, in row order.
   */
  lemma GroupContents<T>(pairs: seq<(string, T)>)
    ensures forall k :: k in Group(pairs) ==> HasKey(pairs, k) && Group(pairs)[k] == Members(pairs, k)
    ensures forall k :: HasKey(pairs, k) ==> k in Group(pairs)
  {
    forall k
      ensures (if k in Group(pairs) then Group(pairs)[k] else []) == Members(pairs, k)
      ensures k in Group(pairs) <==> HasKey(pairs, k)
    {
      GroupAt(pairs, k);
    }
  }

  /** A key that occurs has at least one value. */
  lemma MembersNonEmpty<T>(pairs: seq<(string, T)>, k: string)
    requires k in Group(pairs)
    ensures |Group(pairs)[k]| > 0
  {
    GroupContents(pairs);
    var i :| 0 <= i < |pairs| && pairs[i].0 == k;
    MembersHas(pairs, k, i);
  }

  lemma {:induction false} MembersHas<T>(pairs: seq<(string, T)>, k: string, i: int)
    requires 0 <= i < |pairs| && pairs[i].0 == k
    ensures pairs[i].1 in Members(pairs, k)
    decreases i
  {
    if i > 0 {
      MembersHas(pairs[1..], k, i - 1);
    }
  }

  /** The names are the keys of the rows, each exactly once. */
  lemma {:induction false} NamesContents<T>(pairs: seq<(string, T)>)
    ensures forall k :: k in Names(pairs) ==> HasKey(pairs, k)
    ensures forall k :: HasKey(pairs, k) ==> k in Names(pairs)
    ensures forall i, j :: 0 <= i < j < |Names(pairs)| ==> Names(pairs)[i] != Names(pairs)[j]
    decreases |pairs|
  {
    if |pairs| > 0 {
      var front := pairs[..|pairs| - 1];
      var k := pairs[|pairs| - 1].0;
      NamesContents(front);
      forall x | x in Names(pairs)
        ensures HasKey(pairs, x)
      {
        if x != k {
          var i :| 0 <= i < |front| && front[i].0 == x;
          assert pairs[i] == front[i];
        }
      }
      forall x | HasKey(pairs, x)
        ensures x in Names(pairs)
      {
        var i :| 0 <= i < |pairs| && pairs[i].0 == x;
        if i < |front| {
          assert front[i] == pairs[i];
        }
      }
    }
  }

  /** The rows of the all-devices listing, keyed by brand. */
  function MakeRows(rows: seq<MakeModel>): (pairs: seq<(string, ModelMktName)>)
    ensures |pairs| == |rows|
    ensures forall i :: 0 <= i < |rows| ==>
      pairs[i] == (rows[i].brandName, ModelMktName(rows[i].modelName, rows[i].marketingName))
  {
    if |rows| == 0 then []
    else MakeRows(rows[..|rows| - 1]) + [(rows[|rows| - 1].brandName, ModelMktName(rows[|rows| - 1].modelName, rows[|rows| - 1].marketingName))]
  }

  /** The rows of the OS listing, keyed by OS name. */
  function OsRows(rows: seq<DeviceOsVersions>): (pairs: seq<(string, string)>)
    ensures |pairs| == |rows|
    ensures forall i :: 0 <= i < |rows| ==> pairs[i] == (rows[i].deviceOs, rows[i].deviceOsVersion)
  {
    if |rows| == 0 then []
    else OsRows(rows[..|rows| - 1]) + [(rows[|rows| - 1].deviceOs, rows[|rows| - 1].deviceOsVersion)]
  }

  /**
   * The foreach of LoadDeviceMakesData: a brand seen for the first time gets
   * an empty list and joins the brand set, then the row's model and
   * marketing names are appended to its brand's list.
   */
  method BuildMakes(rows: seq<MakeModel>) returns (dmMap: map<string, seq<ModelMktName>>, makes: seq<string>)
    ensures dmMap == Group(MakeRows(rows)) && makes == Names(MakeRows(rows))
  {
    ghost var pairs := MakeRows(rows);
    dmMap := map[];
    makes := [];
    for i := 0 to |rows|
      invariant dmMap == Group(pairs[..i]) && makes == Names(pairs[..i])
      invariant forall b :: b in dmMap <==> b in makes
    {
      var row := rows[i];
      assert pairs[..i + 1][..i] == pairs[..i];
      if row.brandName !in dmMap {
        dmMap := dmMap[row.brandName := []];
        makes := makes + [row.brandName];
      }
      dmMap := dmMap[row.brandName := dmMap[row.brandName] + [ModelMktName(row.modelName, row.marketingName)]];
    }
    assert pairs[..|rows|] == pairs;
  }

  /**
   * The foreach of LoadDeviceOsesData: an OS seen for the first time joins
   * the OS set and gets an empty list, then the row's version is appended.
   */
  method BuildOses(rows: seq<DeviceOsVersions>) returns (dmMap: map<string, seq<string>>, oses: seq<string>)
    ensures dmMap == Group(OsRows(rows)) && oses == Names(OsRows(rows))
  {
    ghost var pairs := OsRows(rows);
    dmMap := map[];
    oses := [];
    for i := 0 to |rows|
      invariant dmMap == Group(pairs[..i]) && oses == Names(pairs[..i])
      invariant forall b :: b in dmMap <==> b in oses
    {
      var row := rows[i];
      assert pairs[..i + 1][..i] == pairs[..i];
      if row.deviceOs !in oses {
        oses := oses + [row.deviceOs];
      }
      if row.deviceOs !in dmMap {
        dmMap := dmMap[row.deviceOs := []];
      }
      dmMap := dmMap[row.deviceOs := dmMap[row.deviceOs] + [row.deviceOsVersion]];
    }
    assert pairs[..|rows|] == pairs;
  }

  /** The strings that are not empty, in order. */
  function NonEmpty(vs: seq<string>): seq<string> {
    if |vs| == 0 then [] else (if vs[0] == "" then [] else [vs[0]]) + NonEmpty(vs[1..])
  }

  /** Exactly the non-empty strings survive. */
  lemma {:induction false} NonEmptyMembers(vs: seq<string>)
    ensures forall x :: x in NonEmpty(vs) ==> x in vs && x != ""
    ensures forall x :: x in vs && x != "" ==> x in NonEmpty(vs)
    decreases |vs|
  {
    if |vs| > 0 {
      NonEmptyMembers(vs[1..]);
      assert vs == [vs[0]] + vs[1..];
    }
  }

  /** Removing empty strings twice removes nothing more. */
  lemma {:induction false} NonEmptyIdempotent(vs: seq<string>)
    ensures NonEmpty(NonEmpty(vs)) == NonEmpty(vs)
    decreases |vs|
  {
    if |vs| > 0 {
      NonEmptyIdempotent(vs[1..]);
      if vs[0] != "" {
        var t := [vs[0]] + NonEmpty(vs[1..]);
        assert NonEmpty(vs) == t;
        assert t[0] == vs[0] && t[1..] == NonEmpty(vs[1..]);
        assert NonEmpty(t) == [vs[0]] + NonEmpty(t[1..]);
      } else {
        assert NonEmpty(vs) == NonEmpty(vs[1..]);
      }
    }
  }

  /**
   * The backward loop of GetAllVersionsForOS: from the last index down to
   * the first, an empty string is removed where it stands.
   */
  method RemoveEmpty(versions: seq<string>) returns (r: seq<string>)
    ensures r == NonEmpty(versions)
  {
    r := versions;
    var i := |versions|;
    while i > 0
      invariant 0 <= i <= |versions|
      invariant r == versions[..i] + NonEmpty(versions[i..])
    {
      i := i - 1;
      assert versions[i..][1..] == versions[i + 1..];
      assert r[i] == versions[i];
      assert r[..i] == versions[..i];
      assert versions[..i + 1] == versions[..i] + [versions[i]];
      if r[i] == "" {
        r := r[..i] + r[i + 1..];
      }
    }
  }
}
