/**
 * The request headers the client derives its cache key from
 * (WmClient/WmClient.cs, GetUserAgentCacheKey and LookupRequest). A header
 * collection is a NameValueCollection: its entries in insertion order, names
 * compared without regard to case.
 */
module Headers {
  import opened Wrappers
  import opened DeviceModel

  /** A header collection: name/value entries in insertion order. */
  type HeaderList = seq<(string, string)>

  function LowerAscii(c: char): char {
    if 'A' <= c <= 'Z' then (c as int + 32) as char else c
  }

  /** A header name with its ASCII letters lower-cased. */
  function Fold(s: string): (f: string)
    ensures |f| == |s| && forall i :: 0 <= i < |s| ==> f[i] == LowerAscii(s[i])
  {
    if |s| == 0 then [] else [LowerAscii(s[0])] + Fold(s[1..])
  }

  /** The values of the entries whose name matches `name`, in insertion order. */
  function ValuesOf(hs: HeaderList, name: string): seq<string> {
    if |hs| == 0 then []
    else (if Fold(hs[0].0) == Fold(name) then [hs[0].1] else []) + ValuesOf(hs[1..], name)
  }

  /** The values joined by commas. */
  function Join(vs: seq<string>): string {
    if |vs| == 0 then "" else if |vs| == 1 then vs[0] else vs[0] + "," + Join(vs[1..])
  }

  /** `headers[name]`: null when no entry matches, else the matching values joined by commas. */
  function Lookup(hs: HeaderList, name: string): Option<string> {
    var vs := ValuesOf(hs, name);
    if |vs| == 0 then None else Some(Join(vs))
  }

  /** What `key += headers[name]` appends: the value, or nothing for null. */
  function Segment(hs: HeaderList, name: string): string {
    match Lookup(hs, name)
    case None => ""
    case Some(v) => v
  }

  /** The cache key of a non-null header collection: the segments of the important headers, in their order. */
  function CacheKey(hs: HeaderList, important: seq<string>): string {
    if |important| == 0 then "" else CacheKey(hs, important[..|important| - 1]) + Segment(hs, important[|important| - 1])
  }

  /** Names that differ only in case find the same values. */
  lemma {:induction false} LookupIgnoresCase(hs: HeaderList, a: string, b: string)
    requires Fold(a) == Fold(b)
    ensures ValuesOf(hs, a) == ValuesOf(hs, b) && Lookup(hs, a) == Lookup(hs, b)
    decreases |hs|
  {
    if |hs| > 0 {
      LookupIgnoresCase(hs[1..], a, b);
    }
  }

  /** Two collections whose entries differ at most in the case of their names. */
  predicate ReCased(h1: HeaderList, h2: HeaderList) {
    |h1| == |h2| && forall i :: 0 <= i < |h1| ==> Fold(h1[i].0) == Fold(h2[i].0) && h1[i].1 == h2[i].1
  }

  lemma {:induction false} ReCasedValues(h1: HeaderList, h2: HeaderList, name: string)
    requires ReCased(h1, h2)
    ensures ValuesOf(h1, name) == ValuesOf(h2, name)
    decreases |h1|
  {
    if |h1| > 0 {
      assert ReCased(h1[1..], h2[1..]) by {
        forall i | 0 <= i < |h1| - 1
          ensures Fold(h1[1..][i].0) == Fold(h2[1..][i].0) && h1[1..][i].1 == h2[1..][i].1
        {
          assert h1[1..][i] == h1[i + 1] && h2[1..][i] == h2[i + 1];
        }
      }
      ReCasedValues(h1[1..], h2[1..], name);
    }
  }

  /** Sending the same headers with differently cased names yields the same cache key. */
  lemma {:induction false} ReCasedSameKey(h1: HeaderList, h2: HeaderList, important: seq<string>)
    requires ReCased(h1, h2)
    ensures CacheKey(h1, important) == CacheKey(h2, important)
    decreases |important|
  {
    if |important| > 0 {
      ReCasedSameKey(h1, h2, important[..|important| - 1]);
      ReCasedValues(h1, h2, important[|important| - 1]);
    }
  }

  /** Two headers with different names can be presented in either order. */
  lemma {:induction false} SwapValues(hs: HeaderList, i: int, name: string)
    requires 0 <= i < |hs| - 1 && Fold(hs[i].0) != Fold(hs[i + 1].0)
    ensures ValuesOf(hs[..i] + [hs[i + 1], hs[i]] + hs[i + 2..], name) == ValuesOf(hs, name)
    decreases i
  {
    var swapped := hs[..i] + [hs[i + 1], hs[i]] + hs[i + 2..];
    if i == 0 {
      assert swapped[1..][1..] == hs[2..] && hs[1..][1..] == hs[2..];
      assert swapped[1..][0] == hs[0] && hs[1..][0] == hs[1];
    } else {
      SwapValues(hs[1..], i - 1, name);
      assert swapped[1..] == hs[1..][..i - 1] + [hs[1..][i], hs[1..][i - 1]] + hs[1..][i + 1..];
    }
  }

  lemma {:induction false} SwapSameKey(hs: HeaderList, i: int, important: seq<string>)
    requires 0 <= i < |hs| - 1 && Fold(hs[i].0) != Fold(hs[i + 1].0)
    ensures CacheKey(hs[..i] + [hs[i + 1], hs[i]] + hs[i + 2..], important) == CacheKey(hs, important)
    decreases |important|
  {
    if |important| > 0 {
      SwapSameKey(hs, i, important[..|important| - 1]);
      SwapValues(hs, i, important[|important| - 1]);
    }
  }

  /** A header that matches no important name does not change the key. */
  lemma {:induction false} ExtraValues(hs: HeaderList, extra: (string, string), name: string)
    requires Fold(extra.0) != Fold(name)
    ensures ValuesOf(hs + [extra], name) == ValuesOf(hs, name)
    decreases |hs|
  {
    if |hs| > 0 {
      assert (hs + [extra])[1..] == hs[1..] + [extra];
      ExtraValues(hs[1..], extra, name);
    } else {
      assert ValuesOf([extra][1..], name) == [];
    }
  }

  lemma {:induction false} ExtraSameKey(hs: HeaderList, extra: (string, string), important: seq<string>)
    requires forall j :: 0 <= j < |important| ==> Fold(extra.0) != Fold(important[j])
    ensures CacheKey(hs + [extra], important) == CacheKey(hs, important)
    decreases |important|
  {
    if |important| > 0 {
      ExtraSameKey(hs, extra, important[..|important| - 1]);
      ExtraValues(hs, extra, important[|important| - 1]);
    }
  }

  /** A missing important header contributes an empty segment. */
  lemma {:induction false} MissingIsEmpty(hs: HeaderList, name: string)
    requires forall i :: 0 <= i < |hs| ==> Fold(hs[i].0) != Fold(name)
    ensures Lookup(hs, name) == None && Segment(hs, name) == ""
    decreases |hs|
  {
    if |hs| > 0 {
      MissingIsEmpty(hs[1..], name);
    }
  }

  /**
   * The lookup headers of a request built by LookupRequest: each important
   * name whose header is non-null and non-empty, mapped to that header; the
   * dictionary's `Add` fails on a name met a second time.
   */
  function LookupHeaders(hs: HeaderList, important: seq<string>): Result<map<string, string>, Failure> {
    if |important| == 0 then Ok(map[])
    else
      match LookupHeaders(hs, important[..|important| - 1])
      case Err(e) => Err(e)
      case Ok(m) =>
        var name := important[|important| - 1];
        var header := Lookup(hs, name);
        if header.Some? && header.value != "" then
          if name in m then Err(DuplicateKey) else Ok(m[name := header.value])
        else Ok(m)
  }

  /**
   * A successful build maps exactly the important names with a non-empty
   * header, each to its header.
   */
  lemma {:induction false} LookupHeadersContent(hs: HeaderList, important: seq<string>)
    ensures LookupHeaders(hs, important).Ok? ==>
      forall name :: name in LookupHeaders(hs, important).value <==>
        name in important && Lookup(hs, name).Some? && Lookup(hs, name).value != ""
    ensures LookupHeaders(hs, important).Ok? ==>
      forall name :: name in LookupHeaders(hs, important).value ==> Lookup(hs, name) == Some(LookupHeaders(hs, important).value[name])
    decreases |important|
  {
    if |important| > 0 {
      var front := important[..|important| - 1];
      LookupHeadersContent(hs, front);
      assert important == front + [important[|important| - 1]];
    }
  }

  /** Differently cased header names build the same lookup headers. */
  lemma {:induction false} ReCasedLookupHeaders(h1: HeaderList, h2: HeaderList, important: seq<string>)
    requires ReCased(h1, h2)
    ensures LookupHeaders(h1, important) == LookupHeaders(h2, important)
    decreases |important|
  {
    if |important| > 0 {
      ReCasedLookupHeaders(h1, h2, important[..|important| - 1]);
      ReCasedValues(h1, h2, important[|important| - 1]);
    }
  }

  /** Once a prefix of the names fails, the whole build fails the same way. */
  lemma {:induction false} LookupHeadersFailed(hs: HeaderList, important: seq<string>, n: int)
    requires 0 <= n <= |important| && LookupHeaders(hs, important[..n]).Err?
    ensures LookupHeaders(hs, important) == LookupHeaders(hs, important[..n])
    decreases |important|
  {
    if n < |important| {
      var front := important[..|important| - 1];
      assert front[..n] == important[..n];
      LookupHeadersFailed(hs, front, n);
    } else {
      assert important[..n] == important;
    }
  }

  /**
   * The header loop of LookupRequest: for each important name, in order, a
   * non-null non-empty header is added to the request's dictionary, and
   * adding a name already there fails.
   */
  method AddLookupHeaders(hs: HeaderList, important: seq<string>) returns (r: Result<map<string, string>, Failure>)
    ensures r == LookupHeaders(hs, important)
  {
    var m: map<string, string> := map[];
    for i := 0 to |important|
      invariant LookupHeaders(hs, important[..i]) == Ok(m)
    {
      assert important[..i + 1][..i] == important[..i];
      var name := important[i];
      var header := Lookup(hs, name);
      if header.Some? && header.value != "" {
        if name in m {
          LookupHeadersFailed(hs, important, i + 1);
          return Err(DuplicateKey);
        }
        m := m[name := header.value];
      }
    }
    assert important[..|important|] == important;
    r := Ok(m);
  }

  /** No important name occurs twice. */
  predicate NoRepeats(s: seq<string>) {
    forall i, j :: 0 <= i < j < |s| ==> s[i] != s[j]
  }

  /** The build fails only when an important name repeats. */
  lemma {:induction false} LookupHeadersSucceed(hs: HeaderList, important: seq<string>)
    requires NoRepeats(important)
    ensures LookupHeaders(hs, important).Ok?
    decreases |important|
  {
    if |important| > 0 {
      var front := important[..|important| - 1];
      LookupHeadersSucceed(hs, front);
      LookupHeadersContent(hs, front);
    }
  }

  /** The only way the build fails is the duplicate-key `Add`. */
  lemma {:induction false} OnlyDuplicate(hs: HeaderList, important: seq<string>)
    ensures LookupHeaders(hs, important).Err? ==> LookupHeaders(hs, important) == Err(DuplicateKey)
    decreases |important|
  {
    if |important| > 0 {
      OnlyDuplicate(hs, important[..|important| - 1]);
    }
  }

  /** A name with a non-empty header listed at two positions makes the build fail. */
  lemma RepeatFails(hs: HeaderList, important: seq<string>, i: int, j: int)
    requires 0 <= i < j < |important| && important[i] == important[j]
    requires Lookup(hs, important[i]).Some? && Lookup(hs, important[i]).value != ""
    ensures LookupHeaders(hs, important) == Err(DuplicateKey)
  {
    var upto := important[..j + 1];
    assert upto[..|upto| - 1] == important[..j];
    OnlyDuplicate(hs, important[..j]);
    LookupHeadersContent(hs, important[..j]);
    assert important[..j][i] == important[i];
    assert LookupHeaders(hs, upto) == Err(DuplicateKey);
    LookupHeadersFailed(hs, important, j + 1);
  }

  /** Conversely, a failed build names an important name with a non-empty header twice. */
  lemma {:induction false} FailureRepeats(hs: HeaderList, important: seq<string>)
    requires LookupHeaders(hs, important).Err?
    ensures exists i, j :: && 0 <= i < j < |important| && important[i] == important[j]
                           && Lookup(hs, important[i]).Some? && Lookup(hs, important[i]).value != ""
    decreases |important|
  {
    var front := important[..|important| - 1];
    var last := |important| - 1;
    if LookupHeaders(hs, front).Err? {
      FailureRepeats(hs, front);
      var i, j :| && 0 <= i < j < |front| && front[i] == front[j]
                  && Lookup(hs, front[i]).Some? && Lookup(hs, front[i]).value != "";
      assert important[i] == front[i] && important[j] == front[j];
    } else {
      LookupHeadersContent(hs, front);
      var i :| 0 <= i < |front| && front[i] == important[last];
      assert important[i] == front[i];
    }
  }
}
