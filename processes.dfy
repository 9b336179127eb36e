/**
 * The top-processes block (collect_top_processes): a best-effort scan of the
 * process listing that skips processes which vanish or refuse access, then a
 * stable sort by CPU share, largest first, cut to the first `n` entries.
 */
module Processes {
  import opened Wrappers
  import opened Provider

  /** The sort key: the CPU share, or 0 when it is missing. */
  function Key(p: ProcessInfo): real
  {
    match p.cpuPercent
    case Some(v) => v
    case None => 0.0
  }

  /** The errors the scan catches for a single process. */
  predicate Skippable(e: ProviderError)
  {
    e == NoSuchProcess || e == AccessDenied
  }

  /** A read whose error the scan does not catch, and which therefore ends it. */
  predicate Escapes(read: Result<ProcessInfo, ProviderError>)
  {
    read.Failure? && !Skippable(read.error)
  }

  /** The entries of the successful reads, in listing order. */
  function Readable(listing: seq<Result<ProcessInfo, ProviderError>>): seq<ProcessInfo>
  {
    if listing == [] then []
    else
      var last := listing[|listing| - 1];
      Readable(listing[..|listing| - 1]) + (if last.Success? then [last.value] else [])
  }

  /** What the scan collects is exactly the successful reads. */
  lemma {:induction false} ReadableMembers(listing: seq<Result<ProcessInfo, ProviderError>>)
    ensures forall p :: p in Readable(listing) <==> Success(p) in listing
    ensures |Readable(listing)| <= |listing|
  {
    if listing != [] {
      var init := listing[..|listing| - 1];
      ReadableMembers(init);
      assert listing == init + [listing[|listing| - 1]];
    }
  }

  // ---- the sort ----

  predicate SortedDesc(s: seq<ProcessInfo>)
  {
    forall i, j :: 0 <= i < j < |s| ==> Key(s[i]) >= Key(s[j])
  }

  /** The entries of `s` whose key is `k`, in order. */
  function WithKey(s: seq<ProcessInfo>, k: real): seq<ProcessInfo>
  {
    if s == [] then [] else (if Key(s[0]) == k then [s[0]] else []) + WithKey(s[1..], k)
  }

  /** Puts `x` in front of the first entry whose key does not exceed its own. */
  function Insert(x: ProcessInfo, s: seq<ProcessInfo>): seq<ProcessInfo>
  {
    if s == [] || Key(x) >= Key(s[0]) then [x] + s else [s[0]] + Insert(x, s[1..])
  }

  /** Python's sorted(..., key=Key, reverse=True), as an insertion sort. */
  function SortByCpu(s: seq<ProcessInfo>): seq<ProcessInfo>
  {
    if s == [] then [] else Insert(s[0], SortByCpu(s[1..]))
  }

  /** Insertion adds exactly `x`. */
  lemma {:induction false} InsertPerm(x: ProcessInfo, s: seq<ProcessInfo>)
    ensures multiset(Insert(x, s)) == multiset{x} + multiset(s)
    ensures |Insert(x, s)| == |s| + 1
  {
    if s != [] && Key(x) < Key(s[0]) {
      InsertPerm(x, s[1..]);
      assert s == [s[0]] + s[1..];
    }
  }

  /** Insertion into a non-increasing sequence keeps it non-increasing. */
  lemma {:induction false} InsertSorted(x: ProcessInfo, s: seq<ProcessInfo>)
    requires SortedDesc(s)
    ensures SortedDesc(Insert(x, s))
  {
    if s != [] && Key(x) < Key(s[0]) {
      var t := Insert(x, s[1..]);
      InsertSorted(x, s[1..]);
      assert t[0] == x || t[0] == s[1];
      var r := [s[0]] + t;
      forall i, j | 0 <= i < j < |r| ensures Key(r[i]) >= Key(r[j]) {
        if i == 0 {
          assert Key(t[0]) >= Key(t[j - 1]);
        } else {
          assert r[i] == t[i - 1] && r[j] == t[j - 1];
        }
      }
    }
  }

  /** The sort yields a non-increasing arrangement of the same entries. */
  lemma {:induction false} SortFacts(s: seq<ProcessInfo>)
    ensures SortedDesc(SortByCpu(s))
    ensures multiset(SortByCpu(s)) == multiset(s)
    ensures |SortByCpu(s)| == |s|
  {
    if s != [] {
      SortFacts(s[1..]);
      InsertPerm(s[0], SortByCpu(s[1..]));
      InsertSorted(s[0], SortByCpu(s[1..]));
      assert s == [s[0]] + s[1..];
    }
  }

  lemma {:induction false} InsertWithKey(x: ProcessInfo, s: seq<ProcessInfo>, k: real)
    ensures WithKey(Insert(x, s), k) == (if Key(x) == k then [x] else []) + WithKey(s, k)
  {
    var own := if Key(x) == k then [x] else [];
    if s == [] || Key(x) >= Key(s[0]) {
      var t := [x] + s;
      assert t[0] == x && t[1..] == s;
      assert WithKey(t, k) == own + WithKey(s, k);
    } else {
      var t := [s[0]] + Insert(x, s[1..]);
      var head := if Key(s[0]) == k then [s[0]] else [];
      assert t[0] == s[0] && t[1..] == Insert(x, s[1..]);
      assert WithKey(t, k) == head + WithKey(Insert(x, s[1..]), k);
      InsertWithKey(x, s[1..], k);
      assert WithKey(s, k) == head + WithKey(s[1..], k);
      assert own == [] || head == [];
    }
  }

  /** The sort is stable: entries with equal keys keep their listing order. */
  lemma {:induction false} SortStable(s: seq<ProcessInfo>, k: real)
    ensures WithKey(SortByCpu(s), k) == WithKey(s, k)
  {
    if s != [] {
      SortStable(s[1..], k);
      InsertWithKey(s[0], SortByCpu(s[1..]), k);
    }
  }

  lemma {:induction false} WithKeyConcat(a: seq<ProcessInfo>, b: seq<ProcessInfo>, k: real)
    ensures WithKey(a + b, k) == WithKey(a, k) + WithKey(b, k)
  {
    if a != [] {
      assert (a + b)[0] == a[0] && (a + b)[1..] == a[1..] + b;
      WithKeyConcat(a[1..], b, k);
    } else {
      assert a + b == b;
    }
  }

  // ---- the cut ----

  /** Python's slice s[:n]: the first n entries, or, for negative n, all but the last -n. */
  function Head(s: seq<ProcessInfo>, n: int): (r: seq<ProcessInfo>)
    ensures |r| <= |s| && r == s[..|r|]
    ensures n >= 0 ==> |r| == if n < |s| then n else |s|
    ensures n < 0 ==> |r| == if |s| + n > 0 then |s| + n else 0
  {
    if n >= 0 then (if n < |s| then s[..n] else s)
    else (if |s| + n > 0 then s[..|s| + n] else [])
  }

  /** The top-processes block for the collected entries `procs`. */
  function TopN(procs: seq<ProcessInfo>, n: int): seq<ProcessInfo>
  {
    Head(SortByCpu(procs), n)
  }

  /** The block holds min(n, |procs|) entries for n >= 0, in non-increasing key order. */
  lemma TopNShape(procs: seq<ProcessInfo>, n: int)
    ensures n >= 0 ==> |TopN(procs, n)| == if n < |procs| then n else |procs|
    ensures SortedDesc(TopN(procs, n))
    ensures multiset(TopN(procs, n)) <= multiset(procs)
  {
    var sorted := SortByCpu(procs);
    SortFacts(procs);
    var r := TopN(procs, n);
    assert sorted == r + sorted[|r|..];
    assert multiset(sorted) == multiset(r) + multiset(sorted[|r|..]);
  }

  /** Every entry left out has a key no larger than any entry kept. */
  lemma TopNSelectsLargest(procs: seq<ProcessInfo>, n: int)
    ensures forall x, y :: x in TopN(procs, n) && y in multiset(procs) - multiset(TopN(procs, n)) ==> Key(x) >= Key(y)
  {
    var sorted := SortByCpu(procs);
    SortFacts(procs);
    var r := TopN(procs, n);
    var rest := sorted[|r|..];
    assert sorted == r + rest;
    assert multiset(sorted) == multiset(r) + multiset(rest);
    forall x, y | x in r && y in multiset(procs) - multiset(r) ensures Key(x) >= Key(y) {
      assert y in multiset(rest);
      var i :| 0 <= i < |r| && r[i] == x;
      var j :| 0 <= j < |rest| && rest[j] == y;
      assert sorted[i] == x && sorted[|r| + j] == y;
    }
  }

  /** Entries of equal key appear in listing order: for every key, the kept
      entries with that key are the first ones of the listing with that key. */
  lemma TopNStable(procs: seq<ProcessInfo>, n: int, k: real)
    ensures var kept := WithKey(TopN(procs, n), k);
            |kept| <= |WithKey(procs, k)| && kept == WithKey(procs, k)[..|kept|]
  {
    var sorted := SortByCpu(procs);
    var r := TopN(procs, n);
    assert sorted == r + sorted[|r|..];
    WithKeyConcat(r, sorted[|r|..], k);
    SortStable(procs, k);
  }

  /** Every entry of the block came from a successful read of the listing. */
  lemma TopNFromReads(listing: seq<Result<ProcessInfo, ProviderError>>, n: int)
    ensures forall p :: p in TopN(Readable(listing), n) ==> Success(p) in listing
  {
    var procs := Readable(listing);
    TopNShape(procs, n);
    ReadableMembers(listing);
    forall p | p in TopN(procs, n) ensures Success(p) in listing {
      assert p in multiset(TopN(procs, n));
      assert p in multiset(procs);
    }
  }

  /** A read that failed with a caught error contributes nothing: the listing
      without it collects the same entries. */
  lemma {:induction false} ReadableSkipsCaught(before: seq<Result<ProcessInfo, ProviderError>>,
                                               e: ProviderError,
                                               after: seq<Result<ProcessInfo, ProviderError>>)
    ensures Readable(before + [Failure(e)] + after) == Readable(before + after)
  {
    if after == [] {
      var l := before + [Failure(e)] + after;
      assert l == before + [Failure(e)] && l[..|l| - 1] == before;
      assert before + after == before;
    } else {
      var init := after[..|after| - 1];
      var last := after[|after| - 1];
      ReadableSkipsCaught(before, e, init);
      assert (before + [Failure(e)] + after)[..|before| + 1 + |init|] == before + [Failure(e)] + init;
      assert (before + after)[..|before| + |init|] == before + init;
    }
  }

  /** The first error of the listing that the scan does not catch. */
  function FirstEscape(listing: seq<Result<ProcessInfo, ProviderError>>): Option<ProviderError>
  {
    if listing == [] then None
    else if Escapes(listing[0]) then Some(listing[0].error)
    else FirstEscape(listing[1..])
  }

  lemma {:induction false} FirstEscapeFacts(listing: seq<Result<ProcessInfo, ProviderError>>)
    ensures FirstEscape(listing).None? <==> forall i :: 0 <= i < |listing| ==> !Escapes(listing[i])
    ensures FirstEscape(listing).Some? ==>
              exists i :: 0 <= i < |listing| && Escapes(listing[i]) && listing[i].error == FirstEscape(listing).value
                          && forall j :: 0 <= j < i ==> !Escapes(listing[j])
  {
    if listing != [] && !Escapes(listing[0]) {
      var tail := listing[1..];
      FirstEscapeFacts(tail);
      assert forall i :: 1 <= i < |listing| ==> listing[i] == tail[i - 1];
      if FirstEscape(tail).Some? {
        var i :| 0 <= i < |tail| && Escapes(tail[i]) && tail[i].error == FirstEscape(tail).value
                 && forall j :: 0 <= j < i ==> !Escapes(tail[j]);
        assert listing[i + 1] == tail[i];
      }
    }
  }

  /** An uncaught error preceded only by reads the scan gets past is the first one. */
  lemma {:induction false} FirstEscapeAt(listing: seq<Result<ProcessInfo, ProviderError>>, i: nat)
    requires i < |listing| && Escapes(listing[i])
    requires forall j :: 0 <= j < i ==> !Escapes(listing[j])
    ensures FirstEscape(listing) == Some(listing[i].error)
  {
    if i > 0 {
      FirstEscapeAt(listing[1..], i - 1);
    }
  }

  // ---- the scan ----

  /** collect_top_processes: reads the listing one process at a time, skipping
      processes that vanished or refused access; any other error ends the scan
      and is raised; otherwise the collected entries are sorted and cut. */
  method CollectTopProcesses(listing: seq<Result<ProcessInfo, ProviderError>>, n: int)
    returns (r: Result<seq<ProcessInfo>, ProviderError>)
    ensures r.Success? <==> forall i :: 0 <= i < |listing| ==> !Escapes(listing[i])
    ensures r.Success? ==> r.value == TopN(Readable(listing), n)
    ensures r.Failure? ==> exists i :: 0 <= i < |listing| && Escapes(listing[i]) && listing[i].error == r.error
                                       && forall j :: 0 <= j < i ==> !Escapes(listing[j])
  {
    var procs: seq<ProcessInfo> := [];
    var i := 0;
    while i < |listing|
      invariant 0 <= i <= |listing|
      invariant procs == Readable(listing[..i])
      invariant forall j :: 0 <= j < i ==> !Escapes(listing[j])
    {
      var read := listing[i];
      assert listing[..i + 1][..i] == listing[..i];
      if read.Success? {
        procs := procs + [read.value];
      } else if !Skippable(read.error) {
        return Failure(read.error);
      }
      i := i + 1;
    }
    assert listing[..i] == listing;
    r := Success(TopN(procs, n));
  }
}
