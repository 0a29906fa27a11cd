/** The ordering step of the detector: `sorted(events, key=lambda x: x["start"])`.
    Python's `sorted` is a stable sort, so the result is pinned down exactly:
    intervals in non-decreasing order of start date, and intervals that start
    on the same day in the order they had in the input. SortByStart computes
    that arrangement (by insertion); the lemmas below show that it has both
    properties, that it is a permutation of its input, and that it is the
    only arrangement with both properties. */
module Sorting {
  import opened Dates
  import opened Feed

  /** Non-decreasing by start date. */
  predicate SortedByStart(s: seq<Interval>) {
    forall i, j :: 0 <= i < j < |s| ==> NotAfter(s[i].start, s[j].start)
  }

  /** The intervals of `s` that start on day `k`, in their order in `s`. */
  function StartingOn(s: seq<Interval>, k: Date): (r: seq<Interval>)
    decreases |s|
  {
    if s == [] then []
    else (if s[0].start == k then [s[0]] else []) + StartingOn(s[1..], k)
  }

  /** `r` is what a stable sort by start date makes of `s`. */
  ghost predicate StableSortOf(r: seq<Interval>, s: seq<Interval>) {
    SortedByStart(r) && forall k :: StartingOn(r, k) == StartingOn(s, k)
  }

  /** Places `x` in front of the first interval that does not start strictly
      before it, so `x` goes ahead of the intervals that share its start. */
  function Insert(x: Interval, s: seq<Interval>): (r: seq<Interval>)
    ensures multiset(r) == multiset(s) + multiset{x}
    ensures SortedByStart(s) ==> SortedByStart(r)
    decreases |s|
  {
    if s == [] then [x]
    else if Before(s[0].start, x.start) then
      var rest := Insert(x, s[1..]);
      assert s == [s[0]] + s[1..];
      assert SortedByStart(s) ==> SortedByStart([s[0]] + rest) by {
        if SortedByStart(s) {
          forall y | y in rest ensures NotAfter(s[0].start, y.start) {
            assert y in multiset(rest);
            if y != x {
              var j :| 0 <= j < |s[1..]| && s[1..][j] == y;
              assert s[j + 1] == y;
            }
          }
          SortedCons(s[0], rest);
        }
      }
      [s[0]] + rest
    else
      assert SortedByStart(s) ==> SortedByStart([x] + s) by {
        if SortedByStart(s) {
          forall y | y in s ensures NotAfter(x.start, y.start) {
            var j :| 0 <= j < |s| && s[j] == y;
            NotAfterTransitive(x.start, s[0].start, y.start);
          }
          SortedCons(x, s);
        }
      }
      [x] + s
  }

  /** An interval that starts no later than every interval of a sorted
      sequence can go in front of it. */
  lemma SortedCons(h: Interval, t: seq<Interval>)
    requires SortedByStart(t)
    requires forall y :: y in t ==> NotAfter(h.start, y.start)
    ensures SortedByStart([h] + t)
  {
    var r := [h] + t;
    forall i, j | 0 <= i < j < |r| ensures NotAfter(r[i].start, r[j].start) {
      assert r[j] == t[j - 1];
      if i > 0 {
        assert r[i] == t[i - 1];
      }
    }
  }

  /** `sorted(events, key=start)`: a new list, the input is left untouched.
      The result is ordered by start and holds exactly the input's intervals. */
  function SortByStart(s: seq<Interval>): (r: seq<Interval>)
    ensures SortedByStart(r)
    ensures multiset(r) == multiset(s)
    ensures |r| == |s|
    decreases |s|
  {
    if s == [] then []
    else
      assert s == [s[0]] + s[1..];
      Insert(s[0], SortByStart(s[1..]))
  }

  lemma {:induction false} InsertStartingOn(x: Interval, s: seq<Interval>, k: Date)
    ensures StartingOn(Insert(x, s), k) == (if x.start == k then [x] else []) + StartingOn(s, k)
    decreases |s|
  {
    if s == [] {
      assert StartingOn([x], k) == (if x.start == k then [x] else []) + StartingOn([], k);
    } else if Before(s[0].start, x.start) {
      var rest := Insert(x, s[1..]);
      assert ([s[0]] + rest)[1..] == rest;
      InsertStartingOn(x, s[1..], k);
      BeforeIrreflexive(x.start);
    } else {
      assert ([x] + s)[1..] == s;
    }
  }

  /** Stability: for every start date, the intervals starting on it keep
      their relative input order. */
  lemma {:induction false} SortByStartStable(s: seq<Interval>)
    ensures StableSortOf(SortByStart(s), s)
    decreases |s|
  {
    if s != [] {
      SortByStartStable(s[1..]);
      forall k ensures StartingOn(SortByStart(s), k) == StartingOn(s, k) {
        InsertStartingOn(s[0], SortByStart(s[1..]), k);
      }
    }
  }

  lemma {:induction false} StartingOnMembers(s: seq<Interval>, k: Date)
    ensures forall y :: y in StartingOn(s, k) ==> y in s && y.start == k
    decreases |s|
  {
    if s != [] {
      StartingOnMembers(s[1..], k);
    }
  }

  /** A sorted sequence whose first interval starts on `k` lists that
      interval first among those starting on `k`. */
  lemma StartingOnHead(s: seq<Interval>)
    requires s != []
    ensures StartingOn(s, s[0].start) == [s[0]] + StartingOn(s[1..], s[0].start)
  {
  }

  /** Two arrangements that are both sorted by start and agree, day by day,
      on the order of the intervals starting that day are the same sequence. */
  lemma {:induction false} StableSortUnique(a: seq<Interval>, b: seq<Interval>)
    requires SortedByStart(a) && SortedByStart(b)
    requires forall k :: StartingOn(a, k) == StartingOn(b, k)
    ensures a == b
    decreases |a|
  {
    if a == [] || b == [] {
      if a != [] {
        StartingOnHead(a);
      }
      if b != [] {
        StartingOnHead(b);
      }
    } else {
      var ka, kb := a[0].start, b[0].start;
      StartingOnHead(a);
      StartingOnHead(b);
      StartingOnMembers(b, ka);
      StartingOnMembers(a, kb);
      var y :| y in StartingOn(b, ka) && y == StartingOn(b, ka)[0];
      assert y in b;
      var z :| z in StartingOn(a, kb) && z == StartingOn(a, kb)[0];
      assert z in a;
      assert NotAfter(kb, ka);
      assert NotAfter(ka, kb);
      BeforeTotal(ka, kb);
      assert a[0] == b[0];
      forall k ensures StartingOn(a[1..], k) == StartingOn(b[1..], k) {
        var pre := if a[0].start == k then [a[0]] else [];
        assert StartingOn(a, k) == pre + StartingOn(a[1..], k);
        assert StartingOn(b, k) == pre + StartingOn(b[1..], k);
        assert (pre + StartingOn(a[1..], k))[|pre|..] == StartingOn(a[1..], k);
        assert (pre + StartingOn(b[1..], k))[|pre|..] == StartingOn(b[1..], k);
      }
      StableSortUnique(a[1..], b[1..]);
      assert a == [a[0]] + a[1..];
      assert b == [b[0]] + b[1..];
    }
  }

  /** `sorted` is fully determined: any stable sort by start of `s` is SortByStart(s). */
  lemma SortByStartIsTheStableSort(s: seq<Interval>, r: seq<Interval>)
    requires StableSortOf(r, s)
    ensures r == SortByStart(s)
  {
    SortByStartStable(s);
    StableSortUnique(r, SortByStart(s));
  }
}
