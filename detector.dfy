/** The overlap detector (`check_overbooking`): sort the intervals by start
    date, then walk the sorted list once and report each ADJACENT pair in
    which the later interval starts strictly before the earlier one ends.
    Pairs that are not neighbours after sorting are never compared. */
module Detector {
  import opened Dates
  import opened Feed
  import opened Sorting

  /** A reported conflict: (earlier interval, next interval) in sorted order. */
  type Conflict = (Interval, Interval)

  /** The detector's test on a neighbouring pair: `b` begins strictly before
      `a` ends. A booking that starts on the day the previous one ends does
      not pass it. */
  predicate StartsBeforeEnd(a: Interval, b: Interval) {
    Before(b.start, a.end)
  }

  /** The conflicts found after comparing the first `n` neighbouring pairs
      (s[0], s[1]) .. (s[n-1], s[n]), in the order they were found. */
  function ConflictsUpTo(s: seq<Interval>, n: nat): (cs: seq<Conflict>)
    requires n == 0 || n < |s|
    ensures |cs| <= n
    decreases n
  {
    if n == 0 then []
    else ConflictsUpTo(s, n - 1) + (if StartsBeforeEnd(s[n - 1], s[n]) then [(s[n - 1], s[n])] else [])
  }

  /** The positions `i` of those conflicts: the pair (s[i], s[i+1]) was reported. */
  function PositionsUpTo(s: seq<Interval>, n: nat): (ps: seq<nat>)
    requires n == 0 || n < |s|
    decreases n
  {
    if n == 0 then []
    else PositionsUpTo(s, n - 1) + (if StartsBeforeEnd(s[n - 1], s[n]) then [n - 1] else [])
  }

  /** Number of neighbouring pairs the scan compares: `range(len(s) - 1)`. */
  function PairCount(s: seq<Interval>): (n: nat)
    ensures n == 0 || n < |s|
    ensures |s| >= 1 ==> n + 1 == |s|
  {
    if |s| == 0 then 0 else |s| - 1
  }

  /** Everything the scan reports on the (already sorted) sequence `s`. */
  function Conflicts(s: seq<Interval>): seq<Conflict> {
    ConflictsUpTo(s, PairCount(s))
  }

  function Positions(s: seq<Interval>): seq<nat> {
    PositionsUpTo(s, PairCount(s))
  }

  /** `check_overbooking`: a stable sort by start, then one scan over the
      neighbouring pairs, appending each one that overlaps. */
  method CheckOverbooking(events: seq<Interval>) returns (conflicts: seq<Conflict>)
    ensures conflicts == Conflicts(SortByStart(events))
  {
    conflicts := [];
    var sorted := SortByStart(events);
    var i := 0;
    while i < |sorted| - 1
      invariant 0 <= i <= PairCount(sorted)
      invariant conflicts == ConflictsUpTo(sorted, i)
    {
      var a := sorted[i];
      var b := sorted[i + 1];
      if Before(b.start, a.end) {
        conflicts := conflicts + [(a, b)];
      }
      i := i + 1;
    }
  }

  /** The k-th conflict found is the pair at the k-th recorded position. */
  lemma {:induction false} ScanPairs(s: seq<Interval>, n: nat)
    requires n == 0 || n < |s|
    ensures var cs, ps := ConflictsUpTo(s, n), PositionsUpTo(s, n);
      |cs| == |ps|
      && forall k :: 0 <= k < |ps| ==> ps[k] < n && cs[k] == (s[ps[k]], s[ps[k] + 1])
    decreases n
  {
    if n > 0 {
      ScanPairs(s, n - 1);
    }
  }

  /** Positions are recorded in strictly increasing order, so conflicts are
      reported in scan order and never twice for the same pair. */
  lemma {:induction false} ScanInOrder(s: seq<Interval>, n: nat)
    requires n == 0 || n < |s|
    ensures forall k :: 0 <= k < |PositionsUpTo(s, n)| ==> PositionsUpTo(s, n)[k] < n
    ensures forall k1, k2 :: 0 <= k1 < k2 < |PositionsUpTo(s, n)| ==>
      PositionsUpTo(s, n)[k1] < PositionsUpTo(s, n)[k2]
    decreases n
  {
    if n > 0 {
      ScanInOrder(s, n - 1);
      var ps0 := PositionsUpTo(s, n - 1);
      var ps := PositionsUpTo(s, n);
      assert ps == ps0 + (if StartsBeforeEnd(s[n - 1], s[n]) then [n - 1] else []);
      assert forall k :: 0 <= k < |ps0| ==> ps[k] == ps0[k];
    }
  }

  /** A position is recorded if and only if its pair passes the strict test. */
  lemma {:induction false} ScanExact(s: seq<Interval>, n: nat)
    requires n == 0 || n < |s|
    ensures forall i :: 0 <= i < n ==> (i in PositionsUpTo(s, n) <==> StartsBeforeEnd(s[i], s[i + 1]))
    decreases n
  {
    if n > 0 {
      ScanExact(s, n - 1);
      ScanInOrder(s, n - 1);
      var ps0 := PositionsUpTo(s, n - 1);
      assert n - 1 !in ps0;
      var ps := PositionsUpTo(s, n);
      assert ps == ps0 + (if StartsBeforeEnd(s[n - 1], s[n]) then [n - 1] else []);
    }
  }

  /** The same, for the whole scan `for i in range(len(s) - 1)`. */
  lemma ConflictsCharacterised(s: seq<Interval>)
    ensures |Conflicts(s)| == |Positions(s)|
    ensures forall k :: 0 <= k < |Positions(s)| ==>
      Positions(s)[k] + 1 < |s| && Conflicts(s)[k] == (s[Positions(s)[k]], s[Positions(s)[k] + 1])
    ensures forall k1, k2 :: 0 <= k1 < k2 < |Positions(s)| ==> Positions(s)[k1] < Positions(s)[k2]
    ensures forall i :: 0 <= i && i + 1 < |s| ==> (i in Positions(s) <==> StartsBeforeEnd(s[i], s[i + 1]))
  {
    ScanPairs(s, PairCount(s));
    ScanInOrder(s, PairCount(s));
    ScanExact(s, PairCount(s));
  }

  /** No input of fewer than two intervals has a conflict, and no input of
      `n` intervals has more than `n - 1`. */
  lemma ConflictsBound(s: seq<Interval>)
    ensures |s| <= 1 ==> Conflicts(s) == []
    ensures |Conflicts(s)| <= PairCount(s)
  {
  }

  /** Back-to-back bookings: a neighbour that starts on (or after) the day the
      previous booking ends is never reported. */
  lemma BackToBackNotReported(s: seq<Interval>, i: nat)
    requires i + 1 < |s|
    requires NotAfter(s[i].end, s[i + 1].start)
    ensures i !in Positions(s)
    ensures forall k :: 0 <= k < |Positions(s)| ==> Positions(s)[k] != i
  {
    ConflictsCharacterised(s);
  }

  /** Every reported conflict strictly overlaps in the detector's sense; in
      particular its second interval never starts exactly on the first one's
      end day. */
  lemma ReportedPairsStrictlyOverlap(s: seq<Interval>)
    ensures forall c :: c in Conflicts(s) ==> Before(c.1.start, c.0.end) && c.1.start != c.0.end
  {
    ConflictsCharacterised(s);
    forall c | c in Conflicts(s) ensures Before(c.1.start, c.0.end) && c.1.start != c.0.end {
      var k :| 0 <= k < |Conflicts(s)| && Conflicts(s)[k] == c;
      BeforeIrreflexive(c.1.start);
    }
  }

  /** Both intervals of every conflict come from the detector's input: the
      sort only rearranges, it neither invents nor alters intervals. */
  lemma ConflictMembersFromInput(events: seq<Interval>)
    ensures forall c :: c in Conflicts(SortByStart(events)) ==> c.0 in events && c.1 in events
  {
    var s := SortByStart(events);
    ScanPairs(s, PairCount(s));
    forall c | c in Conflicts(s) ensures c.0 in events && c.1 in events {
      var k :| 0 <= k < |Conflicts(s)| && Conflicts(s)[k] == c;
      var p := Positions(s)[k];
      SortedFromInput(events, p);
      SortedFromInput(events, p + 1);
    }
  }

  /** Every entry of the sorted list is an entry of the input. */
  lemma SortedFromInput(events: seq<Interval>, p: nat)
    requires p < |SortByStart(events)|
    ensures SortByStart(events)[p] in events
  {
    var s := SortByStart(events);
    assert s[p] in multiset(s);
  }

  /** Two bookings overlap as half-open day ranges [start, end). */
  predicate Overlap(a: Interval, b: Interval) {
    Before(a.start, b.end) && Before(b.start, a.end)
  }

  /** Two different entries of the list overlap. */
  ghost predicate SomeOverlap(events: seq<Interval>) {
    exists i, j :: 0 <= i < |events| && 0 <= j < |events| && i != j && Overlap(events[i], events[j])
  }

  /** A booking that ends after it starts. */
  predicate WellFormed(iv: Interval) {
    Before(iv.start, iv.end)
  }

  lemma PairInMultiset(s: seq<Interval>, i: nat, j: nat)
    requires i < j < |s|
    ensures multiset{s[i], s[j]} <= multiset(s)
  {
    assert s == s[..i] + [s[i]] + s[i + 1..j] + [s[j]] + s[j + 1..];
  }

  lemma TwoPositions(s: seq<Interval>, x: Interval, y: Interval) returns (i: nat, j: nat)
    requires multiset{x, y} <= multiset(s)
    ensures i < |s| && j < |s| && i != j && s[i] == x && s[j] == y
  {
    assert x in multiset(s);
    i :| i < |s| && s[i] == x;
    var t := s[..i] + s[i + 1..];
    assert s == s[..i] + [x] + s[i + 1..];
    assert multiset(t) == multiset(s) - multiset{x};
    assert y in multiset(t);
    var j': nat :| j' < |t| && t[j'] == y;
    j := if j' < i then j' else j' + 1;
  }

  /** In a sorted list, if some later interval starts before an earlier one
      ends, so does the earlier one's immediate successor: the scan reports
      something. */
  lemma LaterOverlapReachesNeighbour(s: seq<Interval>, a: nat, b: nat)
    requires SortedByStart(s)
    requires a < b < |s|
    requires Before(s[b].start, s[a].end)
    ensures a in Positions(s)
    ensures Conflicts(s) != []
  {
    assert NotAfter(s[a + 1].start, s[b].start);
    NotAfterBeforeTransitive(s[a + 1].start, s[b].start, s[a].end);
    ScanExact(s, PairCount(s));
    ScanPairs(s, PairCount(s));
  }

  /** Completeness of the overbooking verdict: whenever two entries of the
      combined list overlap, the scan reports at least one conflict, even
      though it compares neighbours only. */
  lemma OverlapAlwaysFlagged(events: seq<Interval>)
    requires SomeOverlap(events)
    ensures Conflicts(SortByStart(events)) != []
  {
    var s := SortByStart(events);
    var i, j :| 0 <= i < |events| && 0 <= j < |events| && i != j && Overlap(events[i], events[j]);
    var lo, hi := if i < j then i else j, if i < j then j else i;
    PairInMultiset(events, lo, hi);
    var p, q := TwoPositions(s, events[lo], events[hi]);
    if p < q {
      LaterOverlapReachesNeighbour(s, p, q);
    } else {
      LaterOverlapReachesNeighbour(s, q, p);
    }
  }

  /** Soundness of the verdict, for bookings that end after they start: a
      reported conflict is a genuine overlap between two entries. */
  lemma FlaggedMeansOverlap(events: seq<Interval>)
    requires forall e :: e in events ==> WellFormed(e)
    requires Conflicts(SortByStart(events)) != []
    ensures SomeOverlap(events)
  {
    var s := SortByStart(events);
    ScanPairs(s, PairCount(s));
    ScanExact(s, PairCount(s));
    var p := Positions(s)[0];
    assert p in Positions(s);
    assert StartsBeforeEnd(s[p], s[p + 1]);
    SortedFromInput(events, p + 1);
    assert NotAfter(s[p].start, s[p + 1].start);
    NotAfterBeforeTransitive(s[p].start, s[p + 1].start, s[p + 1].end);
    PairInMultiset(s, p, p + 1);
    var i, j := TwoPositions(events, s[p], s[p + 1]);
    assert Overlap(events[i], events[j]);
  }

  /** The overbooking verdict (`conflicts` non-empty) is exact for bookings
      that end after they start, although the conflict LIST is not. */
  lemma FlagIffOverlap(events: seq<Interval>)
    requires forall e :: e in events ==> WellFormed(e)
    ensures Conflicts(SortByStart(events)) != [] <==> SomeOverlap(events)
  {
    if SomeOverlap(events) {
      OverlapAlwaysFlagged(events);
    }
    if Conflicts(SortByStart(events)) != [] {
      FlaggedMeansOverlap(events);
    }
  }

  /** The list is not exhaustive: one long booking containing two shorter,
      disjoint ones overlaps both, but only its overlap with its sorted
      neighbour is reported. */
  lemma NonAdjacentOverlapMissed()
    ensures var long := Interval(Date(2025, 1, 1), Date(2025, 1, 31), "Booking");
      var first := Interval(Date(2025, 1, 5), Date(2025, 1, 10), "Airbnb");
      var second := Interval(Date(2025, 1, 15), Date(2025, 1, 20), "Airbnb");
      var cs := Conflicts(SortByStart([long, first, second]));
      cs == [(long, first)] && Overlap(long, second) && (long, second) !in cs
  {
    var long := Interval(Date(2025, 1, 1), Date(2025, 1, 31), "Booking");
    var first := Interval(Date(2025, 1, 5), Date(2025, 1, 10), "Airbnb");
    var second := Interval(Date(2025, 1, 15), Date(2025, 1, 20), "Airbnb");
    assert SortByStart([second]) == [second];
    assert [long, first, second][1..] == [first, second];
    assert [first, second][1..] == [second];
    assert SortByStart([first, second]) == [first, second];
    var sorted := [long, first, second];
    assert SortByStart(sorted) == sorted;
    assert ConflictsUpTo(sorted, 1) == [(long, first)];
    assert ConflictsUpTo(sorted, 2) == [(long, first)];
    assert Conflicts(sorted) == [(long, first)];
  }

  /** The soundness half of the verdict needs bookings that end after they
      start: a timed event within one day normalises to an interval whose end
      equals its start, and one that starts on the same day as an earlier stay
      is reported although, as a half-open range, it overlaps nothing. */
  lemma SameDayEventReportedWithoutOverlap()
    ensures var stay := Interval(Date(2025, 11, 22), Date(2025, 11, 24), "Booking");
      var sameDay := Interval(Date(2025, 11, 22), Date(2025, 11, 22), "Airbnb");
      Conflicts(SortByStart([stay, sameDay])) == [(stay, sameDay)] && !SomeOverlap([stay, sameDay])
  {
    var stay := Interval(Date(2025, 11, 22), Date(2025, 11, 24), "Booking");
    var sameDay := Interval(Date(2025, 11, 22), Date(2025, 11, 22), "Airbnb");
    var s := [stay, sameDay];
    assert s[1..] == [sameDay];
    assert SortByStart([sameDay]) == [sameDay];
    assert SortByStart(s) == s;
    assert ConflictsUpTo(s, 1) == [(stay, sameDay)];
  }
}
