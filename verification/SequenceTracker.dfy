/**
 Vendor sequence numbers, classified per (source, stream).

 The tracker keeps a running maximum, a bounded deque and a count map per stream. It is proved to
 agree with `Classify`, which looks at the whole history of the stream; the laws about gaps and
 late arrivals are then proved about that history.
 */
module VendorHistory {
  import opened Numbers
  import opened Wrappers

  datatype Status = First | InOrder | Gap | Duplicate | Reordered

  datatype Observation = Observation(status: Status, expected: Option<nat>, missing: nat)

  // ------------------------------------------------------------ specification

  function Last(h: seq<nat>): nat
    requires h != []
  {
    h[|h| - 1]
  }

  function Init(h: seq<nat>): seq<nat>
    requires h != []
  {
    h[..|h| - 1]
  }

  function Highest(h: seq<nat>): nat
    requires h != []
  {
    if |h| == 1 then h[0]
    else
      var m := Highest(Init(h));
      if Last(h) > m then Last(h) else m
  }

  lemma {:induction false} HighestIsMaximum(h: seq<nat>)
    requires h != []
    ensures Highest(h) in h
    ensures forall x :: x in h ==> x <= Highest(h)
  {
    assert h == Init(h) + [Last(h)];
    if |h| > 1 {
      HighestIsMaximum(Init(h));
    }
  }

  /** The last `w` observations. */
  function LastWindow(h: seq<nat>, w: nat): seq<nat> {
    if |h| <= w then h else h[|h| - w..]
  }

  /** The status of `n` after the history `h` of its stream. */
  function Classify(h: seq<nat>, w: nat, n: nat): Observation {
    if h == [] then Observation(First, None, 0)
    else
      var next := Highest(h) + 1;
      if n in LastWindow(h, w) then Observation(Duplicate, Some(next), 0)
      else if n == next then Observation(InOrder, Some(next), 0)
      else if n > next then Observation(Gap, Some(next), n - next)
      else Observation(Reordered, Some(next), 0)
  }

  // ------------------------------------------------------------ what a report means

  /** `top` is the greatest number of the history. */
  ghost predicate IsGreatest(h: seq<nat>, top: nat) {
    top in h && forall x :: x in h ==> x <= top
  }

  /** `n` is one of the last `w` entries. */
  ghost predicate IsRecent(h: seq<nat>, w: nat, n: nat) {
    exists i :: 0 <= i < |h| && |h| - w <= i && h[i] == n
  }

  predicate Within(lo: int, x: int, hi: int) {
    lo < x < hi
  }

  /** The numbers strictly between two. */
  ghost function Between(lo: int, hi: int): set<int> {
    set x | lo < x < hi && Within(lo, x, hi)
  }

  lemma BetweenSize(lo: int, hi: int)
    requires lo < hi
    ensures |Between(lo, hi)| == hi - lo - 1
  {
    SpanIs(lo + 1, hi - lo - 1);
    assert Between(lo, hi) == Span(lo + 1, hi - lo - 1);
  }

  /** A report on `n` after the history `h`, in terms of the elements of `h`. */
  ghost predicate Reports(h: seq<nat>, w: nat, n: nat, o: Observation) {
    && (o.status == First <==> h == []) && (o.expected == None <==> h == [])
    && (h != [] ==>
          && (o.status == Duplicate <==> IsRecent(h, w, n))
          && (o.status == InOrder <==> n > 0 && n - 1 in h && forall x :: x in h ==> x < n)
          && (o.status == Gap <==> forall x :: x in h ==> x + 1 < n)
          && (o.status == Reordered <==> !IsRecent(h, w, n) && exists x :: x in h && n <= x)
          && o.expected.Some? && o.expected.value > 0 && IsGreatest(h, o.expected.value - 1)
          && (o.status == Gap ==> o.missing == |Between(o.expected.value - 1, n)|))
    && (o.status != Gap ==> o.missing == 0)
  }

  lemma RecentIff(h: seq<nat>, w: nat, n: nat)
    ensures n in LastWindow(h, w) <==> IsRecent(h, w, n)
  {
    if n in LastWindow(h, w) {
      var i :| 0 <= i < |LastWindow(h, w)| && LastWindow(h, w)[i] == n;
      assert h[if |h| <= w then i else |h| - w + i] == n;
    }
    if i :| 0 <= i < |h| && |h| - w <= i && h[i] == n {
      assert LastWindow(h, w)[if |h| <= w then i else i - (|h| - w)] == n;
    }
  }

  lemma ClassifyReports(h: seq<nat>, w: nat, n: nat)
    ensures Reports(h, w, n, Classify(h, w, n))
  {
    if h != [] {
      var top := Highest(h);
      RecentIff(h, w, n);
      HighestIsMaximum(h);
      assert (forall x :: x in h ==> x < n) <==> top < n;
      assert (forall x :: x in h ==> x + 1 < n) <==> top + 1 < n;
      assert n in LastWindow(h, w) ==> n <= top by {
        WindowIsRecent(h, w, n);
      }
      if top < n {
        BetweenSize(top, n);
      }
    }
  }

  // ------------------------------------------------------------ laws of one stream

  /** The status of the last observation of `h`. */
  function LastStatus(h: seq<nat>, w: nat): Observation
    requires h != []
  {
    Classify(Init(h), w, Last(h))
  }

  function CountStatus(h: seq<nat>, w: nat, s: Status): nat {
    if h == [] then 0 else CountStatus(Init(h), w, s) + if LastStatus(h, w).status == s then 1 else 0
  }

  /** The sum of all reported `missing_count`s. */
  function TotalMissing(h: seq<nat>, w: nat): nat {
    if h == [] then 0 else TotalMissing(Init(h), w) + LastStatus(h, w).missing
  }

  /** REORDERED reports above the first number of the stream. */
  function LateArrivals(h: seq<nat>, w: nat): nat {
    if h == [] then 0
    else LateArrivals(Init(h), w) + if LastStatus(h, w).status.Reordered? && Last(h) > h[0] then 1 else 0
  }

  /** Those of them whose number had been seen before, but had left the window. */
  function StaleRepeats(h: seq<nat>, w: nat): nat {
    if h == [] then 0
    else
      StaleRepeats(Init(h), w)
      + if LastStatus(h, w).status.Reordered? && Last(h) > h[0] && Last(h) in Init(h) then 1 else 0
  }

  /** How many numbers in [lo, hi) do not occur in `h`. */
  function Absent(lo: nat, hi: nat, h: seq<nat>): nat {
    if hi <= lo then 0 else Absent(lo, hi - 1, h) + if hi - 1 in h then 0 else 1
  }

  /** How many numbers between the first and the highest never arrived. */
  function Unseen(h: seq<nat>): nat
    requires h != []
  {
    Absent(h[0], Highest(h) + 1, h)
  }

  predicate InRange(lo: nat, x: nat, hi: nat) {
    lo <= x < hi
  }

  /** `Absent` is the size of the set its name promises. */
  lemma {:induction false} AbsentIsCardinality(lo: nat, hi: nat, h: seq<nat>)
    ensures |set x: nat | lo <= x < hi && InRange(lo, x, hi) && x !in h| == Absent(lo, hi, h)
  {
    var s := set x: nat | lo <= x < hi && InRange(lo, x, hi) && x !in h;
    if lo < hi {
      AbsentIsCardinality(lo, hi - 1, h);
      var t := set x: nat | lo <= x < hi - 1 && InRange(lo, x, hi - 1) && x !in h;
      if hi - 1 in h {
        assert s == t;
      } else {
        assert s == t + {hi - 1};
      }
    } else {
      assert s == {};
    }
  }

  lemma InitLast(h: seq<nat>)
    requires h != []
    ensures h == Init(h) + [Last(h)]
    ensures forall x :: x in h <==> x in Init(h) || x == Last(h)
  {
  }

  lemma WindowIsRecent(h: seq<nat>, w: nat, n: nat)
    ensures n in LastWindow(h, w) ==> n in h
    ensures |h| <= w ==> (n in LastWindow(h, w) <==> n in h)
  {
  }

  /** FIRST is reported for the first observation and for no other, whatever the window. */
  lemma FirstExactlyOnce(h: seq<nat>, w: nat)
    requires h != []
    ensures LastStatus(h, w).status == First <==> |h| == 1
  {
  }

  /** The head of the stream: `highest = first + #IN_ORDER + #GAP + sum of missing_count`, always. */
  lemma {:induction false} HighestIsAccounted(h: seq<nat>, w: nat)
    requires h != []
    ensures Highest(h) == h[0] + CountStatus(h, w, InOrder) + CountStatus(h, w, Gap) + TotalMissing(h, w)
  {
    InitLast(h);
    if |h| > 1 {
      HighestIsAccounted(Init(h), w);
      WindowIsRecent(Init(h), w, Last(h));
      HighestIsMaximum(Init(h));
    } else {
      assert Init(h) == [];
    }
  }

  lemma {:induction false} AbsentWithOneMore(lo: nat, hi: nat, h: seq<nat>, n: nat)
    ensures Absent(lo, hi, h + [n]) == Absent(lo, hi, h) - if lo <= n < hi && n !in h then 1 else 0
  {
    if lo < hi {
      AbsentWithOneMore(lo, hi - 1, h, n);
    }
  }

  lemma {:induction false} AbsentAboveAll(lo: nat, top: nat, hi: nat, h: seq<nat>)
    requires lo <= top + 1 <= hi && forall x :: x in h ==> x <= top
    ensures Absent(lo, hi, h) == Absent(lo, top + 1, h) + (hi - top - 1)
    decreases hi
  {
    if top + 1 < hi {
      AbsentAboveAll(lo, top, hi - 1, h);
    }
  }

  lemma StatusFacts(g: seq<nat>, w: nat, n: nat)
    requires g != []
    ensures var o := Classify(g, w, n);
            if n > Highest(g) then !o.status.Reordered? && o.missing == n - Highest(g) - 1
            else o.missing == 0 && (n !in g ==> o.status.Reordered?)
  {
    WindowIsRecent(g, w, n);
    HighestIsMaximum(g);
  }

  /** How the last observation changes the number of those that never arrived. */
  lemma UnseenStep(h: seq<nat>, w: nat)
    requires |h| > 1
    ensures var o := LastStatus(h, w);
            var fills := o.status.Reordered? && Last(h) > h[0] && Last(h) !in Init(h);
            Unseen(h) == Unseen(Init(h)) + o.missing - if fills then 1 else 0
  {
    var g, n := Init(h), Last(h);
    var top := Highest(g);
    StatusFacts(g, w, n);
    InitLast(h);
    HighestIsMaximum(g);
    assert g[0] == h[0] && g[0] in g;
    if n > top {
      AbsentAboveAll(h[0], top, n + 1, g);
      AbsentWithOneMore(h[0], n + 1, g, n);
    } else {
      AbsentWithOneMore(h[0], top + 1, g, n);
    }
  }

  lemma AccountStep(h: seq<nat>, w: nat)
    requires |h| > 1
    ensures var late := LastStatus(h, w).status.Reordered? && Last(h) > h[0];
            && LateArrivals(h, w) == LateArrivals(Init(h), w) + (if late then 1 else 0)
            && StaleRepeats(h, w) == StaleRepeats(Init(h), w) + (if late && Last(h) in Init(h) then 1 else 0)
            && TotalMissing(h, w) == TotalMissing(Init(h), w) + LastStatus(h, w).missing
  {
  }

  /**
   Conservation of gaps, for every history and window: what the GAP reports announced is what is
   still missing plus what late arrivals filled in. Only a repeat that has left the window counts
   as a late arrival without filling anything.
   */
  lemma {:induction false} GapsAreConserved(h: seq<nat>, w: nat)
    requires h != []
    ensures Unseen(h) + LateArrivals(h, w) == TotalMissing(h, w) + StaleRepeats(h, w)
  {
    if |h| == 1 {
      assert Init(h) == [] && h[0] in h;
      assert Absent(h[0], h[0] + 1, h) == Absent(h[0], h[0], h);
    } else {
      GapsAreConserved(Init(h), w);
      UnseenStep(h, w);
      AccountStep(h, w);
    }
  }

  /** If observation `j` repeats a number above the first, that number is still in the window. */
  predicate RecursWithin(h: seq<nat>, w: nat, j: nat)
    requires j < |h|
  {
    h[j] > h[0] && h[j] in h[..j] ==> h[j] in LastWindow(h[..j], w)
  }

  predicate RecursWithinWindow(h: seq<nat>, w: nat) {
    forall j :: 0 <= j < |h| ==> RecursWithin(h, w, j)
  }

  lemma RecurrenceStep(h: seq<nat>, w: nat)
    requires |h| > 1
    ensures RecursWithinWindow(h, w) <==> RecursWithinWindow(Init(h), w) && RecursWithin(h, w, |h| - 1)
  {
    var g := Init(h);
    forall j | 0 <= j < |g| ensures RecursWithin(h, w, j) <==> RecursWithin(g, w, j) {
      assert h[..j] == g[..j];
    }
  }

  /** Stale repeats in terms of the numbers alone: none if nothing recurs after leaving the window. */
  lemma {:induction false} NoStaleRepeatsIff(h: seq<nat>, w: nat)
    ensures StaleRepeats(h, w) == 0 <==> RecursWithinWindow(h, w)
  {
    if |h| > 1 {
      var g, n := Init(h), Last(h);
      NoStaleRepeatsIff(g, w);
      RecurrenceStep(h, w);
      assert h[..|h| - 1] == g;
      HighestIsMaximum(g);
      ReorderedMeans(g, w, n);
    } else if |h| == 1 {
      assert Init(h) == [];
    }
  }

  /**
   The reports alone give the number of missing events exactly when no number above the first
   recurred after leaving the window.
   */
  lemma ReportsGiveMissingIff(h: seq<nat>, w: nat)
    requires h != []
    ensures Unseen(h) == TotalMissing(h, w) - LateArrivals(h, w) <==> StaleRepeats(h, w) == 0
    ensures Unseen(h) == TotalMissing(h, w) - LateArrivals(h, w) <==> RecursWithinWindow(h, w)
  {
    GapsAreConserved(h, w);
    NoStaleRepeatsIff(h, w);
  }

  /** No stale repeat fits into the first `w + 2` observations. */
  lemma {:induction false} ShortHistoriesHaveNoStaleRepeats(h: seq<nat>, w: nat)
    requires |h| <= w + 2
    ensures StaleRepeats(h, w) == 0
  {
    if h != [] {
      var g, n := Init(h), Last(h);
      ShortHistoriesHaveNoStaleRepeats(g, w);
      if n in g && n > h[0] {
        var i :| 0 <= i < |g| && g[i] == n;
        assert g[i] in LastWindow(g, w) by {
          if |g| > w {
            assert LastWindow(g, w)[i - (|g| - w)] == g[i];
          }
        }
      }
    }
  }

  /** Up to `w + 2` observations, the reports give the number of missing events. */
  lemma ReportsGiveMissingWithinWindow(h: seq<nat>, w: nat)
    requires h != [] && |h| <= w + 2
    ensures Unseen(h) == TotalMissing(h, w) - LateArrivals(h, w)
  {
    ShortHistoriesHaveNoStaleRepeats(h, w);
    ReportsGiveMissingIff(h, w);
  }

  /** 0, 2, then `w` numbers that push the 2 out of the window, then the 2 again. */
  function StaleExample(w: nat): seq<nat> {
    [0, 2] + seq(w, i requires 0 <= i < w => 3 + i) + [2]
  }

  /** The bound is sharp: for every window there is a history of `w + 3` observations that breaks the count. */
  lemma WindowBoundIsSharp(w: nat)
    requires w > 0
    ensures |StaleExample(w)| == w + 3
    ensures Unseen(StaleExample(w)) != TotalMissing(StaleExample(w), w) - LateArrivals(StaleExample(w), w)
  {
    var h := StaleExample(w);
    var g := Init(h);
    assert g == [0, 2] + seq(w, i requires 0 <= i < w => 3 + i) && Last(h) == 2;
    assert g[1] == 2 && g[2] == 3;
    assert LastWindow(g, w) == seq(w, i requires 0 <= i < w => 3 + i);
    assert LastStatus(h, w).status == Reordered;
    ReportsGiveMissingIff(h, w);
  }

  /** What REORDERED means in the code: at or below the highest number and not in the window. */
  lemma ReorderedMeans(h: seq<nat>, w: nat, n: nat)
    requires h != []
    ensures Classify(h, w, n).status == Reordered <==> n <= Highest(h) && n !in LastWindow(h, w)
    ensures |h| <= w ==> (Classify(h, w, n).status == Reordered <==> n < Highest(h) && n !in h)
  {
    WindowIsRecent(h, w, n);
  }

  /** What the documentation says it means: unseen, and below the highest number. */
  ghost predicate ReorderedAsDocumented(h: seq<nat>, w: nat)
    requires h != []
  {
    forall n: nat :: Classify(h, w, n).status == Reordered <==> n !in h && n < Highest(h)
  }

  /** Every number of the history still has an occurrence in the window. */
  predicate WindowHoldsAll(h: seq<nat>, w: nat) {
    forall i :: 0 <= i < |h| ==> h[i] in LastWindow(h, w)
  }

  /** The next report is as documented exactly while no number of the history has left the window. */
  lemma ReorderedAsDocumentedIff(h: seq<nat>, w: nat)
    requires h != []
    ensures ReorderedAsDocumented(h, w) <==> WindowHoldsAll(h, w)
  {
    HighestIsMaximum(h);
    if WindowHoldsAll(h, w) {
      forall n: nat ensures Classify(h, w, n).status == Reordered <==> n !in h && n < Highest(h) {
        ReorderedMeans(h, w, n);
        WindowIsRecent(h, w, n);
        if n in h {
          var i :| 0 <= i < |h| && h[i] == n;
        }
      }
    } else {
      var i :| 0 <= i < |h| && h[i] !in LastWindow(h, w);
      ReorderedMeans(h, w, h[i]);
      assert h[i] in h;
    }
  }

  lemma HighestCanBeReordered()
    ensures Highest([5, 1, 2]) == 5 && Classify([5, 1, 2], 2, 5).status == Reordered
  {
    assert [5, 1, 2][..2] == [5, 1] && [5, 1][..1] == [5];
    assert LastWindow([5, 1, 2], 2) == [1, 2];
  }

  // ------------------------------------------------------------ many streams

  /** Streams are identified without regard to padding and case. */
  datatype Key = Key(source: string, stream: string)

  function Project(log: seq<(Key, nat)>, k: Key): seq<nat> {
    if log == [] then []
    else
      var e, before := log[|log| - 1], Project(log[..|log| - 1], k);
      if e.0 == k then before + [e.1] else before
  }

  lemma ProjectSnoc(log: seq<(Key, nat)>, e: (Key, nat), k: Key)
    ensures Project(log + [e], k) == if e.0 == k then Project(log, k) + [e.1] else Project(log, k)
  {
    assert (log + [e])[..|log|] == log;
  }
}

module SequenceTracking {
  import opened Wrappers
  import opened Text
  import opened VendorHistory

  datatype InputError = EmptySource | EmptyStream | NegativeSequence

  /** The count map of a deque: its elements with their multiplicities, all positive. */
  ghost predicate IsCountOf(counts: map<nat, nat>, recent: seq<nat>) {
    forall x: nat :: (x in counts <==> x in recent) && (x in counts ==> counts[x] == multiset(recent)[x])
  }

  lemma CountAppended(counts: map<nat, nat>, recent: seq<nat>, n: nat)
    requires IsCountOf(counts, recent)
    ensures IsCountOf(counts[n := (if n in counts then counts[n] else 0) + 1], recent + [n])
  {
  }

  lemma CountPopped(counts: map<nat, nat>, recent: seq<nat>)
    requires recent != [] && IsCountOf(counts, recent)
    ensures var removed := recent[0];
            && removed in counts && counts[removed] > 0
            && IsCountOf(if counts[removed] > 1 then counts[removed := counts[removed] - 1] else counts - {removed},
                         recent[1..])
  {
    assert recent == [recent[0]] + recent[1..];
  }

  lemma WindowSlides(h: seq<nat>, w: nat, n: nat)
    ensures LastWindow(LastWindow(h, w) + [n], w) == LastWindow(h + [n], w)
  {
  }

  class SequenceTracker {
    const duplicateWindow: nat
    var highest: map<Key, nat>
    var recent: map<Key, seq<nat>>
    var recentCounts: map<Key, map<nat, nat>>
    ghost var log: seq<(Key, nat)>   // every accepted observation, all streams interleaved

    /** The three indexes of stream `k` say exactly what its full history says. */
    ghost predicate Tracks(k: Key)
      reads this
    {
      var h := Project(log, k);
      && (k in highest <==> h != []) && (k in recent <==> h != []) && (k in recentCounts <==> h != [])
      && (h != [] ==>
            && highest[k] == Highest(h)
            && recent[k] == LastWindow(h, duplicateWindow)
            && IsCountOf(recentCounts[k], recent[k]))
    }

    ghost predicate Valid()
      reads this
    {
      duplicateWindow > 0 && forall k :: Tracks(k)
    }

    constructor (duplicateWindow: nat)
      requires duplicateWindow > 0
      ensures Valid() && log == [] && this.duplicateWindow == duplicateWindow
    {
      this.duplicateWindow := duplicateWindow;
      highest, recent, recentCounts, log := map[], map[], map[], [];
    }

    /** `null` stands for the constructor's `ValueError`. */
    static method Create(duplicateWindow: int) returns (tracker: SequenceTracker?)
      ensures tracker == null <==> duplicateWindow <= 0
      ensures tracker != null ==>
                fresh(tracker) && tracker.Valid() && tracker.log == [] && tracker.duplicateWindow == duplicateWindow
    {
      tracker := null;
      if duplicateWindow > 0 {
        tracker := new SequenceTracker(duplicateWindow);
      }
    }

    /** Appends to the deque and the count map, then evicts from the left what exceeds the window. */
    method Remember(deque: seq<nat>, counts: map<nat, nat>, number: nat)
      returns (deque': seq<nat>, counts': map<nat, nat>)
      requires duplicateWindow > 0 && IsCountOf(counts, deque)
      ensures deque' == LastWindow(deque + [number], duplicateWindow)
      ensures IsCountOf(counts', deque')
    {
      CountAppended(counts, deque, number);
      deque' := deque + [number];
      counts' := counts[number := (if number in counts then counts[number] else 0) + 1];
      while |deque'| > duplicateWindow
        invariant IsCountOf(counts', deque')
        invariant LastWindow(deque', duplicateWindow) == LastWindow(deque + [number], duplicateWindow)
      {
        CountPopped(counts', deque');
        var removed := deque'[0];
        deque' := deque'[1..];
        var remaining := counts'[removed] - 1;
        if remaining > 0 {
          counts' := counts'[removed := remaining];
        } else {
          counts' := counts' - {removed};
        }
      }
    }

    /** Stores the three indexes of one stream; the other streams keep theirs. */
    method Store(key: Key, top: nat, deque: seq<nat>, counts: map<nat, nat>, ghost number: nat)
      requires Valid()
      requires top == Highest(Project(log, key) + [number])
      requires deque == LastWindow(Project(log, key) + [number], duplicateWindow)
      requires IsCountOf(counts, deque)
      modifies this
      ensures Valid() && log == old(log) + [(key, number)]
    {
      highest, recent, recentCounts := highest[key := top], recent[key := deque], recentCounts[key := counts];
      log := log + [(key, number)];
      forall k ensures Tracks(k) {
        ProjectSnoc(old(log), (key, number), k);
        assert old(Tracks(k));
      }
    }

    /** Classifies one number by the full history of its own stream, and remembers it. */
    method Observe(source: string, stream: string, number: int) returns (r: Result<Observation, InputError>)
      requires Valid()
      modifies this
      ensures Valid()
      ensures r.Err? <==> Strip(source) == [] || Strip(stream) == [] || number < 0
      ensures r.Err? ==> log == old(log)
      ensures r.Ok? ==>
                var k := Key(Canon(source), Canon(stream));
                && log == old(log) + [(k, number)]
                && r.value == Classify(Project(old(log), k), duplicateWindow, number)
                && Reports(Project(old(log), k), duplicateWindow, number, r.value)
    {
      if Strip(source) == [] {
        return Err(EmptySource);
      }
      if Strip(stream) == [] {
        return Err(EmptyStream);
      }
      if number < 0 {
        return Err(NegativeSequence);
      }
      var k := Key(Canon(source), Canon(stream));
      ClassifyReports(Project(log, k), duplicateWindow, number);
      var observation := ObserveKey(k, number);
      r := Ok(observation);
    }

    /** The branches of `observe`: the status, and the running maximum afterwards. */
    method Decide(top: Option<nat>, seen: bool, number: nat, ghost h: seq<nat>)
      returns (observation: Observation, newTop: nat)
      requires top == if h == [] then None else Some(Highest(h))
      requires seen <==> number in LastWindow(h, duplicateWindow)
      ensures observation == Classify(h, duplicateWindow, number)
      ensures newTop == Highest(h + [number])
    {
      WindowTop(h, duplicateWindow, number);
      newTop := number;
      if seen {
        observation := Observation(Duplicate, if top.None? then None else Some(top.value + 1), 0);
        if top.Some? {
          newTop := top.value;
        }
      } else if top.None? {
        observation := Observation(First, None, 0);
      } else if number == top.value + 1 {
        observation := Observation(InOrder, Some(top.value + 1), 0);
      } else if number > top.value + 1 {
        observation := Observation(Gap, Some(top.value + 1), number - top.value - 1);
      } else {
        observation := Observation(Reordered, Some(top.value + 1), 0);
        newTop := top.value;
      }
    }

    method ObserveKey(key: Key, number: nat) returns (observation: Observation)
      requires Valid()
      modifies this
      ensures Valid() && log == old(log) + [(key, number)]
      ensures observation == Classify(Project(old(log), key), duplicateWindow, number)
    {
      ghost var h := Project(log, key);
      assert Tracks(key);
      var top := if key in highest then Some(highest[key]) else None;
      var deque: seq<nat> := if key in recent then recent[key] else [];
      var counts: map<nat, nat> := if key in recentCounts then recentCounts[key] else map[];
      var newTop;
      observation, newTop := Decide(top, number in counts, number, h);
      WindowSlides(h, duplicateWindow, number);
      deque, counts := Remember(deque, counts, number);
      Store(key, newTop, deque, counts, number);
    }
  }

  lemma WindowTop(h: seq<nat>, w: nat, n: nat)
    ensures h != [] && n in LastWindow(h, w) ==> n <= Highest(h)
    ensures Highest(h + [n]) == if h == [] || n > Highest(h) then n else Highest(h)
  {
    WindowIsRecent(h, w, n);
    HighestSnoc(h, n);
    if h != [] {
      HighestIsMaximum(h);
    }
  }

  lemma HighestSnoc(h: seq<nat>, n: nat)
    ensures Highest(h + [n]) == if h == [] || n > Highest(h) then n else Highest(h)
  {
    assert (h + [n])[..|h|] == h;
  }
}
