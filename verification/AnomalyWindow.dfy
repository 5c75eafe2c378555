/**
 The live feed's state in the dashboard: a deque of recent anomaly times that each snapshot prunes,
 and the status shown. The tracker is proved against the whole log of what it has been told.
 */
module AnomalyWindow {
  import opened Wrappers

  /** A validated annotated tick. */
  datatype Tick = Tick(text: string, isAnomaly: bool, reason: string)

  datatype Happening = Observed(at: real, tick: Tick) | Warned(text: string)

  datatype FeedStatus = Waiting | Unavailable | Degraded | Stale | Live

  datatype Snapshot = Snapshot(status: FeedStatus, latestTick: Option<Tick>, ticksReceived: nat,
                               recentAnomalyCount: nat, latestAnomalyReason: Option<string>, warning: Option<string>)

  const NO_TICKS := "Real-time feed unavailable: no annotated ticks received"
  const NOT_YET := "Waiting for the first annotated tick"
  const TOO_OLD := "Real-time feed unavailable: latest tick is stale"

  // ------------------------------------------------------------ the log

  /** Times of the anomalous ticks not older than the cutoff, oldest first. */
  function AnomaliesSince(log: seq<Happening>, cutoff: real): seq<real> {
    if log == [] then []
    else
      var before, last := AnomaliesSince(log[..|log| - 1], cutoff), log[|log| - 1];
      if last.Observed? && last.tick.isAnomaly && cutoff <= last.at then before + [last.at] else before
  }

  function LastTick(log: seq<Happening>): (r: Option<Happening>)
    ensures r.Some? ==> r.value.Observed?
  {
    if log == [] then None
    else
      var last := log[|log| - 1];
      if last.Observed? then Some(last) else LastTick(log[..|log| - 1])
  }

  function TicksIn(log: seq<Happening>): nat {
    if log == [] then 0
    else TicksIn(log[..|log| - 1]) + if log[|log| - 1].Observed? then 1 else 0
  }

  function LatestReason(log: seq<Happening>): Option<string> {
    if log == [] then None
    else
      var last := log[|log| - 1];
      if last.Observed? && last.tick.isAnomaly then Some(last.tick.reason) else LatestReason(log[..|log| - 1])
  }

  /** The warning that no tick has cleared yet; an empty text counts as none. */
  function PendingWarning(log: seq<Happening>): (r: Option<string>)
    ensures r.Some? <==> log != [] && log[|log| - 1].Warned? && log[|log| - 1].text != ""
  {
    if log != [] && log[|log| - 1].Warned? && log[|log| - 1].text != "" then Some(log[|log| - 1].text) else None
  }

  /** What is shown, from the whole log. */
  function Shown(log: seq<Happening>, startedAt: real, staleAfter: real, now: real): (FeedStatus, Option<string>) {
    var since := if LastTick(log).Some? then LastTick(log).value.at else startedAt;
    if now - since >= staleAfter then
      if LastTick(log).Some? then (Stale, Some(TOO_OLD)) else (Unavailable, Some(NO_TICKS))
    else if PendingWarning(log).Some? then (Degraded, PendingWarning(log))
    else if LastTick(log).Some? then (Live, None)
    else (Waiting, Some(NOT_YET))
  }

  /** Log times do not decrease and do not exceed `latest`. */
  ghost predicate Ordered(log: seq<Happening>, latest: real) {
    && (forall i :: 0 <= i < |log| && log[i].Observed? ==> log[i].at <= latest)
    && (forall i, j :: 0 <= i < j < |log| && log[i].Observed? && log[j].Observed? ==> log[i].at <= log[j].at)
  }

  // ------------------------------------------------------------ pruning is filtering

  function AtLeast(xs: seq<real>, cutoff: real): seq<real> {
    if xs == [] then []
    else AtLeast(xs[..|xs| - 1], cutoff) + if cutoff <= xs[|xs| - 1] then [xs[|xs| - 1]] else []
  }

  ghost predicate Ascending(xs: seq<real>) {
    forall i, j :: 0 <= i < j < |xs| ==> xs[i] <= xs[j]
  }

  /** What an earlier cutoff has dropped a later one drops as well. */
  lemma {:induction false} LaterCutoffFilters(log: seq<Happening>, cutoff: real, later: real)
    requires cutoff <= later
    ensures AnomaliesSince(log, later) == AtLeast(AnomaliesSince(log, cutoff), later)
  {
    if log != [] {
      LaterCutoffFilters(log[..|log| - 1], cutoff, later);
      var before, last := AnomaliesSince(log[..|log| - 1], cutoff), log[|log| - 1];
      if last.Observed? {
        assert (before + [last.at])[..|before|] == before;
      }
    }
  }

  lemma {:induction false} AnomaliesAscend(log: seq<Happening>, cutoff: real, latest: real)
    requires Ordered(log, latest)
    ensures Ascending(AnomaliesSince(log, cutoff))
    ensures forall x :: x in AnomaliesSince(log, cutoff) ==> x <= latest
  {
    if log != [] {
      var last := log[|log| - 1];
      AnomaliesAscend(log[..|log| - 1], cutoff, if last.Observed? then last.at else latest);
      var before := AnomaliesSince(log[..|log| - 1], cutoff);
      forall i | 0 <= i < |before| ensures before[i] <= if last.Observed? then last.at else latest {
        assert before[i] in before;
      }
    }
  }

  /** In ascending times the old ones are a prefix. */
  lemma {:induction false} PrefixIsOld(xs: seq<real>, cutoff: real, k: nat)
    requires Ascending(xs) && k <= |xs|
    requires forall i :: 0 <= i < k ==> xs[i] < cutoff
    requires k < |xs| ==> cutoff <= xs[k]
    ensures AtLeast(xs, cutoff) == xs[k..]
  {
    if xs != [] {
      var before, last := xs[..|xs| - 1], xs[|xs| - 1];
      if k == |xs| {
        assert before[k - 1..] == [];
        PrefixIsOld(before, cutoff, k - 1);
      } else {
        assert xs[k] <= last;
        PrefixIsOld(before, cutoff, k);
        assert xs[k..] == before[k..] + [last];
      }
    }
  }

  // ------------------------------------------------------------ one more entry

  lemma Ticked(log: seq<Happening>, at: real, tick: Tick, cutoff: real)
    ensures var log' := log + [Observed(at, tick)];
            && AnomaliesSince(log', cutoff)
               == AnomaliesSince(log, cutoff) + (if tick.isAnomaly && cutoff <= at then [at] else [])
            && LastTick(log') == Some(Observed(at, tick)) && TicksIn(log') == TicksIn(log) + 1
            && LatestReason(log') == (if tick.isAnomaly then Some(tick.reason) else LatestReason(log))
            && PendingWarning(log') == None
  {
    assert (log + [Observed(at, tick)])[..|log|] == log;
  }

  /** A warning changes nothing but the warning shown. */
  lemma WarnedOnly(log: seq<Happening>, text: string, cutoff: real)
    ensures var log' := log + [Warned(text)];
            && AnomaliesSince(log', cutoff) == AnomaliesSince(log, cutoff)
            && LastTick(log') == LastTick(log) && TicksIn(log') == TicksIn(log)
                && LatestReason(log') == LatestReason(log)
            && PendingWarning(log') == (if text == "" then None else Some(text))
  {
    assert (log + [Warned(text)])[..|log|] == log;
  }

  lemma StaysOrdered(log: seq<Happening>, latest: real, entry: Happening, now: real)
    requires Ordered(log, latest) && latest <= now && (entry.Observed? ==> entry.at == now)
    ensures Ordered(log + [entry], now)
  {
  }

  // ------------------------------------------------------------ the tracker

  class RealtimeStateTracker {
    const staleAfter: real
    const anomalyWindow: real
    const startedAt: real
    var lastTickAt: Option<real>
    var latestTick: Option<Tick>
    var ticksReceived: nat
    var anomalyTimes: seq<real>
    var latestAnomalyReason: Option<string>
    var warning: Option<string>
    ghost var log: seq<Happening>
    ghost var latest: real   // the latest clock reading
    ghost var cutoff: real   // the latest snapshot's cutoff

    ghost predicate Valid()
      reads this
    {
      && staleAfter > 0.0 && anomalyWindow > 0.0
      && Ordered(log, latest) && cutoff <= latest - anomalyWindow
      && anomalyTimes == AnomaliesSince(log, cutoff)
      && lastTickAt == (if LastTick(log).Some? then Some(LastTick(log).value.at) else None)
      && latestTick == (if LastTick(log).Some? then Some(LastTick(log).value.tick) else None)
      && ticksReceived == TicksIn(log)
      && latestAnomalyReason == LatestReason(log)
      && (if warning.Some? && warning.value != "" then warning else None) == PendingWarning(log)
    }

    constructor (staleAfter: real, anomalyWindow: real, now: real)
      requires staleAfter > 0.0 && anomalyWindow > 0.0
      ensures Valid() && log == [] && latest == now == startedAt
      ensures this.staleAfter == staleAfter && this.anomalyWindow == anomalyWindow
    {
      this.staleAfter, this.anomalyWindow, startedAt := staleAfter, anomalyWindow, now;
      lastTickAt, latestTick, ticksReceived, anomalyTimes := None, None, 0, [];
      latestAnomalyReason, warning := None, None;
      log, latest, cutoff := [], now, now - anomalyWindow;
    }

    /** `null` stands for the `ValueError`. */
    static method Create(staleAfter: real, anomalyWindow: real, now: real) returns (tracker: RealtimeStateTracker?)
      ensures tracker == null <==> staleAfter <= 0.0 || anomalyWindow <= 0.0
      ensures tracker != null ==>
                fresh(tracker) && tracker.Valid() && tracker.log == [] && tracker.latest == tracker.startedAt == now
                && tracker.staleAfter == staleAfter && tracker.anomalyWindow == anomalyWindow
    {
      tracker := null;
      if staleAfter > 0.0 && anomalyWindow > 0.0 {
        tracker := new RealtimeStateTracker(staleAfter, anomalyWindow, now);
      }
    }

    /** `observe`; a message that does not validate raises before anything changes. */
    method Observe(message: Option<Tick>, now: real) returns (ok: bool)
      requires Valid() && latest <= now
      modifies this
      ensures Valid() && ok == message.Some?
      ensures ok ==> log == old(log) + [Observed(now, message.value)] && latest == now
      ensures !ok ==> log == old(log) && latest == old(latest)
    {
      if message.None? {
        return false;
      }
      var tick := message.value;
      latestTick, lastTickAt := Some(tick), Some(now);
      ticksReceived := ticksReceived + 1;
      warning := None;
      if tick.isAnomaly {
        anomalyTimes := anomalyTimes + [now];
        latestAnomalyReason := Some(tick.reason);
      }
      Ticked(log, now, tick, cutoff);
      StaysOrdered(log, latest, Observed(now, tick), now);
      log, latest := log + [Observed(now, tick)], now;
      return true;
    }

    method RecordWarning(text: string)
      requires Valid()
      modifies this
      ensures Valid() && log == old(log) + [Warned(text)] && latest == old(latest)
    {
      warning := Some(text);
      WarnedOnly(log, text, cutoff);
      StaysOrdered(log, latest, Warned(text), latest);
      log := log + [Warned(text)];
    }

    /** The loop that drops old times from the front. */
    method Prune(later: real)
      requires Ascending(anomalyTimes)
      modifies this`anomalyTimes
      ensures anomalyTimes == AtLeast(old(anomalyTimes), later)
    {
      ghost var all, k := anomalyTimes, 0;
      while anomalyTimes != [] && anomalyTimes[0] < later
        invariant 0 <= k <= |all| && anomalyTimes == all[k..]
        invariant forall i :: 0 <= i < k ==> all[i] < later
        decreases |anomalyTimes|
      {
        anomalyTimes := anomalyTimes[1..];
        k := k + 1;
      }
      PrefixIsOld(all, later, k);
    }

    /** `snapshot`: what it shows depends on the whole log and the time only, not on earlier pruning. */
    method TakeSnapshot(now: real) returns (r: Snapshot)
      requires Valid() && latest <= now
      modifies this
      ensures Valid() && log == old(log) && latest == now
      ensures ShowsLog(r, log, startedAt, staleAfter, anomalyWindow, now)
      ensures r.recentAnomalyCount == |AnomaliesSince(log, now - anomalyWindow)|
      ensures (r.status, r.warning) == Shown(log, startedAt, staleAfter, now)
      ensures r.ticksReceived == TicksIn(log) && r.latestAnomalyReason == LatestReason(log)
      ensures r.latestTick == if LastTick(log).Some? then Some(LastTick(log).value.tick) else None
    {
      AnomaliesAscend(log, cutoff, latest);
      LaterCutoffFilters(log, cutoff, now - anomalyWindow);
      Prune(now - anomalyWindow);
      latest, cutoff := now, now - anomalyWindow;
      var status, shown;
      if lastTickAt.None? {
        var elapsed := now - startedAt;
        if elapsed >= staleAfter {
          status, shown := Unavailable, Some(NO_TICKS);
        } else if warning.Some? && warning.value != "" {
          status, shown := Degraded, warning;
        } else {
          status, shown := Waiting, Some(NOT_YET);
        }
      } else if now - lastTickAt.value >= staleAfter {
        status, shown := Stale, Some(TOO_OLD);
      } else if warning.Some? && warning.value != "" {
        status, shown := Degraded, warning;
      } else {
        status, shown := Live, None;
      }
      r := Snapshot(status, latestTick, ticksReceived, |anomalyTimes|, latestAnomalyReason, shown);
      SnapshotShows(r, log, startedAt, staleAfter, anomalyWindow, now);
    }
  }

  // ------------------------------------------------------------ what is shown

  /** How many logged ticks were anomalous and not older than the cutoff. */
  ghost function AnomalousTicks(log: seq<Happening>, cutoff: real): set<int> {
    set i | 0 <= i < |log| && log[i].Observed? && log[i].tick.isAnomaly && cutoff <= log[i].at
  }

  /** The number shown counts log entries one by one. */
  lemma {:induction false} CountIsCardinality(log: seq<Happening>, cutoff: real)
    ensures |AnomaliesSince(log, cutoff)| == |AnomalousTicks(log, cutoff)|
  {
    if log != [] {
      var before, last := log[..|log| - 1], log[|log| - 1];
      CountIsCardinality(before, cutoff);
      OneMoreCounted(before, last, cutoff);
      assert log == before + [last];
    }
  }

  lemma OneMoreCounted(log: seq<Happening>, last: Happening, cutoff: real)
    ensures AnomalousTicks(log + [last], cutoff)
            == AnomalousTicks(log, cutoff)
               + if last.Observed? && last.tick.isAnomaly && cutoff <= last.at then {|log|} else {}
    ensures |log| !in AnomalousTicks(log, cutoff)
  {
  }

  predicate IsTick(log: seq<Happening>, i: int) {
    0 <= i < |log| && log[i].Observed?
  }

  ghost function TickPlaces(log: seq<Happening>): set<int> {
    set i | 0 <= i < |log| && IsTick(log, i)
  }

  lemma {:induction false} TicksAreCounted(log: seq<Happening>)
    ensures TicksIn(log) == |TickPlaces(log)|
  {
    if log != [] {
      var n := |log| - 1;
      TicksAreCounted(log[..n]);
      forall i ensures IsTick(log, i) <==> IsTick(log[..n], i) || (i == n && log[n].Observed?) {
      }
      assert TickPlaces(log) == TickPlaces(log[..n]) + if log[n].Observed? then {n} else {};
    }
  }

  /** The entry is a tick, and every later one a warning. */
  ghost predicate IsNewest(log: seq<Happening>, i: int) {
    0 <= i < |log| && log[i].Observed? && forall j :: i < j < |log| ==> log[j].Warned?
  }

  /** The entry is an anomalous tick, and no later one is. */
  ghost predicate IsNewestAnomaly(log: seq<Happening>, i: int) {
    && 0 <= i < |log| && log[i].Observed? && log[i].tick.isAnomaly
    && forall j :: i < j < |log| ==> log[j].Warned? || !log[j].tick.isAnomaly
  }

  /** The newest entry is a warning with a text. */
  predicate IsWarned(log: seq<Happening>, text: string) {
    log != [] && log[|log| - 1] == Warned(text) && text != ""
  }

  /** Status and message, when nothing has come `since` but warnings; `ticked` if a tick came then. */
  ghost predicate ShowsSince(status: FeedStatus, message: Option<string>, log: seq<Happening>, ticked: bool,
                             since: real, staleAfter: real, now: real)
  {
    var silent, warned := now - since >= staleAfter, exists text :: IsWarned(log, text);
    && (status == Stale <==> silent && ticked)
    && (status == Unavailable <==> silent && !ticked)
    && (status == Degraded <==> !silent && warned)
    && (status == Live <==> !silent && !warned && ticked)
    && (status == Waiting <==> !silent && !warned && !ticked)
    && match status
       case Live => message == None
       case Degraded => exists text :: IsWarned(log, text) && message == Some(text)
       case Stale => message == Some("Real-time feed unavailable: latest tick is stale")
       case Unavailable => message == Some("Real-time feed unavailable: no annotated ticks received")
       case Waiting => message == Some("Waiting for the first annotated tick")
  }

  ghost predicate ShowsStatus(status: FeedStatus, message: Option<string>, log: seq<Happening>, startedAt: real,
                              staleAfter: real, now: real)
  {
    if exists i :: IsNewest(log, i) then
      exists i :: IsNewest(log, i) && ShowsSince(status, message, log, true, log[i].at, staleAfter, now)
    else ShowsSince(status, message, log, false, startedAt, staleAfter, now)
  }

  ghost predicate ShowsTick(latest: Option<Tick>, log: seq<Happening>) {
    if latest.Some? then exists i :: IsNewest(log, i) && latest == Some(log[i].tick)
    else forall i :: 0 <= i < |log| ==> log[i].Warned?
  }

  ghost predicate ShowsReason(reason: Option<string>, log: seq<Happening>) {
    if reason.Some? then exists i :: IsNewestAnomaly(log, i) && reason == Some(log[i].tick.reason)
    else forall i :: 0 <= i < |log| ==> log[i].Warned? || !log[i].tick.isAnomaly
  }

  /** The snapshot, entry by entry of the whole log. */
  ghost predicate ShowsLog(r: Snapshot, log: seq<Happening>, startedAt: real, staleAfter: real, anomalyWindow: real,
                           now: real)
  {
    && ShowsStatus(r.status, r.warning, log, startedAt, staleAfter, now)
    && ShowsTick(r.latestTick, log) && ShowsReason(r.latestAnomalyReason, log)
    && r.ticksReceived == |TickPlaces(log)|
    && r.recentAnomalyCount == |AnomalousTicks(log, now - anomalyWindow)|
  }

  lemma StatusShown(log: seq<Happening>, startedAt: real, staleAfter: real, now: real)
    ensures var (status, message) := Shown(log, startedAt, staleAfter, now);
            ShowsStatus(status, message, log, startedAt, staleAfter, now)
  {
    var (status, message) := Shown(log, startedAt, staleAfter, now);
    var i := LastTickIs(log);
    assert PendingWarning(log).Some? ==> IsWarned(log, PendingWarning(log).value);
    if LastTick(log).Some? {
      assert IsNewest(log, i);
      assert ShowsSince(status, message, log, true, log[i].at, staleAfter, now);
    } else {
      assert ShowsSince(status, message, log, false, startedAt, staleAfter, now);
    }
  }

  lemma {:induction false} ReasonShown(log: seq<Happening>)
    ensures ShowsReason(LatestReason(log), log)
  {
    if log != [] {
      var n := |log| - 1;
      ReasonShown(log[..n]);
      if log[n].Observed? && log[n].tick.isAnomaly {
        assert IsNewestAnomaly(log, n);
      } else if LatestReason(log).Some? {
        var i :| IsNewestAnomaly(log[..n], i) && LatestReason(log) == Some(log[..n][i].tick.reason);
        assert IsNewestAnomaly(log, i);
      }
    }
  }

  lemma SnapshotShows(r: Snapshot, log: seq<Happening>, startedAt: real, staleAfter: real, anomalyWindow: real,
                      now: real)
    requires r.recentAnomalyCount == |AnomaliesSince(log, now - anomalyWindow)|
    requires (r.status, r.warning) == Shown(log, startedAt, staleAfter, now)
    requires r.ticksReceived == TicksIn(log) && r.latestAnomalyReason == LatestReason(log)
    requires r.latestTick == if LastTick(log).Some? then Some(LastTick(log).value.tick) else None
    ensures ShowsLog(r, log, startedAt, staleAfter, anomalyWindow, now)
  {
    StatusShown(log, startedAt, staleAfter, now);
    ReasonShown(log);
    TicksAreCounted(log);
    CountIsCardinality(log, now - anomalyWindow);
    var i := LastTickIs(log);
    assert LastTick(log).Some? ==> IsNewest(log, i);
  }

  /** A tick that is fresh and not followed by another tick. */
  ghost predicate IsFreshLast(log: seq<Happening>, i: int, staleAfter: real, now: real) {
    && 0 <= i < |log| && log[i].Observed? && now - log[i].at < staleAfter
    && forall j :: i < j < |log| ==> log[j].Warned?
  }

  lemma {:induction false} LastTickIs(log: seq<Happening>) returns (i: int)
    ensures LastTick(log).None? ==> forall j :: 0 <= j < |log| ==> log[j].Warned?
    ensures LastTick(log).Some? ==>
              0 <= i < |log| && LastTick(log).value == log[i] && forall j :: i < j < |log| ==> log[j].Warned?
  {
    i := |log| - 1;
    if log != [] && !log[i].Observed? {
      i := LastTickIs(log[..|log| - 1]);
    }
  }

  /** LIVE means: the newest tick is fresh and the newest entry is no (non-empty) warning. */
  lemma LiveIff(log: seq<Happening>, startedAt: real, staleAfter: real, now: real)
    ensures Shown(log, startedAt, staleAfter, now).0 == Live
            <==> (exists i :: IsFreshLast(log, i, staleAfter, now)) && PendingWarning(log).None?
  {
    var i := LastTickIs(log);
    if LastTick(log).Some? && now - LastTick(log).value.at < staleAfter {
      assert IsFreshLast(log, i, staleAfter, now);
    }
  }
}
