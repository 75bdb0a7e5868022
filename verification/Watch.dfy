// The watcher's timed coalescing loop (internal/cli/watch.go).
module Watch {
  import opened Wrappers

  /** Milliseconds of a clock that never runs backwards. */
  type Time = nat

  /** How long a directory settles before its revisit. */
  const SETTLE: nat := 2000

  const MAX_UINT64: nat := 0xFFFF_FFFF_FFFF_FFFF

  /** How far apart scans of changes are, and how long suppressed events may wait. */
  datatype Times = Times(gap: nat, churn: nat)

  /** What Lstat tells of a name: which object it is, its mode, whether it is a directory. */
  datatype Info = Info(identity: nat, mode: nat, directory: bool)

  /** A queue event: a path below a root if it names one, and whether events were lost. */
  datatype Event = Event(path: Option<string>, overflow: bool)

  datatype Reason = Startup | Change | Settled | Churn

  /** What has happened, in order. */
  datatype Entry =
    | Armed(dirs: map<string, Option<Info>>)
    | Received(path: string, looked: bool, seen: Option<Info>)
    | Suppressed(path: string, at: Time, info: Info)
    | Overflowed
    | Scan(reason: Reason, start: Time, finish: Time, paths: set<string>, extra: set<string>, overflow: bool, deferred: nat,
           queued: set<string>)

  type Log = seq<Entry>

  // ---------------------------------------------------------------- since the last full scan

  datatype Since = Since(paths: set<string>, overflow: bool, suppressed: nat, first: Option<Time>, finish: Option<Time>)

  ghost function SinceScan(log: Log): Since {
    if log == [] then Since({}, false, 0, None, None)
    else After(SinceScan(log[..|log| - 1]), log[|log| - 1])
  }

  function After(s: Since, e: Entry): Since {
    if e.Scan? then Since({}, false, 0, None, Some(e.finish))
    else if e.Received? then s.(paths := s.paths + {e.path})
    else if e.Suppressed? then s.(suppressed := s.suppressed + 1, first := if s.first.None? then Some(e.at) else s.first)
    else if e.Overflowed? then s.(overflow := true)
    else s
  }

  /** The paths that arrived, and were not suppressed. */
  ghost function PathsSince(log: Log): set<string> { SinceScan(log).paths }

  ghost predicate OverflowSince(log: Log) { SinceScan(log).overflow }

  ghost function SuppressedSince(log: Log): nat { SinceScan(log).suppressed }

  /** When the first event was suppressed. */
  ghost function FirstSuppressed(log: Log): Option<Time> { SinceScan(log).first }

  /** When the last full scan finished. */
  ghost function LastFinish(log: Log): Option<Time> { SinceScan(log).finish }

  /** When a path last had its settle revisit. */
  ghost function LastRevisit(log: Log, path: string): Option<Time> {
    if log == [] then None
    else
      var last := log[|log| - 1];
      if last.Scan? && last.reason == Settled && path in last.extra then Some(last.finish)
      else LastRevisit(log[..|log| - 1], path)
  }

  /** What a log entry tells of a tracked path, if it tells anything. */
  ghost function Sight(e: Entry, path: string): Option<Option<Info>> {
    if e.Armed? then Some(if path in e.dirs then e.dirs[path] else None)
    else if e.Received? && e.looked && e.path == path then Some(e.seen)
    else if e.Suppressed? && e.path == path then Some(Some(e.info))
    else None
  }

  /** What the last look at a tracked path found. */
  ghost function LastSeen(log: Log, path: string): Option<Info> {
    if log == [] then None
    else if Sight(log[|log| - 1], path).Some? then Sight(log[|log| - 1], path).value
    else LastSeen(log[..|log| - 1], path)
  }

  /** The directories that wait for a revisit. */
  ghost function Pending(log: Log): set<string> {
    if log == [] then {}
    else
      var (before, last) := (Pending(log[..|log| - 1]), log[|log| - 1]);
      if !last.Scan? then before
      else if last.reason == Settled then last.queued
      else before + last.queued
  }

  /** When the revisit of those directories is due. */
  ghost function RevisitDue(log: Log): Option<Time> {
    if log == [] then None
    else
      var (before, last) := (RevisitDue(log[..|log| - 1]), log[|log| - 1]);
      if !last.Scan? then before
      else if last.queued != {} then Some(last.finish + SETTLE)
      else if last.reason == Settled then None
      else before
  }

  /** The paths whose identity is followed. */
  ghost function TrackedIn(log: Log): set<string> {
    if log == [] then {}
    else if log[|log| - 1].Armed? then log[|log| - 1].dirs.Keys
    else TrackedIn(log[..|log| - 1])
  }

  /** Events were lost, and the queue has not been opened again since. */
  ghost predicate Stale(log: Log) {
    log != [] && (log[|log| - 1].Overflowed? || (!log[|log| - 1].Armed? && Stale(log[..|log| - 1])))
  }

  /** The same object, with the same mode, and a directory. */
  predicate Unchanged(before: Option<Info>, seen: Option<Info>) {
    before.Some? && seen.Some? && seen.value.directory
    && before.value.identity == seen.value.identity && before.value.mode == seen.value.mode
  }

  function Saturated(n: nat): nat {
    if n < MAX_UINT64 then n else MAX_UINT64
  }

  // ---------------------------------------------------------------- what the queue delivered

  datatype Arrival = Lost | Named(path: string)

  /** What a log says was delivered, in order. */
  ghost function Arrivals(log: Log): seq<Arrival> {
    if log == [] then []
    else Arrivals(log[..|log| - 1]) + ArrivalOf(log[|log| - 1])
  }

  ghost function ArrivalOf(e: Entry): seq<Arrival> {
    if e.Overflowed? then [Lost]
    else if e.Received? || e.Suppressed? then [Named(e.path)]
    else []
  }

  /** The paths that arrived, and were not suppressed, from some entry of the log on. */
  ghost function ArrivedFrom(log: Log, k: nat): set<string> {
    if |log| <= k then {}
    else ArrivedFrom(log[..|log| - 1], k) + if log[|log| - 1].Received? then {log[|log| - 1].path} else {}
  }

  /** What one event is. */
  ghost function Contents(e: Event): seq<Arrival> {
    (if e.overflow then [Lost] else []) + if e.path.Some? then [Named(e.path.value)] else []
  }

  // ---------------------------------------------------------------- what every log keeps

  /** What a scan reports, and when it may start. */
  ghost predicate Carries(before: Log, e: Entry, t: Times)
    requires e.Scan?
  {
    // It reports exactly what arrived since the scan before it.
    && e.paths == PathsSince(before) + e.extra
    && (e.overflow <==> OverflowSince(before) || e.reason == Churn || e.reason == Startup)
    && e.deferred == Saturated(SuppressedSince(before))
    // It keeps its distance from the scans before it.
    && (LastFinish(before).Some? ==> LastFinish(before).value <= e.start) && e.start <= e.finish
    && (e.reason == Change ==> LastFinish(before).Some? && LastFinish(before).value + t.gap <= e.start)
    // It revisits what waits for a revisit, once that is due and no path twice within the gap.
    && (if e.reason != Settled then e.extra == {}
        else && e.extra == Pending(before) && RevisitDue(before).Some? && RevisitDue(before).value <= e.start
             && forall p :: p in e.extra && LastRevisit(before, p).Some? ==> LastRevisit(before, p).value + t.gap <= e.start)
    // Without a change or a revisit, suppressed events have waited for long enough.
    && (e.reason == Churn ==> FirstSuppressed(before).Some? && FirstSuppressed(before).value + t.churn <= e.start)
    // What waits for a revisit from now on arrived before it, and was not revisited within the gap.
    && e.queued <= PathsSince(before)
    && (forall p :: p in e.queued && LastRevisit(before, p).Some? ==> LastRevisit(before, p).value + t.gap <= e.finish)
    && (forall p :: p in e.queued && p in e.extra ==> t.gap == 0)
  }

  /** An entry that may follow a log. */
  ghost predicate Follows(before: Log, e: Entry, t: Times) {
    match e
    case Scan(_, _, _, _, _, _, _, _) => Carries(before, e, t) && !Stale(before)
    case Suppressed(path, _, info) => !Stale(before) && Unchanged(LastSeen(before, path), Some(info))
    case Received(path, looked, seen) =>
      if looked then path in TrackedIn(before) && !Unchanged(LastSeen(before, path), seen)
      else path !in TrackedIn(before) || (before != [] && before[|before| - 1].Overflowed?)
    case _ => true
  }

  ghost predicate Sound(log: Log, t: Times) {
    log == [] || (Sound(log[..|log| - 1], t) && Follows(log[..|log| - 1], log[|log| - 1], t))
  }

  lemma Append(log: Log, e: Entry, t: Times)
    requires Sound(log, t) && Follows(log, e, t)
    ensures Sound(log + [e], t)
    ensures SinceScan(log + [e]) == After(SinceScan(log), e)
    ensures Arrivals(log + [e]) == Arrivals(log) + ArrivalOf(e)
    ensures Stale(log + [e]) <==> e.Overflowed? || (!e.Armed? && Stale(log))
    ensures TrackedIn(log + [e]) == if e.Armed? then e.dirs.Keys else TrackedIn(log)
  {
    assert (log + [e])[..|log|] == log;
  }

  lemma AppendRevisit(log: Log, e: Entry, path: string)
    ensures LastRevisit(log + [e], path) ==
            if e.Scan? && e.reason == Settled && path in e.extra then Some(e.finish) else LastRevisit(log, path)
  {
    assert (log + [e])[..|log|] == log;
  }

  lemma AppendQueue(log: Log, e: Entry)
    ensures Pending(log + [e]) ==
            if !e.Scan? then Pending(log) else if e.reason == Settled then e.queued else Pending(log) + e.queued
    ensures RevisitDue(log + [e]) ==
            if !e.Scan? then RevisitDue(log)
            else if e.queued != {} then Some(e.finish + SETTLE)
            else if e.reason == Settled then None else RevisitDue(log)
  {
    assert (log + [e])[..|log|] == log;
  }

  lemma AppendSeen(log: Log, e: Entry, path: string)
    ensures LastSeen(log + [e], path) == if Sight(e, path).Some? then Sight(e, path).value else LastSeen(log, path)
  {
    assert (log + [e])[..|log|] == log;
  }

  lemma {:induction false} ArrivedJoins(a: Log, b: Log, k: nat)
    requires k <= |a| && a <= b
    ensures ArrivedFrom(b, k) == ArrivedFrom(a, k) + ArrivedFrom(b, |a|)
  {
    if |a| < |b| {
      ArrivedJoins(a, b[..|b| - 1], k);
    } else {
      assert a == b;
    }
  }

  lemma AppendArrived(log: Log, e: Entry, k: nat)
    requires k <= |log|
    ensures ArrivedFrom(log + [e], k) == ArrivedFrom(log, k) + if e.Received? then {e.path} else {}
  {
    assert (log + [e])[..|log|] == log;
  }

  // ---------------------------------------------------------------- over whole runs

  /** Every reported path is held for the next scan, or was given to a later one. */
  lemma {:induction false} NothingIsLost(log: Log, t: Times, i: nat)
    requires Sound(log, t) && i < |log|
    ensures log[i].Received? ==>
              log[i].path in PathsSince(log) || exists j :: i < j < |log| && log[j].Scan? && log[i].path in log[j].paths
    ensures log[i].Overflowed? ==>
              OverflowSince(log) || exists j :: i < j < |log| && log[j].Scan? && log[j].overflow
  {
    if i < |log| - 1 {
      var before := log[..|log| - 1];
      NothingIsLost(before, t, i);
      assert forall j :: 0 <= j < |before| ==> before[j] == log[j];
      if log[|log| - 1].Scan? {
        assert Follows(before, log[|log| - 1], t);
      }
    }
  }

  /** Every reported path was given to a later scan. */
  ghost predicate AllReported(log: Log) {
    forall i :: 0 <= i < |log| && log[i].Received? ==>
      exists j :: i < j < |log| && log[j].Scan? && log[i].path in log[j].paths
  }

  /** A last scan that reports only some of what has arrived, and holds back the rest for good: every
      path is reported if and only if nothing was held back. */
  lemma AbandonedReportsExactlyWhen(before: Log, t: Times, held: set<string>, changed: set<string>, scan: Entry)
    requires Sound(before, t) && PathsSince(before) == held + changed
    requires scan.Scan? && scan.paths == changed
    ensures AllReported(before + [scan]) <==> held <= changed
  {
    var log := before + [scan];
    if held <= changed {
      forall i | 0 <= i < |log| && log[i].Received?
        ensures exists j :: i < j < |log| && log[j].Scan? && log[i].path in log[j].paths
      {
        NothingIsLost(before, t, i);
        if log[i].path in PathsSince(before) {
          assert log[|before|] == scan && log[i].path in log[|before|].paths;
        } else {
          var j :| i < j < |before| && before[j].Scan? && before[i].path in before[j].paths;
          assert log[j] == before[j];
        }
      }
    } else {
      var path :| path in held && path !in changed;
      var i := NothingIsInvented(before, t, path);
      assert log[i] == before[i];
      assert forall j :: i < j < |log| && log[j].Scan? ==> log[j] == scan;
    }
  }

  /** A change is held back by the gap, the queue overflows and cannot be opened again: the last scan
      does not mention the change, and no other scan will. */
  lemma AHeldChangeIsLost(t: Times, path: string, now: Time) returns (before: Log, scan: Entry)
    requires t.gap > 0
    ensures Sound(before, t) && PathsSince(before) == {path} && OverflowSince(before)
    // The gap since the last scan is not over yet.
    ensures LastFinish(before).Some? && now < LastFinish(before).value + t.gap
    ensures scan == Scan(Change, now, now, {}, {}, true, 0, {}) && !AllReported(before + [scan])
    ensures exists i :: 0 <= i < |before| && before[i] == Received(path, false, None)
  {
    hide Sound, AllReported, Follows;
    before := Started(t, now);
    before := Holds(before, t, Received(path, false, None));
    before := Holds(before, t, Overflowed);
    assert before[2] == Received(path, false, None);
    scan := Scan(Change, now, now, {}, {}, true, 0, {});
    AbandonedReportsExactlyWhen(before, t, {path}, {}, scan);
  }

  lemma Started(t: Times, now: Time) returns (log: Log)
    ensures |log| == 2 && Sound(log, t) && SinceScan(log) == Since({}, false, 0, None, Some(now)) && TrackedIn(log) == {}
  {
    var (armed, startup) := (Armed(map[]), Scan(Startup, now, now, {}, {}, true, 0, {}));
    Append([], armed, t);
    Append([] + [armed], startup, t);
    log := [] + [armed] + [startup];
  }

  lemma Holds(log: Log, t: Times, e: Entry) returns (longer: Log)
    requires Sound(log, t) && TrackedIn(log) == {} && (e.Overflowed? || (e.Received? && !e.looked))
    ensures longer == log + [e] && Sound(longer, t) && SinceScan(longer) == After(SinceScan(log), e) && TrackedIn(longer) == {}
  {
    Append(log, e, t);
    longer := log + [e];
  }

  /** A scan reports nothing but what arrived since the one before it, and the paths it revisits. */
  lemma {:induction false} NothingIsInvented(log: Log, t: Times, path: string) returns (i: nat)
    requires path in PathsSince(log)
    ensures i < |log| && log[i].Received? && log[i].path == path
    ensures forall j :: i < j < |log| ==> !log[j].Scan?
  {
    var last := log[|log| - 1];
    if last.Received? && last.path == path {
      i := |log| - 1;
    } else {
      i := NothingIsInvented(log[..|log| - 1], t, path);
    }
  }

  ghost function Suppressions(log: Log): nat {
    if log == [] then 0 else Suppressions(log[..|log| - 1]) + if log[|log| - 1].Suppressed? then 1 else 0
  }

  ghost function Deferred(log: Log): nat {
    if log == [] then 0 else Deferred(log[..|log| - 1]) + if log[|log| - 1].Scan? then log[|log| - 1].deferred else 0
  }

  /** Suppressed events are the deferred ones that scans reported and those still counted, up to saturation. */
  lemma {:induction false} SuppressionsAreCounted(log: Log, t: Times)
    requires Sound(log, t)
    ensures Deferred(log) + Saturated(SuppressedSince(log)) <= Deferred(log) + SuppressedSince(log) <= Suppressions(log)
    ensures Suppressions(log) <= MAX_UINT64 ==> Suppressions(log) == Deferred(log) + Saturated(SuppressedSince(log))
  {
    if log != [] {
      SuppressionsAreCounted(log[..|log| - 1], t);
    }
  }

  /** What a scan reports as deferred fits in 64 bits. */
  lemma DeferredFits(log: Log, t: Times, j: nat)
    requires Sound(log, t) && j < |log| && log[j].Scan?
    ensures log[j].deferred <= 0xFFFF_FFFF_FFFF_FFFF
  {
    SoundBefore(log, t, j);
  }

  lemma {:induction false} FinishesAreOrdered(log: Log, t: Times, i: nat)
    requires Sound(log, t) && i < |log| && log[i].Scan?
    ensures LastFinish(log).Some? && log[i].finish <= LastFinish(log).value
  {
    if i < |log| - 1 {
      FinishesAreOrdered(log[..|log| - 1], t, i);
    }
  }

  /** Every change scan starts at least a gap after any earlier scan finished. */
  lemma ChangeScansAreApart(log: Log, t: Times, i: nat, j: nat)
    requires Sound(log, t) && i < j < |log| && log[i].Scan? && log[j].Scan? && log[j].reason == Change
    ensures log[i].finish + t.gap <= log[j].start
  {
    SoundBefore(log, t, j);
    FinishesAreOrdered(log[..j], t, i);
  }

  lemma {:induction false} SoundBefore(log: Log, t: Times, j: nat)
    requires Sound(log, t) && j < |log|
    ensures Sound(log[..j], t) && Follows(log[..j], log[j], t)
  {
    if j < |log| - 1 {
      SoundBefore(log[..|log| - 1], t, j);
      assert log[..|log| - 1][..j] == log[..j];
    }
  }

  lemma {:induction false} RevisitsAreOrdered(log: Log, t: Times, i: nat, path: string)
    requires Sound(log, t) && i < |log| && log[i].Scan? && log[i].reason == Settled && path in log[i].extra
    ensures LastRevisit(log, path).Some? && log[i].finish <= LastRevisit(log, path).value
  {
    if i < |log| - 1 {
      var before, last := log[..|log| - 1], log[|log| - 1];
      RevisitsAreOrdered(before, t, i, path);
      if last.Scan? {
        FinishesAreOrdered(before, t, i);
      }
    }
  }

  /** Two settle revisits of one path are at least a gap apart, whatever events arrive. */
  lemma RevisitsAreApart(log: Log, t: Times, i: nat, j: nat, path: string)
    requires Sound(log, t) && i < j < |log| && log[i].Scan? && log[j].Scan?
    requires log[i].reason == log[j].reason == Settled && path in log[i].extra && path in log[j].extra
    ensures log[i].finish + t.gap <= log[j].start
  {
    SoundBefore(log, t, j);
    RevisitsAreOrdered(log[..j], t, i, path);
  }

  // ---------------------------------------------------------------- revisits

  lemma {:induction false} RevisitIsDue(log: Log, t: Times)
    requires Sound(log, t)
    ensures Pending(log) != {} <==> RevisitDue(log).Some?
    ensures RevisitDue(log).Some? ==> LastFinish(log).Some? && RevisitDue(log).value <= LastFinish(log).value + SETTLE
  {
    if log != [] {
      var before, last := log[..|log| - 1], log[|log| - 1];
      RevisitIsDue(before, t);
      if last.Scan? {
        assert last.queued == {} ==> Pending(before) + last.queued == Pending(before);
        assert last.queued != {} ==> Pending(log) != {} by {
          if p :| p in last.queued {
            assert p in Pending(log);
          }
        }
      }
    }
  }

  /** A settled scan after scan i that takes a path it queued, and no earlier than it settles. */
  ghost predicate Serves(log: Log, i: nat, j: int, path: string)
    requires i < |log| && log[i].Scan?
  {
    && i < j < |log| && log[j].Scan? && log[j].reason == Settled && path in log[j].extra && path in log[j].paths
    && log[i].finish + 2000 <= log[j].start
  }

  /** Every directory that was queued for a revisit was visited by a later settled scan, once it had settled,
      or still waits for one that is due. */
  lemma {:induction false} NoRevisitIsLost(log: Log, t: Times, i: nat, path: string)
    requires Sound(log, t) && i < |log| && log[i].Scan? && path in log[i].queued
    ensures || (path in Pending(log) && RevisitDue(log).Some? && log[i].finish + 2000 <= RevisitDue(log).value)
            || exists j :: Serves(log, i, j, path)
  {
    var n := |log| - 1;
    if i < n {
      var before, last := log[..n], log[n];
      NoRevisitIsLost(before, t, i, path);
      if j :| Serves(before, i, j, path) {
        assert log[j] == before[j] && Serves(log, i, j, path);
      } else if last.Scan? {
        FinishesAreOrdered(before, t, i);
        assert Carries(before, last, t);
        if last.reason == Settled {
          assert Serves(log, i, n, path);
        }
      }
    }
  }

  /** Nothing is revisited that was not queued: by an earlier scan, which had just reported it. */
  lemma {:induction false} RevisitsWereQueued(log: Log, t: Times, path: string) returns (i: nat)
    requires Sound(log, t) && path in Pending(log)
    ensures i < |log| && log[i].Scan? && path in log[i].queued && path in log[i].paths
    ensures forall j :: i < j < |log| && log[j].Scan? ==> log[j].reason != Settled
  {
    var n := |log| - 1;
    if log[n].Scan? && path in log[n].queued {
      i := n;
    } else {
      i := RevisitsWereQueued(log[..n], t, path);
      assert forall j :: i <= j < n ==> log[j] == log[..n][j];
    }
  }

  /** What a settled scan revisits. */
  lemma RevisitIsQueued(log: Log, t: Times, j: nat, path: string) returns (i: nat)
    requires Sound(log, t) && j < |log| && log[j].Scan? && log[j].reason == Settled && path in log[j].extra
    ensures i < j && log[i].Scan? && path in log[i].queued && path in log[i].paths
    ensures forall k :: i < k < j && log[k].Scan? ==> log[k].reason != Settled
  {
    SoundBefore(log, t, j);
    i := RevisitsWereQueued(log[..j], t, path);
  }

  // ---------------------------------------------------------------- suppressed events

  /** A scan for suppressed events alone waits for churn after the first of them. */
  lemma ChurnScansWait(log: Log, t: Times, j: nat) returns (i: nat)
    requires Sound(log, t) && j < |log| && log[j].Scan? && log[j].reason == Churn
    ensures i < j && log[i].Suppressed? && log[i].at + t.churn <= log[j].start
    ensures forall k :: i < k < j ==> !log[k].Scan?
  {
    SoundBefore(log, t, j);
    i := FirstIsSuppressed(log[..j]);
  }

  lemma {:induction false} FirstIsSuppressed(log: Log) returns (i: nat)
    requires FirstSuppressed(log).Some?
    ensures i < |log| && log[i].Suppressed? && FirstSuppressed(log) == Some(log[i].at)
    ensures forall k :: i < k < |log| ==> !log[k].Scan?
  {
    var n := |log| - 1;
    if FirstSuppressed(log[..n]).Some? {
      i := FirstIsSuppressed(log[..n]);
    } else {
      i := n;
    }
  }

  /** No scan runs, and no event is suppressed, between an overflow and a fresh look at the tracked paths. */
  lemma {:induction false} NothingIsTrustedWhenStale(log: Log, t: Times, i: nat, j: nat)
    requires Sound(log, t) && i < j < |log| && log[i].Overflowed? && (log[j].Scan? || log[j].Suppressed?)
    ensures exists k :: i < k < j && log[k].Armed?
  {
    SoundBefore(log, t, j);
    ArmedSince(log[..j], i);
    var k :| i < k < j && log[..j][k].Armed?;
    assert log[k].Armed?;
  }

  lemma {:induction false} ArmedSince(log: Log, i: nat)
    requires !Stale(log) && i < |log| && log[i].Overflowed?
    ensures exists k :: i < k < |log| && log[k].Armed?
  {
    var n := |log| - 1;
    if log[n].Armed? {
      assert i < n;
    } else {
      ArmedSince(log[..n], i);
      var k :| i < k < n && log[..n][k].Armed?;
      assert log[k].Armed?;
    }
  }

  /** An event for a tracked path that is looked at and not suppressed found something else than the last look. */
  lemma {:induction false} ReceivedIsNews(log: Log, t: Times, j: nat) returns (i: nat)
    requires Sound(log, t) && j < |log| && log[j].Received? && log[j].looked && log[j].seen.Some? && log[j].seen.value.directory
    requires LastSeen(log[..j], log[j].path).Some?
    ensures i < j && Sight(log[i], log[j].path) == Some(LastSeen(log[..j], log[j].path))
    ensures forall k :: i < k < j ==> Sight(log[k], log[j].path).None?
    ensures Sight(log[i], log[j].path).value.value.identity != log[j].seen.value.identity
            || Sight(log[i], log[j].path).value.value.mode != log[j].seen.value.mode
  {
    SoundBefore(log, t, j);
    i := LastSight(log[..j], log[j].path);
  }

  /** A suppressed path held the same object, unchanged in mode, when it was last looked at. */
  lemma {:induction false} SuppressedIsUnchanged(log: Log, t: Times, j: nat) returns (i: nat)
    requires Sound(log, t) && j < |log| && log[j].Suppressed?
    ensures log[j].info.directory
    ensures i < j && Sight(log[i], log[j].path).Some? && Sight(log[i], log[j].path).value.Some?
    ensures Sight(log[i], log[j].path).value.value.identity == log[j].info.identity
    ensures Sight(log[i], log[j].path).value.value.mode == log[j].info.mode
    ensures forall k :: i < k < j ==> Sight(log[k], log[j].path).None?
  {
    SoundBefore(log, t, j);
    i := LastSight(log[..j], log[j].path);
  }

  lemma {:induction false} LastSight(log: Log, path: string) returns (i: nat)
    requires LastSeen(log, path).Some?
    ensures i < |log| && Sight(log[i], path) == Some(LastSeen(log, path))
    ensures forall k :: i < k < |log| ==> Sight(log[k], path).None?
  {
    if Sight(log[|log| - 1], path).Some? {
      i := |log| - 1;
    } else {
      i := LastSight(log[..|log| - 1], path);
    }
  }
}
