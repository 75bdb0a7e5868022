// The watcher as the program runs it: watchLoop, its fullScan and add closures, and the protected
// directories (internal/cli/watch.go). Inputs, the clock and the disk are free to do anything.
module Watchers {
  import opened Wrappers
  import opened Watch

  /** What waiting for the next event ends with. */
  datatype Input = Delivered(event: Event) | Expired | Canceled | Broken

  datatype Ending = Running | Stopped | Failed | Abandoned

  type Disk = map<string, Info>

  /** Until a revisit is a gap old it is remembered, and its path is not waiting for another; and nothing else is
      remembered. */
  ghost predicate Remembers(log: Log, revisitedAt: map<string, Time>, pendingSettle: set<string>, now: Time, gap: nat) {
    && (forall p :: LastRevisit(log, p).Some? ==>
          || LastRevisit(log, p).value + gap <= now
          || (p in revisitedAt && revisitedAt[p] == LastRevisit(log, p).value && p !in pendingSettle))
    && forall p :: p in revisitedAt ==> LastRevisit(log, p) == Some(revisitedAt[p])
  }

  ghost predicate Known(log: Log, dirs: map<string, Option<Info>>) {
    dirs.Keys == TrackedIn(log) && forall p :: p in dirs ==> dirs[p] == LastSeen(log, p)
  }

  lemma Begins(armed: map<string, Option<Info>>, start: Time, finish: Time, times: Times)
    requires start <= finish
    ensures var log := [Armed(armed), Scan(Startup, start, finish, {}, {}, true, 0, {})];
            && Sound(log, times) && PathsSince(log) == {} && !OverflowSince(log) && SuppressedSince(log) == 0
            && FirstSuppressed(log) == None && LastFinish(log) == Some(finish)
            && Remembers(log, map[], {}, finish, times.gap) && Known(log, armed)
            && Pending(log) == {} && RevisitDue(log) == None && !Stale(log)
  {
    var first, scan := [Armed(armed)], Scan(Startup, start, finish, {}, {}, true, 0, {});
    assert [] + [Armed(armed)] == first && first + [scan] == [Armed(armed), scan];
    Append([], Armed(armed), times);
    Append(first, scan, times);
    AppendQueue([], Armed(armed));
    AppendQueue(first, scan);
    forall p ensures LastRevisit(first + [scan], p) == None && (p in armed ==> LastSeen(first + [scan], p) == armed[p]) {
      AppendRevisit([], Armed(armed), p);
      AppendRevisit(first, scan, p);
      AppendSeen([], Armed(armed), p);
      AppendSeen(first, scan, p);
    }
  }

  /** Between two logs no scan was made, and the paths that arrived joined the changed ones. */
  ghost predicate Grown(before: Log, log: Log, changed: set<string>, grown: set<string>) {
    && before <= log && (forall i :: |before| <= i < |log| ==> !log[i].Scan?)
    && grown == changed + ArrivedFrom(log, |before|)
  }

  lemma GrownNone(log: Log, changed: set<string>)
    ensures Grown(log, log, changed, changed)
  {
  }

  lemma GrownOne(before: Log, log: Log, later: Log, changed: set<string>, grown: set<string>)
    requires Grown(before, log, changed, grown) && log <= later && |later| == |log| + 1 && !later[|log|].Scan?
    ensures Grown(before, later, changed, if later[|log|].Received? then grown + {later[|log|].path} else grown)
  {
    var e := later[|log|];
    assert later == log + [e];
    AppendArrived(log, e, |before|);
  }

  lemma GrownMore(a: Log, b: Log, c: Log, x: set<string>, y: set<string>, z: set<string>)
    requires Grown(a, b, x, y) && Grown(b, c, y, z)
    ensures Grown(a, c, x, z)
  {
    ArrivedJoins(b, c, |a|);
    assert forall i :: |a| <= i < |b| ==> c[i] == b[i];
  }

  /** The last scan of a watcher that gives up reports what arrived in its burst, which began at entry k
      of the log, and leaves out what was held back by then. */
  ghost predicate GivesUp(log: Log, k: nat)
    requires log != []
  {
    var before, scan := log[..|log| - 1], log[|log| - 1];
    && k <= |before| && (forall i :: k <= i < |before| ==> !before[i].Scan?)
    && scan.Scan? && scan.reason == Change && scan.start <= scan.finish && scan.extra == scan.queued == {} && scan.overflow
    && scan.paths == ArrivedFrom(before, k) && scan.deferred == Saturated(SuppressedSince(before))
    && PathsSince(before) == PathsSince(before[..k]) + scan.paths
    && (AllReported(log) <==> PathsSince(before[..k]) <= scan.paths)
  }

  lemma GaveUp(before: Log, scan: Entry, past: Log, held: set<string>, changed: set<string>, times: Times)
    requires Sound(before, times) && Grown(past, before, {}, changed) && PathsSince(past) == held && PathsSince(before) == held + changed
    requires scan.Scan? && scan == Scan(Change, scan.start, scan.finish, changed, {}, true, Saturated(SuppressedSince(before)), {})
    requires scan.start <= scan.finish
    ensures GivesUp(before + [scan], |past|)
    ensures AllReported(before + [scan]) <==> held <= changed
  {
    hide SinceScan, AllReported, Sound;
    var log := before + [scan];
    AbandonedReportsExactlyWhen(before, times, held, changed, scan);
    assert log[..|log| - 1] == before && log[|log| - 1] == scan && before[..|past|] == past;
    assert {} + ArrivedFrom(before, |past|) == ArrivedFrom(before, |past|);
  }

  /** The log is sound up to its last entry, the scan of a watcher that gives up. */
  ghost predicate AbandonedWith(log: Log, times: Times) {
    && log != [] && Sound(log[..|log| - 1], times) && OverflowSince(log[..|log| - 1])
    && exists k: nat :: GivesUp(log, k)
  }

  /** Nothing is held back, and no suppressed event is waiting. */
  ghost predicate Quiet(log: Log) {
    PathsSince(log) == {} && !OverflowSince(log) && SuppressedSince(log) == 0
  }

  lemma QuietAfterScan(log: Log, scan: Entry)
    requires scan.Scan?
    ensures Quiet(log + [scan])
  {
    assert (log + [scan])[..|log|] == log;
  }

  lemma {:induction false} SuppressedHasAFirst(log: Log)
    ensures FirstSuppressed(log).None? <==> SuppressedSince(log) == 0
  {
    if log != [] {
      SuppressedHasAFirst(log[..|log| - 1]);
    }
  }

  /** Events, none of which says that events were lost. */
  predicate AllEvents(inputs: seq<Input>, n: int) {
    n <= |inputs| && forall i :: 0 <= i < n ==> inputs[i].Delivered? && !inputs[i].event.overflow
  }

  /** A scan for the first of the deadlines that had passed at some moment, with what was waiting for it. */
  ghost predicate ServedFor(scan: Entry, at: Time, changeAt: Option<Time>, settleAt: Option<Time>, churnAt: Option<Time>, pending: set<string>) {
    && scan.Scan? && at <= scan.start
    && (scan.reason == Change <==> changeAt.Some? && changeAt.value <= at)
    && (scan.reason == Settled <==> !(changeAt.Some? && changeAt.value <= at) && settleAt.Some? && settleAt.value <= at)
    && (scan.reason == Change || scan.reason == Settled || (scan.reason == Churn && churnAt.Some? && churnAt.value <= at))
    && scan.extra == if scan.reason == Settled then pending else {}
  }

  /** A changed path that is a directory and was not revisited within the gap. */
  predicate Settles(disk: Disk, changed: set<string>, revisitedAt: map<string, Time>, path: string) {
    path in changed && path !in revisitedAt && path in disk && disk[path].directory
  }

  /** What some inputs delivered. */
  ghost function Delivery(inputs: seq<Input>): seq<Arrival> {
    if inputs == [] then []
    else Delivery(inputs[..|inputs| - 1]) + if inputs[|inputs| - 1].Delivered? then Contents(inputs[|inputs| - 1].event) else []
  }

  lemma ConsumedOne(past: seq<Arrival>, inputs: seq<Input>, i: nat)
    requires i < |inputs|
    ensures past + Delivery(inputs[..i + 1])
         == past + Delivery(inputs[..i]) + if inputs[i].Delivered? then Contents(inputs[i].event) else []
    ensures inputs[i..][1..] == inputs[i + 1..]
  {
    assert inputs[..i + 1][..i] == inputs[..i];
  }

  lemma {:induction false} DeliveryAppends(a: seq<Input>, b: seq<Input>)
    ensures Delivery(a + b) == Delivery(a) + Delivery(b)
  {
    if b == [] {
      assert a + b == a;
    } else {
      assert (a + b)[..|a + b| - 1] == a + b[..|b| - 1];
      DeliveryAppends(a, b[..|b| - 1]);
    }
  }

  lemma ConsumedMore(past: seq<Arrival>, inputs: seq<Input>, left: seq<Input>, rest: seq<Input>)
    requires |rest| <= |left| <= |inputs| && left == inputs[|inputs| - |left|..] && rest == left[|left| - |rest|..]
    ensures rest == inputs[|inputs| - |rest|..]
    ensures past + Delivery(inputs[..|inputs| - |left|]) + Delivery(left[..|left| - |rest|])
         == past + Delivery(inputs[..|inputs| - |rest|])
    ensures left != [] && rest == left[1..] && !left[0].Delivered? ==> Delivery(left[..|left| - |rest|]) == []
  {
    DeliveryAppends(inputs[..|inputs| - |left|], left[..|left| - |rest|]);
    assert inputs[..|inputs| - |left|] + left[..|left| - |rest|] == inputs[..|inputs| - |rest|];
    if left != [] && rest == left[1..] {
      assert left[..|left| - |rest|][..0] == [];
    }
  }

  lemma InParts(past: seq<Arrival>, event: Event)
    ensures event.path.None? ==> past + Contents(event) == if event.overflow then past + [Lost] else past
    ensures event.path.Some? ==>
              past + Contents(event) == (if event.overflow then past + [Lost] else past) + [Named(event.path.value)]
  {
  }

  class Watcher {
    const times: Times
    const tracked: set<string>
    /** Whether every scan and every report succeeds and the queue can always be opened again. */
    const reliable: bool
    var now: Time
    var disk: Disk
    var dirs: map<string, Option<Info>>
    var pendingSettle: set<string>
    var settleAt: Option<Time>
    var churnAt: Option<Time>
    var deferred: nat
    var pendingChanged: set<string>
    var pendingOverflow: bool
    var changeAt: Option<Time>
    var lastScan: Time
    var revisitedAt: map<string, Time>
    ghost var log: Log

    /** What holds while changed paths and an overflow have arrived but are not yet held. */
    ghost predicate Counting(changed: set<string>, overflow: bool)
      reads this
    {
      CountingWith(changed, overflow, deferred, churnAt)
    }

    ghost predicate CountingWith(changed: set<string>, overflow: bool, counter: nat, churn: Option<Time>)
      reads `log, `pendingChanged, `pendingOverflow, `changeAt, `lastScan, `now, `pendingSettle, `revisitedAt
    {
      && Sound(log, times)
      && PathsSince(log) == pendingChanged + changed
      && (OverflowSince(log) <==> pendingOverflow || overflow)
      && counter == Saturated(SuppressedSince(log))
      && churn == (if FirstSuppressed(log).Some? then Some(FirstSuppressed(log).value + times.churn) else None)
      && LastFinish(log) == Some(lastScan) && lastScan <= now
      && (changeAt == None || changeAt == Some(lastScan + times.gap))
      && Remembers(log, revisitedAt, pendingSettle, now, times.gap)
    }

    /** The directories that wait for a revisit wait in the queue, with their deadline. */
    ghost predicate Queued()
      reads this
    {
      pendingSettle == Pending(log) && settleAt == RevisitDue(log)
    }

    /** And the protected directories are as they were last seen. */
    ghost predicate Holding(changed: set<string>, overflow: bool)
      reads this
    {
      Counting(changed, overflow) && Known(log, dirs) && Queued()
    }

    /** Nothing is held back without a deadline. */
    ghost predicate Scheduled()
      reads this
    {
      changeAt.Some? <==> pendingChanged != {} || pendingOverflow
    }

    /** At every turn of the loop. */
    ghost predicate Valid()
      reads this
    {
      Holding({}, false) && Scheduled() && !Stale(log)
    }

    /** The loop after its startup scan, which ran between the two times. */
    constructor (times: Times, tracked: set<string>, reliable: bool, disk: Disk, start: Time, finish: Time)
      requires start <= finish
      ensures Valid() && this.times == times && this.tracked == tracked && this.reliable == reliable
      ensures log == [Armed(dirs), Scan(Startup, start, finish, {}, {}, true, 0, {})]
    {
      this.times, this.tracked, this.reliable, this.disk := times, tracked, reliable, disk;
      now, lastScan := finish, finish;
      pendingSettle, settleAt, churnAt, deferred := {}, None, None, 0;
      pendingChanged, pendingOverflow, changeAt, revisitedAt := {}, false, None, map[];
      var armed := Snapshot(tracked, disk);
      dirs := armed;
      log := [Armed(armed), Scan(Startup, start, finish, {}, {}, true, 0, {})];
      new;
      Begins(armed, start, finish, times);
    }

    /** The clock moves on from old(now) and nothing else that the loop keeps changes. */
    twostate predicate Ticked()
      reads this
    {
      && old(now) <= now && SameLoop() && log == old(log)
    }

    twostate predicate SameLoop()
      reads this
    {
      && dirs == old(dirs) && pendingSettle == old(pendingSettle) && settleAt == old(settleAt)
      && churnAt == old(churnAt) && deferred == old(deferred) && pendingChanged == old(pendingChanged)
      && pendingOverflow == old(pendingOverflow) && changeAt == old(changeAt) && lastScan == old(lastScan)
      && revisitedAt == old(revisitedAt)
    }

    /** Time passes, and the disk may be changed. */
    method Tick()
      modifies `now, `disk
      ensures Ticked()
    {
      var next: Time :| now <= next;
      now := next;
      disk := *;
    }

    /** The earliest of the deadlines that are set. */
    function Deadline(): (d: Option<Time>)
      reads `settleAt, `churnAt, `changeAt
      ensures d == None <==> settleAt == None && churnAt == None && changeAt == None
      ensures d.Some? ==> d in {settleAt, churnAt, changeAt}
      ensures forall at :: at in {settleAt, churnAt, changeAt} && at.Some? ==> d.Some? && d.value <= at.value
    {
      Earlier(Earlier(settleAt, churnAt), changeAt)
    }

    /** A scan for some reason may start now. */
    ghost predicate MayScan(reason: Reason, extra: set<string>)
      reads this
    {
      && Counting({}, false) && Known(log, dirs) && !Stale(log)
      && (match reason
          case Startup => false
          case Change => extra == {} && Queued() && lastScan + times.gap <= now
          case Settled =>
            && extra == Pending(log) && RevisitDue(log).Some? && RevisitDue(log).value <= now && Due(log, extra, now, times.gap)
            && pendingSettle == {} && settleAt == None
          case Churn => extra == {} && Queued() && FirstSuppressed(log).Some? && FirstSuppressed(log).value + times.churn <= now)
    }

    /** One full scan, if it succeeds: it carries the paths given and everything held back. */
    method FullScan(reason: Reason, extra: set<string>, overflow: bool) returns (ok: bool, ghost scan: Entry)
      requires MayScan(reason, extra) && (overflow <==> reason == Churn)
      modifies this
      ensures ok ==> Valid() && log == old(log) + [scan] && pendingChanged == {} && !pendingOverflow && deferred == 0
      ensures reliable ==> ok
      ensures ok ==> scan.Scan? && scan.reason == reason && scan.extra == extra && scan.start >= old(now)
      ensures ok ==> TablesAfter(scan, old(pendingChanged), old(pendingSettle), old(revisitedAt), old(settleAt))
      // Queued are exactly the directories that changed and that no settled scan, this one included, visited within the gap.
      ensures ok ==> forall p :: p in scan.queued <==>
                && p in old(pendingChanged) && p in disk && disk[p].directory
                && (LastRevisit(log, p).None? || LastRevisit(log, p).value + times.gap <= scan.finish)
      ensures !ok ==> log == old(log)
      ensures Arrivals(log) == Arrivals(old(log))
    {
      var changed := extra + pendingChanged;
      Tick();
      ghost var start := now;
      Tick();
      ghost var draft := Scan(reason, start, now, changed, extra, overflow || pendingOverflow, deferred, {});
      assert pendingChanged + {} == pendingChanged;
      ok := *;
      ok := ok || reliable;
      scan := draft;
      if ok {
        scan := Completed(reason, extra, draft);
      }
    }

    /** Revisits are remembered for a gap; changed directories that were not revisited within it are queued,
        and settle from the end of the scan on. */
    ghost predicate TablesAfter(scan: Entry, changed: set<string>, settling: set<string>, revisited: map<string, Time>, due: Option<Time>)
      requires scan.Scan?
      reads `revisitedAt, `pendingSettle, `settleAt, `disk
    {
      && revisitedAt == Pruned(if scan.reason == Settled then Marked(revisited, scan.extra, scan.finish) else revisited, scan.finish, times.gap)
      && (forall p :: p in scan.queued <==> Settles(disk, changed, revisitedAt, p))
      && pendingSettle == settling + scan.queued
      && settleAt == if scan.queued != {} then Some(scan.finish + SETTLE) else due
    }

    /** The bookkeeping after a scan that succeeded. */
    method Completed(reason: Reason, extra: set<string>, ghost draft: Entry) returns (ghost scan: Entry)
      requires Counting({}, false) && Known(log, dirs) && !Stale(log)
      requires if reason == Settled then pendingSettle == {} && settleAt == None else Queued()
      requires draft.Scan? && Carries(log, draft, times) && draft.finish == now && draft.reason == reason && draft.extra == extra
      modifies this
      ensures Valid() && log == old(log) + [scan] && pendingChanged == {} && !pendingOverflow && deferred == 0
      ensures scan.Scan? && scan == draft.(queued := scan.queued)
      ensures TablesAfter(scan, old(pendingChanged), old(pendingSettle), old(revisitedAt), old(settleAt))
      ensures forall p :: p in scan.queued <==>
                && p in old(pendingChanged) && p in disk && disk[p].directory
                && (LastRevisit(log, p).None? || LastRevisit(log, p).value + times.gap <= scan.finish)
      ensures Arrivals(log) == Arrivals(old(log))
    {
      hide SinceScan, Arrivals, LastSeen, LastRevisit, Remembers, Pending, RevisitDue, TrackedIn, Sound, Settles;
      var finish := now;
      scan := Revisited(reason, extra, draft);
      AppendQueue(log, scan);
      Close(finish, scan);
    }

    /** Nothing is held any longer. */
    method Close(finish: Time, ghost scan: Entry)
      requires Sound(log, times) && Follows(log, scan, times) && scan.Scan? && scan.finish == finish <= now
      requires pendingSettle == Pending(log + [scan]) && settleAt == RevisitDue(log + [scan])
      requires Remembers(log + [scan], revisitedAt, pendingSettle, now, times.gap) && Known(log, dirs)
      modifies `log, `lastScan, `churnAt, `deferred, `pendingChanged, `pendingOverflow, `changeAt
      ensures Valid() && log == old(log) + [scan] && pendingChanged == {} && !pendingOverflow && deferred == 0
      ensures Arrivals(log) == Arrivals(old(log))
    {
      hide SinceScan, Pending, RevisitDue, TrackedIn, Sound, Stale, LastSeen, LastRevisit, Remembers, Carries, Known, Arrivals;
      Append(log, scan, times);
      assert Arrivals(log) + [] == Arrivals(log);
      KnownStays(log, scan, dirs);
      log := log + [scan];
      lastScan := finish;
      churnAt, deferred := None, 0;
      pendingChanged, pendingOverflow, changeAt := {}, false, None;
    }

    /** The tables of revisits after a scan. */
    method Revisited(reason: Reason, extra: set<string>, ghost draft: Entry) returns (ghost scan: Entry)
      requires Remembers(log, revisitedAt, pendingSettle, now, times.gap) && PathsSince(log) == pendingChanged + {}
      requires draft.Scan? && Carries(log, draft, times) && draft.finish == now && draft.reason == reason && draft.extra == extra
      requires reason == Settled ==> pendingSettle == {}
      modifies `now, `disk, `revisitedAt, `pendingSettle, `settleAt
      ensures scan.Scan? && scan == draft.(queued := scan.queued) && Carries(log, scan, times)
      ensures scan.finish <= now && Remembers(log + [scan], revisitedAt, pendingSettle, now, times.gap)
      ensures TablesAfter(scan, pendingChanged, old(pendingSettle), old(revisitedAt), old(settleAt))
      ensures forall p :: p in scan.queued <==>
                && p in pendingChanged && p in disk && disk[p].directory
                && (LastRevisit(log + [scan], p).None? || LastRevisit(log + [scan], p).value + times.gap <= scan.finish)
    {
      hide SinceScan, LastRevisit, Carries, Remembers, Marked;
      revisitedAt := Pruned(if reason == Settled then Marked(revisitedAt, extra, now) else revisitedAt, now, times.gap);
      ghost var queued := QueueRevisits(now);
      scan := draft.(queued := queued);
      RecentAreKept(log, scan, old(revisitedAt), old(pendingSettle), revisitedAt, times.gap);
      RecentAreKept(log, draft, old(revisitedAt), old(pendingSettle), revisitedAt, times.gap);
      CarriesMore(log, draft, queued, times);
      RemembersScan(log, scan, old(revisitedAt), old(pendingSettle), revisitedAt, pendingSettle, now, times.gap);
    }

    /** Directories that changed settle and are revisited, but not those revisited within a gap. */
    method QueueRevisits(at: Time) returns (ghost queued: set<string>)
      requires at <= now
      modifies `now, `disk, `pendingSettle, `settleAt
      ensures at <= now
      ensures forall p :: p in queued <==> p in pendingChanged && p !in revisitedAt && p in disk && disk[p].directory
      ensures pendingSettle == old(pendingSettle) + queued
      ensures settleAt == if queued != {} then Some(at + SETTLE) else old(settleAt)
    {
      Tick();
      queued := {};
      var left := pendingChanged;
      while left != {}
        invariant at <= now && left <= pendingChanged
        invariant forall p :: p in queued <==> Settles(disk, pendingChanged, revisitedAt, p) && p !in left
        invariant pendingSettle == old(pendingSettle) + queued
        invariant settleAt == if queued != {} then Some(at + SETTLE) else old(settleAt)
        decreases left
      {
        var path :| path in left;
        left := left - {path};
        if path !in revisitedAt && path in disk && disk[path].directory {
          queued := queued + {path};
          pendingSettle := pendingSettle + {path};
          settleAt := Some(at + SETTLE);
        }
      }
    }

    /** Nothing but time and the disk changes until a deadline has passed. */
    method WaitForDeadline()
      requires Valid() && Deadline().Some?
      modifies `now, `disk
      ensures Valid() && SameLoop() && log == old(log) && old(now) <= now
      ensures Deadline() == old(Deadline()) && Deadline().value <= now
    {
      Tick();
      RemembersLater(log, revisitedAt, pendingSettle, old(now), now, times.gap);
      var due := Deadline().value;
      var later: Time :| now <= later && due <= later;
      RemembersLater(log, revisitedAt, pendingSettle, now, later, times.gap);
      now := later;
    }

    /** A deadline has passed: exactly one full scan follows, for the first of the three that is due. */
    method Wake() returns (ok: bool, ghost scan: Entry, ghost at: Time)
      requires Valid() && Deadline().Some?
      modifies this
      ensures reliable ==> ok
      ensures old(now) <= at && old(Deadline()).value <= at
      ensures ok ==> Valid() && log == old(log) + [scan] && scan.Scan? && at <= scan.start
      ensures ok ==>
                scan.reason == if old(changeAt).Some? && old(changeAt).value <= at then Change
                               else if old(settleAt).Some? && old(settleAt).value <= at then Settled
                               else Churn
      ensures ok ==> scan.extra == (if scan.reason == Settled then old(pendingSettle) else {})
      ensures ok && scan.reason == Churn ==> old(churnAt).Some? && old(churnAt).value <= at
      ensures !ok ==> log == old(log)
      ensures Arrivals(log) == Arrivals(old(log))
    {
      hide Sound, SinceScan, Pending, RevisitDue, Arrivals, Known, Remembers, Stale, Due;
      WaitForDeadline();
      at := now;
      if changeAt.Some? && now >= changeAt.value {
        ok, scan := FullScan(Change, {}, false);
      } else if settleAt.Some? && now >= settleAt.value {
        ok, scan := Revisit();
      } else {
        ok, scan := FullScan(Churn, {}, true);
      }
    }

    /** The settle scan is a full scan too: it satisfies deferred churn and held-back changes. */
    method Revisit() returns (ok: bool, ghost scan: Entry)
      requires Valid() && settleAt.Some? && settleAt.value <= now
      modifies this
      ensures ok ==> Valid() && log == old(log) + [scan] && scan.Scan? && scan.reason == Settled && scan.extra == old(pendingSettle)
      ensures reliable ==> ok
      ensures ok ==> scan.start >= old(now)
      ensures !ok ==> log == old(log)
      ensures Arrivals(log) == Arrivals(old(log))
    {
      var settling := pendingSettle;
      pendingSettle, settleAt := {}, None;
      ok, scan := FullScan(Settled, settling, false);
    }

    /** What is held back, what waits for a revisit and what was suppressed all have their deadline. */
    lemma EverythingHasItsDeadline()
      requires Valid()
      ensures changeAt.Some? <==> PathsSince(log) != {} || OverflowSince(log)
      ensures settleAt.Some? <==> Pending(log) != {}
      ensures churnAt.Some? <==> FirstSuppressed(log).Some?
      ensures changeAt.Some? ==> LastFinish(log).Some? && changeAt == Some(LastFinish(log).value + times.gap)
      ensures settleAt.Some? ==> LastFinish(log).Some? && settleAt.value <= LastFinish(log).value + SETTLE
      ensures churnAt.Some? ==> churnAt == Some(FirstSuppressed(log).value + times.churn)
      ensures PathsSince(log) != {} || OverflowSince(log) || Pending(log) != {} || FirstSuppressed(log).Some? <==> Deadline().Some?
    {
      RevisitIsDue(log, times);
      assert pendingChanged + {} == pendingChanged;
    }

    /** protectedWatchDirs.suppress. */
    method Suppress(path: string) returns (hidden: bool)
      modifies `now, `disk, `dirs
      ensures old(now) <= now
      ensures hidden <==> && path in old(dirs) && old(dirs)[path].Some? && path in disk && disk[path].directory
                          && old(dirs)[path].value.identity == disk[path].identity && old(dirs)[path].value.mode == disk[path].mode
      ensures dirs == if path !in old(dirs) then old(dirs)
                      else old(dirs)[path := if path in disk && disk[path].directory then Some(disk[path]) else None]
    {
      Tick();
      if path !in dirs {
        return false;
      }
      var prior := dirs[path];
      dirs := dirs[path := Look(disk, path)];
      if path !in disk || !disk[path].directory {
        return false;
      }
      hidden := prior.Some? && prior.value.identity == disk[path].identity && prior.value.mode == disk[path].mode;
    }

    /** add: an event is counted as deferred or its path is changed. */
    method Take(event: Event, changed: set<string>) returns (ok: bool, grown: set<string>)
      requires Holding(changed, false) && Scheduled() && !Stale(log)
      modifies this
      ensures pendingChanged == old(pendingChanged) && pendingOverflow == old(pendingOverflow)
      ensures Sound(log, times) && old(log) <= log && Grown(old(log), log, changed, grown) && Arrivals(log) == Arrivals(old(log)) + Contents(event)
      ensures reliable ==> ok
      ensures ok ==> Holding(grown, event.overflow) && Scheduled() && (Stale(log) <==> event.overflow)
    {
      hide Sound, SinceScan, Arrivals, Known, Settles, Grown;
      ok, grown := true, changed;
      GrownNone(log, changed);
      if event.overflow {
        Lose(changed);
        GrownOne(old(log), old(log), log, changed, changed);
      }
      InParts(Arrivals(old(log)), event);
      if event.path.None? {
        return;
      }
      var path := event.path.value;
      var hidden, looked := false, false;
      ghost var (prior, taken) := (dirs, log);
      if !event.overflow {
        hidden := Suppress(path);
        looked := path in dirs;
        RemembersLater(log, revisitedAt, pendingSettle, old(now), now, times.gap);
      }
      if hidden {
        ok := Hide(path, prior, changed);
      } else {
        grown := Receive(path, looked, prior, changed, event.overflow);
      }
      GrownOne(old(log), taken, log, changed, changed);
    }

    ghost method Lose(changed: set<string>)
      requires Holding(changed, false)
      modifies `log
      ensures Holding(changed, true) && Stale(log) && log == old(log) + [Overflowed] && Arrivals(log) == Arrivals(old(log)) + [Lost]
    {
      Append(log, Overflowed, times);
      AppendsTo(log, Overflowed, revisitedAt, pendingSettle, now, times.gap);
      KnownStays(log, Overflowed, dirs);
      AppendQueue(log, Overflowed);
      log := log + [Overflowed];
    }

    /** Holding, except that one protected directory may have been looked at since. */
    ghost predicate Looking(prior: map<string, Option<Info>>, path: string, changed: set<string>, overflow: bool)
      reads this
    {
      && Counting(changed, overflow) && Queued()
      && Known(log, prior) && dirs.Keys == prior.Keys && (forall p :: p in dirs && p != path ==> dirs[p] == prior[p])
    }

    /** A suppressed event. */
    method Hide(path: string, ghost prior: map<string, Option<Info>>, ghost changed: set<string>) returns (ok: bool)
      requires Looking(prior, path, changed, false) && Scheduled() && !Stale(log)
      requires path in prior && path in disk && Unchanged(prior[path], Some(disk[path])) && dirs[path] == Some(disk[path])
      modifies `log, `deferred, `churnAt
      ensures Sound(log, times) && old(log) <= log && Arrivals(log) == Arrivals(old(log)) + [Named(path)]
      ensures |log| == |old(log)| + 1 && log[|old(log)|].Suppressed?
      ensures reliable ==> ok
      ensures !Stale(log) && (ok ==> Holding(changed, false) && Scheduled())
    {
      ghost var due := if churnAt.None? then Some(now + times.churn) else churnAt;
      Suppressing(path, prior, changed, Saturated(deferred + 1), due);
      ok := Defer();
    }

    /** One suppressed event more; the first one since a scan sets the churn deadline. */
    method Defer() returns (ok: bool)
      requires deferred <= MAX_UINT64
      modifies `deferred, `churnAt
      ensures reliable || old(churnAt).Some? ==> ok
      ensures deferred == Saturated(old(deferred) + 1)
      ensures churnAt == if old(churnAt).None? then Some(now + times.churn) else old(churnAt)
    {
      if deferred < MAX_UINT64 {
        deferred := deferred + 1;
      }
      ok := true;
      if churnAt.None? {
        churnAt := Some(now + times.churn);
        ok := *;
        ok := ok || reliable;
      }
    }

    ghost method Suppressing(path: string, prior: map<string, Option<Info>>, changed: set<string>, counter: nat, due: Option<Time>)
      requires Looking(prior, path, changed, false) && !Stale(log)
      requires path in prior && path in disk && Unchanged(prior[path], Some(disk[path])) && dirs[path] == Some(disk[path])
      requires counter == Saturated(deferred + 1) && due == if churnAt.None? then Some(now + times.churn) else churnAt
      modifies `log
      ensures Sound(log, times) && old(log) <= log && Arrivals(log) == Arrivals(old(log)) + [Named(path)] && Known(log, dirs)
      ensures |log| == |old(log)| + 1 && log[|old(log)|].Suppressed?
      ensures CountingWith(changed, false, counter, due) && Queued() && !Stale(log)
    {
      var e := Suppressed(path, now, disk[path]);
      AppendQueue(log, e);
      Append(log, e, times);
      AppendsTo(log, e, revisitedAt, pendingSettle, now, times.gap);
      KnownAfter(log, e, prior, dirs, path);
      log := log + [e];
    }

    /** An event that is not suppressed. */
    method Receive(path: string, looked: bool, ghost prior: map<string, Option<Info>>, changed: set<string>, ghost overflow: bool)
        returns (grown: set<string>)
      requires Looking(prior, path, changed, overflow) && Scheduled()
      requires path in prior ==> dirs[path] == if looked then Look(disk, path) else prior[path]
      requires if looked then path in prior && !Unchanged(prior[path], Look(disk, path))
               else path !in prior || (log != [] && log[|log| - 1].Overflowed?)
      modifies `log
      ensures Stale(log) <==> old(Stale(log))
      ensures Holding(grown, overflow) && Scheduled() && old(log) <= log && grown == changed + {path}
      ensures |log| == |old(log)| + 1 && log[|old(log)|].Received? && log[|old(log)|].path == path
      ensures Arrivals(log) == Arrivals(old(log)) + [Named(path)]
    {
      hide Sound, SinceScan, Pending, RevisitDue, TrackedIn, Stale, LastSeen, LastRevisit, Arrivals, Remembers;
      ghost var e := Received(path, looked, Look(disk, path));
      Append(log, e, times);
      AppendQueue(log, e);
      AppendsTo(log, e, revisitedAt, pendingSettle, now, times.gap);
      KnownAfter(log, e, prior, dirs, path);
      log := log + [e];
      grown := changed + {path};
      assert pendingChanged + changed + {path} == pendingChanged + grown;
    }

    /** The log records what the inputs up to the rest delivered. */
    ghost predicate Consumed(past: Log, inputs: seq<Input>, rest: seq<Input>)
      reads `log
    {
      && |rest| <= |inputs| && rest == inputs[|inputs| - |rest|..]
      && past <= log && Arrivals(log) == Arrivals(past) + Delivery(inputs[..|inputs| - |rest|])
    }

    /** The next event of a burst. */
    method TakeNext(inputs: seq<Input>, rest: seq<Input>, changed: set<string>, ghost past: Log)
        returns (ok: bool, grown: set<string>, left: seq<Input>)
      requires Holding(changed, false) && Scheduled() && !Stale(log)
      requires Consumed(past, inputs, rest) && rest != [] && rest[0].Delivered?
      modifies this
      ensures pendingChanged == old(pendingChanged) && pendingOverflow == old(pendingOverflow)
      ensures Sound(log, times) && left == rest[1..] && Consumed(past, inputs, left) && Grown(old(log), log, changed, grown)
      ensures reliable ==> ok
      ensures ok ==> Holding(grown, rest[0].event.overflow) && Scheduled() && (Stale(log) <==> rest[0].event.overflow)
    {
      hide Grown, Sound, Contents, Holding, Scheduled, Arrivals, Delivery, Stale;
      ConsumedOne(Arrivals(past), inputs, |inputs| - |rest|);
      left := rest[1..];
      ok, grown := Take(rest[0].event, changed);
    }

    lemma BurstBegins(inputs: seq<Input>)
      requires Valid()
      ensures Holding({}, false) && Scheduled() && !Stale(log) && Sound(log, times)
      ensures Consumed(log, inputs, inputs) && AllEvents(inputs, 0)
    {
      assert inputs[..0] == [] && Arrivals(log) + [] == Arrivals(log);
    }

    /** The next input, counted from the front. */
    lemma NextInput(inputs: seq<Input>, rest: seq<Input>, past: Log)
      requires Consumed(past, inputs, rest)
      ensures rest != [] ==> rest[0] == inputs[|inputs| - |rest|]
      ensures |rest| < |inputs| && AllEvents(inputs, |inputs| - |rest| - 1)
              && inputs[|inputs| - |rest| - 1].Delivered? && !inputs[|inputs| - |rest| - 1].event.overflow ==>
                AllEvents(inputs, |inputs| - |rest|)
    {
    }

    /** A bounded burst: the first event and those that follow before it times out or overflows. */
    method Burst(inputs: seq<Input>) returns (ending: Ending, changed: set<string>, overflow: bool, rest: seq<Input>)
      requires Valid() && inputs != [] && inputs[0].Delivered?
      modifies this
      ensures ending != Abandoned && Sound(log, times) && Consumed(old(log), inputs, rest) && |rest| < |inputs|
      ensures pendingChanged == old(pendingChanged) && pendingOverflow == old(pendingOverflow)
      ensures Grown(old(log), log, {}, changed)
      ensures ending == Running ==> Holding(changed, overflow) && Scheduled() && (Stale(log) <==> overflow)
      // It takes every event until one says that events were lost, or waiting for the next ends.
      ensures AllEvents(inputs, |inputs| - |rest| - 1)
      ensures ending == Running ==>
                var last := inputs[|inputs| - |rest| - 1];
                if overflow then last.Delivered? && last.event.overflow else last.Expired?
      ensures ending == Stopped ==> rest == [] || inputs[|inputs| - |rest| - 1].Canceled?
      ensures reliable && ending == Failed ==> inputs[|inputs| - |rest| - 1].Broken?
    {
      hide Grown, Sound, Contents, Holding, Scheduled, Arrivals, Delivery, Stale, Consumed, AllEvents;
      BurstBegins(inputs);
      var ok;
      ghost var past := log;
      ending, overflow, rest := Running, inputs[0].event.overflow, inputs;
      ok, changed, rest := TakeNext(inputs, rest, {}, past);
      while ok && !overflow && rest != [] && rest[0].Delivered?
        invariant |rest| < |inputs| && Consumed(past, inputs, rest) && Sound(log, times) && (reliable ==> ok)
        invariant ok ==> Holding(changed, overflow) && Scheduled() && (Stale(log) <==> overflow)
        invariant inputs[|inputs| - |rest| - 1].Delivered? && (overflow <==> inputs[|inputs| - |rest| - 1].event.overflow)
        invariant AllEvents(inputs, |inputs| - |rest| - 1)
        invariant Grown(past, log, {}, changed)
        invariant pendingChanged == old(pendingChanged) && pendingOverflow == old(pendingOverflow)
        decreases |rest|
      {
        NextInput(inputs, rest, past);
        overflow := rest[0].event.overflow;
        ghost var (earlier, held) := (log, changed);
        ok, changed, rest := TakeNext(inputs, rest, changed, past);
        GrownMore(past, earlier, log, {}, held, changed);
      }
      if !ok {
        ending := Failed;
      } else if !overflow {
        NextInput(inputs, rest, past);
        ending, rest := AfterBurst(inputs, rest, past);
      }
    }

    /** What ends a burst that did not overflow. */
    method AfterBurst(inputs: seq<Input>, rest: seq<Input>, ghost past: Log) returns (ending: Ending, left: seq<Input>)
      requires Consumed(past, inputs, rest) && (rest != [] ==> !rest[0].Delivered?)
      ensures ending != Abandoned && Consumed(past, inputs, left) && left == if rest == [] then [] else rest[1..]
      ensures ending == Running <==> rest != [] && rest[0].Expired?
      ensures ending == Stopped <==> rest == [] || rest[0].Canceled?
    {
      ending := if rest == [] || rest[0].Canceled? then Stopped else if rest[0].Broken? then Failed else Running;
      left := rest;
      if rest != [] {
        ConsumedOne(Arrivals(past), inputs, |inputs| - |rest|);
        left := rest[1..];
      }
    }

    /** The loop ends only when it is cancelled or runs out of inputs, when the queue breaks, or, unless it is
        reliable, when something fails. */
    predicate Honest(ending: Ending, inputs: seq<Input>, rest: seq<Input>)
      requires |rest| <= |inputs|
    {
      && (ending == Stopped ==> rest == [] || (|rest| < |inputs| && inputs[|inputs| - |rest| - 1].Canceled?))
      && (reliable ==> ending != Abandoned)
      && (reliable && ending == Failed ==> |rest| < |inputs| && inputs[|inputs| - |rest| - 1].Broken?)
    }

    /** The last two inputs consumed were both waits that ended without an event. */
    predicate WaitedTwice(inputs: seq<Input>, rest: seq<Input>)
      requires |rest| <= |inputs|
    {
      var n := |inputs| - |rest|;
      n >= 2 && inputs[n - 1].Expired? && inputs[n - 2].Expired?
    }

    /** What follows a delivered event. */
    method Turn(inputs: seq<Input>) returns (ending: Ending, rest: seq<Input>)
      requires Valid() && inputs != [] && inputs[0].Delivered?
      modifies this
      ensures Consumed(old(log), inputs, rest) && |rest| < |inputs|
      ensures ending == Running ==> Valid()
      ensures ending != Abandoned ==> Sound(log, times)
      ensures ending == Abandoned ==> AbandonedWith(log, times) && GivesUp(log, |old(log)|)
      ensures Honest(ending, inputs, rest)
      ensures forall i :: 0 <= i < |inputs| - |rest| - 1 ==> inputs[i].Delivered?
    {
      hide Grown, Arrivals, Delivery, GivesUp, AbandonedWith, Sound, Known, Remembers, Stale, SinceScan;
      var changed, overflow;
      ghost var past := log;
      assert PathsSince(past) == pendingChanged + {};
      ending, changed, overflow, rest := Burst(inputs);
      if !ending.Running? {
        return;
      }
      if overflow {
        var armed := *;
        if !armed && !reliable {
          ending := Abandon(changed, past);
          return;
        }
        Rearm(changed);
      }
      ending := Hold(changed, overflow);
    }

    /** Changes wait for the gap since the last scan to end, or are scanned at once if it has. */
    method Hold(changed: set<string>, overflow: bool) returns (ending: Ending)
      requires Holding(changed, overflow) && Scheduled() && !Stale(log)
      modifies this
      ensures ending == Running || ending == Failed
      ensures reliable ==> ending == Running
      ensures old(log) <= log && Sound(log, times) && Arrivals(log) == Arrivals(old(log))
      ensures ending == Running ==> Valid()
      // Nothing waits once the gap has ended.
      ensures ending == Running && (changed != {} || overflow) && changeAt.Some? ==> now < changeAt.value
    {
      ending := Running;
      if !overflow && changed == {} {
        assert pendingChanged + changed == pendingChanged + {};
        return;
      }
      Merge(changed, overflow);
      if now < lastScan + times.gap {
        if changeAt.None? {
          changeAt := Some(lastScan + times.gap);
        }
        return;
      }
      var ok;
      ghost var scan;
      ok, scan := FullScan(Change, {}, false);
      ending := if ok then Running else Failed;
    }

    method Merge(changed: set<string>, overflow: bool)
      requires Holding(changed, overflow)
      modifies `pendingChanged, `pendingOverflow, `now, `disk
      ensures Holding({}, false)
      ensures pendingChanged == old(pendingChanged) + changed && pendingOverflow == (old(pendingOverflow) || overflow)
    {
      pendingChanged, pendingOverflow := pendingChanged + changed, pendingOverflow || overflow;
      assert pendingChanged + {} == pendingChanged;
      Tick();
      RemembersLater(log, revisitedAt, pendingSettle, old(now), now, times.gap);
    }

    /** The queue is opened again after an overflow, and the protected directories are looked at afresh. */
    method Rearm(ghost changed: set<string>)
      requires Holding(changed, true)
      modifies `now, `disk, `dirs, `log
      ensures log == old(log) + [Armed(dirs)] && dirs == Snapshot(tracked, disk) && !Stale(log)
      ensures Holding(changed, true) && old(log) <= log && Arrivals(log) == Arrivals(old(log))
    {
      Tick();
      RemembersLater(log, revisitedAt, pendingSettle, old(now), now, times.gap);
      var armed := Snapshot(tracked, disk);
      Arming(armed, changed);
      dirs := armed;
    }

    ghost method Arming(armed: map<string, Option<Info>>, changed: set<string>)
      requires Counting(changed, true) && Queued()
      modifies `log
      ensures CountingWith(changed, true, deferred, churnAt) && Known(log, armed) && Queued() && !Stale(log)
      ensures log == old(log) + [Armed(armed)] && Arrivals(log) == Arrivals(old(log))
    {
      var e := Armed(armed);
      AppendQueue(log, e);
      Append(log, e, times);
      assert Arrivals(log) + [] == Arrivals(log);
      AppendsTo(log, e, revisitedAt, pendingSettle, now, times.gap);
      forall p | p in armed ensures armed[p] == LastSeen(log + [e], p) {
        AppendSeen(log, e, p);
      }
      log := log + [e];
    }

    lemma AddsNoArrival(log: Log)
      ensures log != [] && log[|log| - 1].Scan? ==> Arrivals(log) == Arrivals(log[..|log| - 1])
    {
      if log != [] && log[|log| - 1].Scan? {
        assert Arrivals(log[..|log| - 1]) + [] == Arrivals(log[..|log| - 1]);
      }
    }

    /** Whether the last scan is as every other one. */
    lemma Unfinished(before: Log, scan: Entry, changed: set<string>)
      requires PathsSince(before) == pendingChanged + changed && OverflowSince(before) && LastFinish(before) == Some(lastScan)
      requires deferred == Saturated(SuppressedSince(before))
      requires scan.Scan? && scan == Scan(Change, scan.start, scan.finish, changed, {}, true, deferred, {})
      requires lastScan <= scan.start <= scan.finish
      ensures Carries(before, scan, times) <==> pendingChanged <= changed && lastScan + times.gap <= scan.start
    {
      hide SinceScan;
      assert PathsSince(before) + {} == PathsSince(before);
      assert pendingChanged <= changed <==> pendingChanged + changed == changed;
    }

    /** The queue cannot be opened again: one last scan of what just arrived, and the loop ends. */
    method Abandon(changed: set<string>, ghost past: Log) returns (ending: Ending)
      requires Holding(changed, true) && Grown(past, log, {}, changed) && PathsSince(past) == pendingChanged
      modifies this
      ensures old(log) <= log && Arrivals(log) == Arrivals(old(log))
      ensures ending == Failed ==> log == old(log)
      ensures reliable ==> ending != Failed
      ensures ending != Failed ==> ending == Abandoned && log != [] && log[..|log| - 1] == old(log) && log[|log| - 1].Scan?
      ensures ending != Failed ==>
                var (start, finish) := (log[|log| - 1].start, log[|log| - 1].finish);
                && old(now) <= start <= finish
                && log[|log| - 1] == Scan(Change, start, finish, changed, {}, true, old(deferred), {})
      // Every change is reported if and only if nothing else was held back.
      ensures ending != Failed ==> AbandonedWith(log, times) && GivesUp(log, |past|)
      ensures ending != Failed ==> (AllReported(log) <==> old(pendingChanged) <= changed)
      ensures ending != Failed ==>
                // Nor does it wait for the gap to end.
                (Carries(old(log), log[|log| - 1], times) <==>
                   old(pendingChanged) <= changed && old(lastScan) + times.gap <= log[|log| - 1].start)
    {
      hide SinceScan, GivesUp, AllReported, ArrivedFrom, Known, Remembers, Carries, Stale, Grown, Arrivals, Pending, RevisitDue;
      Tick();
      var start := now;
      Tick();
      var ok := *;
      if !ok && !reliable {
        return Failed;
      }
      ghost var scan := Scan(Change, start, now, changed, {}, true, deferred, {});
      ghost var before := log;
      Unfinished(before, scan, changed);
      log := log + [scan];
      GaveUp(before, scan, past, pendingChanged, changed, times);
      AddsNoArrival(log);
      assert log[..|log| - 1] == before;
      ending := Abandoned;
    }

    /** Waiting ended without an event. */
    method Expire() returns (ending: Ending)
      requires Valid()
      modifies this
      ensures old(log) <= log && Arrivals(log) == Arrivals(old(log))
      ensures ending == Running || (ending == Failed && Sound(log, times))
      ensures reliable ==> ending == Running
      ensures ending == Running ==> Quiet(log)
      ensures ending == Running && old(Deadline()).None? ==> Valid() && log == old(log)
      ensures ending == Running && old(Deadline()).Some? ==>
                && Valid() && |log| == |old(log)| + 1
                && exists at :: ServedFor(log[|old(log)|], at, old(changeAt), old(settleAt), old(churnAt), old(pendingSettle))
    {
      ending := Running;
      EverythingHasItsDeadline();
      if Deadline().Some? {
        var ok;
        ghost var scan, at;
        ok, scan, at := Wake();
        if ok {
          QuietAfterScan(old(log), scan);
        }
        assert ok ==> ServedFor(scan, at, old(changeAt), old(settleAt), old(churnAt), old(pendingSettle));
        ending := if ok then Running else Failed;
      } else {
        SuppressedHasAFirst(log);
      }
    }

    /** One turn of the loop. */
    method Step(inputs: seq<Input>, rest: seq<Input>, ghost past: Log) returns (ending: Ending, left: seq<Input>)
      requires Valid() && Consumed(past, inputs, rest) && rest != []
      modifies this
      ensures Consumed(past, inputs, left) && |left| < |rest|
      ensures !rest[0].Delivered? ==> left == rest[1..]
      ensures forall i :: 0 <= i < |rest| - |left| - 1 ==> rest[i].Delivered?
      ensures rest[0].Expired? && ending == Running ==> Quiet(log)
      ensures rest[0].Expired? && ending == Running && old(Deadline()).Some? ==>
                |log| == |old(log)| + 1
                && exists at :: ServedFor(log[|old(log)|], at, old(changeAt), old(settleAt), old(churnAt), old(pendingSettle))
      ensures rest[0].Canceled? ==> ending == Stopped && log == old(log)
      ensures rest[0].Broken? ==> ending == Failed && log == old(log)
      ensures Honest(ending, inputs, left)
      ensures ending == Running ==> Valid()
      ensures ending != Abandoned ==> Sound(log, times)
      ensures ending == Abandoned ==> AbandonedWith(log, times)
    {
      hide Sound, AbandonedWith, Quiet, ServedFor, Holding, Scheduled, Stale, Arrivals, Delivery, Honest;
      left := rest[1..];
      ghost var before := log;
      if rest[0].Delivered? {
        ending, left := Turn(rest);
      } else {
        ending := Idle(rest[0]);
        HonestAlone(ending, rest);
        NoArrivals(before, log);
      }
      HonestLater(ending, inputs, rest, left);
      ConsumedMore(Arrivals(past), inputs, rest, left);
    }

    lemma NoArrivals(before: Log, after: Log)
      requires Arrivals(after) == Arrivals(before)
      ensures Arrivals(before) + [] == Arrivals(after)
    {
    }

    /** A wait that ended without an event. */
    method Idle(input: Input) returns (ending: Ending)
      requires Valid() && !input.Delivered?
      modifies this
      ensures old(log) <= log && Arrivals(log) == Arrivals(old(log)) && ending != Abandoned && Sound(log, times)
      ensures ending == Running ==> Valid() && input.Expired? && Quiet(log)
      ensures input.Expired? && ending == Running && old(Deadline()).Some? ==>
                |log| == |old(log)| + 1
                && exists at :: ServedFor(log[|old(log)|], at, old(changeAt), old(settleAt), old(churnAt), old(pendingSettle))
      ensures input.Canceled? ==> ending == Stopped && log == old(log)
      ensures input.Broken? ==> ending == Failed && log == old(log)
      ensures input.Expired? ==> ending == Running || (ending == Failed && !reliable)
    {
      hide Quiet, ServedFor, Stale, Known, Remembers, SinceScan;
      if input.Expired? {
        ending := Expire();
      } else {
        ending := if input.Canceled? then Stopped else Failed;
      }
    }

    lemma HonestAlone(ending: Ending, rest: seq<Input>)
      requires rest != [] && !rest[0].Delivered? && ending != Abandoned
      requires ending == Stopped ==> rest[0].Canceled?
      requires ending == Failed ==> rest[0].Broken? || !reliable
      ensures Honest(ending, rest, rest[1..])
    {
    }

    lemma HonestLater(ending: Ending, inputs: seq<Input>, rest: seq<Input>, left: seq<Input>)
      requires |left| <= |rest| <= |inputs| && rest == inputs[|inputs| - |rest|..] && Honest(ending, rest, left)
      ensures Honest(ending, inputs, left)
    {
      assert |left| < |rest| ==> rest[|rest| - |left| - 1] == inputs[|inputs| - |left| - 1];
    }

    /** watchLoop, after its startup scan, on whatever the event queue and the clock do. */
    method Run(inputs: seq<Input>) returns (ending: Ending, rest: seq<Input>)
      requires Valid()
      modifies this
      ensures Consumed(old(log), inputs, rest) && (ending == Running ==> rest == [] && Valid())
      ensures Honest(ending, inputs, rest)
      // After two waits in vain, one for more of a burst and one for anything, nothing is left to do.
      ensures ending == Running && WaitedTwice(inputs, rest) ==> Quiet(log)
      ensures ending != Abandoned ==> Sound(log, times)
      ensures ending == Abandoned ==> AbandonedWith(log, times)
    {
      hide Arrivals, Sound, AbandonedWith, Quiet;
      ghost var past := log;
      rest, ending := inputs, Running;
      assert Arrivals(log) + [] == Arrivals(log);
      while ending == Running && rest != []
        invariant Consumed(past, inputs, rest)
        invariant ending == Running ==> Valid()
        invariant ending != Abandoned ==> Sound(log, times)
        invariant ending == Abandoned ==> AbandonedWith(log, times)
        invariant Honest(ending, inputs, rest)
        invariant ending == Running && WaitedTwice(inputs, rest) ==> Quiet(log)
        decreases |rest|
      {
        ghost var before := rest;
        ending, rest := Step(inputs, rest, past);
        assert forall i :: 0 <= i < |before| ==> before[i] == inputs[|inputs| - |before| + i];
      }
    }
  }

  function Pruned(revisitedAt: map<string, Time>, now: Time, gap: nat): map<string, Time> {
    map p | p in revisitedAt && now - revisitedAt[p] < gap :: revisitedAt[p]
  }

  lemma RemembersScan(log: Log, scan: Entry, revisitedAt: map<string, Time>, pendingSettle: set<string>,
                      after: map<string, Time>, settling: set<string>, now: Time, gap: nat)
    requires scan.Scan? && scan.finish <= now && Remembers(log, revisitedAt, pendingSettle, scan.finish, gap)
    requires scan.reason == Settled ==> pendingSettle == {}
    requires after == Pruned(if scan.reason == Settled then Marked(revisitedAt, scan.extra, scan.finish) else revisitedAt, scan.finish, gap)
    requires forall p :: p in settling ==> p in pendingSettle || p !in after
    ensures Remembers(log + [scan], after, settling, now, gap)
  {
    forall p | LastRevisit(log + [scan], p).Some?
      ensures || LastRevisit(log + [scan], p).value + gap <= now
              || (p in after && after[p] == LastRevisit(log + [scan], p).value && p !in settling)
    {
      AppendRevisit(log, scan, p);
    }
    forall p | p in after ensures LastRevisit(log + [scan], p) == Some(after[p]) {
      AppendRevisit(log, scan, p);
    }
  }

  lemma KnownStays(log: Log, e: Entry, dirs: map<string, Option<Info>>)
    requires Known(log, dirs) && (e.Scan? || e.Overflowed? || (e.Received? && !e.looked))
    ensures Known(log + [e], dirs)
  {
    forall p | p in dirs ensures dirs[p] == LastSeen(log + [e], p) {
      AppendSeen(log, e, p);
    }
  }

  /** After a scan the table holds exactly the paths that were revisited within the gap. */
  lemma RecentAreKept(log: Log, scan: Entry, revisitedAt: map<string, Time>, pendingSettle: set<string>, after: map<string, Time>, gap: nat)
    requires scan.Scan? && Remembers(log, revisitedAt, pendingSettle, scan.finish, gap)
    requires after == Pruned(if scan.reason == Settled then Marked(revisitedAt, scan.extra, scan.finish) else revisitedAt, scan.finish, gap)
    ensures forall p :: p !in after <==>
              LastRevisit(log + [scan], p).None? || LastRevisit(log + [scan], p).value + gap <= scan.finish
  {
    forall p ensures p !in after <==>
                  LastRevisit(log + [scan], p).None? || LastRevisit(log + [scan], p).value + gap <= scan.finish {
      AppendRevisit(log, scan, p);
    }
  }

  /** What is queued afterwards arrived before the scan, and was not revisited within the gap. */
  lemma CarriesMore(log: Log, draft: Entry, queued: set<string>, times: Times)
    requires draft.Scan? && Carries(log, draft, times) && queued <= PathsSince(log)
    requires forall p :: p in queued ==>
               LastRevisit(log + [draft], p).None? || LastRevisit(log + [draft], p).value + times.gap <= draft.finish
    ensures Carries(log, draft.(queued := queued), times)
  {
    forall p | p in queued
      ensures LastRevisit(log, p).Some? ==> LastRevisit(log, p).value + times.gap <= draft.finish
      ensures p in draft.extra ==> times.gap == 0
    {
      AppendRevisit(log, draft, p);
    }
  }

  /** Entries that are not scans change no revisit. */
  lemma AppendsTo(log: Log, e: Entry, revisitedAt: map<string, Time>, pendingSettle: set<string>, now: Time, gap: nat)
    requires Remembers(log, revisitedAt, pendingSettle, now, gap) && !e.Scan?
    ensures Remembers(log + [e], revisitedAt, pendingSettle, now, gap)
  {
    forall p | LastRevisit(log + [e], p).Some?
      ensures || LastRevisit(log + [e], p).value + gap <= now
              || (p in revisitedAt && revisitedAt[p] == LastRevisit(log + [e], p).value && p !in pendingSettle)
    {
      AppendRevisit(log, e, p);
    }
    forall p | p in revisitedAt ensures LastRevisit(log + [e], p) == Some(revisitedAt[p]) {
      AppendRevisit(log, e, p);
    }
  }

  lemma KnownAfter(log: Log, e: Entry, before: map<string, Option<Info>>, after: map<string, Option<Info>>, path: string)
    requires Known(log, before) && after.Keys == before.Keys
    requires forall p :: p in before && p != path ==> after[p] == before[p]
    requires (e.Received? || e.Suppressed?) && e.path == path
    requires path in before ==> if e.Received? && !e.looked then after[path] == before[path] else Sight(e, path) == Some(after[path])
    ensures Known(log + [e], after)
  {
    forall p | p in after ensures after[p] == LastSeen(log + [e], p) {
      AppendSeen(log, e, p);
    }
  }

  lemma RemembersLater(log: Log, revisitedAt: map<string, Time>, pendingSettle: set<string>, now: Time, later: Time, gap: nat)
    requires Remembers(log, revisitedAt, pendingSettle, now, gap) && now <= later
    ensures Remembers(log, revisitedAt, pendingSettle, later, gap)
  {
  }

  /** Every path was last revisited a gap ago or never. */
  ghost predicate Due(log: Log, paths: set<string>, now: Time, gap: nat) {
    forall p :: p in paths && LastRevisit(log, p).Some? ==> LastRevisit(log, p).value + gap <= now
  }

  function Marked(revisitedAt: map<string, Time>, paths: set<string>, now: Time): map<string, Time> {
    revisitedAt + map p | p in paths :: now
  }

  function Earlier(a: Option<Time>, b: Option<Time>): Option<Time> {
    if a.Some? && (b.None? || a.value <= b.value) then a else b
  }

  function Look(disk: Disk, path: string): Option<Info> {
    if path in disk && disk[path].directory then Some(disk[path]) else None
  }

  /** newProtectedWatchDirs: paths are tracked even when they are missing. */
  function Snapshot(tracked: set<string>, disk: Disk): map<string, Option<Info>> {
    map p | p in tracked :: Look(disk, p)
  }
}
