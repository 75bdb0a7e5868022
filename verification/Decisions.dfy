// What each call decides, from what lies under the two names, the marker, the answers of the
// collectors and of Git, and the row: every outcome, and when exactly it comes about
// (internal/action/engine.go, internal/action/retention.go, internal/core/retention.go).
module Decisions {
  import opened Wrappers
  import opened Retentions
  import opened Journal
  import opened Worlds
  import opened Protocol
  import opened Recovery
  import Runs

  // ---------------------------------------------------------------- retention

  /** How many days a receipt is kept, to the nanosecond. */
  lemma RetentionInDays(from: Time, now: Time)
    ensures Expired(NoWait, from, now) <==> now >= from
    ensures Expired(ThreeDays, from, now) <==> now - from >= 259_200_000_000_000
    ensures Expired(SevenDays, from, now) <==> now - from >= 604_800_000_000_000
    ensures Expired(ThirtyDays, from, now) <==> now - from >= 2_592_000_000_000_000
    ensures Expired(NinetyDays, from, now) <==> now - from >= 7_776_000_000_000_000
    ensures !Expired(Permanent, from, now)
  {
  }

  // ---------------------------------------------------------------- Reconcile

  /** Only the row was written. */
  predicate Wrote(o: Outcome, w: World, item: Item) {
    o.item == item && o.world == w.(journal := Some(item))
  }

  /** An object at the destination is left there, whatever has appeared at the original path, and an
      occupied original path stops a restore without any other consequence. */
  lemma CollisionIsHarmless(r: Receipt, w: World, i: Item)
    requires Loaded(r, w, i) && i.state.Quarantined? && Destination(w) == Some(r.target)
    ensures Reconcile(r, w, i) == Outcome(w, i, true)
    ensures w.source.Some? ==> Restore(r, w, i) == Outcome(w, i, false)
  {
  }

  lemma QuarantinedIsInvestigatedExactlyWhen(r: Receipt, w: World, i: Item)
    requires Loaded(r, w, i) && i.state.Quarantined? && r.source != r.destination
    ensures var o := Reconcile(r, w, i);
            var back := w.source == Some(r.target) && Destination(w).None?;
            && (o.item.state.Investigate? <==> Destination(w) != Some(r.target) && !(back && (r.worktree ==> w.oracle.registered)))
            && (o.item.state.Restored? <==> back && (r.worktree ==> w.oracle.registered))
            && (o.item.state.Quarantined? <==> Destination(w) == Some(r.target))
            && (o.item.state.Investigate? ==>
                  !o.ok && Wrote(o, w, i.(state := Investigate, updatedAt := w.now,
                                          reason := if back then RegistrationInvalid else QuarantinedConflict)))
            && (o.item.state.Restored? ==> o.ok && Wrote(o, w, i.(state := Restored, updatedAt := w.now)))
            && (o.item.state.Quarantined? ==> o == Outcome(w, i, true))
  {
    CommitSucceeds(r, w, i, Entering(i, Restored, w.now));
    CommitSucceeds(r, w, i, Entering(i, Investigate, w.now).(reason := RegistrationInvalid));
    CommitSucceeds(r, w, i, Entering(i, Investigate, w.now).(reason := QuarantinedConflict));
  }

  /** A move whose row was not written is finished only if it can be observed and Git agrees. */
  lemma PreparedIsSettledExactlyWhen(r: Receipt, w: World, i: Item)
    requires Loaded(r, w, i) && i.state.Prepared? && r.source != r.destination
    ensures var o := Reconcile(r, w, i);
            var moved := w.source.None? && Destination(w) == Some(r.target);
            && (o.item.state.Prepared? <==> w.source == Some(r.target) && Destination(w).None?)
            && (o.item.state.Quarantined? <==> moved && w.oracle.observable && (r.worktree ==> w.oracle.registered))
            && (o.item.state.Prepared? ==> o == Outcome(w, i, true))
            && (o.item.state.Quarantined? ==>
                  o.ok && Wrote(o, w, i.(state := Quarantined, updatedAt := w.now, movedAt := Some(w.now),
                                         expiresAt := ExpiresAt(r.retention, w.now),
                                         snapshot := Some(Snapshot(r.destination, r.target)))))
            && (!o.item.state.Prepared? && !o.item.state.Quarantined? ==>
                  !o.ok && Wrote(o, w, i.(state := Investigate, updatedAt := w.now,
                                          reason := if moved then PostMoveFailed else PreparedConflict)))
  {
    CommitSucceeds(r, w, i, Confirmed(r, i, w.now));
    CommitSucceeds(r, w, i, Entering(i, Investigate, w.now).(reason := PostMoveFailed));
    CommitSucceeds(r, w, i, Entering(i, Investigate, w.now).(reason := PreparedConflict));
  }

  /** An investigated receipt is retried only if its object is accounted for, or may be deleted. */
  lemma InvestigatedIsRetriedExactlyWhen(r: Receipt, w: World, i: Item)
    requires Loaded(r, w, i) && i.state.Investigate? && i.snapshot.Some? && r.source != r.destination
    ensures var o := Reconcile(r, w, i);
            && (o.ok <==>
                  || (Destination(w).None? && (w.source == Some(r.target) || HasMarker(r, w)))
                  || (Destination(w) == Some(r.target) && Expired(r.retention, i.movedAt.value, w.now)
                      && w.oracle.unreferenced && w.oracle.guards))
            && (if o.ok then Wrote(o, w, i.(state := Quarantined, updatedAt := w.now, reason := NoReason))
                else o == Outcome(w, i, false))
  {
    RetriedReconcile(r, w, i);
  }

  lemma OthersAreLeft(r: Receipt, w: World, i: Item)
    requires Loaded(r, w, i)
    requires i.state.Restored? || i.state.Deleted? || (i.state.Investigate? && i.snapshot.None?)
    ensures Reconcile(r, w, i) == Outcome(w, i, true)
  {
  }

  // ---------------------------------------------------------------- Restore

  /** The object goes from the destination to the original path. */
  function Returned(r: Receipt, w: World): World
    requires w.current.Some? && w.current.value in w.dirs
  {
    w.(source := Some(r.target), dirs := w.dirs[w.current.value := w.dirs[w.current.value].(item := None)])
  }

  /** The second half of Restore, on what Reconcile may leave. */
  lemma RestoreOfReconciled(r: Receipt, w: World, i: Item)
    requires Loaded(r, w, i) && Open(i) && r.source != r.destination
    requires i.state.Quarantined? && w.source.None? && Destination(w).Some? ==> Destination(w) == Some(r.target)
    ensures var o := RestoreReconciled(r, w, i);
            var back := w.source == Some(r.target) && Destination(w).None?;
            var away := w.source.None? && Destination(w) == Some(r.target);
            && (o.ok <==>
                  || (back && (i.state.Prepared? || (i.state.Investigate? && (r.worktree ==> w.oracle.registered))))
                  || (away && !i.state.Prepared? && (r.worktree ==> w.oracle.registered)))
            && (if !o.ok then o == Outcome(w, i, false)
                else && o.item == i.(state := Restored, updatedAt := w.now)
                     && o.world == (if away then Returned(r, w) else w).(journal := Some(o.item)))
  {
  }

  /** Restore succeeds for exactly these, and otherwise does no more than Reconcile. */
  lemma RestoreSucceedsExactlyWhen(r: Receipt, w: World, i: Item)
    requires Loaded(r, w, i) && Open(i) && r.source != r.destination
    ensures var o, c := Restore(r, w, i), Reconcile(r, w, i);
            var back := w.source == Some(r.target) && Destination(w).None?;
            var away := w.source.None? && Destination(w) == Some(r.target);
            && (o.ok <==>
                  || (back && (i.state.Prepared? || ((r.worktree ==> w.oracle.registered) && !(i.state.Investigate? && i.snapshot.Some?))))
                  || (away && (r.worktree ==> w.oracle.registered)))
            && (if !o.ok then o.item == c.item && o.world == c.world
                else && o.item == c.item.(state := Restored, updatedAt := w.now)
                     && o.world == (if away then Returned(r, w) else w).(journal := Some(o.item)))
  {
    hide Reconcile, RestoreReconciled;
    match i.state {
      case Prepared => PreparedIsSettledExactlyWhen(r, w, i);
      case Quarantined => QuarantinedIsInvestigatedExactlyWhen(r, w, i);
      case Investigate =>
        if i.snapshot.Some? {
          InvestigatedIsRetriedExactlyWhen(r, w, i);
        } else {
          OthersAreLeft(r, w, i);
        }
    }
    var c := Reconcile(r, w, i);
    if !c.item.state.Restored? {
      RestoreOfReconciled(r, c.world, c.item);
    }
  }

  lemma ClosedIsNotRestored(r: Receipt, w: World, i: Item)
    requires Loaded(r, w, i) && !Open(i)
    ensures Restore(r, w, i) == Outcome(w, i, i.state.Restored?)
  {
  }

  // ---------------------------------------------------------------- Delete and the dispatch

  /** What an expiry does, in every case. */
  lemma DeleteDecides(r: Receipt, w: World, i: Item)
    requires Loaded(r, w, i) && r.source != r.destination
    ensures var o := Delete(r, w, i);
            var due := i.state.Quarantined? && i.movedAt.Some? && Expired(r.retention, i.movedAt.value, w.now);
            var back := Destination(w).None? && w.source == Some(r.target);
            var gone := Destination(w).None? && w.source != Some(r.target) && HasMarker(r, w);
            var goes := Destination(w) == Some(r.target) && w.oracle.unreferenced && w.oracle.guards;
            && (!due ==> o == Outcome(w, i, false))
            && (due && gone ==> o.ok && Wrote(o, w, i.(state := Deleted, updatedAt := w.now, reason := AlreadyDeleted)))
            && (due && back && (r.worktree ==> w.oracle.registered) ==>
                  o.ok && Wrote(o, w, i.(state := Restored, updatedAt := w.now)))
            && (due && back && !(r.worktree ==> w.oracle.registered) ==>
                  !o.ok && Wrote(o, w, i.(state := Investigate, updatedAt := w.now, reason := RegistrationInvalid)))
            && (due && goes ==>
                  && o.ok && o.item == i.(state := Deleted, updatedAt := w.now)
                  && o.world == w.(journal := Some(o.item),
                                   dirs := w.dirs[w.current.value := Dir(None, Some(Marker(r.action, w.current.value, r.target)))]))
            && (due && !back && !gone && !goes ==>
                  !o.ok && Wrote(o, w, i.(state := Investigate, updatedAt := w.now, reason := ExpiryRefused)))
  {
  }

  /** What a dry run says of a receipt. */
  lemma PreviewSays(r: Receipt, w: World, i: Item)
    requires Loaded(r, w, i)
    ensures var p := PreviewedExpiry(r, w, i);
            var due := i.movedAt.Some? && Expired(r.retention, i.movedAt.value, w.now);
            var settles := || (Destination(w).None? && (w.source == Some(r.target) || HasMarker(r, w)))
                           || (Destination(w) == Some(r.target) && w.oracle.unreferenced && w.oracle.guards);
            && (p.NotListed? <==> !i.state.Investigate? && !(i.state.Quarantined? && due))
            && (p.Clean? <==> (i.state.Investigate? || i.state.Quarantined?) && due && settles)
  {
  }

  /** A confirmed run of a receipt that is not investigated. */
  lemma ConfirmedRunDeletes(r: Receipt, w: World, i: Item)
    requires Loaded(r, w, i) && !i.state.Investigate?
    ensures var due := i.state.Quarantined? && i.movedAt.Some? && Expired(r.retention, i.movedAt.value, w.now);
            ConfirmedExpiry(r, w, i) == if due then Delete(r, w, i) else Outcome(w, i, true)
  {
  }

  /** An investigated receipt is first retried, and then treated as any other. */
  lemma ConfirmedRunRetries(r: Receipt, w: World, i: Item)
    requires Loaded(r, w, i) && i.state.Investigate? && r.source != r.destination
    ensures var o := ConfirmedExpiry(r, w, i);
            var retried := i.(state := Quarantined, updatedAt := w.now, reason := NoReason);
            if i.snapshot.None? then o == Outcome(w, i, true)
            else if !Reconcile(r, w, i).ok then o == Outcome(w, i, false)
            else if !Expired(r.retention, i.movedAt.value, w.now) then o.ok && Wrote(o, w, retried)
            else o == Delete(r, w.(journal := Some(retried)), retried)
  {
    if i.snapshot.Some? {
      InvestigatedIsRetriedExactlyWhen(r, w, i);
    }
  }

  // ---------------------------------------------------------------- an expiry that was interrupted

  /** The row says that expiry had deleted the object already, and nothing else changed. */
  ghost predicate RecordsDeleted(r: Receipt, w: World, i: Item, o: Outcome) {
    o.ok && Wrote(o, w, i.(state := Deleted, updatedAt := w.now, reason := AlreadyDeleted))
  }

  /** With nothing at the destination, the marker in place and the object not back, the confirmed run
      records the receipt as deleted and the dry run is clean; also for an investigated receipt. */
  lemma MarkedAbsenceIsRecorded(r: Receipt, w: World, i: Item)
    requires Loaded(r, w, i) && r.source != r.destination && i.snapshot.Some?
    requires i.state.Quarantined? || i.state.Investigate?
    requires Expired(r.retention, i.movedAt.value, w.now)
    requires Destination(w).None? && w.source != Some(r.target) && HasMarker(r, w)
    ensures PreviewedExpiry(r, w, i).Clean?
    ensures RecordsDeleted(r, w, i, ConfirmedExpiry(r, w, i))
    ensures i.state.Quarantined? ==> RecordsDeleted(r, w, i, Delete(r, w, i))
  {
    PreviewSays(r, w, i);
    if i.state.Investigate? {
      InvestigatedIsRetriedExactlyWhen(r, w, i);
      ConfirmedRunRetries(r, w, i);
      var retried := i.(state := Quarantined, updatedAt := w.now, reason := NoReason);
      DeleteDecides(r, w.(journal := Some(retried)), retried);
    } else {
      DeleteDecides(r, w, i);
    }
  }

  /** From step k on, others act but the engine does not. */
  ghost predicate OnlyOthers(run: seq<Step>, k: nat) {
    forall j :: k < j < |run| ==> run[j].event.Environment?
  }

  lemma RemovalIsFinal(r: Receipt, s: Step)
    requires Inv(r, s.before) && Allowed(r, s) && s.event.Removed?
    ensures s.after.journal == s.before.journal && CanMark(r, s.before) && s.after.now == s.before.now
    ensures Gone(s.after, r.target)
  {
    StepEffect(r, s);
    assert InDir(s.before, s.before.current.value, r.target);
  }

  lemma OthersKeep(r: Receipt, s: Step)
    requires Allowed(r, s) && s.event.Environment?
    ensures s.after.journal == s.before.journal && s.after.now >= s.before.now
    ensures Gone(s.before, r.target) ==> Gone(s.after, r.target)
  {
  }

  /** Whatever others do after a removal, the row waits as it was, and the object stays gone. */
  lemma {:induction false} AfterRemoval(r: Receipt, run: seq<Step>, k: nat, j: nat)
    requires Run(r, run) && k <= j < |run| && run[k].event.Removed? && OnlyOthers(run, k)
    ensures run[j].after.journal == run[k].before.journal && CanMark(r, run[k].before)
    ensures run[j].after.now >= run[k].before.now
    ensures Gone(run[j].after, r.target)
  {
    hide Allowed, Inv, Gone, CanMark, Ordered, Initial;
    if k < j {
      AfterRemoval(r, run, k, j - 1);
      OthersKeep(r, run[j]);
    } else {
      Runs.InvAlways(r, run, k);
      RemovalIsFinal(r, run[k]);
    }
  }

  /** An expiry that stopped after its removal is recorded by the next one, however long after, as long
      as the marker is still there and nobody has put anything at the destination. */
  lemma InterruptedExpiryIsRecorded(r: Receipt, run: seq<Step>, k: nat) returns (i: Item)
    requires Run(r, run) && k < |run| && run[k].event.Removed? && OnlyOthers(run, k)
    requires HasMarker(r, Last(run)) && Destination(Last(run)).None?
    ensures Last(run).journal == Some(i)
    ensures PreviewedExpiry(r, Last(run), i).Clean?
    ensures RecordsDeleted(r, Last(run), i, ConfirmedExpiry(r, Last(run), i))
    ensures RecordsDeleted(r, Last(run), i, Delete(r, Last(run), i))
  {
    hide Delete, ConfirmedExpiry, PreviewedExpiry, Run, HasMarker, Destination;
    AfterRemoval(r, run, k, |run| - 1);
    Runs.InvAlways(r, run, |run| - 1);
    i := Last(run).journal.value;
    MarkedAbsenceIsRecorded(r, Last(run), i);
  }

  /** In particular one that stopped right after its removal, with its marker still there. */
  lemma StoppedAfterRemovalIsRecorded(r: Receipt, run: seq<Step>) returns (i: Item)
    requires Run(r, run) && run[|run| - 1].event.Removed? && HasMarker(r, Last(run))
    ensures Last(run).journal == Some(i)
    ensures PreviewedExpiry(r, Last(run), i).Clean?
    ensures RecordsDeleted(r, Last(run), i, ConfirmedExpiry(r, Last(run), i))
    ensures RecordsDeleted(r, Last(run), i, Delete(r, Last(run), i))
  {
    hide Delete, ConfirmedExpiry, PreviewedExpiry;
    assert Allowed(r, run[|run| - 1]);
    i := InterruptedExpiryIsRecorded(r, run, |run| - 1);
  }

  // ---------------------------------------------------------------- Quarantine

  /** The object goes from the original path to the destination. */
  function Away(r: Receipt, w: World): World
    requires w.current.Some? && w.current.value in w.dirs
  {
    w.(source := None, dirs := w.dirs[w.current.value := w.dirs[w.current.value].(item := Some(r.target))])
  }

  /** What a quarantine does, in every case: a move that cannot be observed afterwards stays unrecorded. */
  lemma QuarantineDecides(r: Receipt, w: World, i: Item)
    requires Inv(r, w) && w.journal == Some(i)
    ensures var o := Quarantine(r, w, i);
            var goes := && i.state.Prepared? && w.source == Some(r.target) && Destination(w).None? && w.current.Some?
                        && w.oracle.revalidates && (r.worktree ==> w.oracle.registered);
            && (!goes ==> o == Outcome(w, i, false))
            && (goes && !w.oracle.observable ==> o == Outcome(Away(r, w), i, false))
            && (goes && w.oracle.observable ==>
                  && o.ok && o.world == Away(r, w).(journal := Some(o.item))
                  && o.item == i.(state := Quarantined, updatedAt := w.now, movedAt := Some(w.now),
                                  expiresAt := ExpiresAt(r.retention, w.now), snapshot := Some(Snapshot(r.destination, r.target))))
  {
  }
}
