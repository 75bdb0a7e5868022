// What a maintainer relies on once nothing interferes any more: every crash
// point recovers, a move undoes, and a dry run tells the truth.
module Recovery {
  import opened Wrappers
  import opened Retentions
  import opened Journal
  import opened Worlds
  import opened Protocol
  import Runs

  /** The object is at exactly one of the two names and the other one is free. */
  predicate Placed(r: Receipt, w: World) {
    || (AtSource(w, r.target) && Destination(w).None?)
    || (w.source.None? && Destination(w) == Some(r.target))
  }

  predicate Open(item: Item) { item.state.Prepared? || item.state.Quarantined? || item.state.Investigate? }

  /** An investigated receipt with a confirmed move whose object is already back. */
  predicate NeedsSecondCall(r: Receipt, w: World, item: Item) {
    item.state.Investigate? && item.snapshot.Some? && AtSource(w, r.target)
  }

  ghost predicate RestoredTo(r: Receipt, o: Outcome) {
    && o.ok && o.item.state.Restored?
    && o.world.journal == Some(o.item)
    && AtSource(o.world, r.target)
    && Destination(o.world).None?
  }

  /** What Inv says about the loaded row, without the directories. */
  predicate Loaded(r: Receipt, w: World, i: Item) {
    && w.journal == Some(i)
    && r.target != 0
    && (w.current.Some? ==> w.current.value in w.dirs)
    && i.receipt == r
    && ValidItem(i)
    && i.updatedAt <= w.now
    && (i.movedAt.Some? <==> i.snapshot.Some?)
    && (i.movedAt.None? ==> i.expiresAt.None?)
    && (i.state.Prepared? ==> i.snapshot.None?)
  }

  /** The store accepts every transition the engine asks for. */
  lemma CommitSucceeds(r: Receipt, w: World, i: Item, next: Item)
    requires Loaded(r, w, i) && i.state.CanTransitionTo(next.state)
    requires next == Entering(i, next.state, w.now).(reason := next.reason)
             || (i.state.Prepared? && next == Confirmed(r, i, w.now))
    requires r.source != r.destination
    requires next.state.Quarantined? ==> next.snapshot.Some?
    ensures Commit(w, next, i.state) == Outcome(w.(journal := Some(next)), next, true)
    ensures !next.state.Prepared? ==> Loaded(r, w.(journal := Some(next)), next)
  {
  }

  /** The second half of Restore, once Reconcile has settled the row. */
  lemma ReconciledRestores(r: Receipt, w: World, i: Item)
    requires Loaded(r, w, i) && r.source != r.destination
    requires Placed(r, w) && RegistrationValid(r, w)
    requires i.state.Investigate? || (i.state.Prepared? && AtSource(w, r.target))
             || (i.state.Quarantined? && !AtSource(w, r.target))
    ensures RestoredTo(r, RestoreReconciled(r, w, i))
  {
    CommitSucceeds(r, w, i, Entering(i, Restored, w.now));
  }

  /** What Reconcile makes of a placed object. A worktree that Git does not know is never called restored. */
  lemma ReconcileSettles(r: Receipt, w: World, i: Item)
    requires Loaded(r, w, i) && Open(i) && r.source != r.destination && Placed(r, w)
    ensures var o := Reconcile(r, w, i);
            && Loaded(r, o.world, o.item)
            && o.world == w.(journal := Some(o.item))
            && (if NeedsSecondCall(r, w, i) then o.ok && o.item.state.Quarantined?
                else if i.state.Quarantined? && AtSource(w, r.target) then
                  if RegistrationValid(r, w) then o.ok && o.item.state.Restored? else !o.ok && o.item.state.Investigate?
                else if i.state.Prepared? && AtSource(w, r.target) then o.ok && o.item == i
                else o.item.state.Investigate? || (o.ok && o.item.state.Quarantined? && !AtSource(w, r.target)))
  {
    match i.state
    case Prepared =>
      CommitSucceeds(r, w, i, Confirmed(r, i, w.now));
      CommitSucceeds(r, w, i, Entering(i, Investigate, w.now).(reason := PostMoveFailed));
    case Quarantined =>
      CommitSucceeds(r, w, i, Entering(i, Restored, w.now));
      CommitSucceeds(r, w, i, Entering(i, Investigate, w.now).(reason := RegistrationInvalid));
    case Investigate =>
      if i.snapshot.Some? {
        CommitSucceeds(r, w, i, Entering(i, Quarantined, w.now).(reason := NoReason));
      }
  }

  /** The object is at one name with the other free, and Git knows it if it is a worktree; a prepared
      receipt whose object never moved needs no registration. */
  predicate Recoverable(r: Receipt, w: World, item: Item) {
    Placed(r, w) && (RegistrationValid(r, w) || (item.state.Prepared? && AtSource(w, r.target)))
  }

  /** A call made again and again, while nothing else happens. */
  function Iterate(call: (World, Item) -> Outcome, o: Outcome, n: nat): Outcome {
    if n == 0 then o
    else
      var before := Iterate(call, o, n - 1);
      call(before.world, before.item)
  }

  lemma {:induction false} IterateKeeps(call: (World, Item) -> Outcome, kept: Outcome -> bool, o: Outcome, n: nat)
    requires kept(o) && forall p :: kept(p) ==> kept(call(p.world, p.item))
    ensures kept(Iterate(call, o, n))
  {
    if n > 0 {
      IterateKeeps(call, kept, o, n - 1);
    }
  }

  lemma {:induction false} IterateOn(call: (World, Item) -> Outcome, o: Outcome, n: nat)
    requires n > 0
    ensures Iterate(call, o, n) == Iterate(call, call(o.world, o.item), n - 1)
  {
    if n > 1 {
      IterateOn(call, o, n - 1);
    }
  }

  function Restoring(r: Receipt): (World, Item) -> Outcome {
    (w: World, item: Item) => Restore(r, w, item)
  }

  /** Restore, called n times. */
  function Repeated(r: Receipt, w: World, item: Item, n: nat): Outcome {
    Iterate(Restoring(r), Outcome(w, item, true), n)
  }

  lemma RecoversInTwo(r: Receipt, w: World, item: Item)
    requires Loaded(r, w, item) && Open(item) && r.source != r.destination && Recoverable(r, w, item)
    ensures var once := Restore(r, w, item);
            if NeedsSecondCall(r, w, item)
            then && !once.ok && once.item.state.Quarantined?
                 && once.world == w.(journal := Some(once.item))
                 && RestoredTo(r, Restore(r, once.world, once.item))
            else RestoredTo(r, once)
  {
    ReconcileSettles(r, w, item);
    var o := Reconcile(r, w, item);
    if NeedsSecondCall(r, w, item) {
      ReconcileSettles(r, o.world, o.item);
    } else if item.state.Prepared? && AtSource(w, r.target) {
      CommitSucceeds(r, w, item, Entering(item, Restored, w.now));
    } else if !o.item.state.Restored? {
      ReconciledRestores(r, o.world, o.item);
    }
  }

  predicate Stuck(r: Receipt, w: World, item: Item) {
    Loaded(r, w, item) && Open(item) && !Recoverable(r, w, item)
  }

  /** Otherwise no call moves anything or calls the receipt restored, and that does not change. */
  lemma UnrecoverableStays(r: Receipt, w: World, i: Item)
    requires Stuck(r, w, i) && r.source != r.destination
    ensures var o := Restore(r, w, i);
            !o.ok && o.world == w.(journal := Some(o.item)) && Stuck(r, o.world, o.item)
  {
    ReconcileStays(r, w, i);
    var o := Reconcile(r, w, i);
    if o.item.state.Quarantined? {
      CommitSucceeds(r, o.world, o.item, Entering(o.item, Investigate, w.now).(reason := ObjectChanged));
    }
  }

  lemma ReconcileStays(r: Receipt, w: World, i: Item)
    requires Loaded(r, w, i) && Open(i) && r.source != r.destination && !Recoverable(r, w, i)
    ensures var o := Reconcile(r, w, i);
            && Open(o.item) && Loaded(r, o.world, o.item) && (!o.ok ==> o.item.state.Investigate?)
            && o.world == w.(journal := Some(o.item)) && (o.item.state.Prepared? ==> o.item == i)
  {
    match i.state
    case Prepared =>
      CommitSucceeds(r, w, i, Confirmed(r, i, w.now));
      CommitSucceeds(r, w, i, Entering(i, Investigate, w.now).(reason := PostMoveFailed));
      CommitSucceeds(r, w, i, Entering(i, Investigate, w.now).(reason := PreparedConflict));
    case Quarantined =>
      CommitSucceeds(r, w, i, Entering(i, Investigate, w.now).(reason := RegistrationInvalid));
      CommitSucceeds(r, w, i, Entering(i, Investigate, w.now).(reason := QuarantinedConflict));
    case Investigate =>
      if i.snapshot.Some? {
        CommitSucceeds(r, w, i, Entering(i, Quarantined, w.now).(reason := NoReason));
      }
  }

  lemma UnrecoverableForEver(r: Receipt, w: World, i: Item, n: nat)
    requires Stuck(r, w, i) && r.source != r.destination
    ensures Open(Repeated(r, w, i, n).item)
  {
    var stuck := (o: Outcome) => Stuck(r, o.world, o.item);
    forall o | stuck(o) ensures stuck(Restoring(r)(o.world, o.item)) {
      UnrecoverableStays(r, o.world, o.item);
    }
    IterateKeeps(Restoring(r), stuck, Outcome(w, i, true), n);
  }

  lemma IterateReaches(call: (World, Item) -> Outcome, kept: Outcome -> bool, o: Outcome, n: nat)
    requires forall p :: kept(p) ==> kept(call(p.world, p.item))
    requires var once := call(o.world, o.item); kept(call(once.world, once.item))
    ensures n >= 2 ==> kept(Iterate(call, o, n))
  {
    if n >= 2 {
      var once := call(o.world, o.item);
      IterateOn(call, o, n);
      IterateOn(call, once, n - 1);
      IterateKeeps(call, kept, call(once.world, once.item), n - 2);
    }
  }

  lemma RestoredStays(r: Receipt, o: Outcome)
    requires RestoredTo(r, o)
    ensures RestoredTo(r, Restore(r, o.world, o.item))
  {
  }

  lemma RecoveredForEver(r: Receipt, w: World, i: Item, n: nat)
    requires Loaded(r, w, i) && Open(i) && r.source != r.destination && Recoverable(r, w, i) && n >= 2
    ensures RestoredTo(r, Repeated(r, w, i, n))
  {
    var home := (o: Outcome) => RestoredTo(r, o);
    forall o | home(o) ensures home(Restoring(r)(o.world, o.item)) {
      RestoredStays(r, o);
    }
    TwiceIsHome(r, w, i);
    IterateReaches(Restoring(r), home, Outcome(w, i, true), n);
  }

  lemma TwiceIsHome(r: Receipt, w: World, i: Item)
    requires Loaded(r, w, i) && Open(i) && r.source != r.destination && Recoverable(r, w, i)
    ensures var once := Restore(r, w, i); RestoredTo(r, Restore(r, once.world, once.item))
  {
    RecoversInTwo(r, w, i);
    if !NeedsSecondCall(r, w, i) {
      RestoredStays(r, Restore(r, w, i));
    }
  }

  /** Recoverability: wherever a run stopped with an open row, calling Restore again brings object and
      row home if and only if the receipt is recoverable; then one call is enough, but for one kind of
      receipt, and two always are. */
  lemma RestoreRecovers(r: Receipt, run: seq<Step>, item: Item, n: nat)
    requires Run(r, run) && Last(run).journal == Some(item) && Open(item)
    ensures var w := Last(run);
            && (RestoredTo(r, Restore(r, w, item)) <==> Recoverable(r, w, item) && !NeedsSecondCall(r, w, item))
            && (n >= 2 ==> (RestoredTo(r, Repeated(r, w, item, n)) <==> Recoverable(r, w, item)))
  {
    var w := Last(run);
    Runs.InvAlways(r, run, |run| - 1);
    if Recoverable(r, w, item) {
      RecoversInTwo(r, w, item);
      if n >= 2 {
        RecoveredForEver(r, w, item, n);
      }
    } else {
      UnrecoverableStays(r, w, item);
      UnrecoverableForEver(r, w, item, n);
    }
  }

  /** Reconcile only ever writes the row. */
  lemma ReconcileMovesNothing(r: Receipt, w: World, i: Item)
    ensures var o := Reconcile(r, w, i);
            && o.world == w.(journal := o.world.journal)
            && (o.item.state.Restored? ==> i.state.Restored? || w.source == Some(r.target))
  {
    if i.state.Prepared? && !FinishMove(r, w, i).ok {
      var o := ToInvestigate(w, i, PostMoveFailed);
    }
  }

  /** A foreign object at the source is never overwritten, nothing moves, and the receipt is not called restored. */
  lemma RestoreRefusesOccupiedSource(r: Receipt, w: World, item: Item)
    requires Inv(r, w) && w.journal == Some(item)
    requires w.source.Some? && w.source != Some(r.target)
    ensures var o := Restore(r, w, item);
            && !o.item.state.Restored?
            && o.world == w.(journal := o.world.journal)
  {
    ReconcileMovesNothing(r, w, item);
    var o := Reconcile(r, w, item);
    if o.ok || o.item.state.Investigate? {
      OccupiedSourceStops(r, o.world, o.item);
    }
  }

  lemma OccupiedSourceStops(r: Receipt, w: World, i: Item)
    requires w.source.Some? && w.source != Some(r.target) && !i.state.Restored?
    ensures var o := RestoreReconciled(r, w, i);
            && !o.item.state.Restored?
            && o.world == w.(journal := o.world.journal)
  {
  }

  /** Quarantine and Restore are inverse on the object's place, after any run. */
  lemma QuarantineThenRestore(r: Receipt, run: seq<Step>, item: Item)
    requires Run(r, run) && Last(run).journal == Some(item) && item.state.Prepared?
    requires Quarantine(r, Last(run), item).ok
    ensures var w := Last(run);
            var moved := Quarantine(r, w, item);
            && moved.item.state.Quarantined? && moved.world.journal == Some(moved.item)
            && moved.item.movedAt == Some(w.now)
            && moved.item.expiresAt == ExpiresAt(r.retention, w.now)
            && moved.world.source.None? && Destination(moved.world) == Some(r.target)
            && var back := Restore(r, moved.world, moved.item);
            && RestoredTo(r, back)
            && back.world.source == w.source && back.world.dirs == w.dirs
            && back.item.snapshot == moved.item.snapshot
  {
    var w := Last(run);
    Runs.InvAlways(r, run, |run| - 1);
    var moved := Quarantine(r, w, item);
    var back := Restore(r, moved.world, moved.item);
    assert Reconcile(r, moved.world, moved.item) == Outcome(moved.world, moved.item, true);
    var d := w.current.value;
    assert w.dirs[d].(item := Some(r.target)).(item := None) == w.dirs[d];
  }

  /** Quarantine moves exactly when every gate lets it. */
  lemma QuarantineMovesExactlyWhen(r: Receipt, w: World, item: Item)
    requires Inv(r, w) && w.journal == Some(item)
    ensures Quarantine(r, w, item).ok <==>
            && item.state.Prepared? && AtSource(w, r.target) && Destination(w).None? && w.current.Some?
            && w.oracle.revalidates && w.oracle.observable && RegistrationValid(r, w)
  {
  }

  // ---------------------------------------------------------------- previews

  predicate Settled(o: Outcome) { o.ok && (o.item.state.Deleted? || o.item.state.Restored?) }

  predicate ConsideredByExpiry(r: Receipt, w: World, item: Item) {
    item.state.Investigate? || DueForExpiry(r, w, item)
  }

  /** The preview does not ask Git, but recording that an object is back at its source does. */
  predicate PreviewHolds(r: Receipt, w: World) {
    RegistrationValid(r, w) || !SettleAbsent(r, w).WasRestored?
  }

  lemma DeleteSettlesExactlyWhenPreviewed(r: Receipt, w: World, i: Item)
    requires Loaded(r, w, i) && DueForExpiry(r, w, i) && r.source != r.destination
    ensures Settled(Delete(r, w, i)) <==> ExpiryPreview(r, w, i) && PreviewHolds(r, w)
  {
    match SettleAbsent(r, w)
    case WasRestored => CommitSucceeds(r, w, i, Entering(i, Restored, w.now));
    case _ =>
  }

  lemma RetriedReconcile(r: Receipt, w: World, i: Item)
    requires Loaded(r, w, i) && i.state.Investigate? && i.snapshot.Some? && r.source != r.destination
    ensures var o := Reconcile(r, w, i);
            if SettleAbsent(r, w).Unproven? && !Eligible(w, i.(state := Quarantined)) then !o.ok && o.world == w && o.item == i
            else o.ok && o.item == Entering(i, Quarantined, w.now).(reason := NoReason)
                 && o.world == w.(journal := Some(o.item)) && Loaded(r, o.world, o.item)
  {
    CommitSucceeds(r, w, i, Entering(i, Quarantined, w.now).(reason := NoReason));
  }

  /** A dry run leaves out exactly what a confirmed run leaves alone. Of the rest, the confirmed run
      settles exactly those that were clean, but for a worktree back at its source that Git does not
      know: it is clean, and the confirmed run ends in an error. */
  lemma PreviewAgrees(r: Receipt, run: seq<Step>, item: Item)
    requires Run(r, run) && Last(run).journal == Some(item)
    ensures var w := Last(run);
            && (PreviewedExpiry(r, w, item).NotListed? <==> !ConsideredByExpiry(r, w, item))
            && (ConsideredByExpiry(r, w, item) ==>
                  (Settled(ConfirmedExpiry(r, w, item)) <==> PreviewedExpiry(r, w, item).Clean? && PreviewHolds(r, w)))
  {
    var w := Last(run);
    Runs.InvAlways(r, run, |run| - 1);
    if item.state.Investigate? && item.snapshot.Some? {
      RetriedReconcile(r, w, item);
      var o := Reconcile(r, w, item);
      if o.ok && DueForExpiry(r, o.world, o.item) {
        DeleteSettlesExactlyWhenPreviewed(r, o.world, o.item);
      }
    } else if DueForExpiry(r, w, item) {
      DeleteSettlesExactlyWhenPreviewed(r, w, item);
    }
  }

  /** Whatever Git says, a receipt whose preview is not clean keeps its object where it is. */
  lemma ComplaintKeepsObject(r: Receipt, w: World, item: Item)
    requires Inv(r, w) && w.journal == Some(item)
    requires !PreviewedExpiry(r, w, item).Clean?
    ensures var o := ConfirmedExpiry(r, w, item);
            && o.world.source == w.source && o.world.dirs == w.dirs && o.world.whole == w.whole
            && (o.item.state.Deleted? ==> item.state.Deleted?)
  {
  }

  ghost predicate RemovedAndMarked(r: Receipt, w: World, o: Outcome) {
    && o.ok && o.item.state.Deleted? && Gone(o.world, r.target)
    && o.world.journal == Some(o.item)
    && HasMarker(r, o.world)
    && o.world.source == w.source
    && (forall d :: d in w.dirs && Some(d) != w.current ==> d in o.world.dirs && o.world.dirs[d] == w.dirs[d])
  }

  lemma CleanPreviewRemoves(r: Receipt, w: World, item: Item)
    requires Inv(r, w) && w.journal == Some(item)
    requires PreviewedExpiry(r, w, item).Clean? && Destination(w).Some?
    ensures RemovedAndMarked(r, w, ConfirmedExpiry(r, w, item))
  {
    var o := ConfirmedExpiry(r, w, item);
    assert InDir(w, w.current.value, r.target);
    forall d ensures !InDir(o.world, d, r.target) {
      assert d != w.current.value ==> !InDir(w, d, r.target);
    }
  }

  /** After any run, a clean preview of a receipt whose object is still in place means
      it will be marked and removed, and nothing else on the filesystem changes. */
  lemma CleanPreviewOfPresentObject(r: Receipt, run: seq<Step>, item: Item)
    requires Run(r, run) && Last(run).journal == Some(item)
    requires PreviewedExpiry(r, Last(run), item).Clean? && Destination(Last(run)).Some?
    ensures RemovedAndMarked(r, Last(run), ConfirmedExpiry(r, Last(run), item))
  {
    Runs.InvAlways(r, run, |run| - 1);
    CleanPreviewRemoves(r, Last(run), item);
  }
}
