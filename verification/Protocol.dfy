// What each engine call does to the world when nothing interferes and no
// primitive fails (internal/action/engine.go, internal/action/retention.go,
// internal/cli/apply.go). The Engine's methods are proved against these.
module Protocol {
  import opened Wrappers
  import opened Retentions
  import opened Journal
  import opened Worlds

  datatype Outcome = Outcome(world: World, item: Item, ok: bool)

  /** identityMatches: an unset identity matches nothing. */
  predicate Matches(seen: Option<Identity>, target: Identity) {
    seen.Some? && target != 0 && seen.value == target
  }

  function Refused(w: World, item: Item): Outcome { Outcome(w, item, false) }

  function Commit(w: World, item: Item, expected: State): (o: Outcome)
    ensures o.item == item && o.world == w.(journal := o.world.journal)
  {
    if UpdateAccepted(w.journal, item, expected) then Outcome(w.(journal := Some(item)), item, true)
    else Refused(w, item)
  }

  function Entering(item: Item, state: State, now: Time): Item {
    item.(state := state, updatedAt := now)
  }

  /** investigate always reports an error, whether or not its row was written. */
  function ToInvestigate(w: World, item: Item, reason: Reason): (o: Outcome)
    ensures !o.ok && o.item.state.Investigate? && o.world == w.(journal := o.world.journal)
  {
    Commit(w, Entering(item, Investigate, w.now).(reason := reason), item.state).(ok := false)
  }

  datatype Absence = Unproven | WasDeleted | WasRestored

  function SettleAbsent(r: Receipt, w: World): Absence {
    if Destination(w).Some? then Unproven
    else if Matches(w.source, r.target) then WasRestored
    else if HasMarker(r, w) then WasDeleted
    else Unproven
  }

  /** The gates of Eligible in their order. `guards` stands for the safety verdicts on the object
      and on its original name, and the last conjunct for the final walk of the object's tree. */
  predicate Eligible(w: World, item: Item) {
    && item.state.Quarantined?
    && item.movedAt.Some?
    && Expired(item.receipt.retention, item.movedAt.value, w.now)
    && item.snapshot.Some?
    && w.oracle.unreferenced
    && w.oracle.guards
    && Destination(w) == Some(item.snapshot.value.target)
  }

  predicate RegistrationValid(r: Receipt, w: World) { r.worktree ==> w.oracle.registered }

  function Confirmed(r: Receipt, item: Item, now: Time): Item {
    Entering(item, Quarantined, now).(
      movedAt := Some(now),
      expiresAt := match ExpiresAt(r.retention, now) case Some(t) => Some(t) case None => item.expiresAt,
      snapshot := Some(Snapshot(r.destination, r.target)))
  }

  function FinishMove(r: Receipt, w: World, item: Item): Outcome {
    if w.source.Some? || !w.oracle.observable || Destination(w) != Some(r.target) || !RegistrationValid(r, w)
    then Refused(w, item)
    else Commit(w, Confirmed(r, item, w.now), Prepared)
  }

  function Quarantine(r: Receipt, w: World, item: Item): Outcome {
    if !item.state.Prepared? || w.source != Some(r.target) || !w.oracle.revalidates
       || Destination(w).Some? || !RegistrationValid(r, w)
       || w.current.None? || w.current.value !in w.dirs
    then Refused(w, item)
    else FinishMove(r, WithItem(w, Some(r.target)).(source := None), item)
  }

  function Reconcile(r: Receipt, w: World, item: Item): Outcome {
    if item.state.Investigate? && item.snapshot.Some? && item.movedAt.Some? then ReconcileInvestigated(r, w, item)
    else if item.state.Prepared? then ReconcilePrepared(r, w, item)
    else if item.state.Quarantined? then ReconcileQuarantined(r, w, item)
    else Outcome(w, item, true)
  }

  function ReconcileInvestigated(r: Receipt, w: World, item: Item): Outcome {
    if SettleAbsent(r, w).Unproven? && !Eligible(w, item.(state := Quarantined)) then Refused(w, item)
    else Commit(w, Entering(item, Quarantined, w.now).(reason := NoReason), Investigate)
  }

  function ReconcilePrepared(r: Receipt, w: World, item: Item): Outcome {
    if Matches(w.source, r.target) && Destination(w).None? then Outcome(w, item, true)
    else if w.source.None? && Matches(Destination(w), r.target) then
      var finished := FinishMove(r, w, item);
      if finished.ok then finished else ToInvestigate(w, item, PostMoveFailed)
    else ToInvestigate(w, item, PreparedConflict)
  }

  function ReconcileQuarantined(r: Receipt, w: World, item: Item): Outcome {
    if Matches(Destination(w), r.target) then Outcome(w, item, true)
    else if Matches(w.source, r.target) && Destination(w).None? then
      if !RegistrationValid(r, w) then ToInvestigate(w, item, RegistrationInvalid)
      else Commit(w, Entering(item, Restored, w.now), Quarantined)
    else ToInvestigate(w, item, QuarantinedConflict)
  }

  function Restore(r: Receipt, w: World, item: Item): Outcome {
    var o := Reconcile(r, w, item);
    if (!o.ok && !o.item.state.Investigate?) || o.item.state.Restored? then o
    else RestoreReconciled(r, o.world, o.item)
  }

  function RestoreReconciled(r: Receipt, w: World, item: Item): Outcome {
    if item.state.Prepared? then
      if !Matches(w.source, r.target) || Destination(w).Some? then Refused(w, item)
      else Commit(w, Entering(item, Restored, w.now), Prepared)
    else if item.state.Deleted? || item.state.Restored? then Refused(w, item)
    else if item.state.Investigate? && Matches(w.source, r.target) && Destination(w).None? then
      if !RegistrationValid(r, w) then Refused(w, item) else Commit(w, Entering(item, Restored, w.now), Investigate)
    else RestoreByMove(r, w, item)
  }

  function RestoreByMove(r: Receipt, w: World, item: Item): Outcome {
    if w.source.Some? || Destination(w).None? then Refused(w, item)
    else if !Matches(Destination(w), r.target) then
      if item.state.Investigate? then Refused(w, item)
      else ToInvestigate(w, item, ObjectChanged)
    else if !RegistrationValid(r, w) then Refused(w, item)
    else Commit(WithItem(w, None).(source := Some(r.target)), Entering(item, Restored, w.now), item.state)
  }

  function Delete(r: Receipt, w: World, item: Item): Outcome {
    if !DueForExpiry(r, w, item) then Refused(w, item)
    else match SettleAbsent(r, w)
      case WasDeleted =>
        Commit(w, Entering(item, Deleted, w.now).(
                 reason := AlreadyDeleted),
               Quarantined)
      case WasRestored => Reconcile(r, w, item)
      case Unproven => DeletePresent(r, w, item)
  }

  function DeletePresent(r: Receipt, w: World, item: Item): Outcome {
    if !Eligible(w, item) then ToInvestigate(w, item, ExpiryRefused)
    else if Destination(w) != Some(r.target) then Refused(w, item)
    else Commit(WithItem(WithMarker(r, w), None), Entering(item, Deleted, w.now), Quarantined)
  }

  // ---------------------------------------------------------------- previews and the expiry dispatch

  predicate ExpiryPreview(r: Receipt, w: World, item: Item) {
    !SettleAbsent(r, w).Unproven? || Eligible(w, item)
  }

  predicate RetryPreview(r: Receipt, w: World, item: Item) {
    var candidate := item.(state := Quarantined);
    && (SettleAbsent(r, w).Unproven? ==> Eligible(w, candidate))
    && candidate.movedAt.Some?
    && Expired(r.retention, candidate.movedAt.value, w.now)
    && ExpiryPreview(r, w, candidate)
  }

  predicate DueForExpiry(r: Receipt, w: World, item: Item) {
    item.state.Quarantined? && item.movedAt.Some? && Expired(r.retention, item.movedAt.value, w.now)
  }

  /** One receipt of a confirmed expiry run. */
  function ConfirmedExpiry(r: Receipt, w: World, item: Item): Outcome {
    var o := if item.state.Investigate? then Reconcile(r, w, item) else Outcome(w, item, true);
    if o.ok && DueForExpiry(r, o.world, o.item) then Delete(r, o.world, o.item) else o
  }

  datatype Preview = NotListed | Clean | Complaint

  /** One receipt of a dry run. NotListed covers receipts an expiry leaves alone. */
  function PreviewedExpiry(r: Receipt, w: World, item: Item): Preview {
    if item.state.Investigate? then (if RetryPreview(r, w, item) then Clean else Complaint)
    else if !DueForExpiry(r, w, item) then NotListed
    else if ExpiryPreview(r, w, item) then Clean
    else Complaint
  }
}
