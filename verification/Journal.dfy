// The durable receipt of one cleanup action and the rules under which its row
// may change (internal/core/cleanup.go, internal/store/cleanup.go).
module Journal {
  import opened Wrappers
  import opened Retentions

  /** A device and inode pair; 0 is the unset identity. */
  type Identity = nat

  type Path = string

  datatype State = Prepared | Quarantined | Restored | Deleted | Investigate {
    predicate CanTransitionTo(next: State) {
      match this
      case Prepared => next.Quarantined? || next.Restored? || next.Investigate?
      case Quarantined => next.Restored? || next.Deleted? || next.Investigate?
      case Investigate => next.Prepared? || next.Quarantined? || next.Restored?
      case _ => false
    }
  }

  /** What the planned action fixes once and for all. */
  datatype Receipt = Receipt(
    action: string, source: Path, destination: Path,
    target: Identity, worktree: bool, retention: Retention)

  datatype Snapshot = Snapshot(path: Path, target: Identity)

  /** The reason texts the engine writes; an expiry refusal also carries its cause, which is not modelled. */
  datatype Reason =
    | NoReason | PreparedConflict | PostMoveFailed | QuarantinedConflict | RegistrationInvalid
    | ObjectChanged | ExpiryRefused | AlreadyDeleted

  datatype Item = Item(
    receipt: Receipt, state: State, snapshot: Option<Snapshot>,
    createdAt: Time, updatedAt: Time, movedAt: Option<Time>, expiresAt: Option<Time>,
    reason: Reason)

  /** The clauses of Validate that the engine's own writes could break. */
  predicate ValidItem(i: Item) {
    && i.receipt.source != i.receipt.destination
    && i.createdAt <= i.updatedAt
    && (i.snapshot.Some? ==>
          && i.snapshot.value.path == i.receipt.destination
          && i.snapshot.value.target == i.receipt.target)
    && (i.state.Quarantined? ==> i.snapshot.Some?)
  }

  predicate ValidInitial(i: Item) {
    ValidItem(i) && i.state.Prepared? && i.movedAt.None? && i.snapshot.None?
  }

  /** What a row may never lose or change once it is written. */
  predicate KeepsEvidence(before: Item, after: Item) {
    && before.receipt == after.receipt
    && before.createdAt == after.createdAt
    && (before.movedAt.Some? ==> after.movedAt == before.movedAt)
    && (before.expiresAt.Some? ==> after.expiresAt == before.expiresAt)
    && (before.snapshot.Some? ==> after.snapshot == before.snapshot)
  }

  /** The optimistic update: every check UpdateCleanup makes before its compare-and-set commits. */
  predicate UpdateAccepted(row: Option<Item>, item: Item, expected: State) {
    && ValidItem(item)
    && expected.CanTransitionTo(item.state)
    && row.Some?
    && row.value.state == expected
    && KeepsEvidence(row.value, item)
    && row.value.updatedAt <= item.updatedAt
    && (row.value.snapshot.None? && item.snapshot.Some? ==> item.state.Quarantined?)
  }
}
