// The engine itself (internal/action/engine.go, retention.go, rename_linux.go,
// marker_linux.go, delete_linux.go). Every primitive lets the environment act
// first, may fail before or after its effect, and records its step, so a crash
// is simply a run that stops and is resumed by another Engine. A calm engine
// meets neither interference nor faults.
module Engines {
  import opened Wrappers
  import opened Retentions
  import opened Journal
  import opened Worlds
  import opened Protocol

  /** What a caller still knows about the names after the environment acted: nobody but the engine moves the object. */
  ghost predicate SameNames(r: Receipt, w: World, v: World) {
    && v.current == w.current
    && w.now <= v.now
    && (AtSource(v, r.target) <==> AtSource(w, r.target))
    && (Destination(v) == Some(r.target) <==> Destination(w) == Some(r.target))
    && (Gone(v, r.target) <==> Gone(w, r.target))
  }

  /** Event e was recorded for this row and this receipt directory. */
  ghost predicate Happened(run: seq<Step>, e: Event, row: Option<Item>, current: Option<DirId>) {
    exists j :: 0 <= j < |run| && run[j].event == e && run[j].before.journal == row && run[j].before.current == current
  }

  /** History is never rewritten. */
  ghost predicate Grown(past: seq<Step>, run: seq<Step>) {
    past <= run
  }

  ghost predicate Recorded(past: seq<Step>, run: seq<Step>) {
    && past <= run
    && forall e, row, current :: Happened(past, e, row, current) ==> Happened(run, e, row, current)
  }

  lemma RecordStep(r: Receipt, run: seq<Step>, s: Step)
    requires Run(r, run) && Inv(r, Last(run)) && s.before == Last(run) && Allowed(r, s)
    requires s.event.Vetted? ==> Happened(run, Unreferenced, s.before.journal, s.before.current)
    requires s.event.Cleared? ==> Happened(run, Vetted, s.before.journal, s.before.current)
    requires s.event.Marked? ==> Happened(run, Cleared, s.before.journal, s.before.current)
    requires s.event.Damaged? || s.event.Removed? ==> Happened(run, Marked, s.before.journal, s.before.current)
    ensures Run(r, run + [s]) && Last(run + [s]) == s.after && Inv(r, s.after)
    ensures Recorded(run, run + [s])
    ensures Happened(run + [s], s.event, s.before.journal, s.before.current)
  {
    StepKeepsInv(r, s);
    var longer := run + [s];
    forall e, row, current | Happened(run, e, row, current) ensures Happened(longer, e, row, current) {
      var j :| 0 <= j < |run| && run[j].event == e && run[j].before.journal == row && run[j].before.current == current;
      assert longer[j] == run[j];
    }
    forall i | 0 <= i < |longer| ensures Ordered(longer, i) {
      if i < |run| {
        assert Ordered(run, i);
        forall e | Preceded(run, i, e) ensures Preceded(longer, i, e) {
          var j :| 0 <= j < i && run[j].event == e && run[j].before.journal == run[i].before.journal
                   && run[j].before.current == run[i].before.current;
          assert longer[j] == run[j];
        }
      }
    }
    assert longer[|run|] == s;
  }

  /** Whatever the environment does inside a call, Interfere's contract allows for it. */
  lemma InterferenceIsAllowedFor(r: Receipt, run: seq<Step>, v: World)
    requires Run(r, run) && Inv(r, Last(run)) && Inside(r, Last(run), v)
    ensures var longer := run + [Step(Last(run), Environment, v)];
            && Run(r, longer) && Last(longer) == v && Inv(r, v)
            && SameNames(r, Last(run), v) && v.journal == Last(run).journal && Recorded(run, longer)
  {
    var w := Last(run);
    RecordStep(r, run, Step(w, Environment, v));
    assert w.current.Some? ==> (InDir(v, w.current.value, r.target) <==> InDir(w, w.current.value, r.target));
  }

  datatype Stat = Failed | Seen(occupant: Option<Identity>)

  /** What everyone else makes of the world when their turn comes. */
  type Others = (nat, World) -> World

  /** They may do anything that Inside allows, and do nothing at all while it is calm. */
  ghost predicate Lawful(r: Receipt, calm: bool, others: Others) {
    forall n: nat, w: World :: (w.current.Some? ==> w.current.value in w.dirs) ==>
      Inside(r, w, others(n, w)) && (calm ==> others(n, w) == w)
  }

  class Engine {
    const r: Receipt
    const calm: bool
    const others: Others
    var turn: nat
    var world: World
    ghost var run: seq<Step>

    ghost predicate Valid()
      reads this
    {
      Run(r, run) && Last(run) == world && Inv(r, world) && Lawful(r, calm, others)
    }

    /** The first process, before anything is journaled. */
    constructor Begin(r: Receipt, w: World, calm: bool, others: Others)
      requires Initial(r, w) && Lawful(r, calm, others)
      ensures Valid() && this.r == r && this.calm == calm && world == w
    {
      this.r, this.calm, this.others, this.world, turn := r, calm, others, w, 0;
      this.run := [Step(w, Environment, w)];
    }

    /** Any later process: all it inherits is the world, after whatever others did to it meanwhile. */
    constructor Resume(r: Receipt, w: World, calm: bool, others: Others, ghost past: seq<Step>)
      requires Run(r, past) && Inv(r, Last(past)) && Outside(r, Last(past), w) && Lawful(r, calm, others)
      ensures Valid() && this.r == r && this.calm == calm && world == w
      ensures Recorded(past, run)
    {
      this.r, this.calm, this.others, this.world, turn := r, calm, others, w, 0;
      this.run := past + [Step(Last(past), Environment, w)];
      new;
      RecordStep(r, past, Step(Last(past), Environment, w));
    }

    // -------------------------------------------------------------- primitives

    /** The names are as they were; only the environment acted. */
    ghost predicate Undisturbed(w: World, past: seq<Step>)
      reads this
    {
      && Valid()
      && SameNames(r, w, world)
      && world.journal == w.journal
      && Grown(past, run)
      && (calm ==> world == w)
    }

    /** Everyone else has a turn. Callers learn only what Inside leaves them. */
    method Interfere()
      requires Valid()
      modifies this
      ensures Undisturbed(old(world), old(run)) && Recorded(old(run), run)
    {
      var next := others(turn, world);
      InterferenceIsAllowedFor(r, run, next);
      run := run + [Step(world, Environment, next)];
      world, turn := next, turn + 1;
    }

    method Fault() returns (failed: bool)
      ensures calm ==> !failed
    {
      failed := *;
      if calm {
        failed := false;
      }
    }

    method Now() returns (t: Time)
      requires Valid()
      modifies this
      ensures Undisturbed(old(world), old(run))
      ensures t == world.now
    {
      Interfere();
      t := world.now;
    }

    method LstatSource() returns (s: Stat)
      requires Valid()
      modifies this
      ensures Undisturbed(old(world), old(run))
      ensures s.Failed? || s == Seen(world.source)
      ensures calm ==> s.Seen?
    {
      Interfere();
      var failed := Fault();
      s := if failed then Failed else Seen(world.source);
    }

    method LstatDestination() returns (s: Stat)
      requires Valid()
      modifies this
      ensures Undisturbed(old(world), old(run))
      ensures s.Failed? || s == Seen(Destination(world))
      ensures calm ==> s.Seen?
    {
      Interfere();
      var failed := Fault();
      s := if failed then Failed else Seen(Destination(world));
    }

    /** Both names, one after the other. What is seen of the object itself still holds afterwards. */
    method LstatNames() returns (src: Stat, dst: Stat)
      requires Valid()
      modifies this
      ensures Undisturbed(old(world), old(run))
      ensures src.Seen? ==> (src.occupant == Some(r.target) <==> AtSource(world, r.target))
      ensures dst.Seen? ==> (dst.occupant == Some(r.target) <==> Destination(world) == Some(r.target))
      ensures calm ==> src == Seen(world.source) && dst == Seen(Destination(world))
    {
      src := LstatSource();
      dst := LstatDestination();
    }

    /** VerifyLinkedWorktree, asked only of receipts that are linked worktrees. */
    method VerifyRegistration() returns (ok: bool)
      requires Valid()
      modifies this
      ensures Undisturbed(old(world), old(run))
      ensures calm ==> (ok <==> RegistrationValid(r, world))
    {
      ok := true;
      if r.worktree {
        Interfere();
        var failed := Fault();
        ok := !failed && world.oracle.registered;
      }
    }

    /** recollectReceipt: the identity a complete fresh observation found at the destination. */
    method Recollect() returns (found: Option<Identity>)
      requires Valid()
      modifies this
      ensures Undisturbed(old(world), old(run))
      ensures found.Some? ==> found == Destination(world)
      ensures calm ==> found == if world.oracle.observable then Destination(world) else None
    {
      Interfere();
      var failed := Fault();
      found := if failed || !world.oracle.observable then None else Destination(world);
    }

    /** The optimistic journal update. An error may be reported for a row that was written. */
    method Update(item: Item, expected: State) returns (ok: bool)
      requires Valid()
      requires UpdateAccepted(world.journal, item, expected) ==> JournalBacked(r, world, item)
      modifies this
      ensures Valid() && SameNames(r, old(world), world) && Grown(old(run), run)
      ensures world.journal == old(world.journal)
              || (UpdateAccepted(old(world.journal), item, expected) && world.journal == Some(item))
      ensures ok ==> world.journal == Some(item)
      ensures calm ==> Outcome(world, item, ok) == Commit(old(world), item, expected)
    {
      hide Run, Lawful;
      Interfere();
      var failed := Fault();
      var lost: bool := *;
      if !UpdateAccepted(world.journal, item, expected) || (failed && lost) {
        return false;
      }
      ghost var step := Step(world, Journaled, world.(journal := Some(item)));
      assert forall d :: InDir(step.after, d, r.target) <==> InDir(step.before, d, r.target);
      RecordStep(r, run, step);
      world := world.(journal := Some(item));
      run := run + [step];
      ok := !failed;
    }

    /** renameNoReplace from the source into the receipt directory. It may report a failure after moving. */
    method MoveOut(expected: Identity) returns (ok: bool)
      requires Valid() && expected == r.target
      requires world.journal.Some? && world.journal.value.state.Prepared?
      modifies this
      ensures Valid() && Grown(old(run), run) && world.journal == old(world.journal)
      ensures ok ==> Destination(world) == Some(r.target)
      ensures calm ==> var w := old(world);
                       if AtSource(w, r.target) && Destination(w).None? && w.current.Some? && RegistrationValid(r, w)
                       then ok && world == WithItem(w, Some(r.target)).(source := None)
                       else !ok && world == w
    {
      Interfere();
      var failed := Fault();
      var late: bool := *;
      if world.source != Some(expected) || Destination(world).Some? || world.current.None?
         || (r.worktree && !world.oracle.registered) || (failed && !late) {
        return false;
      }
      ghost var step := Step(world, MovedOut, WithItem(world, Some(r.target)).(source := None));
      RecordStep(r, run, step);
      world := WithItem(world, Some(expected)).(source := None);
      run := run + [step];
      ok := !failed;
    }

    method MoveBack(expected: Identity) returns (ok: bool)
      requires Valid() && expected == r.target
      requires world.journal.Some? && !world.journal.value.state.Restored? && !world.journal.value.state.Deleted?
      modifies this
      ensures Valid() && Grown(old(run), run) && world.journal == old(world.journal) && old(world).now <= world.now
      ensures ok ==> AtSource(world, r.target)
      ensures calm ==> var w := old(world);
                       if Destination(w) == Some(r.target) && w.source.None? && RegistrationValid(r, w)
                       then ok && world == WithItem(w, None).(source := Some(r.target))
                       else !ok && world == w
    {
      Interfere();
      var failed := Fault();
      var late: bool := *;
      if Destination(world) != Some(expected) || world.source.Some?
         || (r.worktree && !world.oracle.registered) || (failed && !late) {
        return false;
      }
      ghost var step := Step(world, MovedBack, WithItem(world, None).(source := Some(r.target)));
      RecordStep(r, run, step);
      world := WithItem(world, None).(source := Some(expected));
      run := run + [step];
      ok := !failed;
    }

    /** The evidence an in-memory item shares with its row. */
    ghost predicate Same(item: Item)
      reads this
    {
      && item.receipt == r
      && world.journal.Some?
      && item.snapshot == world.journal.value.snapshot
      && item.movedAt == world.journal.value.movedAt
    }

    /** What every observation of an evaluation leaves. */
    ghost predicate Observed(w: World, past: seq<Step>, ok: bool, e: Event)
      reads this
    {
      Undisturbed(w, past) && Recorded(past, run) && (ok ==> Happened(run, e, world.journal, world.current))
    }

    /** originalReferences. */
    method ObserveReferences() returns (ok: bool)
      requires Valid()
      modifies this
      ensures Observed(old(world), old(run), ok, Unreferenced)
      ensures calm ==> (ok <==> world.oracle.unreferenced)
    {
      Interfere();
      var failed := Fault();
      ok := !failed && world.oracle.unreferenced;
      if ok {
        Note(Unreferenced);
      }
    }

    /** safety.Open, Revalidate and the second verdict on the original name. */
    method Vet(target: Identity) returns (ok: bool)
      requires Valid() && target == r.target && Happened(run, Unreferenced, world.journal, world.current)
      modifies this
      ensures Observed(old(world), old(run), ok, Vetted)
      ensures calm ==> (ok <==> world.oracle.guards && Destination(world) == Some(target))
    {
      Interfere();
      var failed := Fault();
      ok := !failed && world.oracle.guards && Destination(world) == Some(target);
      if ok {
        Note(Vetted);
      }
    }

    /** verifyDeletionTree. */
    method VerifyTree(item: Item, target: Identity) returns (ok: bool)
      requires Valid() && Same(item) && target == r.target && Happened(run, Vetted, world.journal, world.current)
      requires item.snapshot.Some? && item.movedAt.Some? && Expired(r.retention, item.movedAt.value, world.now)
      modifies this
      ensures Observed(old(world), old(run), ok, Cleared)
      ensures ok ==> Destination(world) == Some(target)
      ensures calm ==> (ok <==> Destination(world) == Some(target))
    {
      Interfere();
      var failed := Fault();
      ok := !failed && Destination(world) == Some(target);
      if ok {
        Note(Cleared);
      }
    }

    ghost method Note(e: Event)
      requires Valid() && Allowed(r, Step(world, e, world))
      requires !e.Marked? && !e.Damaged? && !e.Removed?
      requires e.Vetted? ==> Happened(run, Unreferenced, world.journal, world.current)
      requires e.Cleared? ==> Happened(run, Vetted, world.journal, world.current)
      modifies `run
      ensures Valid() && Recorded(old(run), run) && Happened(run, e, world.journal, world.current)
    {
      RecordStep(r, run, Step(world, e, world));
      run := run + [Step(world, e, world)];
    }

    /** Eligible: the complete second observation, each part at its own moment. It never deletes. */
    method Evaluate(item: Item) returns (ok: bool)
      requires Valid() && Same(item)
      modifies this
      ensures Undisturbed(old(world), old(run))
      ensures ok ==> Happened(run, Cleared, world.journal, world.current)
      ensures ok ==> item.state.Quarantined? && item.snapshot.Some? && item.movedAt.Some?
      ensures ok ==> Expired(r.retention, item.movedAt.value, world.now) && Destination(world) == Some(r.target)
      ensures calm ==> (ok <==> Eligible(world, item))
    {
      var now := Now();
      if !item.state.Quarantined? || item.movedAt.None? || !Expired(r.retention, item.movedAt.value, now)
         || item.snapshot.None? {
        return false;
      }
      ok := ObserveReferences();
      if ok {
        ok := VetAndVerify(item, item.snapshot.value.target);
      }
    }

    method VetAndVerify(item: Item, target: Identity) returns (ok: bool)
      requires Valid() && Same(item) && target == r.target && Happened(run, Unreferenced, world.journal, world.current)
      requires item.snapshot.Some? && item.movedAt.Some? && Expired(r.retention, item.movedAt.value, world.now)
      modifies this
      ensures Observed(old(world), old(run), ok, Cleared)
      ensures ok ==> Destination(world) == Some(target)
      ensures calm ==> (ok <==> world.oracle.guards && Destination(world) == Some(target))
    {
      ok := Vet(target);
      if ok {
        ok := VerifyTree(item, target);
      }
    }

    /** writeDeletionMarker: only into a directory that, once opened, holds the object. */
    method WriteMarker() returns (ok: bool)
      requires Valid()
      requires CanMark(r, world) && Happened(run, Cleared, world.journal, world.current)
      modifies this
      ensures Valid() && SameNames(r, old(world), world) && world.journal == old(world.journal) && Grown(old(run), run)
      ensures ok ==> Happened(run, Marked, world.journal, world.current)
      ensures calm ==> ok && world == WithMarker(r, old(world))
    {
      Interfere();
      var failed := Fault();
      var late: bool := *;
      if Destination(world) != Some(r.target) || (failed && !late) {
        return false;
      }
      Mark();
      ok := !failed;
    }

    /** The marker file appears. */
    method Mark()
      requires Valid() && CanMark(r, world) && Happened(run, Cleared, world.journal, world.current)
      modifies `run, `world
      ensures Valid() && Grown(old(run), run) && world == WithMarker(r, old(world))
      ensures SameNames(r, old(world), world) && Happened(run, Marked, world.journal, world.current)
    {
      run := MarkStep(r, run, world);
      world := WithMarker(r, world);
    }

    /** deleteAnchored: it may stop part-way through the tree, or fail after the last unlink. */
    method RemoveObject(expected: Identity) returns (ok: bool)
      requires Valid() && expected == r.target
      requires CanMark(r, world) && Happened(run, Marked, world.journal, world.current)
      modifies this
      ensures Valid() && world.journal == old(world.journal) && Grown(old(run), run) && old(world).now <= world.now
      ensures ok ==> Gone(world, r.target)
      ensures calm ==> ok && world == WithItem(old(world), None)
    {
      Interfere();
      var failed := Fault();
      var late: bool := *;
      var partial: bool := *;
      if Destination(world) != Some(expected) || (failed && !late && !partial) {
        return false;
      }
      if failed && !late {
        ghost var step := Step(world, Damaged, world.(whole := false));
        RecordStep(r, run, step);
        world := world.(whole := false);
        run := run + [step];
        return false;
      }
      ghost var step := Step(world, Removed, WithItem(world, None));
      RemovalLosesTheObject(r, world);
      RecordStep(r, run, step);
      world := WithItem(world, None);
      run := run + [step];
      ok := !failed;
    }

    // -------------------------------------------------------------- operations

    /** Prepare: a durable receipt before anything moves. */
    method Prepare() returns (item: Item, ok: bool)
      requires Valid() && world.journal.None?
      modifies this
      ensures Valid() && Grown(old(run), run)
      ensures AtSource(world, r.target)
      ensures world.journal.None? || (world.journal == Some(item) && ValidInitial(item))
      ensures ok ==> world.journal == Some(item) && world.current.Some?
      ensures calm ==> ok && world.source == old(world).source && Destination(world) == Destination(old(world))
    {
      var now := Now();
      item, ok := Item(r, Prepared, None, now, now, None, None, NoReason), false;
      var made := MakeReceiptDirectory();
      if !made {
        return;
      }
      var stat := LstatSource();
      if stat.Failed? || stat.occupant.None? {
        return;
      }
      ok := Insert(item);
      if ok {
        // Installing the manifest only writes inside the receipt directory.
        var failed := Fault();
        ok := !failed;
      }
    }

    method MakeReceiptDirectory() returns (ok: bool)
      requires Valid() && world.journal.None?
      modifies this
      ensures Valid() && Grown(old(run), run)
      ensures world.journal.None? && old(world).now <= world.now
      ensures ok ==> world.current.Some?
      ensures calm ==> ok && world.source == old(world).source && Destination(world) == Destination(old(world))
    {
      Interfere();
      var failed := Fault();
      if failed {
        return false;
      }
      if world.current.None? {
        // The kernel gives a new directory an identity no other directory has.
        ghost var unused := Bounded(world.dirs.Keys);
        assert unused !in world.dirs;
        var d: DirId :| d !in world.dirs;
        ghost var step := Step(world, DirectoryMade, world.(current := Some(d), dirs := world.dirs[d := Dir(None, None)]));
        RecordStep(r, run, step);
        world := world.(current := Some(d), dirs := world.dirs[d := Dir(None, None)]);
        run := run + [step];
      }
      ok := true;
    }

    method Insert(item: Item) returns (ok: bool)
      requires Valid() && world.journal.None?
      requires ValidInitial(item) && item.receipt == r && item.expiresAt.None? && item.updatedAt <= world.now
      modifies this
      ensures Valid() && Grown(old(run), run) && SameNames(r, old(world), world)
      ensures world.journal.None? || world.journal == Some(item)
      ensures ok ==> world.journal == Some(item)
      ensures calm ==> ok && world == old(world).(journal := Some(item))
    {
      Interfere();
      var failed := Fault();
      var lost: bool := *;
      if failed && lost {
        return false;
      }
      ghost var step := Step(world, Inserted, world.(journal := Some(item)));
      assert forall d :: InDir(step.after, d, r.target) <==> InDir(step.before, d, r.target);
      RecordStep(r, run, step);
      world := world.(journal := Some(item));
      run := run + [step];
      ok := !failed;
    }

    /** Quarantine: every gate, then the move, then the row. */
    method Quarantine(item: Item) returns (out: Item, ok: bool)
      requires Valid() && world.journal == Some(item)
      modifies this
      ensures Valid() && Grown(old(run), run)
      ensures world.journal == old(world.journal)
              || (world.journal == Some(out) && out.state.Quarantined? && Destination(world) == Some(r.target))
      ensures ok ==> world.journal == Some(out) && out.state.Quarantined?
      ensures calm ==> Outcome(world, out, ok) == Protocol.Quarantine(r, old(world), item)
    {
      out, ok := item, false;
      if !item.state.Prepared? {
        return;
      }
      var failed := Fault();
      if failed {
        return;
      }
      // safety.Open anchors a handle; an allowed verdict means the handle is the planned object.
      var handle := LstatSource();
      if handle.Failed? || handle.occupant.None? {
        return;
      }
      var allowed := Revalidate(handle.occupant.value);
      if !allowed {
        return;
      }
      var destination := LstatDestination();
      if destination != Seen(None) {
        return;
      }
      var moved := MoveOut(handle.occupant.value);
      if !moved {
        return;
      }
      failed := Fault();
      if failed {
        return;
      }
      out, ok := FinishMove(item);
    }

    method Revalidate(handle: Identity) returns (ok: bool)
      requires Valid()
      modifies this
      ensures Undisturbed(old(world), old(run))
      ensures ok ==> handle == r.target
      ensures calm ==> (ok <==> handle == r.target && world.oracle.revalidates)
    {
      Interfere();
      var failed := Fault();
      ok := !failed && handle == r.target && world.oracle.revalidates;
    }

    method FinishMove(item: Item) returns (out: Item, ok: bool)
      requires Valid() && world.journal == Some(item) && item.state.Prepared?
      modifies this
      ensures Valid() && Grown(old(run), run)
      ensures SameNames(r, old(world), world)
      ensures world.journal == Some(item)
              || (world.journal == Some(out) && out.state.Quarantined? && Destination(world) == Some(r.target))
      ensures out.receipt == r
      ensures ok ==> world.journal == Some(out) && out.state.Quarantined? && out.snapshot.Some?
      ensures ok ==> Destination(world) == Some(r.target) && !AtSource(world, r.target)
      ensures calm ==> Outcome(world, out, ok) == Protocol.FinishMove(r, old(world), item)
    {
      hide Run, Lawful;
      out, ok := item, false;
      var source := LstatSource();
      if source != Seen(None) {
        return;
      }
      var found := Recollect();
      if found != Some(r.target) {
        return;
      }
      var verified := VerifyRegistration();
      if !verified {
        return;
      }
      var moved := Now();
      out := Protocol.Confirmed(r, item, moved);
      ok := Update(out, Prepared);
    }

    /** settleAbsent: three reads, each at its own moment. */
    method Settle() returns (a: Absence)
      requires Valid()
      modifies this
      ensures Undisturbed(old(world), old(run))
      ensures a.WasDeleted? ==> Gone(world, r.target)
      ensures a.WasRestored? ==> AtSource(world, r.target)
      ensures calm ==> a == SettleAbsent(r, world)
    {
      var destination := LstatDestination();
      if destination != Seen(None) {
        return Unproven;
      }
      ghost var first := world;
      var source := LstatSource();
      if source.Seen? && Matches(source.occupant, r.target) {
        return WasRestored;
      }
      if source.Failed? {
        return Unproven;
      }
      Interfere();
      var failed := Fault();
      if failed || !HasMarker(r, world) {
        return Unproven;
      }
      MarkedAndAbsentIsGone(r, first, world);
      a := WasDeleted;
    }

    /** The row may enter the next state if it is still the one in memory. */
    ghost predicate MayEnter(item: Item, next: State, expected: State)
      reads this
    {
      && Valid() && item.receipt == r && world.journal.Some?
      && (world.journal.value.state == expected ==> world.journal == Some(item))
      && (next.Restored? ==> AtSource(world, r.target))
      && (next.Deleted? ==> Gone(world, r.target))
      && (next.Quarantined? ==> item.state.Investigate? && item.snapshot.Some?)
      && !next.Prepared?
    }

    /** Every operation's last step: stamp the item and compare-and-set its row. */
    method Advance(item: Item, next: State, reason: Reason, expected: State) returns (out: Item, ok: bool)
      requires MayEnter(item, next, expected)
      modifies this
      ensures Valid() && SameNames(r, old(world), world) && Grown(old(run), run)
      ensures out == Entering(item, next, out.updatedAt).(reason := reason)
      ensures world.journal == old(world.journal) || (world.journal == Some(out) && old(world.journal) == Some(item))
      ensures ok ==> world.journal == Some(out)
      ensures calm ==> Outcome(world, out, ok)
                       == Commit(old(world), Entering(item, next, old(world).now).(reason := reason), expected)
    {
      var now := Now();
      out := Entering(item, next, now).(reason := reason);
      ok := Update(out, expected);
    }

    /** investigate: always an error, whether or not the row was written. */
    method ToInvestigate(item: Item, reason: Reason) returns (out: Item)
      requires MayEnter(item, Investigate, item.state)
      modifies this
      ensures Valid() && SameNames(r, old(world), world) && Grown(old(run), run)
      ensures out == Entering(item, Investigate, out.updatedAt).(reason := reason)
      ensures world.journal == old(world.journal) || (world.journal == Some(out) && old(world.journal) == Some(item))
      ensures calm ==> Outcome(world, out, false) == Protocol.ToInvestigate(old(world), item, reason)
    {
      var written;
      out, written := Advance(item, Investigate, reason, item.state);
    }

    /** Reconcile resolves a crash between a journal write and a rename; it never guesses. */
    method Reconcile(item: Item) returns (out: Item, ok: bool)
      requires Valid() && world.journal == Some(item)
      modifies this
      ensures Reconciled(old(world), old(run), item, out, ok)
      ensures calm ==> Outcome(world, out, ok) == Protocol.Reconcile(r, old(world), item)
    {
      if item.state.Investigate? && item.snapshot.Some? && item.movedAt.Some? {
        out, ok := ReconcileInvestigated(item);
      } else if item.state.Prepared? {
        out, ok := ReconcilePrepared(item);
      } else if item.state.Quarantined? {
        out, ok := ReconcileQuarantined(item);
      } else {
        out, ok := item, true;
      }
    }

    ghost predicate Reconciled(w: World, past: seq<Step>, item: Item, out: Item, ok: bool)
      reads this
    {
      && Valid() && SameNames(r, w, world) && Grown(past, run)
      && out.receipt == r
      && (world.journal == Some(item) || world.journal == Some(out)
          || (item.state.Prepared? && world.journal.Some? && world.journal.value.state.Quarantined?))
      && (ok ==> world.journal == Some(out))
      && (out.state.Investigate? && world.journal != Some(out) ==> item.state.Prepared? || item.state.Quarantined?)
    }

    method ReconcileInvestigated(item: Item) returns (out: Item, ok: bool)
      requires Valid() && world.journal == Some(item)
      requires item.state.Investigate? && item.snapshot.Some? && item.movedAt.Some?
      modifies this
      ensures Reconciled(old(world), old(run), item, out, ok)
      ensures calm ==> Outcome(world, out, ok) == Protocol.ReconcileInvestigated(r, old(world), item)
    {
      out, ok := item, false;
      var candidate := item.(state := Quarantined);
      var settled := Settle();
      if settled.Unproven? {
        var eligible := Evaluate(candidate);
        if !eligible {
          return;
        }
      }
      out, ok := Advance(item, Quarantined, NoReason, Investigate);
    }

    method ReconcilePrepared(item: Item) returns (out: Item, ok: bool)
      requires Valid() && world.journal == Some(item) && item.state.Prepared?
      modifies this
      ensures Reconciled(old(world), old(run), item, out, ok)
      ensures calm ==> Outcome(world, out, ok) == Protocol.ReconcilePrepared(r, old(world), item)
    {
      hide Run, Lawful;
      var src, dst := LstatNames();
      var sourcePresent := src.Seen? && Matches(src.occupant, r.target);
      var destinationPresent := dst.Seen? && Matches(dst.occupant, r.target);
      if sourcePresent && dst == Seen(None) {
        return item, true;
      }
      var reason := PreparedConflict;
      if src == Seen(None) && destinationPresent {
        out, ok := FinishMove(item);
        if ok {
          return;
        }
        reason := PostMoveFailed;
      }
      out := ToInvestigate(item, reason);
      ok := false;
    }

    method ReconcileQuarantined(item: Item) returns (out: Item, ok: bool)
      requires Valid() && world.journal == Some(item) && item.state.Quarantined?
      modifies this
      ensures Reconciled(old(world), old(run), item, out, ok)
      ensures calm ==> Outcome(world, out, ok) == Protocol.ReconcileQuarantined(r, old(world), item)
    {
      out, ok := item, false;
      var src, dst := LstatNames();
      var sourcePresent := src.Seen? && Matches(src.occupant, r.target);
      var destinationPresent := dst.Seen? && Matches(dst.occupant, r.target);
      // An occupied source is an ordinary restore collision, not a reason to investigate.
      if destinationPresent && src.Seen? {
        return item, true;
      }
      var reason := QuarantinedConflict;
      if sourcePresent && dst == Seen(None) {
        var verified := VerifyRegistration();
        if verified {
          out, ok := Advance(item, Restored, item.reason, Quarantined);
          return;
        }
        reason := RegistrationInvalid;
      }
      out := ToInvestigate(item, reason);
    }

    /** Restore never overwrites an occupied original path. */
    method Restore(item: Item) returns (out: Item, ok: bool)
      requires Valid() && world.journal == Some(item)
      modifies this
      ensures Valid() && Grown(old(run), run)
      ensures ok ==> world.journal == Some(out) && out.state.Restored? && AtSource(world, r.target)
      ensures calm ==> Outcome(world, out, ok) == Protocol.Restore(r, old(world), item)
    {
      out, ok := Reconcile(item);
      if !ok && !out.state.Investigate? {
        return;
      }
      if out.state.Restored? {
        return;
      }
      out, ok := RestoreReconciled(out);
    }

    /** The row is the item's own, or reporting an investigation failed and left an older one. */
    ghost predicate Restorable(item: Item)
      reads this
    {
      && Valid() && world.journal.Some? && item.receipt == r
      && (world.journal == Some(item)
          || (item.state.Investigate?
              && (world.journal.value.state.Prepared? || world.journal.value.state.Quarantined?)))
    }

    method RestoreReconciled(item: Item) returns (out: Item, ok: bool)
      requires Restorable(item)
      modifies this
      ensures Valid() && Grown(old(run), run)
      ensures ok ==> world.journal == Some(out) && out.state.Restored? && AtSource(world, r.target)
      ensures calm ==> Outcome(world, out, ok) == Protocol.RestoreReconciled(r, old(world), item)
    {
      hide Run, Inv, Lawful;
      out, ok := item, false;
      if item.state.Prepared? {
        var src := LstatSource();
        if src.Failed? || !Matches(src.occupant, r.target) {
          return;
        }
        var dst := LstatDestination();
        if dst != Seen(None) {
          return;
        }
        out, ok := Advance(item, Restored, item.reason, Prepared);
        return;
      }
      if !item.state.Quarantined? && !item.state.Investigate? {
        return;
      }
      if item.state.Investigate? {
        var src, dst := LstatNames();
        if src.Seen? && Matches(src.occupant, r.target) && dst == Seen(None) {
          var verified := VerifyRegistration();
          if !verified {
            return;
          }
          out, ok := Advance(item, Restored, item.reason, Investigate);
          return;
        }
      }
      out, ok := RestoreByMove(item);
    }

    method RestoreByMove(item: Item) returns (out: Item, ok: bool)
      requires Restorable(item) && (item.state.Quarantined? || item.state.Investigate?)
      modifies this
      ensures Valid() && Grown(old(run), run)
      ensures ok ==> world.journal == Some(out) && out.state.Restored? && AtSource(world, r.target)
      ensures calm ==> Outcome(world, out, ok) == Protocol.RestoreByMove(r, old(world), item)
    {
      hide Run, Inv, Lawful;
      out, ok := item, false;
      var source := LstatSource();
      if source != Seen(None) {
        return;
      }
      // sameFilesystem inspects the quarantined object first.
      var inspected := LstatDestination();
      if inspected.Failed? || inspected.occupant.None? {
        return;
      }
      var destination := LstatDestination();
      if destination.Failed? || !Matches(destination.occupant, r.target) {
        if item.state.Quarantined? {
          out := ToInvestigate(item, ObjectChanged);
        }
        return;
      }
      var verified := VerifyRegistration();
      if !verified {
        return;
      }
      out, ok := CompleteRestore(item);
    }

    method CompleteRestore(item: Item) returns (out: Item, ok: bool)
      requires Restorable(item) && (item.state.Quarantined? || item.state.Investigate?)
      modifies this
      ensures Valid() && Grown(old(run), run)
      ensures ok ==> world.journal == Some(out) && out.state.Restored? && AtSource(world, r.target)
      ensures calm && Destination(old(world)) == Some(r.target) && old(world).source.None? && RegistrationValid(r, old(world)) ==>
                Outcome(world, out, ok)
                == Commit(WithItem(old(world), None).(source := Some(r.target)), Entering(item, Restored, old(world).now), item.state)
    {
      out, ok := item, false;
      var moved := MoveBack(r.target);
      var failed := Fault();
      if !moved || failed {
        return;
      }
      out, ok := Advance(item, Restored, item.reason, item.state);
    }

    /** Delete: settle an absent object, else evaluate, mark, remove and only then journal. */
    method Delete(item: Item) returns (out: Item, ok: bool)
      requires Valid() && world.journal == Some(item)
      modifies this
      ensures Valid() && Grown(old(run), run)
      ensures ok ==> world.journal == Some(out)
      ensures ok && out.state.Deleted? ==> Gone(world, r.target)
      ensures calm ==> Outcome(world, out, ok) == Protocol.Delete(r, old(world), item)
    {
      out, ok := item, false;
      var now := Now();
      if !item.state.Quarantined? || item.movedAt.None? || !Expired(r.retention, item.movedAt.value, now) {
        return;
      }
      var settled := Settle();
      match settled {
        case WasDeleted =>
          out, ok := Advance(item, Deleted,
            AlreadyDeleted, Quarantined);
        case WasRestored =>
          out, ok := Reconcile(item);
        case Unproven =>
          out, ok := DeletePresent(item);
      }
    }

    method DeletePresent(item: Item) returns (out: Item, ok: bool)
      requires Valid() && world.journal == Some(item) && item.state.Quarantined?
      modifies this
      ensures Valid() && Grown(old(run), run)
      ensures ok ==> world.journal == Some(out) && out.state.Deleted? && Gone(world, r.target)
      ensures calm ==> Outcome(world, out, ok) == Protocol.DeletePresent(r, old(world), item)
    {
      hide Run, Lawful;
      out, ok := item, false;
      var eligible := Evaluate(item);
      if !eligible {
        out := ToInvestigate(item, ExpiryRefused);
        return;
      }
      var removed := MarkAndRemove();
      if !removed {
        return;
      }
      out, ok := Advance(item, Deleted, item.reason, Quarantined);
    }

    /** The marker is durable before the first unlink. */
    method MarkAndRemove() returns (ok: bool)
      requires Valid()
      requires CanMark(r, world) && Happened(run, Cleared, world.journal, world.current)
      modifies this
      ensures Valid() && world.journal == old(world.journal) && Grown(old(run), run)
      ensures ok ==> Gone(world, r.target)
      ensures calm ==> ok && world == WithItem(WithMarker(r, old(world)), None)
    {
      ok := WriteMarker();
      if ok {
        ok := RemoveObject(r.target);
      }
    }

    // -------------------------------------------------------------- expiry runs

    method PreviewExpiry(item: Item) returns (clean: bool)
      requires Valid() && world.journal.Some? && Same(item)
      modifies this
      ensures Undisturbed(old(world), old(run))
      ensures calm ==> (clean <==> ExpiryPreview(r, world, item))
    {
      var settled := Settle();
      if !settled.Unproven? {
        return true;
      }
      clean := Evaluate(item);
    }

    method PreviewRetry(item: Item) returns (clean: bool)
      requires Valid() && world.journal == Some(item)
      modifies this
      ensures Undisturbed(old(world), old(run))
      ensures calm ==> (clean <==> RetryPreview(r, world, item))
    {
      var candidate := item.(state := Quarantined);
      var settled := Settle();
      if settled.Unproven? {
        var eligible := Evaluate(candidate);
        if !eligible {
          return false;
        }
      }
      var now := Now();
      if candidate.movedAt.None? || !Expired(r.retention, candidate.movedAt.value, now) {
        return false;
      }
      clean := PreviewExpiry(candidate);
    }

    /** One receipt of a dry run: it changes nothing at all. */
    method DryRun(item: Item) returns (p: Preview)
      requires Valid() && world.journal == Some(item)
      modifies this
      ensures Undisturbed(old(world), old(run))
      ensures calm ==> p == PreviewedExpiry(r, world, item)
    {
      if item.state.Investigate? {
        var clean := PreviewRetry(item);
        return if clean then Clean else Complaint;
      }
      var now := Now();
      if !item.state.Quarantined? || item.movedAt.None? || !Expired(r.retention, item.movedAt.value, now) {
        return NotListed;
      }
      var clean := PreviewExpiry(item);
      p := if clean then Clean else Complaint;
    }

    /** One receipt of a confirmed run. */
    method Expire(item: Item) returns (out: Item, ok: bool)
      requires Valid() && world.journal == Some(item)
      modifies this
      ensures Valid() && Grown(old(run), run)
      ensures ok ==> world.journal == Some(out)
      ensures calm ==> Outcome(world, out, ok) == ConfirmedExpiry(r, old(world), item)
    {
      out, ok := item, true;
      if item.state.Investigate? {
        out, ok := Reconcile(item);
        if !ok {
          return;
        }
      }
      if !out.state.Quarantined? {
        return;
      }
      var now := Now();
      if out.movedAt.None? || !Expired(r.retention, out.movedAt.value, now) {
        return;
      }
      out, ok := Delete(out);
    }
  }

  lemma Bounded(taken: set<DirId>) returns (bound: DirId)
    ensures forall d :: d in taken ==> d < bound
    decreases taken
  {
    bound := 0;
    if d :| d in taken {
      var below := Bounded(taken - {d});
      assert taken == (taken - {d}) + {d};
      bound := if below <= d then d + 1 else below;
    }
  }

  lemma MarkKeepsNames(r: Receipt, w: World)
    requires w.current.Some? && w.current.value in w.dirs
    ensures SameNames(r, w, WithMarker(r, w))
  {
    forall d ensures InDir(WithMarker(r, w), d, r.target) <==> InDir(w, d, r.target) {
    }
  }

  lemma MarkStep(r: Receipt, run: seq<Step>, w: World) returns (longer: seq<Step>)
    requires Run(r, run) && Last(run) == w && Inv(r, w) && CanMark(r, w) && Happened(run, Cleared, w.journal, w.current)
    ensures Run(r, longer) && Last(longer) == WithMarker(r, w) && Inv(r, WithMarker(r, w)) && Grown(run, longer)
    ensures SameNames(r, w, WithMarker(r, w)) && Happened(longer, Marked, w.journal, w.current)
  {
    var v := WithMarker(r, w);
    MarkKeepsNames(r, w);
    var step := Step(w, Marked, v);
    assert Allowed(r, step);
    RecordStep(r, run, step);
    longer := run + [step];
  }

  lemma RemovalLosesTheObject(r: Receipt, w: World)
    requires Inv(r, w) && Destination(w) == Some(r.target)
    ensures Gone(WithItem(w, None), r.target)
  {
    assert InDir(w, w.current.value, r.target);
    forall d ensures !InDir(WithItem(w, None), d, r.target) {
      assert d != w.current.value ==> !InDir(w, d, r.target);
    }
  }

  /** With its marker present and the object not at its source, the object is gone exactly when it
      is not at the destination at that very moment. */
  lemma MarkedIsGoneExactlyWhenAbsent(r: Receipt, w: World)
    requires Inv(r, w) && HasMarker(r, w) && !AtSource(w, r.target)
    ensures Gone(w, r.target) <==> Destination(w) != Some(r.target)
  {
    assert Destination(w) == Some(r.target) <==> InDir(w, w.current.value, r.target);
  }

  /** Reading the destination earlier is as good, provided the receipt path named one directory throughout. */
  lemma MarkedAndAbsentIsGone(r: Receipt, first: World, last: World)
    requires Inv(r, last) && SameNames(r, first, last) && HasMarker(r, last) && !AtSource(last, r.target)
    ensures Gone(last, r.target) <==> Destination(first) != Some(r.target)
  {
    MarkedIsGoneExactlyWhenAbsent(r, last);
  }
}
