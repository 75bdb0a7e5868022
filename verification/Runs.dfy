// Safety of every run: any sequence of engine primitives, crashes and
// interference, stopped anywhere.
module Runs {
  import opened Wrappers
  import opened Retentions
  import opened Journal
  import opened Worlds

  lemma {:induction false} InvAlways(r: Receipt, run: seq<Step>, i: nat)
    requires Run(r, run) && i < |run|
    ensures Inv(r, run[i].before) && Inv(r, run[i].after)
  {
    if i > 0 {
      InvAlways(r, run, i - 1);
    }
    StepKeepsInv(r, run[i]);
  }

  /** Whatever is false at the start and true at step n became true in one step. */
  lemma {:induction false} Flip(r: Receipt, run: seq<Step>, n: nat, p: World -> bool) returns (k: nat)
    requires Run(r, run) && n < |run|
    requires !p(run[0].before) && p(run[n].after)
    ensures k <= n && !p(run[k].before) && p(run[k].after)
    decreases n
  {
    if p(run[n].before) {
      k := Flip(r, run, n - 1, p);
    } else {
      k := n;
    }
  }

  // ---------------------------------------------------------------- conservation

  /** Step k removed or damaged the object, after an earlier step durably marked the same directory. */
  ghost predicate DestroyedAfterMark(r: Receipt, run: seq<Step>, j: nat, k: nat)
    requires k < |run|
  {
    && j < k
    && (run[k].event.Removed? || run[k].event.Damaged?)
    && run[j].event.Marked? && HasMarker(r, run[j].after)
    && run[j].before.current == run[k].before.current
    && run[j].before.journal == run[k].before.journal
  }

  /** The earlier step that the order of a run calls for. */
  lemma PrecedingStep(r: Receipt, run: seq<Step>, i: nat, e: Event) returns (j: nat)
    requires Run(r, run) && i < |run| && Preceded(run, i, e)
    ensures j < i && run[j].event == e && Allowed(r, run[j]) && Ordered(run, j)
    ensures run[j].before.journal == run[i].before.journal && run[j].before.current == run[i].before.current
  {
    j :| 0 <= j < i && run[j].event == e && run[j].before.journal == run[i].before.journal
         && run[j].before.current == run[i].before.current;
  }

  lemma DestructionIsMarked(r: Receipt, run: seq<Step>, k: nat) returns (j: nat)
    requires Run(r, run) && k < |run| && (run[k].event.Removed? || run[k].event.Damaged?)
    ensures DestroyedAfterMark(r, run, j, k)
  {
    assert Ordered(run, k);
    j := PrecedingStep(r, run, k, Marked);
  }

  /** Conservation: no name shows the object twice, and it is missing or
      incomplete only if a marked expiry removed it. */
  lemma Conservation(r: Receipt, run: seq<Step>)
    requires Run(r, run)
    ensures OnePlace(r, Last(run))
    ensures Gone(Last(run), r.target) ==>
              exists j, k :: 0 <= k < |run| && DestroyedAfterMark(r, run, j, k) && run[k].event.Removed?
    ensures !Last(run).whole ==>
              exists j, k :: 0 <= k < |run| && DestroyedAfterMark(r, run, j, k)
  {
    var n := |run| - 1;
    InvAlways(r, run, n);
    if Gone(Last(run), r.target) {
      var k := Flip(r, run, n, w => Gone(w, r.target));
      OnlyRemovalLosesTheObject(r, run, k);
      var j := DestructionIsMarked(r, run, k);
    }
    if !Last(run).whole {
      var k := Flip(r, run, n, (w: World) => !w.whole);
      assert Allowed(r, run[k]);
      var j := DestructionIsMarked(r, run, k);
    }
  }

  lemma OnlyRemovalLosesTheObject(r: Receipt, run: seq<Step>, k: nat)
    requires Run(r, run) && k < |run|
    requires !Gone(run[k].before, r.target) && Gone(run[k].after, r.target)
    ensures run[k].event.Removed?
  {
    if !run[k].event.Removed? {
      OtherStepsKeepTheObject(r, run[k]);
    }
  }

  lemma OtherStepsKeepTheObject(r: Receipt, s: Step)
    requires Allowed(r, s) && !s.event.Removed? && !Gone(s.before, r.target)
    ensures !Gone(s.after, r.target)
  {
    StepEffect(r, s);
    if s.event.MovedOut? {
      assert InDir(s.after, s.before.current.value, r.target);
    } else if !AtSource(s.before, r.target) {
      var d :| InDir(s.before, d, r.target);
      assert s.event.MovedBack? || InDir(s.after, d, r.target);
    }
  }

  // ---------------------------------------------------------------- what a deleted receipt proves

  ghost predicate ConfirmedMove(r: Receipt, s: Step) {
    && s.event.Journaled?
    && s.before.journal.Some? && s.before.journal.value.state.Prepared?
    && s.after.journal.Some? && s.after.journal.value.state.Quarantined?
    && s.after.journal.value.snapshot.Some? && s.after.journal.value.movedAt.Some?
    && Destination(s.before) == Some(r.target)
  }

  /** Three observations at their own moments, of one row and one receipt directory, with retention
      expired and the object at the destination at the last of them. */
  ghost predicate PassedEvaluation(r: Receipt, run: seq<Step>, u: nat, v: nat, b: nat)
    requires u < v < b < |run|
  {
    && run[u].event.Unreferenced? && run[u].before.oracle.unreferenced
    && run[v].event.Vetted? && run[v].before.oracle.guards && Destination(run[v].before) == Some(r.target)
    && run[b].event.Cleared? && Destination(run[b].before) == Some(r.target)
    && run[b].before.journal.Some? && run[b].before.journal.value.movedAt.Some?
    && Expired(r.retention, run[b].before.journal.value.movedAt.value, run[b].before.now)
    && run[u].before.journal == run[v].before.journal == run[b].before.journal
    && run[u].before.current == run[v].before.current == run[b].before.current
  }

  ghost predicate JournaledDeleted(r: Receipt, s: Step) {
    && s.event.Journaled?
    && s.before.journal.Some? && s.before.journal.value.state.Quarantined?
    && s.after.journal.Some? && s.after.journal.value.state.Deleted?
    && Gone(s.before, r.target)
  }

  predicate Confirmed(w: World) { w.journal.Some? && w.journal.value.snapshot.Some? }

  lemma ConfirmedByAMove(r: Receipt, run: seq<Step>, n: nat) returns (a: nat)
    requires Run(r, run) && n < |run| && Confirmed(run[n].before)
    ensures a < n && ConfirmedMove(r, run[a])
  {
    assert n > 0;
    a := Flip(r, run, n - 1, w => Confirmed(w));
    assert Allowed(r, run[a]);
    InvAlways(r, run, a);
  }

  lemma MarkIsEvaluated(r: Receipt, run: seq<Step>, c: nat) returns (u: nat, v: nat, b: nat)
    requires Run(r, run) && c < |run| && run[c].event.Marked?
    ensures u < v < b < c && PassedEvaluation(r, run, u, v, b)
    ensures run[b].before.journal == run[c].before.journal && run[b].before.current == run[c].before.current
  {
    assert Ordered(run, c);
    b := PrecedingStep(r, run, c, Cleared);
    v := PrecedingStep(r, run, b, Vetted);
    u := PrecedingStep(r, run, v, Unreferenced);
  }

  lemma DeletedIsJournaled(r: Receipt, run: seq<Step>) returns (e: nat)
    requires Run(r, run)
    requires Last(run).journal.Some? && Last(run).journal.value.state.Deleted?
    ensures 0 < e < |run| && JournaledDeleted(r, run[e])
  {
    e := Flip(r, run, |run| - 1, (w: World) => w.journal.Some? && w.journal.value.state.Deleted?);
    assert Allowed(r, run[e]);
  }

  lemma GoneIsRemoved(r: Receipt, run: seq<Step>, e: nat) returns (d: nat)
    requires Run(r, run) && 0 < e < |run| && Gone(run[e].before, r.target)
    ensures d < e && run[d].event.Removed?
  {
    d := Flip(r, run, e - 1, w => Gone(w, r.target));
    OnlyRemovalLosesTheObject(r, run, d);
  }

  /** Soundness of deleted: confirmed move, then a passed evaluation of an expired
      receipt, then the marker, then the removal, and only then the row. */
  lemma DeletedIsEarned(r: Receipt, run: seq<Step>) returns (a: nat, u: nat, v: nat, b: nat, c: nat, d: nat, e: nat)
    requires Run(r, run)
    requires Last(run).journal.Some? && Last(run).journal.value.state.Deleted?
    ensures a < u < v < b < c < d < e < |run|
    ensures ConfirmedMove(r, run[a]) && PassedEvaluation(r, run, u, v, b)
    ensures run[c].event.Marked? && run[d].event.Removed? && JournaledDeleted(r, run[e])
    ensures run[b].before.journal == run[c].before.journal == run[d].before.journal
    ensures run[b].before.current == run[c].before.current == run[d].before.current
  {
    e := DeletedIsJournaled(r, run);
    d := GoneIsRemoved(r, run, e);
    c := DestructionIsMarked(r, run, d);
    u, v, b := MarkIsEvaluated(r, run, c);
    assert Allowed(r, run[b]);
    a := ConfirmedByAMove(r, run, u);
  }

  // ---------------------------------------------------------------- what never changes again

  /** restored and deleted are absorbing, and they tell the truth for ever. */
  lemma {:induction false} TerminalStays(r: Receipt, run: seq<Step>, i: nat, j: nat)
    requires Run(r, run) && i <= j < |run|
    requires run[i].before.journal.Some?
    requires run[i].before.journal.value.state.Restored? || run[i].before.journal.value.state.Deleted?
    ensures run[j].after.journal == run[i].before.journal
    ensures if run[i].before.journal.value.state.Restored? then AtSource(run[j].after, r.target)
            else Gone(run[j].after, r.target)
  {
    if i < j {
      TerminalStays(r, run, i, j - 1);
    }
    assert Allowed(r, run[j]);
    InvAlways(r, run, j);
  }

  /** The rows that may follow a state, at once or through others. */
  predicate Reaches(from: State, to: State) {
    match from
    case Prepared => true
    case Quarantined => !to.Prepared?
    case Investigate => !to.Prepared?
    case _ => to == from
  }

  /** What a row once said it says for ever: whose it is, when it was made, and the evidence of the move
      and its expiry; it is never dated back. */
  lemma {:induction false} EvidenceStays(r: Receipt, run: seq<Step>, i: nat, j: nat)
    requires Run(r, run) && i <= j < |run| && run[i].before.journal.Some?
    ensures run[j].after.journal.Some?
    ensures var (a, b) := (run[i].before.journal.value, run[j].after.journal.value);
            && b.receipt == a.receipt && b.createdAt == a.createdAt && a.updatedAt <= b.updatedAt
            && (a.movedAt.Some? ==> b.movedAt == a.movedAt)
            && (a.expiresAt.Some? ==> b.expiresAt == a.expiresAt)
            && (a.snapshot.Some? ==> b.snapshot == a.snapshot)
            && Reaches(a.state, b.state)
  {
    if i < j {
      EvidenceStays(r, run, i, j - 1);
    }
    assert Allowed(r, run[j]);
  }

  /** What a row says is so: when it was written, and the confirmed move with its expiry. */
  lemma RowIsTrue(r: Receipt, run: seq<Step>, i: Item)
    requires Run(r, run) && Last(run).journal == Some(i)
    ensures i.receipt == r && r.source != r.destination && i.createdAt <= i.updatedAt <= Last(run).now
    ensures i.movedAt.Some? <==> i.snapshot == Some(Snapshot(r.destination, r.target))
    ensures i.movedAt.Some? ==> i.movedAt.value <= Last(run).now && i.expiresAt == ExpiresAt(r.retention, i.movedAt.value)
    ensures i.movedAt.None? ==> i.snapshot.None? && i.expiresAt.None?
    ensures i.state.Quarantined? || i.state.Deleted? ==> i.movedAt.Some?
    ensures i.state.Prepared? ==> i.movedAt.None?
  {
    InvAlways(r, run, |run| - 1);
  }

  /** A receipt investigated without a confirmed move never leaves for deletion:
      it stays investigated or is restored, and its object is never lost. */
  lemma {:induction false} UnconfirmedIsNeverDeleted(r: Receipt, run: seq<Step>, i: nat, j: nat)
    requires Run(r, run) && i <= j < |run|
    requires run[i].before.journal.Some? && run[i].before.journal.value.snapshot.None?
    requires run[i].before.journal.value.state.Investigate?
    ensures run[j].after.journal.Some? && run[j].after.journal.value.snapshot.None?
    ensures run[j].after.journal.value.state.Investigate? || run[j].after.journal.value.state.Restored?
    ensures !Gone(run[j].after, r.target) && run[j].after.whole
  {
    if i < j {
      UnconfirmedIsNeverDeleted(r, run, i, j - 1);
    }
    assert Allowed(r, run[j]);
    InvAlways(r, run, j);
  }

  // ---------------------------------------------------------------- foreign objects

  /** One name: the original path, or `item` inside some directory. */
  datatype Slot = Original | ItemOf(d: DirId)

  function Occupant(w: World, s: Slot): Option<Identity> {
    match s
    case Original => w.source
    case ItemOf(d) => if d in w.dirs then w.dirs[d].item else None
  }

  /** Foreign objects are untouched: what anyone else put under a name stays there
      for as long as no one else takes it away, whatever the engine does in between. */
  lemma {:induction false} ForeignStays(r: Receipt, run: seq<Step>, i: nat, j: nat, s: Slot, x: Identity)
    requires Run(r, run) && i <= j < |run| && x != r.target
    requires Occupant(run[i].before, s) == Some(x)
    requires forall k :: i <= k <= j && run[k].event.Environment? ==> Occupant(run[k].after, s) == Some(x)
    ensures Occupant(run[j].after, s) == Some(x)
  {
    if i < j {
      ForeignStays(r, run, i, j - 1, s, x);
    }
    assert Allowed(r, run[j]);
  }

  /** Nor does the engine ever put anything but the receipt's own object under a name. */
  lemma EngineAddsNothing(r: Receipt, s: Step, slot: Slot)
    requires Allowed(r, s) && !s.event.Environment?
    requires Occupant(s.after, slot) != Occupant(s.before, slot)
    ensures (Occupant(s.before, slot) == Some(r.target) && Occupant(s.after, slot).None?)
            || (Occupant(s.before, slot).None? && Occupant(s.after, slot) == Some(r.target))
  {
  }
}
