// Runs that end where a property of the protocol needs its condition
// (internal/action/engine.go, internal/action/retention.go).
module Witnesses {
  import opened Wrappers
  import opened Retentions
  import opened Journal
  import opened Worlds
  import opened Protocol
  import opened Recovery
  import opened Engines

  ghost predicate Reached(r: Receipt, run: seq<Step>, w: World) {
    Run(r, run) && Last(run) == w && Inv(r, w)
  }

  /** One more step. */
  lemma Next(r: Receipt, run: seq<Step>, w: World, e: Event, v: World) returns (longer: seq<Step>)
    requires Reached(r, run, w) && Allowed(r, Step(w, e, v))
    requires e.Vetted? ==> Happened(run, Unreferenced, w.journal, w.current)
    requires e.Cleared? ==> Happened(run, Vetted, w.journal, w.current)
    requires e.Marked? ==> Happened(run, Cleared, w.journal, w.current)
    requires e.Damaged? || e.Removed? ==> Happened(run, Marked, w.journal, w.current)
    ensures Reached(r, longer, v) && Happened(longer, e, w.journal, w.current)
  {
    RecordStep(r, run, Step(w, e, v));
    longer := run + [Step(w, e, v)];
  }

  const CALM := Oracle(true, true, true, true, true)

  function PreparedItem(r: Receipt): Item {
    Item(r, State.Prepared, None, 0, 0, None, None, NoReason)
  }

  /** The receipt directory 0 holds the object, and the row says so. */
  function MovedWorld(r: Receipt): World {
    World(None, Some(0), map[0 := Dir(Some(r.target), None)], true, Some(Confirmed(r, PreparedItem(r), 0)), 0, CALM)
  }

  /** A directory is made and the receipt inserted. */
  function ReceiptWorld(r: Receipt): World {
    World(Some(r.target), Some(0), map[0 := Dir(None, None)], true, Some(PreparedItem(r)), 0, CALM)
  }

  lemma ReceiptIsReached(r: Receipt) returns (run: seq<Step>)
    requires r.target != 0 && r.source != r.destination
    ensures Reached(r, run, ReceiptWorld(r))
  {
    var w0 := World(Some(r.target), None, map[], true, None, 0, CALM);
    run := [Step(w0, Environment, w0)];
    var w1 := w0.(current := Some(0), dirs := map[0 := Dir(None, None)]);
    assert 0 !in w0.dirs && w1.dirs == w0.dirs[0 := Dir(None, None)];
    run := Next(r, run, w0, DirectoryMade, w1);
    run := Next(r, run, w1, Inserted, ReceiptWorld(r));
  }

  lemma MovedIsReached(r: Receipt) returns (run: seq<Step>)
    requires r.target != 0 && r.source != r.destination
    ensures Reached(r, run, MovedWorld(r))
  {
    run := ReceiptIsReached(r);
    var w := ReceiptWorld(r);
    var v := WithItem(w, Some(r.target)).(source := None);
    run := Next(r, run, w, MovedOut, v);
    assert v.dirs == MovedWorld(r).dirs;
    run := Next(r, run, v, Journaled, MovedWorld(r));
  }

  lemma EvaluatedIsReached(r: Receipt) returns (run: seq<Step>)
    requires r.target != 0 && r.source != r.destination && r.retention == NoWait
    ensures var w := MovedWorld(r); Reached(r, run, w) && Happened(run, Cleared, w.journal, w.current)
  {
    var w := MovedWorld(r);
    run := MovedIsReached(r);
    run := Next(r, run, w, Unreferenced, w);
    run := Next(r, run, w, Vetted, w);
    run := Next(r, run, w, Cleared, w);
  }

  lemma MarkedIsReached(r: Receipt) returns (run: seq<Step>)
    requires r.target != 0 && r.source != r.destination && r.retention == NoWait
    ensures Reached(r, run, WithMarker(r, MovedWorld(r)))
  {
    run := EvaluatedIsReached(r);
    run := Next(r, run, MovedWorld(r), Marked, WithMarker(r, MovedWorld(r)));
  }

  /** A restore that stopped between its move and its row, and then Git forgot the worktree: no restore
      brings the row home, and a clean dry run is followed by an error. */
  lemma AForgottenWorktree(r: Receipt) returns (run: seq<Step>, item: Item)
    requires r.target != 0 && r.source != r.destination && r.worktree && r.retention == NoWait
    ensures Run(r, run) && Last(run).journal == Some(item) && Open(item) && Placed(r, Last(run))
    ensures forall n: nat :: !RestoredTo(r, Repeated(r, Last(run), item, n))
    ensures PreviewedExpiry(r, Last(run), item).Clean? && !ConfirmedExpiry(r, Last(run), item).ok
  {
    var w := MovedWorld(r);
    run := MovedIsReached(r);
    item := w.journal.value;
    var v := WithItem(w, None).(source := Some(r.target));
    run := Next(r, run, w, MovedBack, v);
    var u := v.(oracle := v.oracle.(registered := false));
    run := Next(r, run, v, Environment, u);
    forall n: nat ensures !RestoredTo(r, Repeated(r, u, item, n)) {
      RestoreRecovers(r, run, item, n);
      if n == 1 {
        IterateOn(Restoring(r), Outcome(u, item, true), 1);
      }
    }
    PreviewAgrees(r, run, item);
  }

  /**
   * settleAbsent reads the destination, the source and the marker one after the other. An expiry stopped
   * after marking; then the receipt directory is moved away and another one takes its place, and then it
   * is put back. Reading the destination at the first moment and the rest at the last would call the
   * object deleted, although it is still there. This is why Inside keeps the directory that the path names.
   */
  lemma SettleNeedsOneDirectory(r: Receipt) returns (run: seq<Step>, first: World, last: World)
    requires r.target != 0 && r.source != r.destination && r.retention == NoWait
    ensures |run| > 1 && Run(r, run) && Last(run) == last
    ensures run[|run| - 1] == Step(first, Environment, last) && !Inside(r, first, last)
    ensures Destination(first).None? && last.source.None? && HasMarker(r, last)
    ensures !Gone(last, r.target)
  {
    run := MarkedIsReached(r);
    var v := WithMarker(r, MovedWorld(r));
    first := v.(current := Some(1), dirs := v.dirs[1 := Dir(None, None)]);
    run := Next(r, run, v, Environment, first);
    last := first.(current := Some(0));
    assert InDir(last, 0, r.target);
    RecordStep(r, run, Step(first, Environment, last));
    run := run + [Step(first, Environment, last)];
  }
}
