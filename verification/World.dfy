// What survives a crash: the names on the filesystem, the journal row and the
// deletion markers, together with the steps that may change them. The engine's
// process state is not part of a World, so a run may stop and be resumed by a
// fresh engine between any two steps.
module Worlds {
  import opened Wrappers
  import opened Retentions
  import opened Journal

  /** A directory's own identity: a replacement of the receipt directory has another one. */
  type DirId = nat

  /** Contents of the file `deleting` inside a receipt directory. */
  datatype Marker = Marker(action: string, dir: DirId, target: Identity)

  /** One directory that is, or was, the receipt directory: its `item` name and its marker file. */
  datatype Dir = Dir(item: Option<Identity>, marker: Option<Marker>)

  /** Answers of the collectors and of Git, which the environment may change at any time. */
  datatype Oracle = Oracle(observable: bool, revalidates: bool, unreferenced: bool, guards: bool, registered: bool)

  datatype World = World(
    source: Option<Identity>,
    current: Option<DirId>,      // the directory the receipt path resolves to
    dirs: map<DirId, Dir>,
    whole: bool,                 // no child of the object has been removed
    journal: Option<Item>,
    now: Time,
    oracle: Oracle)

  /** What Lstat of the destination sees. A missing receipt directory reads as a missing item. */
  function Destination(w: World): Option<Identity> {
    if w.current.Some? && w.current.value in w.dirs then w.dirs[w.current.value].item else None
  }

  predicate AtSource(w: World, target: Identity) { w.source == Some(target) }

  predicate InDir(w: World, d: DirId, target: Identity) { d in w.dirs && w.dirs[d].item == Some(target) }

  ghost predicate Gone(w: World, target: Identity) {
    !AtSource(w, target) && forall d :: !InDir(w, d, target)
  }

  /** The marker file in d is the one writeDeletionMarker would have written there. */
  predicate Genuine(r: Receipt, w: World, d: DirId) {
    d in w.dirs && w.dirs[d].marker == Some(Marker(r.action, d, r.target))
  }

  predicate HasMarker(r: Receipt, w: World) { w.current.Some? && Genuine(r, w, w.current.value) }

  // ---------------------------------------------------------------- environment

  /** Anything anyone else may do between two calls: create, remove or replace
      foreign objects under every name, move the receipt directory away, put
      another one in its place, copy or remove marker files, change every
      oracle's answer. They leave the object itself where it is, and they do not
      forge the marker of a directory. */
  ghost predicate Outside(r: Receipt, before: World, after: World) {
    && after.journal == before.journal
    && after.whole == before.whole
    && before.now <= after.now
    && (AtSource(after, r.target) <==> AtSource(before, r.target))
    && (forall d :: InDir(after, d, r.target) <==> InDir(before, d, r.target))
    && (forall d :: Genuine(r, after, d) ==> Genuine(r, before, d))
    && (after.current.Some? ==> after.current.value in after.dirs)
  }

  /** What they may do in the middle of a call: the same, except that the
      receipt path keeps naming the directory it named. */
  ghost predicate Inside(r: Receipt, before: World, after: World) {
    Outside(r, before, after) && after.current == before.current
  }

  // ---------------------------------------------------------------- steps of the engine

  datatype Event =
    | Environment
    | DirectoryMade
    | Inserted
    | MovedOut
    | MovedBack
    | Unreferenced // a fresh observation found no reference to the original path
    | Vetted       // a fresh observation of the object passed every guard
    | Cleared      // the object's tree was verified, which completes an expiry evaluation
    | Marked
    | Damaged      // a recursive deletion that stopped part-way
    | Removed
    | Journaled

  datatype Step = Step(before: World, event: Event, after: World)

  /** The compare-and-set committed, and the record it wrote is backed by the world as it was. */
  ghost predicate JournalBacked(r: Receipt, w: World, item: Item) {
    && item.receipt == r
    && item.updatedAt <= w.now
    && (item.movedAt.Some? <==> item.snapshot.Some?)
    && (item.movedAt.Some? ==> item.movedAt.value <= w.now
                               && item.expiresAt == ExpiresAt(r.retention, item.movedAt.value))
    && (item.movedAt.None? ==> item.expiresAt.None?)
    && w.journal.Some?
    && match item.state
       case Prepared => false
       case Quarantined =>
         if w.journal.value.state.Prepared? then Destination(w) == Some(r.target)
         else w.journal.value.snapshot.Some?
       case Restored => AtSource(w, r.target) && item.snapshot == w.journal.value.snapshot
       case Deleted => Gone(w, r.target) && item.snapshot == w.journal.value.snapshot
       case Investigate => item.snapshot == w.journal.value.snapshot
  }

  ghost predicate CanMark(r: Receipt, w: World) {
    && w.journal.Some?
    && w.journal.value.state.Quarantined?
    && w.journal.value.snapshot.Some?
    && w.journal.value.movedAt.Some?
    && Expired(r.retention, w.journal.value.movedAt.value, w.now)
    && Destination(w) == Some(r.target)
  }

  function WithItem(w: World, item: Option<Identity>): World
    requires w.current.Some? && w.current.value in w.dirs
  {
    w.(dirs := w.dirs[w.current.value := w.dirs[w.current.value].(item := item)])
  }

  function WithMarker(r: Receipt, w: World): World
    requires w.current.Some? && w.current.value in w.dirs
  {
    w.(dirs := w.dirs[w.current.value := w.dirs[w.current.value].(marker := Some(Marker(r.action, w.current.value, r.target)))])
  }

  ghost predicate Allowed(r: Receipt, s: Step) {
    var w := s.before;
    match s.event
    case Environment => Outside(r, w, s.after)
    case DirectoryMade =>
      exists d :: d !in w.dirs && s.after == w.(current := Some(d), dirs := w.dirs[d := Dir(None, None)])
    case Inserted =>
      && w.journal.None?
      && s.after.journal.Some?
      && s.after == w.(journal := s.after.journal)
      && ValidInitial(s.after.journal.value)
      && s.after.journal.value.receipt == r
      && s.after.journal.value.updatedAt <= w.now
      && s.after.journal.value.expiresAt.None?
    case MovedOut =>
      && w.journal.Some? && w.journal.value.state.Prepared?
      && AtSource(w, r.target)
      && w.current.Some? && w.current.value in w.dirs
      && Destination(w).None?
      && s.after == WithItem(w, Some(r.target)).(source := None)
    case MovedBack =>
      && w.journal.Some? && !w.journal.value.state.Restored? && !w.journal.value.state.Deleted?
      && Destination(w) == Some(r.target)
      && w.source.None?
      && s.after == WithItem(w, None).(source := Some(r.target))
    case Unreferenced => s.after == w && w.oracle.unreferenced
    case Vetted => s.after == w && w.oracle.guards && Destination(w) == Some(r.target)
    case Cleared =>
      && s.after == w
      && w.journal.Some? && w.journal.value.snapshot.Some? && w.journal.value.movedAt.Some?
      && Expired(r.retention, w.journal.value.movedAt.value, w.now)
      && Destination(w) == Some(r.target)
    case Marked => CanMark(r, w) && s.after == WithMarker(r, w)
    case Damaged => CanMark(r, w) && s.after == w.(whole := false)
    case Removed => CanMark(r, w) && s.after == WithItem(w, None)
    case Journaled =>
      && w.journal.Some? && s.after.journal.Some?
      && s.after == w.(journal := s.after.journal)
      && UpdateAccepted(w.journal, s.after.journal.value, w.journal.value.state)
      && JournalBacked(r, w, s.after.journal.value)
  }

  // ---------------------------------------------------------------- runs

  ghost predicate Initial(r: Receipt, w: World) {
    && r.target != 0
    && r.source != r.destination
    && w.journal.None?
    && w.whole
    && AtSource(w, r.target)
    && (forall d :: !InDir(w, d, r.target))
    && (forall d :: !Genuine(r, w, d))
    && (w.current.Some? ==> w.current.value in w.dirs)
  }

  /** Event e happened before step i, to the same journal row and the same receipt directory. */
  ghost predicate Preceded(run: seq<Step>, i: nat, e: Event)
    requires i < |run|
  {
    exists j :: 0 <= j < i && run[j].event == e
                && run[j].before.journal == run[i].before.journal
                && run[j].before.current == run[i].before.current
  }

  /** The order inside one expiry: observe, vet and verify, then mark, then remove. */
  ghost predicate Ordered(run: seq<Step>, i: nat)
    requires i < |run|
  {
    && (run[i].event.Vetted? ==> Preceded(run, i, Unreferenced))
    && (run[i].event.Cleared? ==> Preceded(run, i, Vetted))
    && (run[i].event.Marked? ==> Preceded(run, i, Cleared))
    && (run[i].event.Damaged? || run[i].event.Removed? ==> Preceded(run, i, Marked))
  }

  ghost predicate Run(r: Receipt, run: seq<Step>) {
    && |run| > 0
    && Initial(r, run[0].before)
    && (forall i :: 0 <= i < |run| ==> Allowed(r, run[i]) && Ordered(run, i))
    && (forall i :: 0 < i < |run| ==> run[i].before == run[i - 1].after)
  }

  /** A crash leaves a prefix of a run, and that is a run. */
  lemma PrefixIsRun(r: Receipt, run: seq<Step>, k: nat)
    requires Run(r, run) && 0 < k <= |run|
    ensures Run(r, run[..k])
  {
    forall i | 0 <= i < k ensures Ordered(run[..k], i) {
      assert Ordered(run, i);
      forall e | Preceded(run, i, e) ensures Preceded(run[..k], i, e) {
        var j :| 0 <= j < i && run[j].event == e && run[j].before.journal == run[i].before.journal
                 && run[j].before.current == run[i].before.current;
        assert run[..k][j] == run[j];
      }
    }
  }

  ghost function Last(run: seq<Step>): World
    requires |run| > 0
  {
    run[|run| - 1].after
  }

  // ---------------------------------------------------------------- the invariant

  /** No name ever shows the object twice. */
  ghost predicate OnePlace(r: Receipt, w: World) {
    && (forall d :: InDir(w, d, r.target) ==> !AtSource(w, r.target))
    && (forall d, e :: InDir(w, d, r.target) && InDir(w, e, r.target) ==> d == e)
  }

  ghost predicate RowInv(r: Receipt, w: World, i: Item) {
    && i.receipt == r
    && ValidItem(i)
    && i.updatedAt <= w.now
    && (i.movedAt.Some? <==> i.snapshot.Some?)
    && (i.movedAt.Some? ==> i.movedAt.value <= w.now
                            && i.expiresAt == ExpiresAt(r.retention, i.movedAt.value))
    && (i.movedAt.None? ==> i.expiresAt.None?)
    && (i.state.Prepared? ==> i.snapshot.None?)
    && (i.state.Restored? ==> AtSource(w, r.target))
    && (i.state.Deleted? ==> Gone(w, r.target))
  }

  ghost predicate Inv(r: Receipt, w: World) {
    && r.target != 0
    && r.source != r.destination
    && (w.current.Some? ==> w.current.value in w.dirs)
    && OnePlace(r, w)
    && (w.journal.None? ==> AtSource(w, r.target))
    && (w.journal.Some? ==> RowInv(r, w, w.journal.value))
    // Only a confirmed move is ever marked, and a marked directory is the only one that can hold the object.
    && (forall d :: Genuine(r, w, d) ==> w.journal.Some? && w.journal.value.snapshot.Some?)
    && (forall d, e :: Genuine(r, w, d) && InDir(w, e, r.target) ==> d == e)
    // Only a confirmed move is ever deleted or damaged.
    && (Gone(w, r.target) || !w.whole ==> w.journal.Some? && w.journal.value.snapshot.Some?)
  }

  lemma StepKeepsInv(r: Receipt, s: Step)
    requires Inv(r, s.before) && Allowed(r, s)
    ensures Inv(r, s.after)
  {
    StepEffect(r, s);
    var w, v := s.before, s.after;
    if s.event.MovedOut? || s.event.Removed? || s.event.MovedBack? || s.event.Marked? {
      assert Destination(w) == Some(r.target) ==> InDir(w, w.current.value, r.target);
      assert s.event.MovedOut? ==> InDir(v, w.current.value, r.target);
    }
  }

  /** Where the object and its markers are after a step, told without the directories' contents. */
  lemma StepEffect(r: Receipt, s: Step)
    requires Allowed(r, s)
    ensures AtSource(s.after, r.target) <==>
            if s.event.MovedOut? then false else s.event.MovedBack? || AtSource(s.before, r.target)
    ensures forall d :: InDir(s.after, d, r.target) <==>
              if (s.event.MovedOut? || s.event.MovedBack? || s.event.Removed?) && d == s.before.current.value
              then s.event.MovedOut?
              else InDir(s.before, d, r.target)
    ensures forall d :: Genuine(r, s.after, d) ==>
              Genuine(r, s.before, d) || (s.event.Marked? && d == s.before.current.value)
  {
  }
}
