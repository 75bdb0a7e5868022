// Folding the configured targets into volumes, and storing the sample (internal/cli/capacity.go).
module Sampling {
  import opened Wrappers
  import opened Capacity

  const MAX_INT64: nat := 0x7FFF_FFFF_FFFF_FFFF

  /** A target that validation accepts. */
  datatype Target = Target(path: string, target: nat, reserve: nat, margin: nat) {
    predicate Valid() {
      target > 0 && reserve <= target && target + margin <= MAX_INT64
    }
  }

  datatype Key = Device(device: nat) | Root(path: string)

  /** What measureDisk answers for a path, or that it fails. */
  type Measure = string -> Option<(nat, Reading)>

  /** The volume a target belongs to: its device, or where it was when it was last measured. */
  function KeyOf(measure: Measure, byRoot: map<string, Key>, path: string): Key {
    if measure(path).Some? then Device(measure(path).value.0)
    else if path in byRoot then byRoot[path]
    else Root(path)
  }

  function Goal(t: Target): nat {
    if t.reserve > t.target then t.reserve else t.target
  }

  function RecoveryOf(t: Target): nat {
    if t.margin == 0 then t.reserve else Goal(t) + t.margin
  }

  // ---------------------------------------------------------------- what a volume is meant to be

  /** A threshold is the largest of those asked for. */
  ghost predicate IsMax(x: nat, targets: seq<Target>, f: Target -> nat) {
    (forall t :: t in targets ==> f(t) <= x) && (x == 0 || exists t :: t in targets && f(t) == x)
  }

  ghost predicate Measured(measure: Measure, targets: seq<Target>) {
    forall t :: t in targets ==> measure(t.path).Some?
  }

  /** All roots were measured, and their filesystems are of one size. */
  ghost predicate Agree(measure: Measure, targets: seq<Target>) {
    && Measured(measure, targets)
    && forall t, u :: t in targets && u in targets ==> measure(t.path).value.1.total == measure(u.path).value.1.total
  }

  ghost predicate IsLeast(r: Reading, measure: Measure, targets: seq<Target>)
    requires Measured(measure, targets)
  {
    && (forall t :: t in targets ==> r.available <= measure(t.path).value.1.available && r.total == measure(t.path).value.1.total)
    && exists t :: t in targets && r.available == measure(t.path).value.1.available
  }

  /** The volume of some targets. Only membership is mentioned, so their order is irrelevant. */
  ghost predicate Summarises(v: Volume, measure: Measure, targets: seq<Target>) {
    && IsMax(v.limits.target, targets, Goal)
    && IsMax(v.limits.reserve, targets, (t: Target) => t.reserve)
    && IsMax(v.limits.recovery, targets, RecoveryOf)
    && (v.reading.Some? <==> Agree(measure, targets))
    && (v.reading.Some? ==> IsLeast(v.reading.value, measure, targets))
    && (v.reason != NoReason <==> !Agree(measure, targets))
  }

  /** What one target asks of its filesystem: its own numbers, with the reserve as a floor for its goal. */
  lemma OneTarget(v: Volume, measure: Measure, t: Target)
    requires Summarises(v, measure, [t])
    ensures var goal := if t.reserve > t.target then t.reserve else t.target;
            v.limits == Thresholds(goal, t.reserve, if t.margin == 0 then t.reserve else goal + t.margin)
    ensures v.reading == (if measure(t.path).Some? then Some(measure(t.path).value.1) else None)
  {
    assert t in [t] && forall u :: u in [t] ==> u == t;
  }

  lemma SummaryIsUnique(v: Volume, w: Volume, measure: Measure, a: seq<Target>, b: seq<Target>)
    requires a != [] && forall t :: t in a <==> t in b
    requires Summarises(v, measure, a) && Summarises(w, measure, b)
    ensures v.limits == w.limits && v.reading == w.reading
  {
    assert Agree(measure, a) <==> Agree(measure, b);
    if Agree(measure, a) {
      var t := a[0];
      assert t in a && t in b;
    }
  }

  // ---------------------------------------------------------------- the fold

  /** The targets of one volume. */
  ghost function Group(targets: seq<Target>, measure: Measure, byRoot: map<string, Key>, key: Key): seq<Target> {
    if targets == [] then []
    else
      var last := targets[|targets| - 1];
      Group(targets[..|targets| - 1], measure, byRoot, key) + if KeyOf(measure, byRoot, last.path) == key then [last] else []
  }

  lemma {:induction false} GroupMembers(targets: seq<Target>, measure: Measure, byRoot: map<string, Key>, key: Key, t: Target)
    ensures t in Group(targets, measure, byRoot, key) <==> t in targets && KeyOf(measure, byRoot, t.path) == key
  {
    if targets != [] {
      GroupMembers(targets[..|targets| - 1], measure, byRoot, key, t);
      assert targets == targets[..|targets| - 1] + [targets[|targets| - 1]];
    }
  }

  const FRESH := Volume(Unset, None, Thresholds(0, 0, 0), false, NoReason)

  function Max(a: nat, b: nat): nat {
    if a > b then a else b
  }

  lemma IsMaxOf(x: nat, g: seq<Target>, f: Target -> nat, t: Target)
    requires IsMax(x, g, f)
    ensures IsMax(Max(f(t), x), g + [t], f)
  {
    assert t in g + [t];
    forall u ensures u in g + [t] <==> u in g || u == t {
    }
  }

  ghost predicate Seen(v: Volume, measure: Measure, g: seq<Target>) {
    if g == [] then v == FRESH else Summarises(v, measure, g)
  }

  /** One target: its thresholds always count, its measurement only while the volume is known. */
  method Add(v: Volume, t: Target, measure: Measure, ghost g: seq<Target>) returns (w: Volume)
    requires Seen(v, measure, g)
    ensures Summarises(w, measure, g + [t])
  {
    w := Raise(v, t, measure, g);
    ghost var grown := g + [t];
    assert t in grown && forall u :: u in grown <==> u in g || u == t;
    var measured := measure(t.path);
    if measured.None? {
      w := w.(reason := CannotMeasure(t.path), reading := None);
      return;
    }
    if w.reason != NoReason {
      assert !Agree(measure, grown);
      return;
    }
    if w.reading.Some? && w.reading.value.total != measured.value.1.total {
      assert g != [] && g[0] in g;
      w := w.(reason := CapacityChanged, reading := None);
      return;
    }
    if w.reading.None? {
      w := w.(reading := Some(measured.value.1));
    } else if measured.value.1.available < w.reading.value.available {
      w := w.(reading := Some(w.reading.value.(available := measured.value.1.available)));
    }
  }

  method Raise(v: Volume, t: Target, ghost measure: Measure, ghost g: seq<Target>) returns (w: Volume)
    requires Seen(v, measure, g)
    ensures w.reading == v.reading && w.reason == v.reason
    ensures IsMax(w.limits.target, g + [t], Goal)
    ensures IsMax(w.limits.reserve, g + [t], (u: Target) => u.reserve)
    ensures IsMax(w.limits.recovery, g + [t], RecoveryOf)
  {
    w := v;
    ghost var reserveOf := (u: Target) => u.reserve;
    IsMaxOf(v.limits.target, g, Goal, t);
    IsMaxOf(v.limits.reserve, g, reserveOf, t);
    IsMaxOf(v.limits.recovery, g, RecoveryOf, t);
    var (goal, recovery) := (Goal(t), RecoveryOf(t));
    if goal > w.limits.target {
      w := w.(limits := w.limits.(target := goal));
    }
    if t.reserve > w.limits.reserve {
      w := w.(limits := w.limits.(reserve := t.reserve));
    }
    if recovery > w.limits.recovery {
      w := w.(limits := w.limits.(recovery := recovery));
    }
  }

  /** Thresholds that validation accepts never put recovery below the reserve, nor past an int64. */
  lemma RecoveryIsAboveReserve(v: Volume, measure: Measure, g: seq<Target>)
    requires Summarises(v, measure, g) && forall t :: t in g ==> t.Valid()
    ensures v.limits.reserve <= v.limits.recovery <= MAX_INT64
    ensures v.limits.reserve <= v.limits.target <= MAX_INT64
  {
    if v.limits.reserve != 0 {
      var t :| t in g && t.reserve == v.limits.reserve;
      assert RecoveryOf(t) <= v.limits.recovery && Goal(t) <= v.limits.target;
    }
    if v.limits.recovery != 0 {
      var t :| t in g && RecoveryOf(t) == v.limits.recovery;
      assert t.Valid();
    }
    if v.limits.target != 0 {
      var t :| t in g && Goal(t) == v.limits.target;
      assert t.Valid();
    }
  }

  /** Every volume of the targets, before it is compared with its last state. */
  ghost predicate Folded(volumes: map<Key, Volume>, targets: seq<Target>, measure: Measure, byRoot: map<string, Key>) {
    forall key :: FoldedAt(volumes, Group(targets, measure, byRoot, key), measure, key)
  }

  ghost predicate FoldedAt(volumes: map<Key, Volume>, g: seq<Target>, measure: Measure, key: Key) {
    if key in volumes then g != [] && Summarises(volumes[key], measure, g) else g == []
  }

  /** The fold of sampleCapacity. */
  method Fold(targets: seq<Target>, measure: Measure, byRoot: map<string, Key>) returns (volumes: map<Key, Volume>)
    ensures Folded(volumes, targets, measure, byRoot)
  {
    volumes := map[];
    var i := 0;
    while i < |targets|
      invariant 0 <= i <= |targets| && Folded(volumes, targets[..i], measure, byRoot)
    {
      var t := targets[i];
      var key := KeyOf(measure, byRoot, t.path);
      ghost var g := Group(targets[..i], measure, byRoot, key);
      assert FoldedAt(volumes, g, measure, key);
      var v := if key in volumes then volumes[key] else FRESH;
      v := Add(v, t, measure, g);
      FoldedOn(volumes, targets, i, measure, byRoot, v);
      volumes := volumes[key := v];
      i := i + 1;
    }
    assert targets[..i] == targets;
  }

  lemma FoldedOn(volumes: map<Key, Volume>, targets: seq<Target>, i: nat, measure: Measure, byRoot: map<string, Key>, v: Volume)
    requires i < |targets| && Folded(volumes, targets[..i], measure, byRoot)
    requires var key := KeyOf(measure, byRoot, targets[i].path);
             Summarises(v, measure, Group(targets[..i], measure, byRoot, key) + [targets[i]])
    ensures Folded(volumes[KeyOf(measure, byRoot, targets[i].path) := v], targets[..i + 1], measure, byRoot)
  {
    var (k, before, now) := (KeyOf(measure, byRoot, targets[i].path), targets[..i], targets[..i + 1]);
    assert now[..i] == before;
    forall key ensures FoldedAt(volumes[k := v], Group(now, measure, byRoot, key), measure, key) {
      assert FoldedAt(volumes, Group(before, measure, byRoot, key), measure, key);
      var (g, grown) := (Group(before, measure, byRoot, key), Group(now, measure, byRoot, key));
      assert grown == g + if k == key then [targets[i]] else [];
      if k != key {
        assert grown == g;
      }
    }
  }

  /** Whatever the order of the targets, each volume gets the same thresholds and reading. */
  lemma TargetOrderIsIrrelevant(volumes: map<Key, Volume>, others: map<Key, Volume>, targets: seq<Target>, arranged: seq<Target>,
                                measure: Measure, byRoot: map<string, Key>, key: Key)
    requires Folded(volumes, targets, measure, byRoot) && Folded(others, arranged, measure, byRoot)
    requires forall t :: t in targets <==> t in arranged
    ensures key in volumes <==> key in others
    ensures key in volumes ==> volumes[key].limits == others[key].limits && volumes[key].reading == others[key].reading
  {
    var a, b := Group(targets, measure, byRoot, key), Group(arranged, measure, byRoot, key);
    assert FoldedAt(volumes, a, measure, key) && FoldedAt(others, b, measure, key);
    forall t ensures t in a <==> t in b {
      GroupMembers(targets, measure, byRoot, key, t);
      GroupMembers(arranged, measure, byRoot, key, t);
    }
    assert a == [] || a[0] in b;
    assert b == [] || b[0] in a;
    if a != [] {
      SummaryIsUnique(volumes[key], others[key], measure, a, b);
    }
  }

  // ---------------------------------------------------------------- the stored sample

  datatype Snapshot = Snapshot(sampledAt: Time, validUntil: Time, policyHash: string,
                               volumes: map<Key, Volume>, byRoot: map<string, Key>)

  function ExpireSnapshot(s: Snapshot, now: Time): Snapshot {
    if s.sampledAt <= now < s.validUntil then s
    else s.(volumes := map key | key in s.volumes :: ExpireOne(s.volumes[key]))
  }

  /** What a volume was when it was last stored, as far as it can still be believed. */
  function Previous(s: Snapshot, now: Time, key: Key): Volume {
    if key in ExpireSnapshot(s, now).volumes then ExpireSnapshot(s, now).volumes[key] else NEVER_SAMPLED
  }

  /** A stored volume is believed until it is out of date; then it is held as unknown. What was never stored holds nothing. */
  lemma PreviousExactlyWhen(s: Snapshot, now: Time, key: Key)
    ensures var p := Previous(s, now, key);
            if key !in s.volumes then p.state.Unset? && !p.hold && p.reading.None?
            else if s.sampledAt <= now && now < s.validUntil then p == s.volumes[key]
            else p.state.Unknown? && p.hold && p.reading.None? && p.limits == s.volumes[key].limits
  {
  }

  datatype Sample = Stored(snapshot: Snapshot) | Reused(snapshot: Snapshot) | ClockWentBack | Failed | NoTargets

  datatype Policy = Policy(targets: seq<Target>, hash: string, interval: nat)

  /** Where each root was measured, or else where it was before. */
  function Places(targets: seq<Target>, measure: Measure, byRoot: map<string, Key>): (places: map<string, Key>)
    ensures forall path :: path in places <==> exists t :: t in targets && t.path == path
    ensures forall path :: path in places ==>
              places[path] == (if measure(path).Some? then Device(measure(path).value.0)
                               else if path in byRoot then byRoot[path]
                               else Root(path))
  {
    map t | t in targets :: t.path := KeyOf(measure, byRoot, t.path)
  }

  class Store {
    var snapshot: Snapshot

    ghost predicate Valid()
      reads this
    {
      forall key :: key in snapshot.volumes ==> Consistent(snapshot.volumes[key])
    }

    constructor ()
      ensures Valid() && snapshot.sampledAt == 0
    {
      snapshot := Snapshot(0, 0, "", map[], map[]);
    }

    /** sampleCapacity. Its transaction commits or fails before the sample is stored. */
    method SampleCapacity(policy: Policy, measure: Measure, now: Time, force: bool, commits: bool) returns (r: Sample)
      requires Valid() && forall t :: t in policy.targets ==> t.Valid()
      modifies this
      ensures Valid() && snapshot.sampledAt >= old(snapshot).sampledAt
      ensures !r.Stored? ==> snapshot == old(snapshot)
      ensures r.Stored? || r.Failed? <==> policy.targets != [] && r != ClockWentBack && !r.Reused?
      ensures r.Stored? ==> commits
      ensures r.Failed? ==> !commits
      ensures r.Reused? ==> r.snapshot == snapshot
      ensures r.Reused? <==>
                && policy.targets != [] && !force && policy.hash == old(snapshot).policyHash
                && old(snapshot).sampledAt <= now < old(snapshot).sampledAt + policy.interval
      ensures r == ClockWentBack <==> policy.targets != [] && now < old(snapshot).sampledAt
      ensures r.Stored? ==>
                && r.snapshot == snapshot && snapshot.sampledAt == now && snapshot.validUntil == now + 2 * policy.interval
                && snapshot.policyHash == policy.hash
                && Advanced(old(snapshot), policy.targets, measure, now, snapshot.volumes)
      // Every root is remembered where it was measured, or else where it was before.
      ensures r.Stored? ==>
                && (forall path :: path in snapshot.byRoot <==> exists t :: t in policy.targets && t.path == path)
                && forall path :: path in snapshot.byRoot ==>
                     snapshot.byRoot[path] == (if measure(path).Some? then Device(measure(path).value.0)
                                               else if path in old(snapshot).byRoot then old(snapshot).byRoot[path]
                                               else Root(path))
      ensures r == NoTargets <==> policy.targets == []
    {
      hide Advanced, Folded, AdvancePressure, ExpireOne, Holds, KeyOf, Consistent;
      if policy.targets == [] {
        return NoTargets;
      }
      if now < snapshot.sampledAt {
        return ClockWentBack;
      }
      if !force && snapshot.policyHash == policy.hash && now < snapshot.sampledAt + policy.interval {
        return Reused(snapshot);
      }
      var previous := ExpireSnapshot(snapshot, now);
      var folded := Fold(policy.targets, measure, snapshot.byRoot);
      if !commits {
        return Failed;
      }
      var volumes := map key | key in folded ::
          AdvancePressure(folded[key], if key in previous.volumes then previous.volumes[key] else NEVER_SAMPLED);
      AdvancesAll(snapshot, policy.targets, measure, now, folded, volumes);
      var byRoot := Places(policy.targets, measure, snapshot.byRoot);
      snapshot := Snapshot(now, now + 2 * policy.interval, policy.hash, volumes, byRoot);
      r := Stored(snapshot);
    }
  }

  /** A stored volume: the summary of its targets, with hysteresis on what was stored before. */
  ghost predicate Advanced(before: Snapshot, targets: seq<Target>, measure: Measure, now: Time, volumes: map<Key, Volume>) {
    forall key ::
      if key in volumes
      then AdvancedOne(volumes[key], measure, Group(targets, measure, before.byRoot, key), Previous(before, now, key))
      else Group(targets, measure, before.byRoot, key) == []
  }

  ghost predicate AdvancedOne(v: Volume, measure: Measure, g: seq<Target>, previous: Volume) {
    exists w :: Summarises(w, measure, g) && v == AdvancePressure(w, previous)
                && (v.hold <==> Holds(w.reading, w.limits, previous.hold)) && Consistent(v)
  }

  lemma PreviousIsConsistent(s: Snapshot, now: Time, key: Key)
    requires forall k :: k in s.volumes ==> Consistent(s.volumes[k])
    ensures Consistent(Previous(s, now, key))
  {
  }

  lemma AdvancesAll(before: Snapshot, targets: seq<Target>, measure: Measure, now: Time,
                    folded: map<Key, Volume>, volumes: map<Key, Volume>)
    requires forall k :: k in before.volumes ==> Consistent(before.volumes[k])
    requires forall t :: t in targets ==> t.Valid()
    requires Folded(folded, targets, measure, before.byRoot) && volumes.Keys == folded.Keys
    requires forall key :: key in folded ==> volumes[key] == AdvancePressure(folded[key], Previous(before, now, key))
    ensures Advanced(before, targets, measure, now, volumes)
    ensures forall key :: key in volumes ==> Consistent(volumes[key])
  {
    forall key | key !in volumes ensures Group(targets, measure, before.byRoot, key) == [] {
      assert FoldedAt(folded, Group(targets, measure, before.byRoot, key), measure, key);
    }
    forall key | key in volumes
      ensures AdvancedOne(volumes[key], measure, Group(targets, measure, before.byRoot, key), Previous(before, now, key))
      ensures Consistent(volumes[key])
    {
      var g := Group(targets, measure, before.byRoot, key);
      forall t | t in g ensures t.Valid() {
        GroupMembers(targets, measure, before.byRoot, key, t);
      }
      assert FoldedAt(folded, g, measure, key);
      RecoveryIsAboveReserve(folded[key], measure, g);
      PreviousIsConsistent(before, now, key);
      HoldIsHysteresis(folded[key], Previous(before, now, key));
    }
  }

  // ---------------------------------------------------------------- what a recovered sample means

  /** capacityRecovered (internal/cli/recovery.go). */
  predicate CapacityRecovered(volumes: map<Key, Volume>) {
    volumes != map[] && forall key :: key in volumes ==> volumes[key].state.Recovered?
  }

  lemma FromSummary(v: Volume, measure: Measure, g: seq<Target>, previous: Volume, t: Target)
    requires AdvancedOne(v, measure, g, previous) && v.state.Recovered? && t in g
    ensures measure(t.path).Some?
    ensures measure(t.path).value.1.available >= t.target && measure(t.path).value.1.available >= t.reserve
  {
    var w :| Summarises(w, measure, g) && v == AdvancePressure(w, previous)
             && (v.hold <==> Holds(w.reading, w.limits, previous.hold)) && Consistent(v);
    assert Goal(t) <= w.limits.target;
  }

  /** If a stored sample is recovered, every configured target was measured, and its own filesystem has
      at least its own target and its own reserve available. */
  lemma RecoveredMeetsEveryTarget(before: Snapshot, targets: seq<Target>, measure: Measure, now: Time, volumes: map<Key, Volume>, t: Target)
    ensures Advanced(before, targets, measure, now, volumes) && CapacityRecovered(volumes) && t in targets ==>
              && measure(t.path).Some?
              && measure(t.path).value.1.available >= t.target && measure(t.path).value.1.available >= t.reserve
  {
    if Advanced(before, targets, measure, now, volumes) && CapacityRecovered(volumes) && t in targets {
      var key := KeyOf(measure, before.byRoot, t.path);
      var g := Group(targets, measure, before.byRoot, key);
      GroupMembers(targets, measure, before.byRoot, key, t);
      assert g != [];
      FromSummary(volumes[key], measure, g, Previous(before, now, key), t);
    }
  }

  /** Without targets nothing is ever recovered. */
  lemma NothingIsNotRecovered(before: Snapshot, measure: Measure, now: Time, volumes: map<Key, Volume>)
    requires Advanced(before, [], measure, now, volumes)
    ensures !CapacityRecovered(volumes)
  {
    forall key ensures key !in volumes {
    }
    assert volumes == map[];
  }
}
