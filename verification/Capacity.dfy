// Disk pressure and the admission hold (internal/core/capacity.go, internal/cli/capacity.go).
module Capacity {
  import opened Wrappers

  datatype PressureState = Unset | Recovered | CleanupNeeded | Critical | Unknown | NoSafeReclaim

  datatype Reason =
    | NoReason
    | BelowReserve
    | BelowTarget
    | SatisfiesTarget
    | BelowTargetOrRecovery
    | SatisfiesHysteresis
    | Stale
    | CannotMeasure(root: string)
    | CapacityChanged
    | BoundedRecoveryStopped

  datatype Thresholds = Thresholds(target: nat, reserve: nat, recovery: nat)

  /** Free and total bytes, when they are known. */
  datatype Reading = Reading(available: nat, total: nat)

  /** CapacityState: available and total bytes are known together, or not at all. */
  datatype Volume = Volume(state: PressureState, reading: Option<Reading>, limits: Thresholds, hold: bool, reason: Reason)

  const NEVER_SAMPLED := Volume(Unset, None, Thresholds(0, 0, 0), false, NoReason)

  /** AdvancePressure. */
  function AdvancePressure(current: Volume, previous: Volume): Volume {
    if current.reading.None? then current.(state := Unknown, hold := true)
    else
      var (available, l) := (current.reading.value.available, current.limits);
      if l.recovery == l.reserve then
        if available < l.reserve then current.(state := Critical, hold := true, reason := BelowReserve)
        else if available < l.target then current.(state := CleanupNeeded, hold := false, reason := BelowTarget)
        else current.(state := Recovered, hold := false, reason := SatisfiesTarget)
      else
        var next :=
          if available < l.reserve then current.(state := Critical, hold := true, reason := BelowReserve)
          else if available < l.target || (!previous.state.Unset? && !previous.state.Recovered? && available < l.recovery) then
            current.(state := CleanupNeeded, hold := previous.hold && available < l.recovery, reason := BelowTargetOrRecovery)
          else current.(state := Recovered, hold := false, reason := SatisfiesHysteresis);
        if previous.state.NoSafeReclaim? && !next.state.Recovered? && available < l.recovery then
          next.(state := previous.state, reason := previous.reason, hold := true)
        else next
  }

  /** What every stored volume keeps. */
  predicate Consistent(v: Volume) {
    && (v.hold ==> !v.state.Unset? && !v.state.Recovered?)
    && (v.state.Unset? ==> v.reading.None?)
    && (v.state.NoSafeReclaim? || v.state.Critical? || v.state.Unknown? ==> v.hold)
    && (v.state.Unknown? <==> v.reading.None? && !v.state.Unset?)
    && (v.state.Recovered? ==> v.reading.value.available >= v.limits.target && v.reading.value.available >= v.limits.reserve)
  }

  /** Hysteresis on the reading alone. */
  predicate Holds(reading: Option<Reading>, l: Thresholds, held: bool) {
    reading.None? || reading.value.available < l.reserve || (held && reading.value.available < l.recovery)
  }

  lemma HoldIsHysteresis(current: Volume, previous: Volume)
    requires Consistent(previous) && current.limits.recovery >= current.limits.reserve
    ensures var next := AdvancePressure(current, previous);
            && Consistent(next) && next.limits == current.limits && next.reading == current.reading
            && (next.hold <==> Holds(current.reading, current.limits, previous.hold))
    ensures var (next, reading, l) := (AdvancePressure(current, previous), current.reading, current.limits);
            && (next.state.Unknown? <==> reading.None?)
            && (next.state.Recovered? <==>
                  && reading.Some? && reading.value.available >= l.reserve && reading.value.available >= l.target
                  && (previous.state.Unset? || previous.state.Recovered? || reading.value.available >= l.recovery))
            && (next.state.NoSafeReclaim? <==>
                  previous.state.NoSafeReclaim? && reading.Some? && l.recovery != l.reserve && reading.value.available < l.recovery)
            && (next.state.NoSafeReclaim? ==> next.reason == previous.reason)
            && (next.state.Critical? <==>
                  reading.Some? && reading.value.available < l.reserve && !next.state.NoSafeReclaim?)
  {
  }

  // ---------------------------------------------------------------- one volume over a run

  /** A sample of the volume, the expiry of a sample, and a bounded recovery that freed too little. */
  datatype Event = Sampled(reading: Option<Reading>, limits: Thresholds, reason: Reason) | Expired | Exhausted

  predicate Bounded(e: Event) {
    e.Sampled? ==> e.limits.reserve <= e.limits.recovery
  }

  function ExpireOne(v: Volume): Volume {
    v.(state := Unknown, reading := None, hold := true, reason := Stale)
  }

  predicate Exhaustible(v: Volume) {
    && v.limits.recovery != v.limits.reserve && !v.state.Recovered? && !v.state.Unknown?
    && v.reading.Some? && v.reading.value.available < v.limits.recovery
  }

  function ExhaustOne(v: Volume): Volume {
    if Exhaustible(v) then v.(state := NoSafeReclaim, hold := true, reason := BoundedRecoveryStopped) else v
  }

  function Step(v: Volume, e: Event): Volume {
    match e
    case Sampled(reading, limits, reason) => AdvancePressure(Volume(Unset, reading, limits, false, reason), v)
    case Expired => ExpireOne(v)
    case Exhausted => ExhaustOne(v)
  }

  function Run(v: Volume, events: seq<Event>): Volume {
    if events == [] then v else Step(Run(v, events[..|events| - 1]), events[|events| - 1])
  }

  // ---------------------------------------------------------------- the same run in two bits

  /** Whether admission is held, whether the volume is at rest, and what was last read of it. */
  datatype Bits = Bits(held: bool, calm: bool, reading: Option<Reading>, limits: Thresholds)

  function BitsOf(v: Volume): Bits {
    Bits(v.hold, v.state.Unset? || v.state.Recovered?, v.reading, v.limits)
  }

  function StepBits(b: Bits, e: Event): Bits {
    match e
    case Sampled(reading, l, _) =>
      var calm := reading.Some? && reading.value.available >= l.reserve && reading.value.available >= l.target
                  && (b.calm || reading.value.available >= l.recovery);
      Bits(Holds(reading, l, b.held), calm, reading, l)
    case Expired => Bits(true, false, None, b.limits)
    case Exhausted =>
      if b.limits.recovery != b.limits.reserve && !b.calm && b.reading.Some? && b.reading.value.available < b.limits.recovery
      then b.(held := true)
      else b
  }

  function RunBits(b: Bits, events: seq<Event>): Bits {
    if events == [] then b else StepBits(RunBits(b, events[..|events| - 1]), events[|events| - 1])
  }

  /** The six states and their reasons add nothing to two bits, over any run of any events. */
  lemma {:induction false} TwoBitsAreEnough(v: Volume, events: seq<Event>)
    requires Consistent(v) && forall e :: e in events ==> Bounded(e)
    ensures Consistent(Run(v, events))
    ensures BitsOf(Run(v, events)) == RunBits(BitsOf(v), events)
  {
    if events != [] {
      var (before, e) := (events[..|events| - 1], events[|events| - 1]);
      assert e in events && forall d :: d in before ==> d in events;
      TwoBitsAreEnough(v, before);
      StepIsTwoBits(Run(v, before), e);
    }
  }

  lemma StepIsTwoBits(v: Volume, e: Event)
    requires Consistent(v) && Bounded(e)
    ensures Consistent(Step(v, e)) && BitsOf(Step(v, e)) == StepBits(BitsOf(v), e)
  {
    if e.Sampled? {
      HoldIsHysteresis(Volume(Unset, e.reading, e.limits, false, e.reason), v);
    }
  }

  /** A hold ends only with a reading at or above both the reserve and the recovery threshold. */
  lemma {:induction false} HeldUntilRecovered(v: Volume, events: seq<Event>) returns (i: nat)
    requires Consistent(v) && forall e :: e in events ==> Bounded(e)
    requires v.hold && !Run(v, events).hold
    ensures i < |events| && events[i].Sampled? && events[i].reading.Some?
    ensures events[i].reading.value.available >= events[i].limits.recovery
    ensures events[i].reading.value.available >= events[i].limits.reserve
  {
    var (before, e) := (events[..|events| - 1], events[|events| - 1]);
    assert e in events && forall d :: d in before ==> d in events;
    if !Run(v, before).hold {
      i := HeldUntilRecovered(v, before);
    } else {
      TwoBitsAreEnough(v, before);
      StepIsTwoBits(Run(v, before), e);
      i := |events| - 1;
    }
  }

  /** A hold begins only below the reserve, without a fresh measurement, or when recovery found too little. */
  lemma {:induction false} HoldBegins(v: Volume, events: seq<Event>) returns (i: nat)
    requires Consistent(v) && forall e :: e in events ==> Bounded(e)
    requires !v.hold && Run(v, events).hold
    ensures i < |events|
    ensures match events[i]
            case Sampled(reading, l, _) => reading.None? || reading.value.available < l.reserve
            case Expired => true
            case Exhausted => Exhaustible(Run(v, events[..i]))
  {
    var (before, e) := (events[..|events| - 1], events[|events| - 1]);
    assert e in events && forall d :: d in before ==> d in events;
    if Run(v, before).hold {
      i := HoldBegins(v, before);
      assert before[..i] == events[..i];
    } else {
      TwoBitsAreEnough(v, before);
      StepIsTwoBits(Run(v, before), e);
      i := |events| - 1;
    }
  }

  /** target_recovered is never wrong about the last measurement, and never holds. */
  lemma {:induction false} RecoveredIsSafe(events: seq<Event>)
    requires forall e :: e in events ==> Bounded(e)
    ensures var v := Run(NEVER_SAMPLED, events);
            v.state.Recovered? ==> && !v.hold && v.reading.Some?
                                   && v.reading.value.available >= v.limits.target
                                   && v.reading.value.available >= v.limits.reserve
  {
    TwoBitsAreEnough(NEVER_SAMPLED, events);
  }

  // ---------------------------------------------------------------- expiry of a snapshot

  type Time = nat

  /**
   * Expire. The snapshot is passed by value but its volumes are not: a stale snapshot's volumes are
   * overwritten in place, for every holder of them.
   */
  method Expire(sampledAt: Time, validUntil: Time, volumes: array<Volume>, now: Time)
    modifies volumes
    ensures volumes[..] == ExpiredAt(sampledAt, validUntil, old(volumes[..]), now)
  {
    if now < sampledAt || now >= validUntil {
      for i := 0 to volumes.Length
        invariant forall j :: 0 <= j < i ==> volumes[j] == old(ExpireOne(volumes[j]))
        invariant forall j :: i <= j < volumes.Length ==> volumes[j] == old(volumes[j])
      {
        volumes[i] := ExpireOne(volumes[i]);
      }
    }
  }

  function ExpiredAt(sampledAt: Time, validUntil: Time, volumes: seq<Volume>, now: Time): (r: seq<Volume>)
    ensures |r| == |volumes|
    ensures forall i :: 0 <= i < |r| ==> r[i] == volumes[i] || (r[i].hold && r[i].state.Unknown? && r[i].reading.None?)
    ensures !(sampledAt <= now < validUntil) ==> forall i :: 0 <= i < |r| ==> r[i].hold
  {
    if sampledAt <= now < validUntil then volumes
    else seq(|volumes|, i requires 0 <= i < |volumes| => ExpireOne(volumes[i]))
  }
}
