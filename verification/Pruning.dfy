// The budgeted recovery loop (internal/cli/recovery.go) and the official prune it runs, which
// measures the store again (internal/cli/prune.go).
module Pruning {
  import opened Wrappers
  import opened Capacity

  /** Go's uint64: every operation on it below is shown not to wrap. */
  newtype uint64 = x: int | 0 <= x < 0x1_0000_0000_0000_0000

  /** A byte count as estimates report it. */
  newtype int64 = x: int | -0x8000_0000_0000_0000 <= x < 0x8000_0000_0000_0000

  datatype Estimate = Estimate(bytes: int64, shared: nat)

  // ---------------------------------------------------------------- one official prune

  datatype Status = Unstarted | Preview | Starting | Failed | Completed

  /** What a prune leaves in its report. */
  datatype PruneReport = PruneReport(status: Status, storeBefore: Option<int64>, measured: bool)

  /** How the checks, the journal and the provider turn out, and whether the measurements around it are certain. */
  datatype Provider = Provider(rejected: bool, announced: bool, locked: bool, preflight: bool, second: Option<Estimate>,
                               monitored: bool, available: bool, journalled: bool, succeeds: bool, recorded: bool, finished: bool, certain: bool)

  const NO_REPORT := PruneReport(Unstarted, None, true)

  /** A prune within the limit gets as far as being journalled. */
  predicate Starts(p: Provider, limit: uint64) {
    && !p.rejected && p.announced && p.locked && p.preflight && p.monitored && p.available
    && p.second.Some? && p.second.value.shared == 0 && 0 <= p.second.value.bytes as int <= limit as int
  }

  /** runOfficialPrune, with a limit that is zero when there is no budget. */
  method RunOfficialPrune(p: Provider, limit: uint64) returns (report: PruneReport, ok: bool)
    // Nothing starts unless every check passed; with a limit, the store was measured again and fits.
    ensures report.status in {Starting, Failed, Completed} <==>
              && !p.rejected && p.announced && p.locked && p.preflight && p.monitored
              && (limit > 0 ==> p.available && p.second.Some? && p.second.value.shared == 0
                                && 0 <= p.second.value.bytes as int <= limit as int)
    ensures report.status in {Starting, Failed, Completed} ==>
              && (report.status == Starting <==> !p.journalled)
              && (report.status == Completed <==> p.journalled && p.succeeds)
    ensures report.status == Unstarted <==> p.rejected
    // A store size is reported only for a store that shares nothing, and within the limit.
    ensures report.storeBefore.Some? ==>
              && p.second == Some(Estimate(report.storeBefore.value, 0)) && report.storeBefore.value >= 0
              && (limit > 0 ==> report.storeBefore.value as int <= limit as int)
    ensures report.status in {Starting, Failed, Completed} && p.second.Some? && p.second.value.shared == 0 && p.second.value.bytes >= 0 ==>
              report.storeBefore.Some?
    ensures report.measured <==> !(report.status in {Failed, Completed}) || p.certain
    ensures ok <==> report.status == Completed && p.recorded && p.finished
  {
    if p.rejected {
      return NO_REPORT, false;
    }
    report := PruneReport(Preview, None, true);
    if !p.announced || !p.locked || !p.preflight {
      return report, false;
    }
    if limit > 0 {
      if p.second.None? {
        return report, false;
      }
      var estimate := p.second.value;
      if estimate.bytes < 0 || estimate.shared != 0 || estimate.bytes as int > limit as int {
        return report, false;
      }
    }
    if p.second.Some? && p.second.value.shared == 0 && p.second.value.bytes >= 0 {
      report := report.(storeBefore := Some(p.second.value.bytes));
    }
    if !p.monitored {
      return report, false;
    }
    if limit > 0 && !p.available {
      return report, false;
    }
    report := report.(status := Starting);
    if !p.journalled {
      return report, false;
    }
    report := report.(status := if p.succeeds then Completed else Failed, measured := p.certain);
    ok := p.recorded && p.finished && p.succeeds;
  }

  // ---------------------------------------------------------------- the loop over candidates

  datatype Outcome = Refused | Broken | Done

  datatype Claim = Granted | Declined | JournalError

  /** One candidate: what its measurements, its claim and its prune turn out to be. */
  datatype Candidate = Candidate(
    timedOut: bool, known: bool, measured: bool, met: bool, first: Option<Estimate>, maxPrune: uint64, claim: Claim,
    approved: bool, dispatched: bool, provider: Provider, finished: bool, sampled: bool, recovered: bool)

  datatype Stop = NoSafeCandidates | TimeBudget | StoreBudget | ByteBudget | AttemptJournalError | ProviderFailure | TargetRecovered

  /** One attempt: how it ended and what the budget is charged for it. */
  datatype Action = Action(outcome: Outcome, storeBefore: Option<int64>)

  function Charge(a: Action): nat {
    if a.storeBefore.Some? && !a.outcome.Refused? && a.storeBefore.value >= 0 then a.storeBefore.value as nat else 0
  }

  ghost function Charges(actions: seq<Action>): nat {
    if actions == [] then 0 else Charges(actions[..|actions| - 1]) + Charge(actions[|actions| - 1])
  }

  class Report {
    const budget: uint64
    const maxStores: nat
    var stopped: Stop
    var considered: nat
    var attempted: nat
    var charged: uint64
    var skipped: nat
    var actions: seq<Action>

    /** The budget is never overspent, and it is charged exactly for the attempts that were not refused. */
    ghost predicate Valid()
      reads this
    {
      && charged <= budget
      && charged as nat == Charges(actions)
      && |actions| == attempted <= considered <= maxStores
    }

    constructor (budget: uint64, maxStores: nat)
      ensures Valid() && this.budget == budget && this.maxStores == maxStores && considered == 0 && skipped == 0
    {
      this.budget, this.maxStores, stopped := budget, maxStores, NoSafeCandidates;
      considered, attempted, charged, skipped, actions := 0, 0, 0, 0, [];
    }

    /** The approval, the prune and its accounting. The limit is the first estimate. */
    method Attempt(c: Candidate, limit: uint64) returns (failed: bool)
      requires Valid() && 0 < limit <= budget - charged && attempted < considered
      modifies this
      requires c.first.Some? && c.first.value.bytes > 0 && limit as int == c.first.value.bytes as int
      ensures Valid() && |actions| == |old(actions)| + 1 && actions[..|old(actions)|] == old(actions)
      ensures considered == old(considered) && skipped == old(skipped) && stopped == old(stopped)
      ensures charged - old(charged) <= limit
      ensures actions[|old(actions)|].outcome.Refused? <==> !(c.approved && c.dispatched && Starts(c.provider, limit))
      ensures actions[|old(actions)|].outcome.Done? <==>
                c.approved && c.dispatched && Starts(c.provider, limit) && c.provider.journalled && c.provider.succeeds
      // What is charged is the second estimate, and nothing when the attempt was refused.
      ensures charged == old(charged) +
                if c.approved && c.dispatched && Starts(c.provider, limit) then c.provider.second.value.bytes as uint64 else 0
      // Refused, broken or not recorded, an open claim, uncertain measurements, or no sample.
      ensures !failed <==>
                && actions[|old(actions)|].outcome.Done? && c.provider.recorded && c.provider.finished
                && c.finished && c.provider.certain && c.sampled
      ensures failed <==> AttemptFails(c)
    {
      attempted := attempted + 1;
      var result := NO_REPORT;
      var ok := c.approved;
      if ok {
        if c.dispatched {
          result, ok := RunOfficialPrune(c.provider, limit);
        } else {
          ok := false;
        }
      }
      var outcome := Refused;
      if result.status.Completed? {
        outcome := Done;
      } else if !result.status.Unstarted? && !result.status.Preview? {
        outcome := Broken;
      }
      if result.storeBefore.Some? && outcome != Refused {
        charged := charged + result.storeBefore.value as uint64;
      }
      actions := actions + [Action(outcome, result.storeBefore)];
      assert actions[..|actions| - 1] == old(actions);
      failed := !ok || !c.finished || !result.measured || !c.sampled;
    }

    /** The candidate loop of runCapacityRecovery; tried says which candidates were attempted. */
    method RunCandidates(candidates: seq<Candidate>) returns (ghost tried: seq<bool>)
      requires Valid() && considered == 0 && skipped == 0 && actions == []
      modifies this
      ensures Valid()
      ensures |tried| == attempted + skipped <= |candidates|
      ensures considered == ShortOf(candidates[..|tried|]) + if stopped == AttemptJournalError then 1 else 0
      // Every candidate that had its turn had it in time and within both budgets, and was attempted exactly
      // when its filesystem was short of space, its store was measured and its own and fitted, and it was granted.
      ensures forall j :: 0 <= j < |tried| ==>
                !candidates[j].timedOut && ShortOf(candidates[..j]) < maxStores && ChargedAt(actions, tried, j) < budget as nat
      ensures forall j :: 0 <= j < |tried| ==>
                (tried[j] <==>
                   && candidates[j].known && candidates[j].measured && !candidates[j].met
                   && candidates[j].first.Some? && candidates[j].first.value.shared == 0
                   && 0 < candidates[j].first.value.bytes as int <= candidates[j].maxPrune as int
                   && candidates[j].first.value.bytes as int <= budget as int - ChargedAt(actions, tried, j)
                   && candidates[j].claim.Granted?)
      // Nothing follows an attempt that failed, or after which space was recovered.
      ensures forall j :: 0 <= j < |tried| - 1 && tried[j] ==> !AttemptFails(candidates[j]) && !candidates[j].recovered
      // The reason to stop is the one that applies first where the loop ended.
      ensures var n := |tried|;
              var failed := n > 0 && tried[n - 1] && AttemptFails(candidates[n - 1]);
              var recovered := n > 0 && tried[n - 1] && !failed && candidates[n - 1].recovered;
              && (stopped == ProviderFailure <==> failed)
              && (stopped == TargetRecovered <==> recovered)
              && (stopped == NoSafeCandidates <==> n == |candidates| && !failed && !recovered)
              && (!failed && !recovered && n < |candidates| ==>
                    && (stopped == TimeBudget <==> candidates[n].timedOut)
                    && (stopped == StoreBudget <==> !candidates[n].timedOut && ShortOf(candidates[..n]) >= maxStores)
                    && (stopped == ByteBudget <==>
                          !candidates[n].timedOut && ShortOf(candidates[..n]) < maxStores && charged >= budget)
                    && (stopped == AttemptJournalError ==>
                          candidates[n].claim.JournalError? && Affordable(candidates[n], budget as int - charged as int)))
    {
      hide HadItsTurn, Trials, AttemptFails, ShortOf, Affordable, ChargedAt, Charges, Starts;
      stopped := NoSafeCandidates;
      tried := [];
      var i := 0;
      ListStarts(candidates);
      while i < |candidates|
        invariant Valid() && considered <= attempted + skipped == i == |tried| <= |candidates|
        invariant stopped == NoSafeCandidates && |actions| == Trials(tried)
        invariant considered == ShortOf(candidates[..i])
        invariant forall j :: 0 <= j < |tried| ==> HadItsTurn(candidates, tried, actions, budget, maxStores, j)
        invariant forall j :: 0 <= j < |tried| && tried[j] ==> !AttemptFails(candidates[j]) && !candidates[j].recovered
      {
        var c := candidates[i];
        if c.timedOut {
          stopped := TimeBudget;
          break;
        }
        if considered >= maxStores {
          stopped := StoreBudget;
          break;
        }
        if charged >= budget {
          stopped := ByteBudget;
          break;
        }
        var verdict, failed;
        verdict, failed, tried := Turn(candidates, i, tried);
        if verdict.JournalError? {
          stopped := AttemptJournalError;
          break;
        }
        i := i + 1;
        if failed {
          stopped := ProviderFailure;
          break;
        }
        if verdict.Granted? && c.recovered {
          stopped := TargetRecovered;
          break;
        }
      }
      TurnsMean(candidates, tried, actions, budget, maxStores);
    }

    /** One candidate that is in time and within both budgets. */
    method Turn(candidates: seq<Candidate>, i: nat, ghost tried: seq<bool>) returns (verdict: Claim, failed: bool, ghost now: seq<bool>)
      requires Valid() && considered <= attempted + skipped == i == |tried| < |candidates| && |actions| == Trials(tried)
      requires considered == ShortOf(candidates[..i]) < maxStores && charged < budget && !candidates[i].timedOut
      requires forall j :: 0 <= j < |tried| ==> HadItsTurn(candidates, tried, actions, budget, maxStores, j)
      modifies this
      ensures Valid() && stopped == old(stopped) && |actions| == Trials(now) && |now| <= |candidates|
      ensures forall j :: 0 <= j < |now| ==> HadItsTurn(candidates, now, actions, budget, maxStores, j)
      ensures verdict.JournalError? ==>
                && now == tried && charged == old(charged) && considered == old(considered) + 1 && skipped == old(skipped) && attempted == old(attempted)
                && candidates[i].claim.JournalError? && Affordable(candidates[i], budget as int - charged as int)
      ensures !verdict.JournalError? ==>
                && now == tried + [verdict.Granted?] && considered == ShortOf(candidates[..i + 1]) <= attempted + skipped == i + 1
      ensures failed <==> verdict.Granted? && AttemptFails(candidates[i])
    {
      hide HadItsTurn, Trials, AttemptFails, ShortOf, Affordable, Charges, Starts;
      var c := candidates[i];
      ghost var attempts := actions;
      verdict := Consider(c);
      failed, now := false, tried;
      ShortOfOn(candidates, i);
      if verdict.JournalError? {
        return;
      }
      now := tried + [verdict.Granted?];
      TriedOn(candidates, tried, attempts, budget, maxStores, verdict.Granted?);
      if verdict.Declined? {
        skipped := skipped + 1;
      } else {
        AffordableIsMeasured(c, budget as int - charged as int);
        failed := Attempt(c, c.first.value.bytes as uint64);
        TurnsStay(candidates, now, attempts, actions, budget, maxStores);
      }
    }

    /** Whether a candidate is attempted: the checks in their order, and the claim. */
    method Consider(c: Candidate) returns (verdict: Claim)
      requires Valid() && considered < maxStores && charged < budget
      modifies `considered
      ensures Valid() && considered == old(considered) + if c.known && c.measured && !c.met then 1 else 0
      ensures !verdict.Declined? ==> considered == old(considered) + 1
      ensures verdict == if Affordable(c, budget as int - charged as int) then c.claim else Declined
    {
      if !c.known || !c.measured || c.met {
        return Declined;
      }
      considered := considered + 1;
      if c.first.None? || c.first.value.bytes <= 0 || c.first.value.shared != 0 {
        return Declined;
      }
      var remaining := budget - charged;
      if c.maxPrune < remaining {
        remaining := c.maxPrune;
      }
      if c.first.value.bytes as uint64 > remaining {
        return Declined;
      }
      verdict := c.claim;
    }
  }

  /** The candidate's filesystem is short of space, and its whole store is measured, its own, and within what is left. */
  predicate Affordable(c: Candidate, left: int) {
    && c.known && c.measured && !c.met && c.first.Some? && c.first.value.shared == 0
    && 0 < c.first.value.bytes as int <= c.maxPrune as int && c.first.value.bytes as int <= left
  }

  lemma AffordableIsMeasured(c: Candidate, left: int)
    requires Affordable(c, left)
    ensures c.first.Some? && 0 < c.first.value.bytes as int <= left
  {
  }

  /** An attempt within the first estimate that does not end well. */
  predicate AttemptFails(c: Candidate) {
    c.first.Some? && c.first.value.bytes > 0
    && !(c.approved && c.dispatched && Starts(c.provider, c.first.value.bytes as uint64) && c.provider.journalled && c.provider.succeeds
         && c.provider.recorded && c.provider.finished && c.finished && c.provider.certain && c.sampled)
  }

  /** What had been charged when a candidate's turn came. */
  ghost function ChargedAt(actions: seq<Action>, tried: seq<bool>, j: nat): nat
    requires j <= |tried|
  {
    var n := Trials(tried[..j]);
    if n <= |actions| then Charges(actions[..n]) else 0
  }

  ghost function Trials(tried: seq<bool>): nat {
    if tried == [] then 0 else Trials(tried[..|tried| - 1]) + if tried[|tried| - 1] then 1 else 0
  }

  /** How many candidates had their estimate taken. */
  ghost function ShortOf(candidates: seq<Candidate>): nat {
    if candidates == [] then 0
    else
      var c := candidates[|candidates| - 1];
      ShortOf(candidates[..|candidates| - 1]) + if c.known && c.measured && !c.met then 1 else 0
  }

  lemma ShortOfOn(candidates: seq<Candidate>, i: nat)
    requires i < |candidates|
    ensures ShortOf(candidates[..i + 1])
         == ShortOf(candidates[..i]) + if candidates[i].known && candidates[i].measured && !candidates[i].met then 1 else 0
  {
    assert candidates[..i + 1][..i] == candidates[..i];
  }

  lemma ListStarts(candidates: seq<Candidate>)
    ensures ShortOf(candidates[..0]) == 0 && Trials([]) == 0
  {
  }

  /** A candidate had its turn, and was attempted if and only if it was affordable then and granted. */
  ghost predicate HadItsTurn(candidates: seq<Candidate>, tried: seq<bool>, actions: seq<Action>, budget: uint64, maxStores: nat, j: nat)
    requires j < |tried| <= |candidates|
  {
    var c := candidates[j];
    var n := Trials(tried[..j]);
    && n <= |actions| && !c.timedOut && ShortOf(candidates[..j]) < maxStores && Charges(actions[..n]) < budget as nat
    && (tried[j] <==> Affordable(c, budget as int - Charges(actions[..n])) && c.claim.Granted?)
  }

  lemma TriedOn(candidates: seq<Candidate>, tried: seq<bool>, actions: seq<Action>, budget: uint64, maxStores: nat, granted: bool)
    requires |tried| < |candidates| && |actions| == Trials(tried)
    requires forall j :: 0 <= j < |tried| ==> HadItsTurn(candidates, tried, actions, budget, maxStores, j)
    requires !candidates[|tried|].timedOut && ShortOf(candidates[..|tried|]) < maxStores && Charges(actions) < budget as nat
    requires var c := candidates[|tried|];
             granted <==> Affordable(c, budget as int - Charges(actions)) && c.claim.Granted?
    ensures Trials(tried + [granted]) == |actions| + if granted then 1 else 0
    ensures forall j :: 0 <= j < |tried + [granted]| ==> HadItsTurn(candidates, tried + [granted], actions, budget, maxStores, j)
  {
    var now := tried + [granted];
    assert now[..|tried|] == tried && actions[..|actions|] == actions;
    forall j | 0 <= j < |now| ensures HadItsTurn(candidates, now, actions, budget, maxStores, j) {
      if j < |tried| {
        assert HadItsTurn(candidates, tried, actions, budget, maxStores, j);
        assert now[..j] == tried[..j];
      }
    }
  }

  lemma TurnsStay(candidates: seq<Candidate>, tried: seq<bool>, actions: seq<Action>, longer: seq<Action>, budget: uint64, maxStores: nat)
    requires |tried| <= |candidates| && |actions| <= |longer| && longer[..|actions|] == actions
    requires forall j :: 0 <= j < |tried| ==> HadItsTurn(candidates, tried, actions, budget, maxStores, j)
    ensures forall j :: 0 <= j < |tried| ==> HadItsTurn(candidates, tried, longer, budget, maxStores, j)
  {
    forall j | 0 <= j < |tried| ensures HadItsTurn(candidates, tried, longer, budget, maxStores, j) {
      assert HadItsTurn(candidates, tried, actions, budget, maxStores, j);
      var n := Trials(tried[..j]);
      assert longer[..n] == actions[..n];
    }
  }

  lemma TurnsMean(candidates: seq<Candidate>, tried: seq<bool>, actions: seq<Action>, budget: uint64, maxStores: nat)
    requires |tried| <= |candidates|
    requires forall j :: 0 <= j < |tried| ==> HadItsTurn(candidates, tried, actions, budget, maxStores, j)
    ensures forall j :: 0 <= j < |tried| ==>
              !candidates[j].timedOut && ShortOf(candidates[..j]) < maxStores && ChargedAt(actions, tried, j) < budget as nat
    ensures forall j :: 0 <= j < |tried| ==>
              (tried[j] <==>
                 && candidates[j].known && candidates[j].measured && !candidates[j].met
                 && candidates[j].first.Some? && candidates[j].first.value.shared == 0
                 && 0 < candidates[j].first.value.bytes as int <= candidates[j].maxPrune as int
                 && candidates[j].first.value.bytes as int <= budget as int - ChargedAt(actions, tried, j)
                 && candidates[j].claim.Granted?)
  {
    forall j | 0 <= j < |tried|
      ensures !candidates[j].timedOut && ShortOf(candidates[..j]) < maxStores && ChargedAt(actions, tried, j) < budget as nat
      ensures tried[j] <==> Affordable(candidates[j], budget as int - ChargedAt(actions, tried, j)) && candidates[j].claim.Granted?
    {
      assert HadItsTurn(candidates, tried, actions, budget, maxStores, j);
    }
  }

  /** However many attempts there are, the stores they touched fit the budget together. */
  lemma {:induction false} EachChargeFits(actions: seq<Action>, budget: nat, i: nat)
    requires Charges(actions) <= budget && i < |actions|
    ensures Charge(actions[i]) <= budget
    ensures Charge(actions[i]) + Charges(actions[..i]) <= Charges(actions)
  {
    if i < |actions| - 1 {
      var before := actions[..|actions| - 1];
      EachChargeFits(before, budget, i);
      assert before[..i] == actions[..i];
    }
  }

  // ---------------------------------------------------------------- after the loop

  /** The volumes that recovery left short are held, with the reason; no other volume is changed. */
  method MarkExhausted(volumes: array<Volume>)
    requires forall i :: 0 <= i < volumes.Length ==> Consistent(volumes[i])
    modifies volumes
    ensures forall i :: 0 <= i < volumes.Length ==> Consistent(volumes[i])
    ensures forall i :: 0 <= i < volumes.Length ==> volumes[i] == old(ExhaustOne(volumes[i]))
    ensures forall i :: 0 <= i < volumes.Length ==>
              volumes[i].state.Recovered? || volumes[i].hold
              || volumes[i].limits.recovery == volumes[i].limits.reserve
              || volumes[i].reading.None? || volumes[i].reading.value.available >= volumes[i].limits.recovery
  {
    for i := 0 to volumes.Length
      invariant forall j :: 0 <= j < i ==> volumes[j] == old(ExhaustOne(volumes[j])) && Consistent(volumes[j])
      invariant forall j :: i <= j < volumes.Length ==> volumes[j] == old(volumes[j])
    {
      if Exhaustible(volumes[i]) {
        volumes[i] := volumes[i].(state := NoSafeReclaim, hold := true, reason := BoundedRecoveryStopped);
      }
    }
  }
}
