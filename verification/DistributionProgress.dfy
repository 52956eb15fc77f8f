/**
 Progress of the distribution coordinator: how many good cycles a vault needs, whatever happens in the other cycles,
 and what it means that a vault is processed.
 */
module DistributionProgress {
  import opened Wrappers
  import opened VaultSteps
  import opened DistributionOutcomes
  import opened DistributionSafety

  // ----- What a good cycle is -----

  /** The orchestrator's queries work, it does not throw, and it gets at least one of the claims it finds confirmed. */
  ghost predicate Productive(o: Orchestration) {
    && o.queryOk && !o.throws
    && forall found: set<nat> :: found != {} ==> o.settles(found) * found != {}
  }

  ghost predicate GoodCycle(c: Cycle) {
    var s := c.script;
    && c.firstQueryOk && c.secondQueryOk
    && s.markOk && s.dispatchHash.Some? && s.dispatchWriteOk && s.claimsQueryOk
    && Productive(s.mint) && s.mintWriteOk && Productive(s.extract) && Productive(s.pay)
    && s.completeQueryOk && s.finalizeQueryOk && s.lp.Recorded? && s.processedWriteOk
  }

  ghost function GoodCycles(cs: seq<Cycle>): nat {
    if cs == [] then 0 else (if GoodCycle(cs[0]) then 1 else 0) + GoodCycles(cs[1..])
  }

  // ----- The vaults the coordinator can bring to an end -----

  /** What the first query asks for, apart from the two flags. */
  ghost predicate Eligible(v: Vault) {
    v.locked && v.scSuccessful && v.lastUpdateTx.Some? && v.createdAt > CUTOFF_MILLIS
  }

  ghost predicate Mixed(v: Vault) {
    OpenExpansionAcquirers(v) != {} && OpenRegularAcquirers(v) != {}
  }

  ghost predicate Live(v: Vault) {
    && Eligible(v) && !v.manual && !v.acquireOnly && !Mixed(v)
    && (OpenExpansionAcquirers(v) != {} ==> Truthy(v.treasury))
    && FailedOf(v, ACQUIRERS) == {} && FailedOf(v, PAYEES) == {}
  }

  ghost function AtLeastOne(n: nat): nat {
    if n == 0 then 1 else n
  }

  /** The measure: good cycles still needed. Both passes work on it, and in the cycle that settles the last acquirer
      claim the second pass already starts on the contributors. */
  ghost function Need(v: Vault): nat {
    if v.processed then 0
    else AtLeastOne(|PendingOf(v, ACQUIRERS)|) + AtLeastOne(|PendingOf(v, PAYEES)|) - 1
  }

  // ----- Sizes -----

  lemma SubsetSize<T>(a: set<T>, b: set<T>)
    requires a <= b
    ensures |a| <= |b| && (a != b ==> |a| < |b|)
  {
    assert b == a + (b - a);
    if a != b {
      assert exists x :: x in b - a;
    }
  }

  lemma LiveStays(v: Vault, w: Vault)
    requires Live(v) && RowMoves(v, w) && !w.manual
    ensures Live(w)
    ensures |PendingOf(w, ACQUIRERS)| <= |PendingOf(v, ACQUIRERS)|
    ensures |PendingOf(w, PAYEES)| <= |PendingOf(v, PAYEES)|
    ensures v.processed == w.processed ==> Need(w) <= Need(v)
  {
    MovesShrinkClaims(v, w, ACQUIRERS);
    MovesShrinkClaims(v, w, PAYEES);
    SubsetSize(PendingOf(w, ACQUIRERS), PendingOf(v, ACQUIRERS));
    SubsetSize(PendingOf(w, PAYEES), PendingOf(v, PAYEES));
  }

  lemma SettleMakesProgress(st: State, kinds: set<ClaimType>, o: Orchestration)
    requires Productive(o) && PendingOf(st.row, kinds) != {}
    ensures |PendingOf(Settle(st, kinds, o).state.row, kinds)| < |PendingOf(st.row, kinds)|
  {
    var found := PendingOf(st.row, kinds);
    ConfirmSets(st.row, o.settles(found) * found, kinds);
    var i :| i in o.settles(found) * found;
    SubsetSize(PendingOf(Settle(st, kinds, o).state.row, kinds), found);
  }

  /** One orchestrator call, with the confirmations that come before its query. */
  lemma OrchestrationMakesProgress(st: State, kinds: set<ClaimType>, o: Orchestration)
    requires Productive(o) && PendingOf(st.row, kinds) != {}
    ensures var seen := Webhook(st, o.late);
            var after := if PendingOf(seen.row, kinds) == {} then seen else Settle(seen, kinds, o).state;
            |PendingOf(after.row, kinds)| < |PendingOf(st.row, kinds)|
  {
    var seen := Webhook(st, o.late);
    WebhookMoves(st, o.late);
    MovesShrinkClaims(st.row, seen.row, kinds);
    SubsetSize(PendingOf(seen.row, kinds), PendingOf(st.row, kinds));
    if PendingOf(seen.row, kinds) != {} {
      SettleMakesProgress(seen, kinds, o);
    }
  }

  // ----- The two passes -----

  lemma MintKeepsAuto(st: State, s: Script)
    requires !st.row.manual
    ensures !ProcessAcquireOnlyExtractions(st, s).state.row.manual
    ensures var row := ProcessAcquireOnlyExtractions(st, s).state.row;
            row.processed || row.inProgress == st.row.inProgress
  {
  }

  lemma StartExtractionKeepsAuto(st: State, s: Script)
    requires Live(st.row)
    ensures var t := StartExtraction(st, s);
            !t.row.manual && (t.row.processed || t.row.inProgress == st.row.inProgress)
  {
    MintKeepsAuto(st, s);
    forall i | i in OpenOf(st.row, ACQUIRERS)
      ensures i in OpenExpansionAcquirers(st.row) + OpenRegularAcquirers(st.row)
    {
    }
  }

  lemma StartExtractionMakesProgress(st: State, c: Cycle)
    requires Live(st.row) && GoodCycle(c) && PendingOf(st.row, ACQUIRERS) != {}
    ensures var t := StartExtraction(st, c.script);
            t.row.processed || |PendingOf(t.row, ACQUIRERS)| < |PendingOf(st.row, ACQUIRERS)|
  {
    var s := c.script;
    forall i | i in OpenOf(st.row, ACQUIRERS)
      ensures i in OpenExpansionAcquirers(st.row) + OpenRegularAcquirers(st.row)
    {
    }
    var i :| i in PendingOf(st.row, ACQUIRERS);
    assert i in OpenOf(st.row, ACQUIRERS);
    if OpenExpansionAcquirers(st.row) != {} {
      var called := Note(st, MintAcquireOnly);
      OrchestrationMakesProgress(called, ACQUIRERS, s.mint);
    } else {
      var called := Note(st, ExtractAcquirers);
      OrchestrationMakesProgress(called, ACQUIRERS, s.extract);
    }
  }

  lemma FinalizeKeepsAuto(st: State, s: Script)
    requires !st.row.manual
    ensures !FinalizeVaultDistribution(st, s).state.row.manual
    ensures s.finalizeQueryOk && s.lp.Recorded? && s.processedWriteOk ==>
              FinalizeVaultDistribution(st, s).state.row.processed
  {
    CreateLpKeepsFlags(st, s);
  }

  /** The vault as it stands when the first pass looks at its claims. */
  ghost function AtClaims(st: State, s: Script): State {
    var here := Webhook(st, s.confirmedFirst);
    EnsureDispatchParameterized(SetRow(here, here.row.(inProgress := true)), st.row, s).state
  }

  lemma LiveUntilClaims(st: State, s: Script)
    requires Live(st.row) && !st.row.processed
    ensures var r := AtClaims(st, s).row;
            && Live(r) && r.inProgress && !r.processed
            && |PendingOf(r, ACQUIRERS)| <= |PendingOf(st.row, ACQUIRERS)|
  {
    var here := Webhook(st, s.confirmedFirst);
    WebhookMoves(st, s.confirmedFirst);
    LiveStays(st.row, here.row);
    var marked := SetRow(here, here.row.(inProgress := true));
    FlagsMove(here, marked.row);
    LiveStays(here.row, marked.row);
    DispatchMoves(marked, st.row, s);
    LiveStays(marked.row, AtClaims(st, s).row);
  }

  lemma FirstPassKeepsLive(st: State, s: Script)
    requires Live(st.row)
    ensures Live(FirstPass(st, s).row)
  {
    WebhookMoves(st, s.confirmedFirst);
    LiveStays(st.row, Webhook(st, s.confirmedFirst).row);
    FirstPassMoves(st, s);
    if Ready(st.row) && s.markOk {
      LiveUntilClaims(st, s);
      StartExtractionKeepsAuto(AtClaims(st, s), s);
    }
    LiveStays(st.row, FirstPass(st, s).row);
  }

  lemma GoodFirstPassExtracts(st: State, c: Cycle)
    requires Live(st.row) && !st.row.processed && GoodCycle(c)
    ensures FirstPass(st, c.script) == StartExtraction(AtClaims(st, c.script), c.script)
  {
  }

  /** A good first pass leaves the vault in distribution, and with fewer acquirer claims to go if it had any. */
  lemma GoodFirstPass(st: State, c: Cycle)
    requires Live(st.row) && !st.row.processed && GoodCycle(c)
    ensures var t := FirstPass(st, c.script);
            || t.row.processed
            || (t.row.inProgress
                && (PendingOf(t.row, ACQUIRERS) == {}
                    || |PendingOf(t.row, ACQUIRERS)| < |PendingOf(st.row, ACQUIRERS)|))
  {
    var ready := AtClaims(st, c.script);
    GoodFirstPassExtracts(st, c);
    LiveUntilClaims(st, c.script);
    StartExtractionKeepsAuto(ready, c.script);
    if PendingOf(ready.row, ACQUIRERS) != {} {
      StartExtractionMakesProgress(ready, c);
    } else {
      assert OpenOf(ready.row, ACQUIRERS) == {};
    }
  }

  lemma PayKeepsAuto(st: State, listed: Vault, s: Script)
    ensures ProcessContributorPayments(st, listed, s).state.row.manual == st.row.manual
    ensures ProcessContributorPayments(st, listed, s).state.row.processed == st.row.processed
  {
  }

  lemma SecondPassKeepsLive(st: State, s: Script)
    requires Live(st.row)
    ensures Live(SecondPass(st, s).row)
  {
    SecondPassMoves(st, s);
    var here := Webhook(st, s.confirmedSecond);
    PayKeepsAuto(here, st.row, s);
    FinalizeKeepsAuto(ProcessContributorPayments(here, st.row, s).state, s);
    LiveStays(st.row, SecondPass(st, s).row);
  }

  lemma GoodPayment(st: State, listed: Vault, c: Cycle)
    requires GoodCycle(c) && !listed.manual && FailedOf(st.row, PAYEES) == {}
    ensures var paid := ProcessContributorPayments(st, listed, c.script);
            && !paid.threw && FailedOf(paid.state.row, PAYEES) == {}
            && (PendingOf(paid.state.row, PAYEES) == {}
                || |PendingOf(paid.state.row, PAYEES)| < |PendingOf(st.row, PAYEES)|)
  {
    var s := c.script;
    var called := Note(st, PayContributors);
    PaidKeepsFailed(st, listed, s);
    WebhookSets(called, s.pay.late);
    if PendingOf(st.row, PAYEES) != {} {
      OrchestrationMakesProgress(called, PAYEES, s.pay);
    }
  }

  /** A good second pass over a vault in distribution without acquirer claims processes it or pays someone. */
  lemma GoodSecondPass(st: State, c: Cycle)
    requires Live(st.row) && InDistribution(st.row) && GoodCycle(c) && PendingOf(st.row, ACQUIRERS) == {}
    ensures var t := SecondPass(st, c.script);
            || t.row.processed
            || (PendingOf(t.row, PAYEES) != {} && |PendingOf(t.row, PAYEES)| < |PendingOf(st.row, PAYEES)|)
  {
    var here := Webhook(st, c.script.confirmedSecond);
    WebhookMoves(st, c.script.confirmedSecond);
    LiveStays(st.row, here.row);
    GoodPayment(here, st.row, c);
    var paid := ProcessContributorPayments(here, st.row, c.script);
    PayKeepsAuto(here, st.row, c.script);
    FinalizeKeepsAuto(paid.state, c.script);
    assert OpenOf(st.row, ACQUIRERS) == {};
  }

  lemma PaidKeepsFailed(st: State, listed: Vault, s: Script)
    ensures FailedOf(ProcessContributorPayments(st, listed, s).state.row, PAYEES) <= FailedOf(st.row, PAYEES)
  {
    var called := Note(st, PayContributors);
    WebhookSets(called, s.pay.late);
    var seen := Webhook(called, s.pay.late).row;
    var found := PendingOf(seen, PAYEES);
    ConfirmSets(seen, s.pay.settles(found) * found, PAYEES);
  }

  // ----- Whole cycles and runs -----

  lemma StepKeepsLive(st: State, c: Cycle)
    requires Live(st.row)
    ensures Live(Step(st, c).row)
    ensures Need(Step(st, c).row) <= Need(st.row)
  {
    var s := c.script;
    var start := Webhook(st, s.confirmedBefore);
    WebhookMoves(st, s.confirmedBefore);
    LiveStays(st.row, start.row);
    FirstPassKeepsLive(start, s);
    var first := FirstPass(start, s);
    WebhookMoves(first, s.confirmedBetween);
    var mid := Webhook(first, s.confirmedBetween);
    LiveStays(first.row, mid.row);
    SecondPassKeepsLive(mid, s);
    StepMoves(st, c);
    LiveStays(st.row, Step(st, c).row);
  }

  lemma GoodStep(st: State, c: Cycle)
    requires Live(st.row) && GoodCycle(c) && !st.row.processed
    ensures Need(Step(st, c).row) < Need(st.row)
  {
    var s := c.script;
    var start := Webhook(st, s.confirmedBefore);
    WebhookMoves(st, s.confirmedBefore);
    LiveStays(st.row, start.row);
    GoodFirstPass(start, c);
    FirstPassKeepsLive(start, s);
    FirstPassMoves(start, s);
    var first := FirstPass(start, s);
    LiveStays(start.row, first.row);
    WebhookMoves(first, s.confirmedBetween);
    var mid := Webhook(first, s.confirmedBetween);
    LiveStays(first.row, mid.row);
    SecondPassMoves(mid, s);
    SecondPassKeepsLive(mid, s);
    LiveStays(mid.row, SecondPass(mid, s).row);
    if !mid.row.processed && PendingOf(mid.row, ACQUIRERS) == {} {
      GoodSecondPass(mid, c);
    }
  }

  /** Progress: in any run, however its bad cycles go, a live vault is processed as soon as the run holds
      max(acquirers, 1) + max(payees, 1) - 1 good cycles. */
  lemma {:induction false} ProcessedAfterEnoughGoodCycles(st: State, cs: seq<Cycle>)
    requires Live(st.row) && GoodCycles(cs) >= Need(st.row)
    ensures Run(st, cs).row.processed
    decreases |cs|
  {
    if cs == [] {
    } else if st.row.processed {
      RetiredVaultIsLeftAlone(st, cs);
    } else {
      var next := Step(st, cs[0]);
      StepKeepsLive(st, cs[0]);
      if GoodCycle(cs[0]) {
        GoodStep(st, cs[0]);
      }
      ProcessedAfterEnoughGoodCycles(next, cs[1..]);
    }
  }

  // ----- What processed means -----

  ghost predicate Finalized(st: State, t: State) {
    exists k :: |st.log| <= k < |t.log| && t.log[k].call.Snapshot?
  }

  /** No claim is confirmed between the coordinator's look at the acquirer claims and the minting orchestrator's. */
  ghost predicate NoLateMint(cs: seq<Cycle>) {
    forall k :: 0 <= k < |cs| ==> cs[k].script.mint.late.extracted == {}
  }

  lemma LiveFindsSomethingToMint(st: State, c: Cycle)
    requires Live(st.row) && c.script.mint.late.extracted == {}
    ensures !MintFindsNothing(st, c)
  {
    var start := Webhook(st, c.script.confirmedBefore);
    var here := AtFirstTurn(st, c.script);
    WebhookMoves(st, c.script.confirmedBefore);
    WebhookMoves(start, c.script.confirmedFirst);
    LiveStays(st.row, start.row);
    LiveStays(start.row, here.row);
    assert OpenExpansionAcquirers(here.row) <= PendingOf(here.row, ACQUIRERS);
  }

  /** Processed then means finalised: a snapshot was taken and every acquirer, contributor and expansion claim is
      settled. */
  lemma {:induction false} ProcessedMeansFinalized(st: State, cs: seq<Cycle>)
    requires Live(st.row) && !st.row.processed && NoLateMint(cs)
    ensures Run(st, cs).row.processed ==> Finalized(st, Run(st, cs)) && AllSettled(Run(st, cs).row)
    decreases |cs|
  {
    if cs != [] {
      var next := Step(st, cs[0]);
      LiveFindsSomethingToMint(st, cs[0]);
      RegularVaultProcessedExactly(st, cs[0]);
      StepMoves(st, cs[0]);
      if next.row.processed {
        FinalizedStays(st, next, cs[1..]);
      } else {
        StepKeepsLive(st, cs[0]);
        ProcessedMeansFinalized(next, cs[1..]);
        if Run(next, cs[1..]).row.processed {
          FinalizedEarlier(st, next, Run(st, cs));
        }
      }
    }
  }

  lemma FinalizedStays(st: State, next: State, cs: seq<Cycle>)
    requires EndsWithSnapshot(st, next) && AllSettled(next.row)
    ensures Finalized(st, Run(next, cs)) && AllSettled(Run(next, cs).row)
  {
    RunMoves(next, cs);
    var t := Run(next, cs);
    assert t.log[|next.log| - 1].call.Snapshot?;
    MovesShrinkClaims(next.row, t.row, ACQUIRERS);
    MovesShrinkClaims(next.row, t.row, PAYEES);
  }

  lemma FinalizedEarlier(st: State, next: State, t: State)
    requires st.log <= next.log && Finalized(next, t)
    ensures Finalized(st, t)
  {
  }

  /** The same bound for what the vault is after: everyone paid, pool and snapshot taken care of. */
  lemma FinalizedAfterEnoughGoodCycles(st: State, cs: seq<Cycle>)
    requires Live(st.row) && !st.row.processed && NoLateMint(cs) && GoodCycles(cs) >= Need(st.row)
    ensures Finalized(st, Run(st, cs)) && AllSettled(Run(st, cs).row)
  {
    ProcessedAfterEnoughGoodCycles(st, cs);
    ProcessedMeansFinalized(st, cs);
  }

  function SmoothOrchestration(): Orchestration {
    Orchestration(true, NOTHING_CONFIRMED, found => found, false)
  }

  /** A cycle in which everything works and nothing is confirmed behind the coordinator's back. */
  function SmoothCycle(): Cycle {
    Cycle(true, true,
          Script(NOTHING_CONFIRMED, NOTHING_CONFIRMED, NOTHING_CONFIRMED, NOTHING_CONFIRMED,
                 true, Some("hash"), true, true, true,
                 SmoothOrchestration(), true, SmoothOrchestration(), SmoothOrchestration(),
                 true, true, Recorded, true, true, true))
  }

  lemma {:induction false} SmoothCyclesAreGood(n: nat)
    ensures GoodCycles(seq(n, _ => SmoothCycle())) == n
  {
    if n > 0 {
      SmoothCyclesAreGood(n - 1);
      assert seq(n, _ => SmoothCycle())[1..] == seq(n - 1, _ => SmoothCycle());
    }
  }

  lemma SmoothRunFinalizes(st: State)
    requires Live(st.row) && !st.row.processed
    ensures Finalized(st, Run(st, seq(Need(st.row), _ => SmoothCycle())))
  {
    SmoothCyclesAreGood(Need(st.row));
    FinalizedAfterEnoughGoodCycles(st, seq(Need(st.row), _ => SmoothCycle()));
  }

  // ----- Acquire-only vaults -----

  /** One good cycle closes an acquire-only vault, whatever its claims. */
  lemma AcquireOnlyClosesInOneGoodCycle(st: State, c: Cycle)
    requires st.row.acquireOnly && !st.row.processed && Eligible(st.row) && !st.row.manual && GoodCycle(c)
    ensures Step(st, c).row.processed && EndsWithSnapshot(st, Step(st, c))
  {
    AcquireOnlyClosesExactly(st, c);
    StepMoves(st, c);
    LastCall(st, Step(st, c), AcquireOnlyCalls(st, c));
  }

  /** The orchestrator leaves no claim PENDING. */
  ghost predicate Thorough(o: Orchestration) {
    forall found: set<nat> :: found <= o.settles(found)
  }

  ghost predicate FinalizationWorks(s: Script) {
    s.finalizeQueryOk && s.lp.Recorded? && s.processedWriteOk
  }

  lemma ThoroughMintLeavesNone(st: State, c: Cycle)
    requires Truthy(st.row.treasury) && FailedOf(st.row, ACQUIRERS) == {} && Thorough(c.script.mint)
    ensures LeftOpen(st, c) == {}
  {
    var here := AtFirstTurn(st, c.script).row;
    assert MintFinds(here, c.script) <= c.script.mint.settles(MintFinds(here, c.script));
  }

  /** The twin for acquire-only vaults needs what the regular case gets from the coordinator: with a treasury address,
      no FAILED claim and minting that settles every claim it finds, processed means that no acquirer claim is open;
      and if the closing steps work, that a snapshot was taken. Whether the acquirers were minted is up to the
      batches. */
  lemma {:induction false} ProcessedAcquireOnlyMeansSettled(st: State, cs: seq<Cycle>)
    requires st.row.acquireOnly && !st.row.processed && Truthy(st.row.treasury) && FailedOf(st.row, ACQUIRERS) == {}
    requires forall k :: 0 <= k < |cs| ==> Thorough(cs[k].script.mint)
    ensures Run(st, cs).row.processed ==> OpenOf(Run(st, cs).row, ACQUIRERS) == {}
    ensures Run(st, cs).row.processed && (forall k :: 0 <= k < |cs| ==> FinalizationWorks(cs[k].script)) ==>
              Finalized(st, Run(st, cs))
    decreases |cs|
  {
    if cs != [] {
      var next := Step(st, cs[0]);
      AcquireOnlyClosesExactly(st, cs[0]);
      StepMoves(st, cs[0]);
      MovesShrinkClaims(st.row, next.row, ACQUIRERS);
      RunMoves(next, cs[1..]);
      if next.row.processed {
        ThoroughMintLeavesNone(st, cs[0]);
        MovesShrinkClaims(next.row, Run(st, cs).row, ACQUIRERS);
        LastCall(st, next, AcquireOnlyCalls(st, cs[0]));
        if FinalizationWorks(cs[0].script) {
          SnapshotStays(st, next, Run(st, cs));
        }
      } else {
        ProcessedAcquireOnlyMeansSettled(next, cs[1..]);
        if Finalized(next, Run(st, cs)) {
          FinalizedEarlier(st, next, Run(st, cs));
        }
      }
    }
  }

  lemma SnapshotStays(st: State, next: State, t: State)
    requires EndsWithSnapshot(st, next) && next.log <= t.log
    ensures Finalized(st, t)
  {
    assert t.log[|next.log| - 1].call.Snapshot?;
  }
}
