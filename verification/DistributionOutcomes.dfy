/**
 How a vault's distribution can end other than by being finalised with everything settled: closed because there was
 nothing to mint, closed with acquirer claims open, or left without its pool. Each case is stated exactly.
 */
module DistributionOutcomes {
  import opened Wrappers
  import opened VaultSteps
  import opened DistributionSafety

  // ----- Finalisation -----

  lemma PoolFound(v: Vault)
    ensures FindLp(v.claims, 0).Some? <==> AvailableLp(v) != {}
  {
    if AvailableLp(v) != {} {
      var i :| i in AvailableLp(v);
      assert FindLp(v.claims, 0).Some?;
    }
    if FindLp(v.claims, 0).Some? {
      assert FindLp(v.claims, 0).value in AvailableLp(v);
    }
  }

  lemma PoolIsMadeIfDue(st: State, s: Script)
    ensures var lp := CreateLiquidityPool(st, s);
            && (lp.threw <==> PoolDue(st.row) && !s.lp.Recorded?)
            && lp.state.log == st.log + if PoolDue(st.row) then [Event(CreateLp(s.lp), st.row)] else []
  {
    PoolFound(st.row);
  }

  /** Finalisation throws exactly when its query, a pool that is due or the closing write fails. */
  ghost predicate FinalizationFails(v: Vault, s: Script) {
    !s.finalizeQueryOk || (PoolDue(v) && !s.lp.Recorded?) || !s.processedWriteOk
  }

  /** Its calls: the pool if it is due, and the snapshot if nothing failed. */
  ghost function FinalizationCalls(v: Vault, s: Script): seq<Call> {
    (if s.finalizeQueryOk && PoolDue(v) then [CreateLp(s.lp)] else [])
    + if FinalizationFails(v, s) then [] else [Snapshot]
  }

  ghost function CallsOf(log: seq<Event>): seq<Call> {
    seq(|log|, i requires 0 <= i < |log| => log[i].call)
  }

  /** If finalisation returns, the vault is closed with its snapshot and exactly the pool that was due; if it throws,
      nothing is closed, there is no snapshot, and the vault leaves the distribution until the first pass takes it up
      again. */
  lemma FinalizationIsAllOrNothing(st: State, s: Script)
    ensures var r := FinalizeVaultDistribution(st, s);
            && (r.threw <==> FinalizationFails(st.row, s))
            && CallsOf(r.state.log) == CallsOf(st.log) + FinalizationCalls(st.row, s)
            && r.state.row.processed == (!r.threw || st.row.processed)
            && r.state.row.inProgress == (r.threw && st.row.inProgress && !s.rollbackWriteOk)
  {
    PoolIsMadeIfDue(st, s);
    CreateLpKeepsFlags(st, s);
    FinalizationLog(st, s);
    CallsAppend(st.log, FinalizationEvents(st, s));
  }

  /** What finalisation adds to the log. */
  ghost function FinalizationEvents(st: State, s: Script): seq<Event> {
    (if s.finalizeQueryOk && PoolDue(st.row) then [Event(CreateLp(s.lp), st.row)] else [])
    + if FinalizationFails(st.row, s) then []
      else [Event(Snapshot, CreateLiquidityPool(st, s).state.row.(inProgress := false, processed := true))]
  }

  lemma FinalizationLog(st: State, s: Script)
    ensures FinalizeVaultDistribution(st, s).state.log == st.log + FinalizationEvents(st, s)
  {
    PoolIsMadeIfDue(st, s);
  }

  lemma CallsAppend(log: seq<Event>, more: seq<Event>)
    ensures CallsOf(log + more) == CallsOf(log) + CallsOf(more)
  {
  }

  ghost predicate EndsWithSnapshot(st: State, t: State) {
    st.log < t.log && t.log[|t.log| - 1].call.Snapshot?
  }

  // ----- Minting -----

  /** The acquirer claims the minting orchestrator finds PENDING. */
  ghost function MintFinds(v: Vault, s: Script): set<nat> {
    PendingOf(v, ACQUIRERS) - s.mint.late.extracted
  }

  /** ... and those still PENDING when it returns: all of them without a treasury address, else what it does not
      settle. */
  ghost function MintLeaves(v: Vault, s: Script): set<nat> {
    if !Truthy(v.treasury) then PendingOf(v, ACQUIRERS) else MintFinds(v, s) - s.mint.settles(MintFinds(v, s))
  }

  /** It throws when its query fails, when the write that closes a vault with nothing to mint fails, or under way. */
  ghost predicate MintThrows(v: Vault, s: Script) {
    !s.mint.queryOk || (Truthy(v.treasury) && if MintFinds(v, s) == {} then !s.mintWriteOk else s.mint.throws)
  }

  /** It closes the vault itself when it has a treasury address and finds nothing. */
  ghost predicate MintCloses(v: Vault, s: Script) {
    !MintThrows(v, s) && Truthy(v.treasury) && MintFinds(v, s) == {}
  }

  /** The minting orchestrator exactly: its call, when it throws, when it closes the vault, and the acquirer claims that
      stay open. */
  lemma MintExactly(st: State, s: Script)
    requires !st.row.processed && !st.row.manual
    ensures var r := ProcessAcquireOnlyExtractions(st, s);
            && r.state.log == st.log + [Event(MintAcquireOnly, st.row)]
            && (r.threw <==> MintThrows(st.row, s))
            && (r.state.row.processed <==> MintCloses(st.row, s))
            && FailedOf(r.state.row, ACQUIRERS) == FailedOf(st.row, ACQUIRERS)
            && (!r.threw ==> PendingOf(r.state.row, ACQUIRERS) == MintLeaves(st.row, s))
            && AvailableLp(r.state.row) == AvailableLp(st.row) && (PoolDue(r.state.row) <==> PoolDue(st.row))
  {
    var called := Note(st, MintAcquireOnly);
    WebhookSets(called, s.mint.late);
    var seen := Webhook(called, s.mint.late).row;
    var found := PendingOf(seen, ACQUIRERS);
    SameClaims(seen, seen.(inProgress := false, processed := true));
    ConfirmSets(seen, s.mint.settles(found) * found, ACQUIRERS);
    assert found == MintFinds(st.row, s);
    assert found - s.mint.settles(found) * found == found - s.mint.settles(found);
  }

  lemma SameClaims(v: Vault, w: Vault)
    requires w.claims == v.claims
    ensures PendingOf(w, ACQUIRERS) == PendingOf(v, ACQUIRERS) && FailedOf(w, ACQUIRERS) == FailedOf(v, ACQUIRERS)
    ensures AvailableLp(w) == AvailableLp(v) && HasExpansionClaim(w) == HasExpansionClaim(v)
  {
  }

  // ----- Closed with nothing to mint -----

  /** The acquire-only orchestrator, started for a vault that is not acquire-only because its open acquirer claims all
      come from an expansion, finds none of them PENDING and closes the whole distribution. */
  ghost predicate MintFindsNothing(st: State, c: Cycle) {
    var here := AtFirstTurn(st, c.script).row;
    && ReachesClaims(st, c)
    && OpenExpansionAcquirers(here) != {} && OpenRegularAcquirers(here) == {}
    && MintCloses(here, c.script)
  }

  lemma StartExtractionProcesses(st: State, s: Script)
    requires !st.row.processed && !st.row.manual
    ensures var t := StartExtraction(st, s);
            && (t.row.processed <==>
                  OpenExpansionAcquirers(st.row) != {} && OpenRegularAcquirers(st.row) == {} && MintCloses(st.row, s))
            && (t.row.processed ==>
                  t.log == st.log + [Event(MintAcquireOnly, st.row)] && PendingOf(t.row, ACQUIRERS) == {})
  {
    MintExactly(st, s);
    if OpenExpansionAcquirers(st.row) != {} {
      var i :| i in OpenExpansionAcquirers(st.row);
      assert i in OpenOf(st.row, ACQUIRERS);
    }
    assert !ProcessAcquirerExtractions(st, s).state.row.processed;
  }

  /** Marking and parameterisation leave what the orchestrators look at. */
  lemma SameForMint(v: Vault, w: Vault, s: Script)
    requires w.claims == v.claims && w.treasury == v.treasury
    ensures OpenExpansionAcquirers(w) == OpenExpansionAcquirers(v) && OpenRegularAcquirers(w) == OpenRegularAcquirers(v)
    ensures MintThrows(w, s) == MintThrows(v, s) && MintCloses(w, s) == MintCloses(v, s)
    ensures MintLeaves(w, s) == MintLeaves(v, s)
  {
    SameClaims(v, w);
    assert OpenOf(w, ACQUIRERS) == OpenOf(v, ACQUIRERS);
  }

  lemma FirstPassProcesses(st: State, c: Cycle)
    requires !st.row.processed && !st.row.acquireOnly && c.firstQueryOk
    ensures var t := FirstPass(Webhook(st, c.script.confirmedBefore), c.script);
            && (t.row.processed <==> MintFindsNothing(st, c))
            && (t.row.processed ==> PendingOf(t.row, ACQUIRERS) == {})
  {
    var s := c.script;
    var start := Webhook(st, s.confirmedBefore);
    var here := Webhook(start, s.confirmedFirst);
    if Ready(start.row) && s.markOk {
      var marked := SetRow(here, here.row.(inProgress := true));
      var ready := EnsureDispatchParameterized(marked, start.row, s);
      SameForMint(here.row, ready.state.row, s);
      StartExtractionProcesses(ready.state, s);
    }
  }

  /** A call of the first pass for a vault that is not acquire-only; with `minting`, not an extraction. */
  ghost predicate IsFirstCall(call: Call, minting: bool) {
    call.ParameterizeDispatch? || call.MintAcquireOnly? || (call.ExtractAcquirers? && !minting)
  }

  ghost predicate AddsOnly(a: State, b: State, minting: bool) {
    a.log <= b.log && forall k :: |a.log| <= k < |b.log| ==> IsFirstCall(b.log[k].call, minting)
  }

  lemma AddsNoneOrOne(a: State, b: State, call: Call, minting: bool)
    requires b.log == a.log || (b.log == a.log + [Event(call, a.row)] && IsFirstCall(call, minting))
    ensures AddsOnly(a, b, minting)
  {
  }

  lemma StartExtractionAdds(st: State, s: Script)
    ensures var t := StartExtraction(st, s);
            AddsOnly(st, t, false) && (t.row.processed && !st.row.processed ==> AddsOnly(st, t, true))
  {
    var minted, extracted := ProcessAcquireOnlyExtractions(st, s).state, ProcessAcquirerExtractions(st, s).state;
    assert minted.log == st.log + [Event(MintAcquireOnly, st.row)];
    AddsNoneOrOne(st, minted, MintAcquireOnly, true);
    assert extracted.log == st.log + [Event(ExtractAcquirers, st.row)];
    AddsNoneOrOne(st, extracted, ExtractAcquirers, false);
    assert extracted.row.processed == st.row.processed;
  }

  lemma AddsCompose(a: State, b: State, c: State, minting: bool)
    requires AddsOnly(a, b, true) && AddsOnly(b, c, minting)
    ensures AddsOnly(a, c, minting)
  {
    forall k | |a.log| <= k < |c.log| ensures IsFirstCall(c.log[k].call, minting) {
      if k < |b.log| {
        assert c.log[k] == b.log[k];
      }
    }
  }

  /** The first pass never finalises a vault that is not acquire-only. */
  lemma FirstPassAdds(st: State, s: Script)
    requires !st.row.acquireOnly && !st.row.processed
    ensures var t := FirstPass(st, s);
            AddsOnly(st, t, false) && (t.row.processed ==> AddsOnly(st, t, true))
  {
    var here := Webhook(st, s.confirmedFirst);
    if Ready(st.row) && s.markOk {
      var marked := SetRow(here, here.row.(inProgress := true));
      var ready := EnsureDispatchParameterized(marked, st.row, s).state;
      AddsNoneOrOne(marked, ready, ParameterizeDispatch, true);
      StartExtractionAdds(ready, s);
      AddsCompose(st, ready, StartExtraction(ready, s), false);
      if StartExtraction(ready, s).row.processed {
        AddsCompose(st, ready, StartExtraction(ready, s), true);
      }
    }
  }

  /** The snapshot ends the log, and the row it saw is the row now. */
  ghost predicate JustSnapshotted(st: State, t: State) {
    EndsWithSnapshot(st, t) && t.log[|t.log| - 1].at == t.row
  }

  lemma FinalizationSnapshots(st: State, s: Script)
    requires !st.row.processed
    ensures var t := FinalizeVaultDistribution(st, s).state; t.row.processed ==> JustSnapshotted(st, t)
  {
    FinalizationIsAllOrNothing(st, s);
    FinalizationLog(st, s);
  }

  lemma SecondTurnSnapshots(st: State, listed: Vault, s: Script)
    requires !st.row.processed
    ensures var t := SecondTurn(st, listed, s); t.row.processed ==> JustSnapshotted(st, t)
  {
    FinalizationSnapshots(ProcessContributorPayments(st, listed, s).state, s);
  }

  lemma SecondPassProcesses(st: State, s: Script)
    requires !st.row.processed && !st.row.acquireOnly
    ensures var t := SecondPass(st, s);
            t.row.processed ==> EndsWithSnapshot(st, t) && AllSettled(t.row)
  {
    SecondPassMoves(st, s);
    SecondTurnSnapshots(Webhook(st, s.confirmedSecond), st.row, s);
    var t := SecondPass(st, s);
    if t.row.processed {
      assert Justified(t.log[|t.log| - 1]);
    }
  }

  /** The rest of a cycle for a vault whose turn in the second pass does nothing. */
  ghost function AfterFirstPass(first: State, c: Cycle): State {
    var mid := Webhook(first, c.script.confirmedBetween);
    if c.secondQueryOk then Webhook(mid, c.script.confirmedSecond) else mid
  }

  /** Acquirer claims that the rest of the cycle still sees confirmed. */
  ghost function ConfirmedAfter(c: Cycle): set<nat> {
    c.script.confirmedBetween.extracted + if c.secondQueryOk then c.script.confirmedSecond.extracted else {}
  }

  lemma AfterFirstPassSets(first: State, c: Cycle)
    ensures var t := AfterFirstPass(first, c);
            && PendingOf(t.row, ACQUIRERS) == PendingOf(first.row, ACQUIRERS) - ConfirmedAfter(c)
            && FailedOf(t.row, ACQUIRERS) == FailedOf(first.row, ACQUIRERS)
            && AvailableLp(t.row) == AvailableLp(first.row)
            && t.log == first.log && t.row.processed == first.row.processed
  {
    WebhookSets(first, c.script.confirmedBetween);
    WebhookSets(Webhook(first, c.script.confirmedBetween), c.script.confirmedSecond);
  }

  /** A vault the first pass processed ends the cycle there. */
  lemma ProcessedInFirstPass(st: State, c: Cycle)
    requires c.firstQueryOk && FirstPass(Webhook(st, c.script.confirmedBefore), c.script).row.processed
    ensures Step(st, c) == AfterFirstPass(FirstPass(Webhook(st, c.script.confirmedBefore), c.script), c)
  {
  }

  /** When a vault that is not acquire-only becomes processed, it was finalised with every claim settled and a
      snapshot as the last call, except in exactly one case: the acquire-only orchestrator found nothing to mint. */
  lemma RegularVaultProcessedExactly(st: State, c: Cycle)
    requires !st.row.processed && !st.row.acquireOnly
    ensures var t := Step(st, c);
            && (t.row.processed && !EndsWithSnapshot(st, t) <==> MintFindsNothing(st, c))
            && (t.row.processed && EndsWithSnapshot(st, t) ==> AllSettled(t.row))
            && (MintFindsNothing(st, c) ==> OpenOf(t.row, ACQUIRERS) == FailedOf(st.row, ACQUIRERS))
  {
    var s := c.script;
    var start := Webhook(st, s.confirmedBefore);
    if c.firstQueryOk {
      FirstPassProcesses(st, c);
      FirstPassAdds(start, s);
      var first := FirstPass(start, s);
      if first.row.processed {
        ProcessedInFirstPass(st, c);
        AfterFirstPassSets(first, c);
        StepMoves(st, c);
        MovesShrinkClaims(st.row, Step(st, c).row, ACQUIRERS);
      } else if c.secondQueryOk {
        var mid := Webhook(first, s.confirmedBetween);
        FirstPassMoves(start, s);
        SecondPassProcesses(mid, s);
        assert Step(st, c) == SecondPass(mid, s) && start.log == st.log && mid.log == first.log;
      }
    }
  }

  /** In that case its contributors are never paid, no pool is made and no snapshot is taken, in any later cycle. */
  lemma NothingToMintLeavesContributorsUnpaid(st: State, c: Cycle, cs: seq<Cycle>)
    requires MintFindsNothing(st, c) && !st.row.processed
    ensures var t := Run(Step(st, c), cs);
            t.row.processed && AddsOnly(st, t, true)
  {
    var start := Webhook(st, c.script.confirmedBefore);
    FirstPassProcesses(st, c);
    FirstPassAdds(start, c.script);
    ProcessedInFirstPass(st, c);
    AfterFirstPassSets(FirstPass(start, c.script), c);
    RetiredVaultIsLeftAlone(Step(st, c), cs);
  }

  /** The case happens: the only expansion claim is confirmed between the coordinator's look and the orchestrator's,
      and a contributor is still owed. */
  lemma NothingToMintWitness(st: State, c: Cycle)
    requires Ready(st.row) && !st.row.acquireOnly && Truthy(st.row.treasury) && Truthy(st.row.dispatchHash)
    requires st.row.claims == [Claim(Acquirer, Pending, true), Claim(Contributor, Pending, false)]
    requires c.firstQueryOk && c.script.markOk && c.script.claimsQueryOk && c.script.mint.queryOk &&
             c.script.mintWriteOk
    requires c.script.confirmedBefore == c.script.confirmedFirst == NOTHING_CONFIRMED
    requires c.script.mint.late == Confirmed({0}, {})
    ensures MintFindsNothing(st, c)
    ensures PendingOf(AtFirstTurn(st, c.script).row, PAYEES) == {1}
  {
    var here := AtFirstTurn(st, c.script).row;
    NoWebhook(st);
    assert 0 in OpenExpansionAcquirers(here);
    assert forall i :: i in OpenRegularAcquirers(here) ==> i == 0;
    assert PendingOf(here, ACQUIRERS) == {0};
  }

  /** The same with a FAILED expansion claim, which the coordinator counts as open and the orchestrator does not see. */
  lemma FailedExpansionClaimWitness(st: State, c: Cycle)
    requires Ready(st.row) && !st.row.acquireOnly && Truthy(st.row.treasury) && Truthy(st.row.dispatchHash)
    requires st.row.claims == [Claim(Acquirer, Failed, true), Claim(Contributor, Pending, false)]
    requires c.firstQueryOk && c.script.markOk && c.script.claimsQueryOk && c.script.mint.queryOk &&
             c.script.mintWriteOk
    requires c.script.confirmedBefore == c.script.confirmedFirst == NOTHING_CONFIRMED
    ensures MintFindsNothing(st, c)
    ensures PendingOf(AtFirstTurn(st, c.script).row, PAYEES) == {1}
  {
    var here := AtFirstTurn(st, c.script).row;
    NoWebhook(st);
    assert 0 in OpenExpansionAcquirers(here);
    assert forall i :: i in OpenRegularAcquirers(here) ==> i == 0;
    assert PendingOf(here, ACQUIRERS) == {};
  }

  // ----- Acquire-only vaults -----

  /** The vault gets its turn. */
  ghost predicate AcquireOnlyRuns(st: State, c: Cycle) {
    c.firstQueryOk && Ready(st.row) && c.script.markOk
  }

  /** Its row when the orchestrator is called. */
  ghost function Marked(st: State, s: Script): State {
    var here := AtFirstTurn(st, s);
    SetRow(here, here.row.(inProgress := true))
  }

  /** Its turn: minting, and finalisation as soon as the orchestrator returns. */
  ghost function AcquireOnlyTurn(st: State, s: Script): Outcome {
    var minted := ProcessAcquireOnlyExtractions(Marked(st, s), s);
    if minted.threw then minted else FinalizeVaultDistribution(minted.state, s)
  }

  lemma AcquireOnlyCycle(st: State, c: Cycle)
    requires st.row.acquireOnly && !st.row.processed
    ensures !AcquireOnlyRuns(st, c) ==> Step(st, c).log == st.log && !Step(st, c).row.processed
    ensures AcquireOnlyRuns(st, c) ==> Step(st, c) == AfterFirstPass(AcquireOnlyTurn(st, c.script).state, c)
  {
    var s := c.script;
    var start := Webhook(st, s.confirmedBefore);
    FirstPassMoves(start, s);
    if AcquireOnlyRuns(st, c) {
      assert FirstPass(start, s) == AcquireOnlyTurn(st, s).state;
    }
  }

  /** The cycle closes the vault: the orchestrator returns, and either it closed the vault itself or finalisation goes
      through. What becomes of the claims does not enter. */
  ghost predicate ClosesAcquireOnly(st: State, c: Cycle) {
    var here := AtFirstTurn(st, c.script).row;
    && AcquireOnlyRuns(st, c) && !MintThrows(here, c.script)
    && (MintCloses(here, c.script) || !FinalizationFails(st.row, c.script))
  }

  /** The acquirer claims open at the end of such a cycle: the FAILED ones, and those the orchestrator leaves PENDING
      and nobody confirms afterwards. */
  ghost function LeftOpen(st: State, c: Cycle): set<nat> {
    FailedOf(st.row, ACQUIRERS) + (MintLeaves(AtFirstTurn(st, c.script).row, c.script) - ConfirmedAfter(c))
  }

  ghost function AcquireOnlyCalls(st: State, c: Cycle): seq<Call> {
    if !AcquireOnlyRuns(st, c) then []
    else
      [MintAcquireOnly]
      + if MintThrows(AtFirstTurn(st, c.script).row, c.script) then [] else FinalizationCalls(st.row, c.script)
  }

  lemma AtFirstTurnSets(st: State, s: Script)
    ensures FailedOf(AtFirstTurn(st, s).row, ACQUIRERS) == FailedOf(st.row, ACQUIRERS)
    ensures AvailableLp(AtFirstTurn(st, s).row) == AvailableLp(st.row)
    ensures PoolDue(AtFirstTurn(st, s).row) <==> PoolDue(st.row)
    ensures AtFirstTurn(st, s).log == st.log
  {
    WebhookSets(st, s.confirmedBefore);
    WebhookSets(Webhook(st, s.confirmedBefore), s.confirmedFirst);
  }

  /** What the minting call of the turn does, in terms of the row the confirmations left. */
  lemma MintInTurn(st: State, c: Cycle)
    requires st.row.acquireOnly && !st.row.processed && AcquireOnlyRuns(st, c)
    ensures var here, r := AtFirstTurn(st, c.script).row, ProcessAcquireOnlyExtractions(Marked(st, c.script), c.script);
            && CallsOf(r.state.log) == CallsOf(st.log) + [MintAcquireOnly]
            && (r.threw <==> MintThrows(here, c.script))
            && (r.state.row.processed <==> MintCloses(here, c.script))
            && FailedOf(r.state.row, ACQUIRERS) == FailedOf(st.row, ACQUIRERS)
            && (!r.threw ==> PendingOf(r.state.row, ACQUIRERS) == MintLeaves(here, c.script))
            && (PoolDue(r.state.row) <==> PoolDue(st.row))
  {
    var here, marked := AtFirstTurn(st, c.script), Marked(st, c.script);
    AtFirstTurnSets(st, c.script);
    SameForMint(here.row, marked.row, c.script);
    SameClaims(here.row, marked.row);
    MintExactly(marked, c.script);
  }

  /** The turn exactly: its calls, when the vault is processed, and the acquirer claims it leaves open. */
  lemma AcquireOnlyTurnExactly(st: State, c: Cycle)
    requires st.row.acquireOnly && !st.row.processed && AcquireOnlyRuns(st, c)
    ensures var t, here := AcquireOnlyTurn(st, c.script).state, AtFirstTurn(st, c.script).row;
            && (t.row.processed <==> ClosesAcquireOnly(st, c))
            && CallsOf(t.log) == CallsOf(st.log) + AcquireOnlyCalls(st, c)
            && FailedOf(t.row, ACQUIRERS) == FailedOf(st.row, ACQUIRERS)
            && (ClosesAcquireOnly(st, c) ==> PendingOf(t.row, ACQUIRERS) == MintLeaves(here, c.script))
  {
    MintInTurn(st, c);
    var minted := ProcessAcquireOnlyExtractions(Marked(st, c.script), c.script);
    FinalizationIsAllOrNothing(minted.state, c.script);
    FinalizeKeepsAcquirers(minted.state, c.script);
    if !minted.threw {
      var more := FinalizationCalls(st.row, c.script);
      assert FinalizationCalls(minted.state.row, c.script) == more;
      assert CallsOf(st.log) + [MintAcquireOnly] + more == CallsOf(st.log) + ([MintAcquireOnly] + more);
    } else {
      assert [MintAcquireOnly] + [] == [MintAcquireOnly];
    }
  }

  lemma FinalizeKeepsAcquirers(st: State, s: Script)
    ensures var t := FinalizeVaultDistribution(st, s).state.row;
            && PendingOf(t, ACQUIRERS) == PendingOf(st.row, ACQUIRERS)
            && FailedOf(t, ACQUIRERS) == FailedOf(st.row, ACQUIRERS)
  {
    if !HasExpansionClaim(st.row) && FindLp(st.row.claims, 0).Some? {
      var i := FindLp(st.row.claims, 0).value;
      SameClaims(TakeClaim(st.row, i), TakeClaim(st.row, i).(inProgress := false));
      SameClaims(TakeClaim(st.row, i), TakeClaim(st.row, i).(inProgress := false, processed := true));
      TakingKeepsAcquirers(st.row, i);
    }
  }

  lemma TakingKeepsAcquirers(v: Vault, i: nat)
    requires i < |v.claims| && v.claims[i].kind == Lp
    ensures PendingOf(TakeClaim(v, i), ACQUIRERS) == PendingOf(v, ACQUIRERS)
    ensures FailedOf(TakeClaim(v, i), ACQUIRERS) == FailedOf(v, ACQUIRERS)
  {
  }

  /** An acquire-only vault exactly: its calls in a cycle, when the cycle closes it, and the acquirer claims then still
      open. */
  lemma AcquireOnlyClosesExactly(st: State, c: Cycle)
    requires st.row.acquireOnly && !st.row.processed
    ensures var t := Step(st, c);
            && CallsOf(t.log) == CallsOf(st.log) + AcquireOnlyCalls(st, c)
            && (t.row.processed <==> ClosesAcquireOnly(st, c))
            && (ClosesAcquireOnly(st, c) ==> OpenOf(t.row, ACQUIRERS) == LeftOpen(st, c))
  {
    AcquireOnlyCycle(st, c);
    if AcquireOnlyRuns(st, c) {
      AcquireOnlyTurnExactly(st, c);
      AfterFirstPassSets(AcquireOnlyTurn(st, c.script).state, c);
    } else {
      assert CallsOf(st.log) + [] == CallsOf(st.log);
    }
  }

  // ----- Every vault -----

  /** Any vault, exactly: when a cycle leaves it processed without a closing snapshot, when it leaves it processed with
      acquirer claims still open, and what holds of a regular vault otherwise. */
  lemma ProcessedExactlyWhenFinalizedOrNothingToMint(st: State, c: Cycle)
    requires !st.row.processed
    ensures var t, only := Step(st, c), st.row.acquireOnly;
            && (t.row.processed && !EndsWithSnapshot(st, t) <==>
                  if only then ClosesAcquireOnly(st, c) && FinalizationFails(st.row, c.script)
                  else MintFindsNothing(st, c))
            && (t.row.processed && OpenOf(t.row, ACQUIRERS) != {} <==>
                  if only then ClosesAcquireOnly(st, c) && LeftOpen(st, c) != {}
                  else MintFindsNothing(st, c) && FailedOf(st.row, ACQUIRERS) != {})
            && (t.row.processed && EndsWithSnapshot(st, t) && !only ==> AllSettled(t.row))
  {
    if st.row.acquireOnly {
      AcquireOnlyClosesExactly(st, c);
      StepMoves(st, c);
      LastCall(st, Step(st, c), AcquireOnlyCalls(st, c));
    } else {
      RegularVaultProcessedExactly(st, c);
    }
  }

  lemma LastCall(st: State, t: State, calls: seq<Call>)
    requires st.log <= t.log && CallsOf(t.log) == CallsOf(st.log) + calls
    ensures EndsWithSnapshot(st, t) <==> calls != [] && calls[|calls| - 1].Snapshot?
  {
    if calls != [] {
      assert CallsOf(t.log)[|t.log| - 1] == calls[|calls| - 1];
    }
  }

  // ----- After the vault is closed -----

  /** Acquirer claims the webhook confirms in a cycle. */
  ghost function ExtractedIn(c: Cycle): set<nat> {
    c.script.confirmedBefore.extracted
    + if c.firstQueryOk then c.script.confirmedFirst.extracted + ConfirmedAfter(c) else {}
  }

  ghost function ExtractedInAll(cs: seq<Cycle>): set<nat> {
    if cs == [] then {} else ExtractedIn(cs[0]) + ExtractedInAll(cs[1..])
  }

  lemma RetiredStepClaims(st: State, c: Cycle)
    requires st.row.processed || st.row.manual
    ensures PendingOf(Step(st, c).row, ACQUIRERS) == PendingOf(st.row, ACQUIRERS) - ExtractedIn(c)
    ensures FailedOf(Step(st, c).row, ACQUIRERS) == FailedOf(st.row, ACQUIRERS)
  {
    var s := c.script;
    var start := Webhook(st, s.confirmedBefore);
    WebhookSets(st, s.confirmedBefore);
    if c.firstQueryOk {
      WebhookSets(start, s.confirmedFirst);
      AfterFirstPassSets(Webhook(start, s.confirmedFirst), c);
      assert Step(st, c) == AfterFirstPass(Webhook(start, s.confirmedFirst), c);
    }
  }

  /** A closed vault's acquirer claims: only a confirmation from outside still settles one. */
  lemma {:induction false} RetiredClaims(st: State, cs: seq<Cycle>)
    requires st.row.processed || st.row.manual
    ensures PendingOf(Run(st, cs).row, ACQUIRERS) == PendingOf(st.row, ACQUIRERS) - ExtractedInAll(cs)
    ensures FailedOf(Run(st, cs).row, ACQUIRERS) == FailedOf(st.row, ACQUIRERS)
    decreases |cs|
  {
    if cs != [] {
      RetiredStepClaims(st, cs[0]);
      StepRetired(st, cs[0]);
      RetiredClaims(Step(st, cs[0]), cs[1..]);
    }
  }

  /** Over any later run, nobody is called for a vault that was closed with acquirer claims open, and those claims stay
      open unless the chain confirms them all the same. */
  lemma ClaimsAreLeftBehind(st: State, c: Cycle, cs: seq<Cycle>)
    requires st.row.acquireOnly && ClosesAcquireOnly(st, c)
    ensures var t := Run(Step(st, c), cs);
            && t.row.processed && t.log == Step(st, c).log
            && LeftOpen(st, c) - ExtractedInAll(cs) <= OpenOf(t.row, ACQUIRERS) <= LeftOpen(st, c)
  {
    AcquireOnlyClosesExactly(st, c);
    RetiredVaultIsLeftAlone(Step(st, c), cs);
    RetiredClaims(Step(st, c), cs);
  }

  /** A cycle in which all queries and writes work and nobody confirms anything from outside. */
  ghost predicate Undisturbed(c: Cycle) {
    var s := c.script;
    && c.firstQueryOk && c.secondQueryOk && s.markOk && s.mint.queryOk && s.mintWriteOk && s.finalizeQueryOk
    && s.processedWriteOk && s.lp.Recorded? && s.mint.late == NOTHING_CONFIRMED
    && s.confirmedBefore == s.confirmedFirst == s.confirmedBetween == s.confirmedSecond == NOTHING_CONFIRMED
  }

  lemma UndisturbedTurn(st: State, c: Cycle)
    requires Undisturbed(c)
    ensures AtFirstTurn(st, c.script) == st && ConfirmedAfter(c) == {}
  {
    NoWebhook(st);
  }

  /** It happens without a treasury address: the vault is closed although nobody was minted anything. */
  lemma NoTreasuryWitness(st: State, c: Cycle)
    requires Ready(st.row) && st.row.acquireOnly && !Truthy(st.row.treasury) && Undisturbed(c)
    requires st.row.claims == [Claim(Acquirer, Pending, false)]
    ensures Step(st, c).row.processed && OpenOf(Step(st, c).row, ACQUIRERS) == {0}
  {
    UndisturbedTurn(st, c);
    AcquireOnlyClosesExactly(st, c);
    assert 0 in PendingOf(st.row, ACQUIRERS);
    assert LeftOpen(st, c) == {0};
  }

  /** And with one, when a batch is given up: the claims of the others are minted, this one is not. */
  lemma GivenUpBatchWitness(st: State, c: Cycle)
    requires Ready(st.row) && st.row.acquireOnly && Truthy(st.row.treasury) && Undisturbed(c)
    requires st.row.claims == [Claim(Acquirer, Pending, false), Claim(Acquirer, Pending, false)]
    requires c.script.mint.settles({0, 1}) == {0} && !c.script.mint.throws
    ensures Step(st, c).row.processed && OpenOf(Step(st, c).row, ACQUIRERS) == {1}
  {
    UndisturbedTurn(st, c);
    AcquireOnlyClosesExactly(st, c);
    TwoPending(st.row);
    assert MintFinds(st.row, c.script) == {0, 1};
    assert MintLeaves(st.row, c.script) == {1};
  }

  lemma TwoPending(v: Vault)
    requires v.claims == [Claim(Acquirer, Pending, false), Claim(Acquirer, Pending, false)]
    ensures PendingOf(v, ACQUIRERS) == {0, 1} && FailedOf(v, ACQUIRERS) == {}
  {
  }

  // ----- The pool of an acquire-only vault -----

  ghost predicate PoolTriedWhileProcessed(st: State, t: State) {
    exists k :: |st.log| <= k < |t.log| && t.log[k].call.CreateLp? && t.log[k].at.processed
  }

  /** The orchestrator has already marked the vault processed when finalisation starts. */
  ghost predicate ProcessedBeforeFinalize(st: State, c: Cycle) {
    st.row.acquireOnly && AcquireOnlyRuns(st, c) && MintCloses(AtFirstTurn(st, c.script).row, c.script)
  }

  lemma FinalizeTriesPool(st: State, s: Script)
    ensures var t := FinalizeVaultDistribution(st, s).state;
            && st.log <= t.log
            && (PoolTriedWhileProcessed(st, t) <==> st.row.processed && s.finalizeQueryOk && PoolDue(st.row))
  {
    PoolFound(st.row);
    var t := FinalizeVaultDistribution(st, s).state;
    if s.finalizeQueryOk && PoolDue(st.row) {
      assert t.log[|st.log|] == Event(CreateLp(s.lp), st.row);
    } else {
      assert t.log == st.log || (|t.log| == |st.log| + 1 && t.log[|st.log|].call.Snapshot?);
    }
  }

  /** A pool is attempted for a vault already marked processed in exactly this case. */
  lemma PoolAfterProcessedExactly(st: State, c: Cycle)
    ensures PoolTriedWhileProcessed(st, Step(st, c)) <==>
              ProcessedBeforeFinalize(st, c) && c.script.finalizeQueryOk && PoolDue(st.row)
  {
    StepMoves(st, c);
    if st.row.processed {
      StepRetired(st, c);
    } else if st.row.acquireOnly {
      AcquireOnlyCycle(st, c);
      if AcquireOnlyRuns(st, c) {
        AcquireOnlyPool(st, c);
        AfterFirstPassSets(AcquireOnlyTurn(st, c.script).state, c);
      }
    } else {
      var t := Step(st, c);
      forall k | |st.log| <= k < |t.log| ensures !(t.log[k].call.CreateLp? && t.log[k].at.processed) {
        assert Justified(t.log[k]) && RowMoves(st.row, t.log[k].at);
      }
    }
  }

  lemma AcquireOnlyPool(st: State, c: Cycle)
    requires st.row.acquireOnly && !st.row.processed && AcquireOnlyRuns(st, c)
    ensures var t := AcquireOnlyTurn(st, c.script).state;
            PoolTriedWhileProcessed(st, t) <==>
              MintCloses(AtFirstTurn(st, c.script).row, c.script) && c.script.finalizeQueryOk && PoolDue(st.row)
  {
    var s := c.script;
    var here, marked := AtFirstTurn(st, s), Marked(st, s);
    AtFirstTurnSets(st, s);
    SameForMint(here.row, marked.row, s);
    SameClaims(here.row, marked.row);
    MintExactly(marked, s);
    var minted := ProcessAcquireOnlyExtractions(marked, s);
    FinalizeTriesPool(minted.state, s);
    PoolTriesAdd(st, minted.state, AcquireOnlyTurn(st, s).state);
  }

  /** One call that is not a pool's changes nothing about pool attempts. */
  lemma PoolTriesAdd(st: State, mid: State, t: State)
    requires |mid.log| == |st.log| + 1 && !mid.log[|st.log|].call.CreateLp? && mid.log <= t.log
    ensures PoolTriedWhileProcessed(st, t) <==> PoolTriedWhileProcessed(mid, t)
  {
    if PoolTriedWhileProcessed(st, t) {
      var k :| |st.log| <= k < |t.log| && t.log[k].call.CreateLp? && t.log[k].at.processed;
      assert k != |st.log|;
    }
    if PoolTriedWhileProcessed(mid, t) {
      var k :| |mid.log| <= k < |t.log| && t.log[k].call.CreateLp? && t.log[k].at.processed;
      assert t.log[k].at.processed;
    }
  }

  /** If that attempt throws, the vault stays processed without its pool: no later cycle tries again. */
  lemma FailedPoolIsNeverRetried(st: State, c: Cycle, cs: seq<Cycle>)
    requires ProcessedBeforeFinalize(st, c) && c.script.finalizeQueryOk && PoolDue(st.row)
    requires !c.script.lp.Recorded?
    ensures var t := Run(Step(st, c), cs);
            && t.row.processed
            && LpCreated(t.log) == LpCreated(st.log)
            && AvailableLp(t.row) != {} && |AvailableLp(t.row)| == |AvailableLp(st.row)|
  {
    AcquireOnlyClosesExactly(st, c);
    RetiredVaultIsLeftAlone(Step(st, c), cs);
    StepMoves(st, c);
    RunMoves(Step(st, c), cs);
    StepRecordsNone(st, c);
  }

  /** Without a recorded pool the LP claims stay, and so does the number of pools. */
  lemma StepRecordsNone(st: State, c: Cycle)
    requires st.row.acquireOnly && !st.row.processed && AcquireOnlyRuns(st, c) && !c.script.lp.Recorded?
    ensures AvailableLp(Step(st, c).row) == AvailableLp(st.row)
  {
    var s := c.script;
    var marked := Marked(st, s);
    AtFirstTurnSets(st, s);
    SameClaims(AtFirstTurn(st, s).row, marked.row);
    MintExactly(marked, s);
    var minted := ProcessAcquireOnlyExtractions(marked, s).state;
    UnrecordedPoolTakesNothing(minted, s);
    SameClaims(minted.row, FinalizeVaultDistribution(minted, s).state.row);
    AcquireOnlyCycle(st, c);
    AfterFirstPassSets(AcquireOnlyTurn(st, s).state, c);
  }

  lemma UnrecordedPoolTakesNothing(st: State, s: Script)
    requires !s.lp.Recorded?
    ensures FinalizeVaultDistribution(st, s).state.row.claims == st.row.claims
  {
  }

  // ----- A pool that is never recorded -----

  /** A regular vault with all acquirers settled and its pool to be made. */
  ghost predicate AwaitsPool(v: Vault) {
    !v.acquireOnly && !v.processed && OpenOf(v, ACQUIRERS) == {} && PoolDue(v)
  }

  lemma WebhookKeepsAwaiting(st: State, c: Confirmed)
    requires AwaitsPool(st.row)
    ensures AwaitsPool(Webhook(st, c).row)
  {
    WebhookSets(st, c);
  }

  lemma AwaitingFirstPass(st: State, s: Script)
    requires AwaitsPool(st.row)
    ensures AwaitsPool(FirstPass(st, s).row)
  {
    WebhookKeepsAwaiting(st, s.confirmedFirst);
    var here := Webhook(st, s.confirmedFirst);
    if Ready(st.row) && s.markOk {
      var marked := SetRow(here, here.row.(inProgress := true));
      var ready := EnsureDispatchParameterized(marked, st.row, s).state;
      SameClaims(here.row, ready.row);
      SameClaims(here.row, marked.row);
    }
  }

  lemma AwaitingSecondPass(st: State, s: Script)
    requires AwaitsPool(st.row) && !s.lp.Recorded?
    ensures AwaitsPool(SecondPass(st, s).row)
  {
    WebhookKeepsAwaiting(st, s.confirmedSecond);
    var here := Webhook(st, s.confirmedSecond);
    if InDistribution(st.row) {
      var called := Note(here, PayContributors);
      WebhookKeepsAwaiting(called, s.pay.late);
      var seen := Webhook(called, s.pay.late);
      var found := PendingOf(seen.row, PAYEES);
      ConfirmSets(seen.row, s.pay.settles(found) * found, ACQUIRERS);
      var paid := ProcessContributorPayments(here, st.row, s).state;
      assert AwaitsPool(paid.row);
      PoolIsMadeIfDue(paid, s);
      SameClaims(paid.row, paid.row.(inProgress := false));
    }
  }

  lemma AwaitingStep(st: State, c: Cycle)
    requires AwaitsPool(st.row) && !c.script.lp.Recorded?
    ensures AwaitsPool(Step(st, c).row)
  {
    var s := c.script;
    var start := Webhook(st, s.confirmedBefore);
    WebhookKeepsAwaiting(st, s.confirmedBefore);
    AwaitingFirstPass(start, s);
    WebhookKeepsAwaiting(FirstPass(start, s), s.confirmedBetween);
    AwaitingSecondPass(Webhook(FirstPass(start, s), s.confirmedBetween), s);
  }

  /** As long as LP creation does not return, whether it fails or submits a pool that is then not recorded (after which
      VyFi may report it and every later attempt throws), a vault that owes its pool is never processed. */
  lemma {:induction false} UnrecordedPoolBlocks(st: State, cs: seq<Cycle>)
    requires AwaitsPool(st.row) && forall k :: 0 <= k < |cs| ==> !cs[k].script.lp.Recorded?
    ensures AwaitsPool(Run(st, cs).row) && !Run(st, cs).row.processed
    decreases |cs|
  {
    if cs != [] {
      AwaitingStep(st, cs[0]);
      UnrecordedPoolBlocks(Step(st, cs[0]), cs[1..]);
    }
  }
}
