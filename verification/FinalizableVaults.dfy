/**
 Which vaults the coordinator can bring to a closing snapshot: on its own, and with confirmations from outside.
 */
module FinalizableVaults {
  import opened Wrappers
  import opened VaultSteps
  import opened DistributionOutcomes
  import opened DistributionProgress
  import opened DistributionSafety

  /** Nothing is confirmed but what the orchestrators themselves settle. */
  ghost predicate Quiet(c: Cycle) {
    var s := c.script;
    && s.confirmedBefore == s.confirmedFirst == s.confirmedBetween == s.confirmedSecond == NOTHING_CONFIRMED
    && s.mint.late == s.extract.late == s.pay.late == NOTHING_CONFIRMED
  }

  ghost predicate AllQuiet(cs: seq<Cycle>) {
    forall k :: 0 <= k < |cs| ==> Quiet(cs[k])
  }

  /** The guards: an acquire-only vault only has to be listed. Any other needs no FAILED claim, and either is listed for
      the first pass, its acquirer claims all of one kind and with a treasury address if that is the expansion kind, or
      is already in the distribution with no acquirer claim open. */
  ghost predicate Finalizable(v: Vault) {
    && !v.manual
    && if v.acquireOnly then Eligible(v)
       else
         && FailedOf(v, ACQUIRERS) == {} && FailedOf(v, PAYEES) == {}
         && if Eligible(v) then !Mixed(v) && (OpenExpansionAcquirers(v) != {} ==> Truthy(v.treasury))
            else v.inProgress && OpenOf(v, ACQUIRERS) == {}
  }

  // ----- A FAILED contributor or expansion claim -----

  /** Claims for which a payout is confirmed at some time in a cycle. */
  ghost function PaidOutIn(c: Cycle): set<nat> {
    var s := c.script;
    s.confirmedBefore.paidOut + s.confirmedFirst.paidOut + s.confirmedBetween.paidOut + s.confirmedSecond.paidOut
    + s.mint.late.paidOut + s.extract.late.paidOut + s.pay.late.paidOut
  }

  lemma SameFailedPayees(v: Vault, w: Vault)
    requires w.claims == v.claims
    ensures FailedOf(w, PAYEES) == FailedOf(v, PAYEES)
  {
  }

  lemma SettleKeepsFailed(st: State, kinds: set<ClaimType>, o: Orchestration)
    ensures FailedOf(Settle(st, kinds, o).state.row, PAYEES) == FailedOf(st.row, PAYEES)
  {
    var found := PendingOf(st.row, kinds);
    ConfirmSets(st.row, o.settles(found) * found, PAYEES);
  }

  lemma MintKeepsFailedPayee(st: State, s: Script, i: nat)
    requires i in FailedOf(st.row, PAYEES) && i !in s.mint.late.paidOut
    ensures i in FailedOf(ProcessAcquireOnlyExtractions(st, s).state.row, PAYEES)
  {
    var called := Note(st, MintAcquireOnly);
    WebhookSets(called, s.mint.late);
    var seen := Webhook(called, s.mint.late);
    SettleKeepsFailed(seen, ACQUIRERS, s.mint);
    SameFailedPayees(seen.row, seen.row.(inProgress := false, processed := true));
  }

  lemma ExtractKeepsFailedPayee(st: State, s: Script, i: nat)
    requires i in FailedOf(st.row, PAYEES) && i !in s.extract.late.paidOut
    ensures i in FailedOf(ProcessAcquirerExtractions(st, s).state.row, PAYEES)
  {
    var called := Note(st, ExtractAcquirers);
    WebhookSets(called, s.extract.late);
    SettleKeepsFailed(Webhook(called, s.extract.late), ACQUIRERS, s.extract);
  }

  lemma PayKeepsFailedPayee(st: State, listed: Vault, s: Script, i: nat)
    requires i in FailedOf(st.row, PAYEES) && i !in s.pay.late.paidOut
    ensures i in FailedOf(ProcessContributorPayments(st, listed, s).state.row, PAYEES)
  {
    var called := Note(st, PayContributors);
    WebhookSets(called, s.pay.late);
    SettleKeepsFailed(Webhook(called, s.pay.late), PAYEES, s.pay);
  }

  lemma FirstPassKeepsFailedPayee(st: State, s: Script, i: nat)
    requires !st.row.acquireOnly && i in FailedOf(st.row, PAYEES)
    requires i !in s.confirmedFirst.paidOut + s.mint.late.paidOut + s.extract.late.paidOut
    ensures i in FailedOf(FirstPass(st, s).row, PAYEES)
  {
    WebhookSets(st, s.confirmedFirst);
    var here := Webhook(st, s.confirmedFirst);
    if Ready(st.row) && s.markOk {
      var ready := AtClaims(st, s);
      SameFailedPayees(here.row, ready.row);
      SameFailedPayees(here.row, here.row.(inProgress := true));
      MintKeepsFailedPayee(ready, s, i);
      ExtractKeepsFailedPayee(ready, s, i);
      SameFailedPayees(ready.row, ready.row.(manual := true));
    }
  }

  /** The claim keeps the vault from being complete. */
  lemma SecondPassKeepsFailedPayee(st: State, s: Script, i: nat)
    requires i in FailedOf(st.row, PAYEES) && i !in s.confirmedSecond.paidOut + s.pay.late.paidOut
    ensures var t := SecondPass(st, s);
            && i in FailedOf(t.row, PAYEES)
            && (t.log == st.log || t.log == st.log + [Event(PayContributors, Webhook(st, s.confirmedSecond).row)])
  {
    WebhookSets(st, s.confirmedSecond);
    var here := Webhook(st, s.confirmedSecond);
    PayKeepsFailedPayee(here, st.row, s, i);
    assert i in OpenOf(ProcessContributorPayments(here, st.row, s).state.row, PAYEES);
  }

  lemma NotFinalizedCompose(a: State, b: State, c: State)
    requires a.log <= b.log <= c.log && !Finalized(a, b) && !Finalized(b, c)
    ensures !Finalized(a, c)
  {
    forall k | |a.log| <= k < |c.log| ensures !c.log[k].call.Snapshot? {
      if k < |b.log| {
        assert c.log[k] == b.log[k];
      }
    }
  }

  lemma FirstPassTakesNoSnapshot(st: State, s: Script)
    requires !st.row.acquireOnly
    ensures st.log <= FirstPass(st, s).log && !Finalized(st, FirstPass(st, s))
  {
    if !st.row.processed {
      FirstPassAdds(st, s);
    }
  }

  lemma StepKeepsFailedPayee(st: State, c: Cycle, i: nat)
    requires !st.row.acquireOnly && i in FailedOf(st.row, PAYEES) && i !in PaidOutIn(c)
    ensures i in FailedOf(Step(st, c).row, PAYEES) && !Finalized(st, Step(st, c))
  {
    var s := c.script;
    var start := Webhook(st, s.confirmedBefore);
    WebhookSets(st, s.confirmedBefore);
    if c.firstQueryOk {
      var first := FirstPass(start, s);
      FirstPassKeepsFailedPayee(start, s, i);
      FirstPassTakesNoSnapshot(start, s);
      WebhookSets(first, s.confirmedBetween);
      var mid := Webhook(first, s.confirmedBetween);
      if c.secondQueryOk {
        SecondPassKeepsFailedPayee(mid, s, i);
        assert !Finalized(mid, SecondPass(mid, s));
        NotFinalizedCompose(start, mid, SecondPass(mid, s));
        assert Step(st, c) == SecondPass(mid, s);
      } else {
        assert Step(st, c) == mid;
      }
    }
  }

  /** A FAILED contributor or expansion claim keeps its vault from being finalised until a payout for it is confirmed
      after all: no orchestrator picks it up. */
  lemma {:induction false} FailedPayeeBlocksUntilPaidOut(st: State, cs: seq<Cycle>, i: nat)
    requires !st.row.acquireOnly && i in FailedOf(st.row, PAYEES)
    requires forall k :: 0 <= k < |cs| ==> i !in PaidOutIn(cs[k])
    ensures i in FailedOf(Run(st, cs).row, PAYEES) && !Finalized(st, Run(st, cs))
    decreases |cs|
  {
    if cs != [] {
      var next := Step(st, cs[0]);
      StepKeepsFailedPayee(st, cs[0], i);
      StepMoves(st, cs[0]);
      FailedPayeeBlocksUntilPaidOut(next, cs[1..], i);
      RunMoves(next, cs[1..]);
      NotFinalizedCompose(st, next, Run(st, cs));
    }
  }

  // ----- Vaults that are stuck -----

  lemma FailedAcquirerMeansNoSnapshot(st: State, cs: seq<Cycle>)
    requires !st.row.acquireOnly && FailedOf(st.row, ACQUIRERS) != {}
    ensures !Finalized(st, Run(st, cs))
  {
    var t := Run(st, cs);
    RunMoves(st, cs);
    if Finalized(st, t) {
      var k :| |st.log| <= k < |t.log| && t.log[k].call.Snapshot?;
      assert Justified(t.log[k]) && RowMoves(st.row, t.log[k].at);
      MovesShrinkClaims(st.row, t.log[k].at, ACQUIRERS);
    }
  }

  lemma QuietCycle(st: State, c: Cycle)
    requires Quiet(c)
    ensures FirstPass(st, c.script) == if Ready(st.row) then FirstTurn(st, st.row, c.script) else st
    ensures SecondPass(st, c.script) == if InDistribution(st.row) then SecondTurn(st, st.row, c.script) else st
    ensures Step(st, c) == if !c.firstQueryOk then st
                           else if !c.secondQueryOk then FirstPass(st, c.script)
                           else SecondPass(FirstPass(st, c.script), c.script)
  {
    NoWebhook(st);
    NoWebhook(FirstPass(st, c.script));
  }

  /** Acquirer claims nobody will work on: of both kinds, or of the expansion kind without a treasury address. */
  ghost predicate Stalled(v: Vault) {
    Mixed(v) || (OpenExpansionAcquirers(v) != {} && !Truthy(v.treasury))
  }

  lemma StalledIsOpen(v: Vault)
    requires Stalled(v)
    ensures OpenOf(v, ACQUIRERS) != {}
  {
    var i :| i in OpenExpansionAcquirers(v);
    assert i in OpenOf(v, ACQUIRERS);
  }

  lemma StalledExtraction(st: State, s: Script)
    requires Stalled(st.row) && s.mint.late == NOTHING_CONFIRMED
    ensures StartExtraction(st, s).row == st.row.(manual := StartExtraction(st, s).row.manual)
  {
    StalledIsOpen(st.row);
    NoWebhook(Note(st, MintAcquireOnly));
  }

  lemma StalledFirstPass(st: State, c: Cycle)
    requires Quiet(c) && Stalled(st.row) && !st.row.acquireOnly
    ensures var t := FirstPass(st, c.script).row;
            t.claims == st.row.claims && t.treasury == st.row.treasury && t.acquireOnly == st.row.acquireOnly
  {
    QuietCycle(st, c);
    if Ready(st.row) && c.script.markOk {
      var marked := SetRow(st, st.row.(inProgress := true));
      var ready := EnsureDispatchParameterized(marked, st.row, c.script).state;
      SameForMint(st.row, ready.row, c.script);
      StalledExtraction(ready, c.script);
    }
  }

  lemma StalledStep(st: State, c: Cycle)
    requires Quiet(c) && Stalled(st.row) && !st.row.acquireOnly && !st.row.processed
    ensures Stalled(Step(st, c).row) && !Finalized(st, Step(st, c))
  {
    QuietCycle(st, c);
    if c.firstQueryOk {
      var first := FirstPass(st, c.script);
      StalledFirstPass(st, c);
      SameForMint(st.row, first.row, c.script);
      StalledIsOpen(first.row);
      QuietCycle(first, c);
      FirstPassAdds(st, c.script);
    }
  }

  /** A vault that no query will list for anything but skipping it. */
  lemma UnlistedStep(st: State, c: Cycle)
    requires Quiet(c) && !st.row.acquireOnly && !Eligible(st.row) &&
             !(st.row.inProgress && OpenOf(st.row, ACQUIRERS) == {})
    ensures Step(st, c) == st
  {
    QuietCycle(st, c);
  }

  lemma StuckStep(st: State, c: Cycle)
    requires !st.row.processed && !Finalizable(st.row) && Quiet(c)
    ensures !Finalized(st, Step(st, c))
    ensures Step(st, c).row.processed || !Finalizable(Step(st, c).row)
  {
    var t := Step(st, c);
    StepMoves(st, c);
    if st.row.manual {
      StepRetired(st, c);
    } else if st.row.acquireOnly {
      AcquireOnlyCycle(st, c);
    } else if FailedOf(st.row, ACQUIRERS) != {} {
      assert t == Run(st, [c]);
      FailedAcquirerMeansNoSnapshot(st, [c]);
      MovesShrinkClaims(st.row, t.row, ACQUIRERS);
    } else if FailedOf(st.row, PAYEES) != {} {
      var i :| i in FailedOf(st.row, PAYEES);
      StepKeepsFailedPayee(st, c, i);
    } else if Eligible(st.row) {
      StalledStep(st, c);
    } else {
      UnlistedStep(st, c);
    }
  }

  lemma {:induction false} StuckStays(st: State, cs: seq<Cycle>)
    requires !st.row.processed && !Finalizable(st.row) && AllQuiet(cs)
    ensures !Finalized(st, Run(st, cs))
    decreases |cs|
  {
    if cs != [] {
      var next := Step(st, cs[0]);
      StuckStep(st, cs[0]);
      StepMoves(st, cs[0]);
      if next.row.processed {
        RetiredVaultIsLeftAlone(next, cs[1..]);
      } else {
        StuckStays(next, cs[1..]);
        RunMoves(next, cs[1..]);
      }
      NotFinalizedCompose(st, next, Run(st, cs));
    }
  }

  // ----- Vaults that get there -----

  lemma SmoothIsQuiet(n: nat)
    ensures AllQuiet(seq(n, _ => SmoothCycle()))
  {
  }

  lemma SmoothPayment(st: State)
    requires !st.row.manual && FailedOf(st.row, PAYEES) == {}
    ensures var paid := ProcessContributorPayments(st, st.row, SmoothCycle().script);
            && !paid.threw && OpenOf(paid.state.row, PAYEES) == {}
            && paid.state.log == st.log + [Event(PayContributors, st.row)]
  {
    var called := Note(st, PayContributors);
    NoWebhook(called);
    var found := PendingOf(called.row, PAYEES);
    ConfirmSets(called.row, found, PAYEES);
    assert SmoothCycle().script.pay.settles(found) * found == found;
  }

  /** In the distribution with no acquirer claim open and nothing FAILED, one smooth second pass pays everyone and
      closes. */
  lemma SmoothSecondPass(st: State)
    requires InDistribution(st.row) && !st.row.acquireOnly
    requires OpenOf(st.row, ACQUIRERS) == {} && FailedOf(st.row, PAYEES) == {}
    ensures EndsWithSnapshot(st, SecondPass(st, SmoothCycle().script))
  {
    var s := SmoothCycle().script;
    var paid := ProcessContributorPayments(st, st.row, s);
    QuietCycle(st, SmoothCycle());
    SmoothPayment(st);
    FinalizationIsAllOrNothing(paid.state, s);
    var t := FinalizeVaultDistribution(paid.state, s).state;
    CallsPrefix(paid.state, t, FinalizationCalls(paid.state.row, s));
    assert SecondPass(st, s) == t;
  }

  lemma CallsPrefix(st: State, t: State, calls: seq<Call>)
    requires CallsOf(t.log) == CallsOf(st.log) + calls && st.log <= t.log && calls != [] && calls[|calls| - 1].Snapshot?
    ensures EndsWithSnapshot(st, t)
  {
    LastCall(st, t, calls);
  }

  lemma FinalizableGetsThere(st: State)
    requires !st.row.processed && Finalizable(st.row)
    ensures exists cs :: AllQuiet(cs) && Finalized(st, Run(st, cs))
  {
    var one := seq(1, _ => SmoothCycle());
    SmoothIsQuiet(1);
    assert Run(st, one) == Step(st, SmoothCycle());
    if st.row.acquireOnly {
      SmoothCyclesAreGood(1);
      AcquireOnlyClosesInOneGoodCycle(st, SmoothCycle());
      SnapshotStays(st, Step(st, SmoothCycle()), Run(st, one));
    } else if Eligible(st.row) {
      SmoothIsQuiet(Need(st.row));
      SmoothRunFinalizes(st);
    } else {
      QuietCycle(st, SmoothCycle());
      SmoothSecondPass(st);
      SnapshotStays(st, Step(st, SmoothCycle()), Run(st, one));
    }
  }

  /** Without confirmations from outside, a vault is finalised in some run if and only if the guards hold: the
      coordinator counts FAILED claims as open, but no orchestrator retries them; claims of both kinds go to manual
      mode; expansion claims cannot be minted without a treasury address. */
  lemma FinalizableExactly(st: State)
    requires !st.row.processed
    ensures (exists cs :: AllQuiet(cs) && Finalized(st, Run(st, cs))) <==> Finalizable(st.row)
  {
    if Finalizable(st.row) {
      FinalizableGetsThere(st);
    } else {
      forall cs | AllQuiet(cs) ensures !Finalized(st, Run(st, cs)) {
        StuckStays(st, cs);
      }
    }
  }

  // ----- With confirmations from outside -----

  /** The guards that no confirmation can lift. */
  ghost predicate Reachable(v: Vault) {
    && !v.manual
    && if v.acquireOnly then Eligible(v) else FailedOf(v, ACQUIRERS) == {} && (Eligible(v) || v.inProgress)
  }

  /** A cycle whose query fails while the chain confirms everything that is open, late payouts of FAILED claims
      included. */
  function ConfirmAll(v: Vault): Cycle {
    var all := Confirmed(PendingOf(v, ACQUIRERS), OpenOf(v, PAYEES));
    SmoothCycle().(firstQueryOk := false, script := SmoothCycle().script.(confirmedBefore := all))
  }

  lemma ConfirmAllUnblocks(st: State)
    requires Reachable(st.row) && !st.row.acquireOnly
    ensures var t := Step(st, ConfirmAll(st.row));
            Finalizable(t.row) && t.log == st.log && t.row.processed == st.row.processed
  {
    var all := ConfirmAll(st.row).script.confirmedBefore;
    WebhookSets(st, all);
    var t := Webhook(st, all);
    assert OpenOf(t.row, ACQUIRERS) == {} && FailedOf(t.row, PAYEES) == {};
    assert OpenExpansionAcquirers(t.row) == {};
  }

  lemma UnreachableStep(st: State, c: Cycle)
    requires !Reachable(st.row) && (st.row.acquireOnly || FailedOf(st.row, ACQUIRERS) == {})
    ensures Step(st, c).log == st.log && Step(st, c).row == st.row.(claims := Step(st, c).row.claims)
  {
    if st.row.manual {
      StepRetired(st, c);
    }
  }

  lemma {:induction false} UnreachableStays(st: State, cs: seq<Cycle>)
    requires !st.row.processed && !Reachable(st.row)
    ensures !Finalized(st, Run(st, cs))
    decreases |cs|
  {
    if !st.row.acquireOnly && FailedOf(st.row, ACQUIRERS) != {} {
      FailedAcquirerMeansNoSnapshot(st, cs);
    } else if cs != [] {
      var next := Step(st, cs[0]);
      UnreachableStep(st, cs[0]);
      StepMoves(st, cs[0]);
      MovesShrinkClaims(st.row, next.row, ACQUIRERS);
      UnreachableStays(next, cs[1..]);
    }
  }

  lemma RunCons(st: State, c: Cycle, cs: seq<Cycle>)
    ensures Run(st, [c] + cs) == Run(Step(st, c), cs)
  {
    assert ([c] + cs)[1..] == cs;
  }

  /** With them, late payouts of FAILED claims among them, only a FAILED acquirer claim, manual mode and not being
      listed at all still keep a vault from being finalised. */
  lemma ReachableExactly(st: State)
    requires !st.row.processed
    ensures (exists cs :: Finalized(st, Run(st, cs))) <==> Reachable(st.row)
  {
    if !Reachable(st.row) {
      forall cs ensures !Finalized(st, Run(st, cs)) {
        UnreachableStays(st, cs);
      }
    } else if st.row.acquireOnly {
      FinalizableGetsThere(st);
    } else {
      var c := ConfirmAll(st.row);
      var next := Step(st, c);
      ConfirmAllUnblocks(st);
      FinalizableGetsThere(next);
      var cs :| AllQuiet(cs) && Finalized(next, Run(next, cs));
      RunCons(st, c, cs);
      FinalizedEarlier(st, next, Run(next, cs));
    }
  }
}
