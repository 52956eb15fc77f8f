/**
 The calls of one cycle for a vault that is not acquire-only, exactly: which are made, in which order, and what
 becomes of its claims and flags.
 */
module CycleCalls {
  import opened Wrappers
  import opened VaultSteps
  import opened DistributionSafety
  import opened DistributionOutcomes

  // ----- The orchestrators -----

  /** The acquirer claims the extraction orchestrator finds PENDING. */
  ghost function ExtractFinds(v: Vault, s: Script): set<nat> {
    PendingOf(v, ACQUIRERS) - s.extract.late.extracted
  }

  /** It throws when its query fails or under way, settles among what it finds, and changes nothing else. */
  lemma ExtractExactly(st: State, s: Script)
    requires !st.row.manual
    ensures var r, found := ProcessAcquirerExtractions(st, s), ExtractFinds(st.row, s);
            && CallsOf(r.state.log) == CallsOf(st.log) + [ExtractAcquirers]
            && (r.threw <==> !s.extract.queryOk || (found != {} && s.extract.throws))
            && (s.extract.queryOk ==> PendingOf(r.state.row, ACQUIRERS) == found - s.extract.settles(found))
            && FailedOf(r.state.row, ACQUIRERS) == FailedOf(st.row, ACQUIRERS)
            && r.state.row == st.row.(claims := r.state.row.claims)
  {
    var called := Note(st, ExtractAcquirers);
    WebhookSets(called, s.extract.late);
    var seen := Webhook(called, s.extract.late).row;
    var found := PendingOf(seen, ACQUIRERS);
    ConfirmSets(seen, s.extract.settles(found) * found, ACQUIRERS);
    assert found - s.extract.settles(found) * found == found - s.extract.settles(found);
  }

  /** The contributor and expansion claims the payment orchestrator finds PENDING. */
  ghost function PayFinds(v: Vault, s: Script): set<nat> {
    PendingOf(v, PAYEES) - s.pay.late.extracted - s.pay.late.paidOut
  }

  /** ... and those still owed when it returns, FAILED ones without a late payout included. */
  ghost function PayLeaves(v: Vault, s: Script): set<nat> {
    (PayFinds(v, s) - s.pay.settles(PayFinds(v, s))) + (FailedOf(v, PAYEES) - s.pay.late.paidOut)
  }

  ghost predicate PayThrows(v: Vault, s: Script) {
    !s.pay.queryOk || (PayFinds(v, s) != {} && s.pay.throws)
  }

  lemma PayExactly(st: State, listed: Vault, s: Script)
    requires !listed.manual
    ensures var r := ProcessContributorPayments(st, listed, s);
            && CallsOf(r.state.log) == CallsOf(st.log) + [PayContributors]
            && (r.threw <==> PayThrows(st.row, s))
            && (s.pay.queryOk ==> OpenOf(r.state.row, PAYEES) == PayLeaves(st.row, s))
            && r.state.row == st.row.(claims := r.state.row.claims)
  {
    var called := Note(st, PayContributors);
    WebhookSets(called, s.pay.late);
    var seen := Webhook(called, s.pay.late).row;
    var found := PendingOf(seen, PAYEES);
    ConfirmSets(seen, s.pay.settles(found) * found, PAYEES);
    assert found - s.pay.settles(found) * found == found - s.pay.settles(found);
  }

  lemma PayKeepsPool(st: State, listed: Vault, s: Script)
    ensures PoolDue(ProcessContributorPayments(st, listed, s).state.row) <==> PoolDue(st.row)
  {
    var called := Note(st, PayContributors);
    WebhookSets(called, s.pay.late);
    var seen := Webhook(called, s.pay.late).row;
    var found := PendingOf(seen, PAYEES);
    ConfirmSets(seen, s.pay.settles(found) * found, {});
  }

  // ----- The first pass -----

  /** The calls of the first pass for the vault as it stands when its turn comes. */
  ghost function FirstCalls(st: State, s: Script): seq<Call> {
    var here := Webhook(st, s.confirmedFirst).row;
    if !Ready(st.row) || !s.markOk then []
    else
      (if Truthy(st.row.dispatchHash) then [] else [ParameterizeDispatch])
      + if !s.claimsQueryOk || !(Truthy(st.row.dispatchHash) || (s.dispatchHash.Some? && s.dispatchWriteOk)) then []
        else if OpenExpansionAcquirers(here) != {} && OpenRegularAcquirers(here) == {} then [MintAcquireOnly]
        else if OpenExpansionAcquirers(here) == {} && OpenRegularAcquirers(here) != {} then [ExtractAcquirers]
        else []
  }

  lemma OpenSplits(v: Vault)
    ensures OpenOf(v, ACQUIRERS) == {} <==> OpenExpansionAcquirers(v) == {} && OpenRegularAcquirers(v) == {}
  {
    forall i | i in OpenOf(v, ACQUIRERS) ensures i in OpenExpansionAcquirers(v) + OpenRegularAcquirers(v) {
    }
  }

  lemma StartExtractionCalls(st: State, s: Script)
    requires !st.row.manual && !st.row.processed
    ensures CallsOf(StartExtraction(st, s).log) == CallsOf(st.log) +
            if OpenExpansionAcquirers(st.row) != {} && OpenRegularAcquirers(st.row) == {} then [MintAcquireOnly]
            else if OpenExpansionAcquirers(st.row) == {} && OpenRegularAcquirers(st.row) != {} then [ExtractAcquirers]
            else []
  {
    OpenSplits(st.row);
    MintExactly(st, s);
    ExtractExactly(st, s);
    CallsAppend(st.log, [Event(MintAcquireOnly, st.row)]);
    assert CallsOf(st.log) + [] == CallsOf(st.log);
  }

  lemma DispatchCalls(st: State, listed: Vault, s: Script)
    ensures var r := EnsureDispatchParameterized(st, listed, s);
            && CallsOf(r.state.log)
               == CallsOf(st.log) + (if Truthy(listed.dispatchHash) then [] else [ParameterizeDispatch])
            && (r.threw <==> !Truthy(listed.dispatchHash) && !(s.dispatchHash.Some? && s.dispatchWriteOk))
            && r.state.row == st.row.(dispatchHash := r.state.row.dispatchHash)
  {
    CallsAppend(st.log, [Event(ParameterizeDispatch, st.row)]);
    assert CallsOf(st.log) + [] == CallsOf(st.log);
  }

  /** The first pass makes exactly these calls. */
  lemma FirstPassCallsExactly(st: State, s: Script)
    requires !st.row.acquireOnly
    ensures CallsOf(FirstPass(st, s).log) == CallsOf(st.log) + FirstCalls(st, s)
  {
    var here := Webhook(st, s.confirmedFirst);
    assert CallsOf(st.log) + [] == CallsOf(st.log);
    if Ready(st.row) && s.markOk {
      var marked := SetRow(here, here.row.(inProgress := true));
      var ready := EnsureDispatchParameterized(marked, st.row, s);
      DispatchCalls(marked, st.row, s);
      SameOpen(here.row, ready.state.row);
      if !ready.threw && s.claimsQueryOk {
        StartExtractionCalls(ready.state, s);
      }
    }
  }

  lemma SameOpen(v: Vault, w: Vault)
    requires w.claims == v.claims
    ensures OpenExpansionAcquirers(w) == OpenExpansionAcquirers(v) && OpenRegularAcquirers(w) == OpenRegularAcquirers(v)
  {
    SameClaims(v, w);
  }

  // ----- The second pass -----

  /** The vault is paid out in the second pass: it is in distribution and no acquirer claim was open when it was
      listed. */
  ghost predicate IsPaidOut(st: State) {
    !st.row.processed && st.row.inProgress && !st.row.manual && OpenOf(st.row, ACQUIRERS) == {}
  }

  /** ... and finalised, when the payment and the completion query work and nobody is owed any more. */
  ghost predicate IsFinalized(st: State, s: Script) {
    var here := Webhook(st, s.confirmedSecond).row;
    IsPaidOut(st) && !PayThrows(here, s) && s.completeQueryOk && PayLeaves(here, s) == {}
  }

  /** The second pass makes exactly these calls, and closes the vault exactly when it finalises it without a failure. */
  lemma SecondPassCallsExactly(st: State, s: Script)
    requires !st.row.acquireOnly
    ensures var t, here := SecondPass(st, s), Webhook(st, s.confirmedSecond).row;
            && CallsOf(t.log) == CallsOf(st.log)
               + (if IsPaidOut(st) then [PayContributors] else [])
               + (if IsFinalized(st, s) then FinalizationCalls(here, s) else [])
            && (t.row.processed <==> st.row.processed || (IsFinalized(st, s) && !FinalizationFails(here, s)))
            && (!st.row.processed && t.row.inProgress <==>
                  !st.row.processed && st.row.inProgress
                  && (IsFinalized(st, s) ==> FinalizationFails(here, s) && !s.rollbackWriteOk))
  {
    var here := Webhook(st, s.confirmedSecond);
    assert CallsOf(st.log) + [] == CallsOf(st.log);
    if IsPaidOut(st) {
      var paid := ProcessContributorPayments(here, st.row, s);
      PayExactly(here, st.row, s);
      PayKeepsPool(here, st.row, s);
      if !paid.threw && s.completeQueryOk && OpenOf(paid.state.row, PAYEES) == {} {
        FinalizationIsAllOrNothing(paid.state, s);
      }
    }
  }
}
