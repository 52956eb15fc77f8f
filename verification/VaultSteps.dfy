/**
 The vault rows the distribution coordinator works on, and what one cron cycle does to a single vault.

 Everything the coordinator cannot decide itself is an input: `Script` says, for one vault and one cycle, which
 database writes and external calls succeed and which claims get confirmed on chain. A cycle of the model makes the
 same calls, in the same order and with the same error handling as the source, and logs every external call together
 with the vault row at the moment of the call.
 */
module VaultSteps {
  import opened Wrappers

  /** A parameterised script hash, which is never empty. */
  type Hash = h: string | h != "" witness "00"

  datatype ClaimType = Lp | Contributor | Acquirer | Expansion | OtherClaim

  datatype ClaimStatus = Available | Pending | Claimed | Failed

  // `expansionTx` is the is_expansion flag of the claim's transaction; false when there is no transaction.
  datatype Claim = Claim(kind: ClaimType, status: ClaimStatus, expansionTx: bool)

  datatype Vault = Vault(
    locked: bool,                  // vault_status == locked
    scSuccessful: bool,            // vault_sc_status == SUCCESSFUL
    lastUpdateTx: Option<string>,
    createdAt: int,                // milliseconds since the epoch
    processed: bool,               // distribution_processed
    inProgress: bool,              // distribution_in_progress
    manual: bool,                  // manual_distribution_mode
    acquireOnly: bool,             // is_acquire_only
    dispatchHash: Option<string>,  // dispatch_parametized_hash
    treasury: Option<string>,      // treasury_wallet.treasury_address
    lpPercent: real,               // liquidity_pool_contribution, null read as 0
    claims: seq<Claim>)

  const CUTOFF_MILLIS := 1761091200000  // 2025-10-22

  const ACQUIRERS: set<ClaimType> := {Acquirer}
  const PAYEES: set<ClaimType> := {Contributor, Expansion}

  /** The where clause of the first pass. */
  predicate Ready(v: Vault) {
    && v.locked && v.scSuccessful && v.lastUpdateTx.Some?
    && !v.processed && v.createdAt > CUTOFF_MILLIS && !v.manual
  }

  /** The where clause of the second pass. */
  predicate InDistribution(v: Vault) {
    !v.processed && v.inProgress && !v.manual
  }

  predicate Truthy(s: Option<string>) {
    s.Some? && s.value != ""
  }

  /** Positions of the PENDING claims of the given kinds. */
  function PendingOf(v: Vault, kinds: set<ClaimType>): set<nat> {
    set i: nat | i < |v.claims| && v.claims[i].kind in kinds && v.claims[i].status == Pending
  }

  /** Positions of the FAILED claims of the given kinds. */
  function FailedOf(v: Vault, kinds: set<ClaimType>): set<nat> {
    set i: nat | i < |v.claims| && v.claims[i].kind in kinds && v.claims[i].status == Failed
  }

  /** Positions of the claims still owed: PENDING or FAILED. */
  function OpenOf(v: Vault, kinds: set<ClaimType>): set<nat> {
    PendingOf(v, kinds) + FailedOf(v, kinds)
  }

  /** Open acquirer claims that come from an acquire expansion. */
  function OpenExpansionAcquirers(v: Vault): set<nat> {
    set i | i in OpenOf(v, ACQUIRERS) && v.claims[i].expansionTx
  }

  /** Open acquirer claims of the original acquire phase. */
  function OpenRegularAcquirers(v: Vault): set<nat> {
    set i | i in OpenOf(v, ACQUIRERS) && !v.claims[i].expansionTx
  }

  predicate HasExpansionClaim(v: Vault) {
    exists i :: 0 <= i < |v.claims| && v.claims[i].kind == Expansion
  }

  /** Positions of the AVAILABLE liquidity-pool claims. */
  function AvailableLp(v: Vault): set<nat> {
    set i: nat | i < |v.claims| && v.claims[i].kind == Lp && v.claims[i].status == Available
  }

  /** The confirmation of an extraction: the given claims go from PENDING to CLAIMED; other claims stay as they are. */
  function Confirm(v: Vault, which: set<nat>): Vault {
    v.(claims := seq(|v.claims|, i requires 0 <= i < |v.claims| =>
      if i in which && v.claims[i].status == Pending then v.claims[i].(status := Claimed) else v.claims[i]))
  }

  /** The confirmation of a payout: the given contributor and expansion claims become CLAIMED whatever their status. */
  function PayOut(v: Vault, which: set<nat>): Vault {
    v.(claims := seq(|v.claims|, i requires 0 <= i < |v.claims| =>
      if i in which && v.claims[i].kind in PAYEES then v.claims[i].(status := Claimed) else v.claims[i]))
  }

  /** What the webhook of the chain reports between two looks at a vault. */
  datatype Confirmed = Confirmed(extracted: set<nat>, paidOut: set<nat>)

  const NOTHING_CONFIRMED := Confirmed({}, {})

  /** Position of the first AVAILABLE liquidity-pool claim at or after `from`. */
  function FindLp(claims: seq<Claim>, from: nat): (r: Option<nat>)
    requires from <= |claims|
    ensures r.Some? ==>
              from <= r.value < |claims| && claims[r.value].kind == Lp && claims[r.value].status == Available
    ensures r.None? ==> forall i :: from <= i < |claims| ==> claims[i].kind != Lp || claims[i].status != Available
    decreases |claims| - from
  {
    if from == |claims| then None
    else if claims[from].kind == Lp && claims[from].status == Available then Some(from)
    else FindLp(claims, from + 1)
  }

  // ----- External calls and their log -----

  /** How LP creation ends: it throws without a pool; the pool transaction is submitted but the write that marks the LP
      claim CLAIMED throws; or both go through and the call returns. */
  datatype LpResult = NotSubmitted | Unrecorded | Recorded

  datatype Call =
    | ParameterizeDispatch
    | ExtractAcquirers
    | MintAcquireOnly
    | PayContributors
    | CreateLp(result: LpResult)
    | Snapshot

  datatype Event = Event(call: Call, at: Vault)

  datatype State = State(row: Vault, log: seq<Event>)

  datatype Outcome = Outcome(state: State, threw: bool)

  function Note(st: State, call: Call): State {
    st.(log := st.log + [Event(call, st.row)])
  }

  function SetRow(st: State, row: Vault): State {
    st.(row := row)
  }

  function Webhook(st: State, c: Confirmed): State {
    SetRow(st, PayOut(Confirm(st.row, c.extracted), c.paidOut))
  }

  /** How one orchestrator call goes: whether its queries succeed, which claims are confirmed by someone else before
      its own claims query (`late`), which of the claims it is handed it gets confirmed, and whether it then throws. */
  datatype Orchestration = Orchestration(queryOk: bool, late: Confirmed, settles: set<nat> -> set<nat>, throws: bool)

  /** Everything that happens around one vault in one cycle. */
  datatype Script = Script(
    confirmedBefore: Confirmed,   // webhook confirmations since the previous cycle
    confirmedFirst: Confirmed,    // ... after the first query, before the vault's turn
    confirmedBetween: Confirmed,  // ... between the two passes
    confirmedSecond: Confirmed,   // ... after the second query, before the vault's turn
    markOk: bool,                 // write distribution_in_progress = true
    dispatchHash: Option<Hash>,   // applyDispatchParameters; None: it throws
    dispatchWriteOk: bool,
    claimsQueryOk: bool,
    manualWriteOk: bool,
    mint: Orchestration,          // acquire-only orchestrator
    mintWriteOk: bool,            // its own write of distribution_processed
    extract: Orchestration,       // acquirer orchestrator
    pay: Orchestration,           // contributor orchestrator
    completeQueryOk: bool,
    finalizeQueryOk: bool,
    lp: LpResult,                 // how LP creation ends
    processedWriteOk: bool,
    rollbackWriteOk: bool,
    snapshotOk: bool)

  /** One cron cycle as one vault sees it; a query that throws ends the cycle for every vault. */
  datatype Cycle = Cycle(firstQueryOk: bool, secondQueryOk: bool, script: Script)

  /** An orchestrator confirms claims among the PENDING ones its own query finds. */
  function Settle(st: State, kinds: set<ClaimType>, o: Orchestration): Outcome {
    var found := PendingOf(st.row, kinds);
    Outcome(SetRow(st, Confirm(st.row, o.settles(found) * found)), o.throws)
  }

  // acquire-only-distribution.orchestrator.ts
  function ProcessAcquireOnlyExtractions(st: State, s: Script): Outcome {
    var called := Note(st, MintAcquireOnly);
    if !s.mint.queryOk then Outcome(called, true)
    else if called.row.manual || !Truthy(called.row.treasury) then Outcome(called, false)
    else
      var seen := Webhook(called, s.mint.late);
      if PendingOf(seen.row, ACQUIRERS) == {} then
        if s.mintWriteOk then
          Outcome(SetRow(seen, seen.row.(inProgress := false, processed := true)), false)
        else Outcome(seen, true)
      else Settle(seen, ACQUIRERS, s.mint)
  }

  // acquirer-distribution.orchestrator.ts
  function ProcessAcquirerExtractions(st: State, s: Script): Outcome {
    var called := Note(st, ExtractAcquirers);
    if !s.extract.queryOk then Outcome(called, true)
    else if called.row.manual then Outcome(called, false)
    else
      var seen := Webhook(called, s.extract.late);
      if PendingOf(seen.row, ACQUIRERS) == {} then Outcome(seen, false)
      else Settle(seen, ACQUIRERS, s.extract)
  }

  // contributor-distribution.orchestrator.ts; the manual flag it looks at is the one of the listed row
  function ProcessContributorPayments(st: State, listed: Vault, s: Script): Outcome {
    var called := Note(st, PayContributors);
    if listed.manual then Outcome(called, false)
    else if !s.pay.queryOk then Outcome(called, true)
    else
      var seen := Webhook(called, s.pay.late);
      if PendingOf(seen.row, PAYEES) == {} then Outcome(seen, false)
      else Settle(seen, PAYEES, s.pay)
  }

  function EnsureDispatchParameterized(st: State, listed: Vault, s: Script): Outcome {
    if Truthy(listed.dispatchHash) then Outcome(st, false)
    else
      var called := Note(st, ParameterizeDispatch);
      if s.dispatchHash.None? || !s.dispatchWriteOk then Outcome(called, true)
      else Outcome(SetRow(called, called.row.(dispatchHash := s.dispatchHash)), false)
  }

  /** The LP branch of finalisation: skipped unless a percentage is set and an AVAILABLE claim exists. */
  function CreateLiquidityPool(st: State, s: Script): Outcome {
    if HasExpansionClaim(st.row) then Outcome(st, false)
    else
      var lp := FindLp(st.row.claims, 0);
      if st.row.lpPercent > 0.0 && lp.Some? then
        var called := Note(st, CreateLp(s.lp));
        if !s.lp.Recorded? then Outcome(called, true)
        else
          var taken := called.row.claims[lp.value].(status := Claimed);
          Outcome(SetRow(called, called.row.(claims := called.row.claims[lp.value := taken])), false)
      else Outcome(st, false)
  }

  /** The catch block of finalisation: the flag is taken back (if that write succeeds) and the error rethrown. */
  function RollBack(st: State, s: Script): Outcome {
    Outcome(if s.rollbackWriteOk then SetRow(st, st.row.(inProgress := false)) else st, true)
  }

  function FinalizeVaultDistribution(st: State, s: Script): Outcome {
    if !s.finalizeQueryOk then RollBack(st, s)
    else
      var lp := CreateLiquidityPool(st, s);
      if lp.threw || !s.processedWriteOk then RollBack(lp.state, s)
      else
        var done := SetRow(lp.state, lp.state.row.(inProgress := false, processed := true));
        Outcome(Note(done, Snapshot), false)  // an error in the snapshot is swallowed
  }

  // ----- One vault's turn in each pass; errors are caught per vault -----

  /** The choice of the first pass for a vault whose claims query came back. */
  function StartExtraction(st: State, s: Script): State {
    var expansion, regular := OpenExpansionAcquirers(st.row), OpenRegularAcquirers(st.row);
    if OpenOf(st.row, ACQUIRERS) == {} then st
    else if expansion != {} && regular == {} then ProcessAcquireOnlyExtractions(st, s).state
    else if expansion == {} && regular != {} then ProcessAcquirerExtractions(st, s).state
    else if s.manualWriteOk then SetRow(st, st.row.(manual := true))
    else st
  }

  function FirstTurn(st: State, listed: Vault, s: Script): State {
    if !s.markOk then st
    else
      var marked := SetRow(st, st.row.(inProgress := true));
      if listed.acquireOnly then
        var minted := ProcessAcquireOnlyExtractions(marked, s);
        if minted.threw then minted.state else FinalizeVaultDistribution(minted.state, s).state
      else
        var ready := EnsureDispatchParameterized(marked, listed, s);
        if ready.threw || !s.claimsQueryOk then ready.state
        else StartExtraction(ready.state, s)
  }

  function SecondTurn(st: State, listed: Vault, s: Script): State {
    if listed.acquireOnly || OpenOf(listed, ACQUIRERS) != {} then st
    else
      var paid := ProcessContributorPayments(st, listed, s);
      if paid.threw || !s.completeQueryOk then paid.state
      else if OpenOf(paid.state.row, PAYEES) == {} then FinalizeVaultDistribution(paid.state, s).state
      else paid.state
  }

  /** The first pass: rows are listed once, webhooks may run, then the vault gets its turn if it was listed. */
  function FirstPass(st: State, s: Script): State {
    var reached := Webhook(st, s.confirmedFirst);
    if Ready(st.row) then FirstTurn(reached, st.row, s) else reached
  }

  /** The second pass, over the rows and acquirer-claim counts listed when it starts. */
  function SecondPass(st: State, s: Script): State {
    var reached := Webhook(st, s.confirmedSecond);
    if InDistribution(st.row) then SecondTurn(reached, st.row, s) else reached
  }

  /** One cron cycle for one vault. */
  function Step(st: State, c: Cycle): State {
    var start := Webhook(st, c.script.confirmedBefore);
    if !c.firstQueryOk then start
    else
      var mid := Webhook(FirstPass(start, c.script), c.script.confirmedBetween);
      if !c.secondQueryOk then mid else SecondPass(mid, c.script)
  }

  /** A run: any number of cycles, one after the other (an instance never has two in flight). */
  function Run(st: State, cs: seq<Cycle>): State
    decreases |cs|
  {
    if cs == [] then st else Run(Step(st, cs[0]), cs[1..])
  }

  // ----- How confirmations move the claim sets -----

  lemma SameKinds(v: Vault, w: Vault)
    requires |w.claims| == |v.claims| && forall i :: 0 <= i < |v.claims| ==> w.claims[i].kind == v.claims[i].kind
    ensures HasExpansionClaim(w) == HasExpansionClaim(v)
  {
    if HasExpansionClaim(v) {
      var i :| 0 <= i < |v.claims| && v.claims[i].kind == Expansion;
      assert w.claims[i].kind == Expansion;
    }
    if HasExpansionClaim(w) {
      var i :| 0 <= i < |w.claims| && w.claims[i].kind == Expansion;
      assert v.claims[i].kind == Expansion;
    }
  }

  lemma ConfirmSets(v: Vault, which: set<nat>, kinds: set<ClaimType>)
    ensures PendingOf(Confirm(v, which), kinds) == PendingOf(v, kinds) - which
    ensures FailedOf(Confirm(v, which), kinds) == FailedOf(v, kinds)
    ensures AvailableLp(Confirm(v, which)) == AvailableLp(v)
    ensures HasExpansionClaim(Confirm(v, which)) == HasExpansionClaim(v)
  {
    SameKinds(v, Confirm(v, which));
  }

  lemma PayOutSets(v: Vault, which: set<nat>)
    ensures PendingOf(PayOut(v, which), ACQUIRERS) == PendingOf(v, ACQUIRERS)
    ensures FailedOf(PayOut(v, which), ACQUIRERS) == FailedOf(v, ACQUIRERS)
    ensures PendingOf(PayOut(v, which), PAYEES) == PendingOf(v, PAYEES) - which
    ensures FailedOf(PayOut(v, which), PAYEES) == FailedOf(v, PAYEES) - which
    ensures AvailableLp(PayOut(v, which)) == AvailableLp(v)
    ensures HasExpansionClaim(PayOut(v, which)) == HasExpansionClaim(v)
  {
    SameKinds(v, PayOut(v, which));
  }

  /** Extraction confirmations take PENDING claims off, payout confirmations also FAILED ones, but no acquirer's;
      nothing else changes. */
  lemma WebhookSets(st: State, c: Confirmed)
    ensures var v, w := st.row, Webhook(st, c).row;
            && PendingOf(w, ACQUIRERS) == PendingOf(v, ACQUIRERS) - c.extracted
            && FailedOf(w, ACQUIRERS) == FailedOf(v, ACQUIRERS)
            && PendingOf(w, PAYEES) == PendingOf(v, PAYEES) - c.extracted - c.paidOut
            && FailedOf(w, PAYEES) == FailedOf(v, PAYEES) - c.paidOut
            && AvailableLp(w) == AvailableLp(v) && HasExpansionClaim(w) == HasExpansionClaim(v)
  {
    ConfirmSets(st.row, c.extracted, ACQUIRERS);
    ConfirmSets(st.row, c.extracted, PAYEES);
    PayOutSets(Confirm(st.row, c.extracted), c.paidOut);
  }

  lemma NoWebhook(st: State)
    ensures Webhook(st, NOTHING_CONFIRMED) == st
  {
    assert Confirm(st.row, {}).claims == st.row.claims;
    assert PayOut(st.row, {}).claims == st.row.claims;
  }
}
