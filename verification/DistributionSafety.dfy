/**
 What every run of the distribution coordinator keeps for a vault, whatever the external calls and database writes do.
 */
module DistributionSafety {
  import opened Wrappers
  import opened VaultSteps

  // ----- The guard of every external call -----

  /** What is known about the vault at the moment each kind of call is made for it. For the pool and the snapshot of an
      acquire-only vault nothing is known about its acquirer claims: see AcquireOnlyClosesExactly. */
  ghost predicate Justified(e: Event) {
    && !e.at.manual
    && (e.at.processed ==> e.call.Snapshot? || (e.call.CreateLp? && e.at.acquireOnly))
    && match e.call
       case ParameterizeDispatch => !e.at.acquireOnly && !Truthy(e.at.dispatchHash)
       case ExtractAcquirers =>
         && !e.at.acquireOnly && Truthy(e.at.dispatchHash)
         && OpenRegularAcquirers(e.at) != {} && OpenExpansionAcquirers(e.at) == {}
       case MintAcquireOnly =>
         e.at.acquireOnly || (OpenExpansionAcquirers(e.at) != {} && OpenRegularAcquirers(e.at) == {})
       case PayContributors => !e.at.acquireOnly && OpenOf(e.at, ACQUIRERS) == {}
       case CreateLp(_) =>
         && (e.at.acquireOnly || AllSettled(e.at))
         && PoolDue(e.at)
       case Snapshot => e.at.processed && !e.at.inProgress && (e.at.acquireOnly || AllSettled(e.at))
  }

  /** No acquirer claim and no contributor or expansion claim is owed any more. */
  ghost predicate AllSettled(v: Vault) {
    OpenOf(v, ACQUIRERS) == {} && OpenOf(v, PAYEES) == {}
  }

  /** What finalisation asks for before it creates a pool. */
  ghost predicate PoolDue(v: Vault) {
    !HasExpansionClaim(v) && v.lpPercent > 0.0 && AvailableLp(v) != {}
  }

  /** LP creations that returned, according to a log. */
  ghost function LpCreated(log: seq<Event>): nat {
    if log == [] then 0
    else LpCreated(log[..|log| - 1]) + if log[|log| - 1].call == CreateLp(Recorded) then 1 else 0
  }

  /** Pool transactions submitted according to a log, whether or not the call then returned. */
  ghost function LpSubmitted(log: seq<Event>): nat {
    if log == [] then 0
    else LpSubmitted(log[..|log| - 1]) + if Submits(log[|log| - 1].call) then 1 else 0
  }

  predicate Submits(call: Call) {
    call.CreateLp? && !call.result.NotSubmitted?
  }

  // ----- The one relation all steps keep -----

  ghost predicate ClaimMoves(c: Claim, d: Claim) {
    || d == c
    || (c.status == Pending && d == c.(status := Claimed))
    || (c.kind == Lp && c.status == Available && d == c.(status := Claimed))
    || (c.kind in PAYEES && d == c.(status := Claimed))
  }

  /** Fields the coordinator never writes. */
  ghost predicate SameIdentity(v: Vault, w: Vault) {
    && w.locked == v.locked && w.scSuccessful == v.scSuccessful && w.lastUpdateTx == v.lastUpdateTx
    && w.createdAt == v.createdAt && w.acquireOnly == v.acquireOnly && w.treasury == v.treasury
    && w.lpPercent == v.lpPercent
  }

  ghost predicate RowMoves(v: Vault, w: Vault) {
    && SameIdentity(v, w)
    && (v.processed ==> w.processed)
    && (v.manual ==> w.manual)
    && (Truthy(v.dispatchHash) ==> w.dispatchHash == v.dispatchHash)
    && |w.claims| == |v.claims|
    && forall i :: 0 <= i < |v.claims| ==> ClaimMoves(v.claims[i], w.claims[i])
  }

  ghost predicate Moves(a: State, b: State) {
    && RowMoves(a.row, b.row)
    && a.log <= b.log
    && (forall k :: |a.log| <= k < |b.log| ==> Justified(b.log[k]) && RowMoves(a.row, b.log[k].at))
    && LpCreated(b.log) + |AvailableLp(b.row)| == LpCreated(a.log) + |AvailableLp(a.row)|
  }

  lemma RowMovesCompose(u: Vault, v: Vault, w: Vault)
    requires RowMoves(u, v) && RowMoves(v, w)
    ensures RowMoves(u, w)
  {
    forall i | 0 <= i < |u.claims| ensures ClaimMoves(u.claims[i], w.claims[i]) {
      assert ClaimMoves(u.claims[i], v.claims[i]) && ClaimMoves(v.claims[i], w.claims[i]);
    }
  }

  lemma MovesCompose(a: State, b: State, c: State)
    requires Moves(a, b) && Moves(b, c)
    ensures Moves(a, c)
  {
    RowMovesCompose(a.row, b.row, c.row);
    forall k | |a.log| <= k < |c.log| ensures Justified(c.log[k]) && RowMoves(a.row, c.log[k].at) {
      if k < |b.log| {
        assert c.log[k] == b.log[k];
      } else {
        RowMovesCompose(a.row, b.row, c.log[k].at);
      }
    }
  }

  /** Claims that are owed can only get fewer, and never change kind. */
  lemma MovesShrinkClaims(v: Vault, w: Vault, kinds: set<ClaimType>)
    requires RowMoves(v, w)
    ensures PendingOf(w, kinds) <= PendingOf(v, kinds)
    ensures FailedOf(w, kinds) <= FailedOf(v, kinds) && FailedOf(w, ACQUIRERS) == FailedOf(v, ACQUIRERS)
    ensures OpenOf(w, kinds) <= OpenOf(v, kinds)
    ensures OpenExpansionAcquirers(w) <= OpenExpansionAcquirers(v)
    ensures OpenRegularAcquirers(w) <= OpenRegularAcquirers(v)
    ensures HasExpansionClaim(v) == HasExpansionClaim(w)
  {
    forall i | 0 <= i < |v.claims|
      ensures w.claims[i].kind == v.claims[i].kind && w.claims[i].expansionTx == v.claims[i].expansionTx
    {
      assert ClaimMoves(v.claims[i], w.claims[i]);
    }
    forall i: nat | i < |v.claims|
      ensures w.claims[i].status == Pending ==> v.claims[i].status == Pending
      ensures w.claims[i].status == Failed ==> v.claims[i].status == Failed
      ensures v.claims[i].status == Failed && v.claims[i].kind == Acquirer ==> w.claims[i].status == Failed
    {
      assert ClaimMoves(v.claims[i], w.claims[i]);
    }
    if HasExpansionClaim(v) {
      var i :| 0 <= i < |v.claims| && v.claims[i].kind == Expansion;
      assert w.claims[i].kind == Expansion;
    }
  }

  lemma WebhookMoves(st: State, c: Confirmed)
    ensures Moves(st, Webhook(st, c))
    ensures Webhook(st, c).log == st.log
    ensures Webhook(st, c).row == st.row.(claims := Webhook(st, c).row.claims)
  {
    WebhookSets(st, c);
  }

  /** What an orchestrator settles among the claims it found. */
  lemma ConfirmMoves(st: State, which: set<nat>)
    ensures Moves(st, SetRow(st, Confirm(st.row, which)))
  {
    ConfirmSets(st.row, which, {});
  }

  lemma LogOne(log: seq<Event>, e: Event)
    ensures LpCreated(log + [e]) == LpCreated(log) + if e.call == CreateLp(Recorded) then 1 else 0
    ensures LpSubmitted(log + [e]) == LpSubmitted(log) + if Submits(e.call) then 1 else 0
  {
    assert (log + [e])[..|log|] == log;
  }

  /** A justified call other than a successful LP creation. */
  lemma NoteMoves(st: State, call: Call)
    requires Justified(Event(call, st.row)) && call != CreateLp(Recorded)
    ensures Moves(st, Note(st, call))
  {
    LogOne(st.log, Event(call, st.row));
  }

  /** Writing flags without taking back `processed` or `manual`, or a dispatch hash. */
  lemma FlagsMove(st: State, row: Vault)
    requires SameIdentity(st.row, row) && row.claims == st.row.claims
    requires (st.row.processed ==> row.processed) && (st.row.manual ==> row.manual)
    requires Truthy(st.row.dispatchHash) ==> row.dispatchHash == st.row.dispatchHash
    ensures Moves(st, SetRow(st, row))
  {
    assert AvailableLp(row) == AvailableLp(st.row);
  }

  // ----- Every step of a cycle moves a vault this way -----

  lemma MintMoves(st: State, s: Script)
    requires Justified(Event(MintAcquireOnly, st.row))
    ensures Moves(st, ProcessAcquireOnlyExtractions(st, s).state)
  {
    NoteMoves(st, MintAcquireOnly);
    var called := Note(st, MintAcquireOnly);
    WebhookMoves(called, s.mint.late);
    var seen := Webhook(called, s.mint.late);
    MovesCompose(st, called, seen);
    if s.mint.queryOk && !called.row.manual && Truthy(called.row.treasury) {
      if PendingOf(seen.row, ACQUIRERS) == {} {
        var row := seen.row.(inProgress := false, processed := true);
        FlagsMove(seen, row);
        MovesCompose(st, seen, SetRow(seen, row));
      } else {
        SettleMoves(st, seen, ACQUIRERS, s.mint);
      }
    }
  }

  lemma SettleMoves(st: State, seen: State, kinds: set<ClaimType>, o: Orchestration)
    requires Moves(st, seen)
    ensures Moves(st, Settle(seen, kinds, o).state)
  {
    var found := PendingOf(seen.row, kinds);
    ConfirmMoves(seen, o.settles(found) * found);
    MovesCompose(st, seen, Settle(seen, kinds, o).state);
  }

  lemma ExtractMoves(st: State, s: Script)
    requires Justified(Event(ExtractAcquirers, st.row))
    ensures Moves(st, ProcessAcquirerExtractions(st, s).state)
  {
    NoteMoves(st, ExtractAcquirers);
    var called := Note(st, ExtractAcquirers);
    WebhookMoves(called, s.extract.late);
    var seen := Webhook(called, s.extract.late);
    MovesCompose(st, called, seen);
    SettleMoves(st, seen, ACQUIRERS, s.extract);
  }

  lemma PayMoves(st: State, listed: Vault, s: Script)
    requires Justified(Event(PayContributors, st.row))
    ensures Moves(st, ProcessContributorPayments(st, listed, s).state)
  {
    NoteMoves(st, PayContributors);
    var called := Note(st, PayContributors);
    WebhookMoves(called, s.pay.late);
    var seen := Webhook(called, s.pay.late);
    MovesCompose(st, called, seen);
    SettleMoves(st, seen, PAYEES, s.pay);
  }

  lemma DispatchMoves(st: State, listed: Vault, s: Script)
    requires !st.row.manual && !st.row.processed && !st.row.acquireOnly && listed.dispatchHash == st.row.dispatchHash
    ensures !EnsureDispatchParameterized(st, listed, s).threw ==>
              Truthy(EnsureDispatchParameterized(st, listed, s).state.row.dispatchHash)
    ensures Moves(st, EnsureDispatchParameterized(st, listed, s).state)
    ensures EnsureDispatchParameterized(st, listed, s).state.row
         == st.row.(dispatchHash := EnsureDispatchParameterized(st, listed, s).state.row.dispatchHash)
  {
    if !Truthy(listed.dispatchHash) {
      NoteMoves(st, ParameterizeDispatch);
      var called := Note(st, ParameterizeDispatch);
      var row := called.row.(dispatchHash := s.dispatchHash);
      FlagsMove(called, row);
      MovesCompose(st, called, SetRow(called, row));
    } else {
      FlagsMove(st, st.row);
    }
  }

  function TakeClaim(v: Vault, i: nat): Vault
    requires i < |v.claims|
  {
    v.(claims := v.claims[i := v.claims[i].(status := Claimed)])
  }

  /** Taking an AVAILABLE liquidity-pool claim costs exactly one. */
  lemma TakeLpClaim(v: Vault, i: nat)
    requires i < |v.claims| && v.claims[i].kind == Lp && v.claims[i].status == Available
    ensures RowMoves(v, TakeClaim(v, i))
    ensures AvailableLp(v) != {} && |AvailableLp(v)| == |AvailableLp(TakeClaim(v, i))| + 1
  {
    assert i in AvailableLp(v);
    assert AvailableLp(TakeClaim(v, i)) == AvailableLp(v) - {i};
  }

  lemma LpSuccessMoves(st: State, i: nat)
    requires i < |st.row.claims| && st.row.claims[i].kind == Lp && st.row.claims[i].status == Available
    requires Justified(Event(CreateLp(Recorded), st.row))
    ensures Moves(st, SetRow(Note(st, CreateLp(Recorded)), TakeClaim(st.row, i)))
  {
    TakeLpClaim(st.row, i);
    LogOne(st.log, Event(CreateLp(Recorded), st.row));
  }

  lemma CreateLpMoves(st: State, s: Script)
    requires !st.row.manual && (st.row.processed ==> st.row.acquireOnly)
    requires st.row.acquireOnly || AllSettled(st.row)
    ensures Moves(st, CreateLiquidityPool(st, s).state)
  {
    var lp := FindLp(st.row.claims, 0);
    if !HasExpansionClaim(st.row) && st.row.lpPercent > 0.0 && lp.Some? {
      TakeLpClaim(st.row, lp.value);
      if s.lp.Recorded? {
        LpSuccessMoves(st, lp.value);
      } else {
        NoteMoves(st, CreateLp(s.lp));
      }
    } else {
      FlagsMove(st, st.row);
    }
  }

  lemma CreateLpKeepsFlags(st: State, s: Script)
    ensures var r := CreateLiquidityPool(st, s).state.row; r == st.row.(claims := r.claims)
  {
  }

  /** The successful end of finalisation: both flags in one write, then the snapshot. */
  lemma FinishMoves(st: State)
    requires !st.row.manual && (st.row.acquireOnly || AllSettled(st.row))
    ensures Moves(st, Note(SetRow(st, st.row.(inProgress := false, processed := true)), Snapshot))
  {
    var row := st.row.(inProgress := false, processed := true);
    var done := SetRow(st, row);
    FlagsMove(st, row);
    MovesShrinkClaims(st.row, row, ACQUIRERS);
    MovesShrinkClaims(st.row, row, PAYEES);
    NoteMoves(done, Snapshot);
    MovesCompose(st, done, Note(done, Snapshot));
  }

  lemma RollBackMoves(st: State, mid: State, s: Script)
    requires Moves(st, mid)
    ensures Moves(st, RollBack(mid, s).state)
  {
    FlagsMove(mid, mid.row.(inProgress := false));
    if s.rollbackWriteOk {
      MovesCompose(st, mid, RollBack(mid, s).state);
    }
  }

  lemma FinalizeMoves(st: State, s: Script)
    requires !st.row.manual && (st.row.processed ==> st.row.acquireOnly)
    requires st.row.acquireOnly || AllSettled(st.row)
    ensures Moves(st, FinalizeVaultDistribution(st, s).state)
  {
    if !s.finalizeQueryOk {
      FlagsMove(st, st.row);
      RollBackMoves(st, st, s);
    } else {
      var lp := CreateLiquidityPool(st, s);
      CreateLpMoves(st, s);
      if lp.threw || !s.processedWriteOk {
        RollBackMoves(st, lp.state, s);
      } else {
        CreateLpKeepsFlags(st, s);
        MovesShrinkClaims(st.row, lp.state.row, ACQUIRERS);
        MovesShrinkClaims(st.row, lp.state.row, PAYEES);
        FinishMoves(lp.state);
        MovesCompose(st, lp.state, FinalizeVaultDistribution(st, s).state);
      }
    }
  }

  lemma StartExtractionMoves(st: State, s: Script)
    requires !st.row.manual && !st.row.processed && !st.row.acquireOnly && Truthy(st.row.dispatchHash)
    ensures Moves(st, StartExtraction(st, s))
  {
    var expansion, regular := OpenExpansionAcquirers(st.row), OpenRegularAcquirers(st.row);
    FlagsMove(st, st.row);
    if OpenOf(st.row, ACQUIRERS) == {} {
    } else if expansion != {} && regular == {} {
      MintMoves(st, s);
    } else if expansion == {} && regular != {} {
      ExtractMoves(st, s);
    } else {
      FlagsMove(st, st.row.(manual := true));
    }
  }

  lemma FirstTurnMoves(st: State, listed: Vault, s: Script)
    requires Ready(listed) && st.row == listed.(claims := st.row.claims)
    ensures Moves(st, FirstTurn(st, listed, s))
  {
    FlagsMove(st, st.row);
    if s.markOk {
      var row := st.row.(inProgress := true);
      var marked := SetRow(st, row);
      FlagsMove(st, row);
      if listed.acquireOnly {
        MintMoves(marked, s);
        var minted := ProcessAcquireOnlyExtractions(marked, s);
        MovesCompose(st, marked, minted.state);
        if !minted.threw {
          FinalizeMoves(minted.state, s);
          MovesCompose(st, minted.state, FinalizeVaultDistribution(minted.state, s).state);
        }
      } else {
        DispatchMoves(marked, listed, s);
        var ready := EnsureDispatchParameterized(marked, listed, s);
        MovesCompose(st, marked, ready.state);
        if !ready.threw && s.claimsQueryOk {
          StartExtractionMoves(ready.state, s);
          MovesCompose(st, ready.state, StartExtraction(ready.state, s));
        }
      }
    }
  }

  lemma SecondTurnMoves(st: State, listed: Vault, s: Script)
    requires InDistribution(listed) && RowMoves(listed, st.row) && st.row == listed.(claims := st.row.claims)
    ensures Moves(st, SecondTurn(st, listed, s))
  {
    FlagsMove(st, st.row);
    if !listed.acquireOnly && OpenOf(listed, ACQUIRERS) == {} {
      MovesShrinkClaims(listed, st.row, ACQUIRERS);
      PayMoves(st, listed, s);
      var paid := ProcessContributorPayments(st, listed, s);
      MovesShrinkClaims(st.row, paid.state.row, ACQUIRERS);
      if !paid.threw && s.completeQueryOk && OpenOf(paid.state.row, PAYEES) == {} {
        FinalizeMoves(paid.state, s);
        MovesCompose(st, paid.state, FinalizeVaultDistribution(paid.state, s).state);
      }
    }
  }

  lemma FirstPassMoves(st: State, s: Script)
    ensures Moves(st, FirstPass(st, s))
  {
    WebhookMoves(st, s.confirmedFirst);
    var reached := Webhook(st, s.confirmedFirst);
    if Ready(st.row) {
      FirstTurnMoves(reached, st.row, s);
      MovesCompose(st, reached, FirstPass(st, s));
    }
  }

  lemma SecondPassMoves(st: State, s: Script)
    ensures Moves(st, SecondPass(st, s))
  {
    WebhookMoves(st, s.confirmedSecond);
    var reached := Webhook(st, s.confirmedSecond);
    if InDistribution(st.row) {
      SecondTurnMoves(reached, st.row, s);
      MovesCompose(st, reached, SecondPass(st, s));
    }
  }

  lemma StepMoves(st: State, c: Cycle)
    ensures Moves(st, Step(st, c))
  {
    var s := c.script;
    WebhookMoves(st, s.confirmedBefore);
    var start := Webhook(st, s.confirmedBefore);
    FirstPassMoves(start, s);
    var first := FirstPass(start, s);
    MovesCompose(st, start, first);
    WebhookMoves(first, s.confirmedBetween);
    var mid := Webhook(first, s.confirmedBetween);
    MovesCompose(st, first, mid);
    SecondPassMoves(mid, s);
    MovesCompose(st, mid, SecondPass(mid, s));
  }

  /** Main safety theorem: over any run, every external call is justified by the vault's state at that moment, the
      manual and processed flags are never taken back, a dispatch hash is never overwritten, claims only get settled,
      and LP creations that return and AVAILABLE LP claims add up to a constant, even when database writes fail. */
  lemma {:induction false} RunMoves(st: State, cs: seq<Cycle>)
    ensures Moves(st, Run(st, cs))
    decreases |cs|
  {
    if cs == [] {
      FlagsMove(st, st.row);
    } else {
      StepMoves(st, cs[0]);
      RunMoves(Step(st, cs[0]), cs[1..]);
      MovesCompose(st, Step(st, cs[0]), Run(st, cs));
    }
  }

  // ----- The two progress flags -----

  ghost predicate Exclusive(v: Vault) {
    !(v.processed && v.inProgress)
  }

  lemma FinalizeExclusive(st: State, s: Script)
    requires Exclusive(st.row)
    ensures Exclusive(FinalizeVaultDistribution(st, s).state.row)
  {
    CreateLpKeepsFlags(st, s);
  }

  lemma StartExtractionExclusive(st: State, s: Script)
    requires Exclusive(st.row)
    ensures Exclusive(StartExtraction(st, s).row)
  {
    assert Exclusive(ProcessAcquireOnlyExtractions(st, s).state.row);
    assert Exclusive(ProcessAcquirerExtractions(st, s).state.row);
  }

  lemma FirstTurnExclusive(st: State, listed: Vault, s: Script)
    requires !st.row.processed
    ensures Exclusive(FirstTurn(st, listed, s).row)
  {
    if s.markOk {
      var marked := SetRow(st, st.row.(inProgress := true));
      if listed.acquireOnly {
        assert Exclusive(ProcessAcquireOnlyExtractions(marked, s).state.row);
        FinalizeExclusive(ProcessAcquireOnlyExtractions(marked, s).state, s);
      } else {
        StartExtractionExclusive(EnsureDispatchParameterized(marked, listed, s).state, s);
      }
    }
  }

  lemma SecondTurnExclusive(st: State, listed: Vault, s: Script)
    requires Exclusive(st.row)
    ensures Exclusive(SecondTurn(st, listed, s).row)
  {
    FinalizeExclusive(ProcessContributorPayments(st, listed, s).state, s);
  }

  /** `distribution_processed` and `distribution_in_progress` are never true together, over any run. */
  lemma {:induction false} FlagsNeverBoth(st: State, cs: seq<Cycle>)
    requires Exclusive(st.row)
    ensures Exclusive(Run(st, cs).row)
    decreases |cs|
  {
    if cs != [] {
      var s := cs[0].script;
      var start := Webhook(st, s.confirmedBefore);
      FirstTurnExclusiveIfReady(start, s);
      var mid := Webhook(FirstPass(start, s), s.confirmedBetween);
      SecondTurnExclusive(Webhook(mid, s.confirmedSecond), mid.row, s);
      FlagsNeverBoth(Step(st, cs[0]), cs[1..]);
    }
  }

  lemma FirstTurnExclusiveIfReady(st: State, s: Script)
    requires Exclusive(st.row)
    ensures Exclusive(FirstPass(st, s).row)
  {
    if Ready(st.row) {
      FirstTurnExclusive(Webhook(st, s.confirmedFirst), st.row, s);
    }
  }

  lemma StepRetired(st: State, c: Cycle)
    requires st.row.processed || st.row.manual
    ensures var t := Step(st, c);
            t.log == st.log && t.row == st.row.(claims := t.row.claims)
  {
    var s := c.script;
    var start := Webhook(st, s.confirmedBefore);
    assert FirstPass(start, s) == Webhook(start, s.confirmedFirst);
    var mid := Webhook(FirstPass(start, s), s.confirmedBetween);
    assert SecondPass(mid, s) == Webhook(mid, s.confirmedSecond);
  }

  /** Once a vault is processed or in manual mode, no later cycle makes any call for it or touches its flags: only
      webhook confirmations still reach its claims. */
  lemma {:induction false} RetiredVaultIsLeftAlone(st: State, cs: seq<Cycle>)
    requires st.row.processed || st.row.manual
    ensures var t := Run(st, cs);
            t.log == st.log && t.row == st.row.(claims := t.row.claims)
    decreases |cs|
  {
    if cs != [] {
      StepRetired(st, cs[0]);
      RetiredVaultIsLeftAlone(Step(st, cs[0]), cs[1..]);
    }
  }

  // ----- At most one liquidity pool -----

  /** A cycle in which a submitted pool could go unnoticed: one of the two writes that follow it fails. */
  ghost predicate Forgetful(c: Cycle) {
    c.script.lp.Unrecorded? || !c.script.processedWriteOk
  }

  ghost function ForgetfulCycles(cs: seq<Cycle>): nat {
    if cs == [] then 0 else (if Forgetful(cs[0]) then 1 else 0) + ForgetfulCycles(cs[1..])
  }

  /** At most one pool more, and the vault processed if there is one and both writes go through. */
  ghost predicate SubmitsOnce(a: State, b: State, s: Script) {
    && LpSubmitted(a.log) <= LpSubmitted(b.log) <= LpSubmitted(a.log) + 1
    && (LpSubmitted(b.log) > LpSubmitted(a.log) && s.processedWriteOk && !s.lp.Unrecorded? ==> b.row.processed)
  }

  lemma PoolSubmitsOnce(st: State, s: Script)
    ensures var lp := CreateLiquidityPool(st, s);
            && LpSubmitted(st.log) <= LpSubmitted(lp.state.log) <= LpSubmitted(st.log) + 1
            && (LpSubmitted(lp.state.log) > LpSubmitted(st.log) && !s.lp.Unrecorded? ==> !lp.threw)
  {
    LogOne(st.log, Event(CreateLp(s.lp), st.row));
  }

  lemma FinalizeSubmitsOnce(st: State, s: Script)
    ensures SubmitsOnce(st, FinalizeVaultDistribution(st, s).state, s)
  {
    if s.finalizeQueryOk {
      var lp := CreateLiquidityPool(st, s);
      PoolSubmitsOnce(st, s);
      LogOne(lp.state.log, Event(Snapshot, lp.state.row.(inProgress := false, processed := true)));
    }
  }

  lemma MintSubmitsNone(st: State, s: Script)
    ensures LpSubmitted(ProcessAcquireOnlyExtractions(st, s).state.log) == LpSubmitted(st.log)
  {
    LogOne(st.log, Event(MintAcquireOnly, st.row));
  }

  lemma ExtractSubmitsNone(st: State, s: Script)
    ensures LpSubmitted(ProcessAcquirerExtractions(st, s).state.log) == LpSubmitted(st.log)
  {
    LogOne(st.log, Event(ExtractAcquirers, st.row));
  }

  lemma StartExtractionSubmitsNone(st: State, s: Script)
    ensures LpSubmitted(StartExtraction(st, s).log) == LpSubmitted(st.log)
  {
    MintSubmitsNone(st, s);
    ExtractSubmitsNone(st, s);
  }

  lemma FirstTurnSubmitsOnce(st: State, listed: Vault, s: Script)
    ensures SubmitsOnce(st, FirstTurn(st, listed, s), s)
    ensures !listed.acquireOnly ==> LpSubmitted(FirstTurn(st, listed, s).log) == LpSubmitted(st.log)
  {
    if s.markOk {
      var marked := SetRow(st, st.row.(inProgress := true));
      if listed.acquireOnly {
        MintSubmitsNone(marked, s);
        FinalizeSubmitsOnce(ProcessAcquireOnlyExtractions(marked, s).state, s);
      } else {
        LogOne(st.log, Event(ParameterizeDispatch, marked.row));
        StartExtractionSubmitsNone(EnsureDispatchParameterized(marked, listed, s).state, s);
      }
    }
  }

  lemma SecondTurnSubmitsOnce(st: State, listed: Vault, s: Script)
    ensures SubmitsOnce(st, SecondTurn(st, listed, s), s)
    ensures listed.acquireOnly ==> SecondTurn(st, listed, s) == st
  {
    LogOne(st.log, Event(PayContributors, st.row));
    assert LpSubmitted(ProcessContributorPayments(st, listed, s).state.log) == LpSubmitted(st.log);
    FinalizeSubmitsOnce(ProcessContributorPayments(st, listed, s).state, s);
  }

  lemma StepSubmitsOnce(st: State, c: Cycle)
    ensures SubmitsOnce(st, Step(st, c), c.script)
  {
    var s := c.script;
    var start := Webhook(st, s.confirmedBefore);
    FirstPassMoves(start, s);
    FirstTurnSubmitsOnce(Webhook(start, s.confirmedFirst), start.row, s);
    var mid := Webhook(FirstPass(start, s), s.confirmedBetween);
    SecondTurnSubmitsOnce(Webhook(mid, s.confirmedSecond), mid.row, s);
  }

  /** Over any run, the pools submitted for a vault are at most one, plus one for each cycle in which the claim write or
      the `distribution_processed` write after a submission fails: with writes that succeed, at most one, however many
      LP claims the vault has. */
  lemma {:induction false} LiquidityPoolAtMostOnce(st: State, cs: seq<Cycle>)
    ensures LpSubmitted(Run(st, cs).log) <= LpSubmitted(st.log) + 1 + ForgetfulCycles(cs)
    decreases |cs|
  {
    if cs != [] {
      var next := Step(st, cs[0]);
      StepSubmitsOnce(st, cs[0]);
      if next.row.processed {
        RetiredVaultIsLeftAlone(next, cs[1..]);
      } else {
        LiquidityPoolAtMostOnce(next, cs[1..]);
      }
    }
  }

  /** Everything is settled and only the pool is missing. */
  ghost predicate OnlyPoolMissing(v: Vault) {
    Ready(v) && !v.acquireOnly && AllSettled(v) && PoolDue(v) && Truthy(v.dispatchHash)
  }

  /** A cycle that gets as far as submitting the pool and then fails to mark its claim. */
  ghost predicate LosesThePool(c: Cycle) {
    var s := c.script;
    && c.firstQueryOk && c.secondQueryOk && s.markOk && s.pay.queryOk && s.completeQueryOk && s.finalizeQueryOk
    && s.lp.Unrecorded?
  }

  lemma WebhookKeepsMissing(st: State, c: Confirmed)
    requires OnlyPoolMissing(st.row)
    ensures OnlyPoolMissing(Webhook(st, c).row)
  {
    WebhookSets(st, c);
  }

  lemma ForgottenPoolFirstPass(st: State, s: Script)
    requires OnlyPoolMissing(st.row) && s.markOk
    ensures var t := FirstPass(st, s);
            && t.log == st.log && OnlyPoolMissing(t.row) && t.row.inProgress
  {
    var here := Webhook(st, s.confirmedFirst);
    WebhookKeepsMissing(st, s.confirmedFirst);
    var first := SetRow(here, here.row.(inProgress := true));
    FlagsMove(here, first.row);
    SettledStays(here.row, first.row);
    assert FirstPass(st, s) == first;
  }

  lemma ForgottenPoolStep(st: State, c: Cycle)
    requires OnlyPoolMissing(st.row) && LosesThePool(c)
    ensures OnlyPoolMissing(Step(st, c).row)
    ensures LpSubmitted(Step(st, c).log) == LpSubmitted(st.log) + 1
  {
    var s := c.script;
    var start := Webhook(st, s.confirmedBefore);
    WebhookKeepsMissing(st, s.confirmedBefore);
    ForgottenPoolFirstPass(start, s);
    WebhookKeepsMissing(FirstPass(start, s), s.confirmedBetween);
    ForgottenPoolSecondPass(Webhook(FirstPass(start, s), s.confirmedBetween), s);
  }

  lemma ForgottenPoolSecondPass(st: State, s: Script)
    requires InDistribution(st.row) && !st.row.acquireOnly && AllSettled(st.row) && PoolDue(st.row)
    requires s.pay.queryOk && s.completeQueryOk && s.finalizeQueryOk && s.lp.Unrecorded?
    ensures var t := SecondPass(st, s);
            && t.row == st.row.(claims := t.row.claims, inProgress := t.row.inProgress)
            && AllSettled(t.row) && PoolDue(t.row)
            && LpSubmitted(t.log) == LpSubmitted(st.log) + 1
  {
    var here := Webhook(st, s.confirmedSecond);
    WebhookMoves(st, s.confirmedSecond);
    SettledStays(st.row, here.row);
    LogOne(here.log, Event(PayContributors, here.row));
    var called := Note(here, PayContributors);
    WebhookMoves(called, s.pay.late);
    var paid := Webhook(called, s.pay.late);
    SettledStays(here.row, paid.row);
    assert ProcessContributorPayments(here, st.row, s) == Outcome(paid, false);
    PoolStaysDue(paid, s);
    LogOne(paid.log, Event(CreateLp(Unrecorded), paid.row));
  }

  lemma PoolStaysDue(st: State, s: Script)
    requires PoolDue(st.row) && s.finalizeQueryOk && s.lp.Unrecorded?
    ensures FinalizeVaultDistribution(st, s).state.log == st.log + [Event(CreateLp(Unrecorded), st.row)]
    ensures var r := FinalizeVaultDistribution(st, s).state.row; r == st.row.(inProgress := r.inProgress)
  {
    var i :| i in AvailableLp(st.row);
    assert FindLp(st.row.claims, 0).Some?;
  }

  lemma SettledStays(v: Vault, w: Vault)
    requires AllSettled(v) && RowMoves(v, w)
    ensures AllSettled(w)
  {
    MovesShrinkClaims(v, w, ACQUIRERS);
    MovesShrinkClaims(v, w, PAYEES);
  }

  /** The allowance is used: a vault with everything settled gets one pool after another as long as the write that
      should mark its LP claim fails. */
  lemma {:induction false} ForgottenPoolIsRepeated(st: State, cs: seq<Cycle>)
    requires OnlyPoolMissing(st.row) && forall k :: 0 <= k < |cs| ==> LosesThePool(cs[k])
    ensures LpSubmitted(Run(st, cs).log) == LpSubmitted(st.log) + |cs|
    decreases |cs|
  {
    if cs != [] {
      ForgottenPoolStep(st, cs[0]);
      ForgottenPoolIsRepeated(Step(st, cs[0]), cs[1..]);
    }
  }

  /** Every LP creation that returns costs one AVAILABLE LP claim, so that these are bounded by the claims even when the
      writes fail. */
  lemma LiquidityPoolsAreBoundedByClaims(st: State, cs: seq<Cycle>)
    ensures LpCreated(Run(st, cs).log) - LpCreated(st.log) == |AvailableLp(st.row)| - |AvailableLp(Run(st, cs).row)|
    ensures LpCreated(Run(st, cs).log) <= LpCreated(st.log) + |AvailableLp(st.row)|
  {
    RunMoves(st, cs);
  }

  // ----- Mixed acquirer claims -----

  /** The vault's row when its turn in the first pass starts. */
  ghost function AtFirstTurn(st: State, s: Script): State {
    Webhook(Webhook(st, s.confirmedBefore), s.confirmedFirst)
  }

  /** The first pass gets as far as looking at the acquirer claims of a vault that is not acquire-only. */
  ghost predicate ReachesClaims(st: State, c: Cycle) {
    var s := c.script;
    && c.firstQueryOk && Ready(Webhook(st, s.confirmedBefore).row) && !st.row.acquireOnly
    && s.markOk && s.claimsQueryOk
    && (Truthy(st.row.dispatchHash) || (s.dispatchHash.Some? && s.dispatchWriteOk))
  }

  /** From the cycle in which a vault is seen with both expansion and regular acquirer claims on, nothing is ever
      extracted, paid or finalised for it: the only call that can still appear is that cycle's parameterisation. */
  lemma MixedVaultIsParked(st: State, c: Cycle, cs: seq<Cycle>)
    requires ReachesClaims(st, c) && c.script.manualWriteOk
    requires OpenExpansionAcquirers(AtFirstTurn(st, c.script).row) != {}
    requires OpenRegularAcquirers(AtFirstTurn(st, c.script).row) != {}
    ensures var t := Run(Step(st, c), cs);
            && t.row.manual && !t.row.processed
            && t.log == st.log + if Truthy(st.row.dispatchHash) then []
                                 else [Event(ParameterizeDispatch, AtFirstTurn(st, c.script).row.(inProgress := true))]
  {
    var s := c.script;
    var here := AtFirstTurn(st, s);
    var marked := SetRow(here, here.row.(inProgress := true));
    var ready := EnsureDispatchParameterized(marked, Webhook(st, s.confirmedBefore).row, s).state;
    assert OpenExpansionAcquirers(ready.row) == OpenExpansionAcquirers(here.row);
    assert OpenRegularAcquirers(ready.row) == OpenRegularAcquirers(here.row);
    assert FirstPass(Webhook(st, s.confirmedBefore), s) == SetRow(ready, ready.row.(manual := true));
    RetiredVaultIsLeftAlone(Step(st, c), cs);
  }

  // ----- FAILED acquirer claims -----

  /** A FAILED acquirer claim of the original acquire phase: neither orchestrator ever picks it up. */
  ghost predicate Blocked(v: Vault) {
    && !v.acquireOnly && !v.processed
    && exists i :: i in FailedOf(v, ACQUIRERS) && !v.claims[i].expansionTx
  }

  lemma BlockedStays(v: Vault, w: Vault)
    requires Blocked(v) && RowMoves(v, w) && !w.processed
    ensures Blocked(w)
  {
    var i :| i in FailedOf(v, ACQUIRERS) && !v.claims[i].expansionTx;
    assert ClaimMoves(v.claims[i], w.claims[i]);
    assert i in FailedOf(w, ACQUIRERS) && !w.claims[i].expansionTx;
  }

  lemma BlockedStep(st: State, c: Cycle)
    requires Blocked(st.row)
    ensures Blocked(Step(st, c).row)
    ensures forall k :: |st.log| <= k < |Step(st, c).log| ==>
              Step(st, c).log[k].call in {ParameterizeDispatch, ExtractAcquirers}
  {
    var s := c.script;
    var start := Webhook(st, s.confirmedBefore);
    WebhookMoves(st, s.confirmedBefore);
    BlockedStays(st.row, start.row);
    WebhookMoves(start, s.confirmedFirst);
    var here := Webhook(start, s.confirmedFirst);
    BlockedStays(start.row, here.row);
    BlockedFirstTurn(here, start.row, s);
    FirstPassMoves(start, s);
    var first := FirstPass(start, s);
    BlockedStays(start.row, first.row);
    WebhookMoves(first, s.confirmedBetween);
    var mid := Webhook(first, s.confirmedBetween);
    BlockedStays(first.row, mid.row);
    assert OpenOf(mid.row, ACQUIRERS) != {};
    WebhookMoves(mid, s.confirmedSecond);
    BlockedStays(mid.row, Webhook(mid, s.confirmedSecond).row);
  }

  lemma BlockedExtraction(st: State, s: Script)
    requires Blocked(st.row)
    ensures var t := StartExtraction(st, s);
            && !t.row.processed && st.log <= t.log
            && forall k :: |st.log| <= k < |t.log| ==> t.log[k].call.ExtractAcquirers?
  {
    var i :| i in FailedOf(st.row, ACQUIRERS) && !st.row.claims[i].expansionTx;
    assert i in OpenRegularAcquirers(st.row);
    assert !ProcessAcquirerExtractions(st, s).state.row.processed;
    assert ProcessAcquirerExtractions(st, s).state.log == st.log + [Event(ExtractAcquirers, st.row)];
  }

  lemma BlockedFirstTurn(st: State, listed: Vault, s: Script)
    requires Blocked(st.row) && !listed.acquireOnly
    ensures var t := FirstTurn(st, listed, s);
            && !t.row.processed
            && st.log <= t.log
            && forall k :: |st.log| <= k < |t.log| ==> t.log[k].call in {ParameterizeDispatch, ExtractAcquirers}
  {
    var marked := SetRow(st, st.row.(inProgress := true));
    var ready := EnsureDispatchParameterized(marked, listed, s).state;
    assert ready.row.claims == st.row.claims;
    var i :| i in FailedOf(st.row, ACQUIRERS) && !st.row.claims[i].expansionTx;
    assert i in FailedOf(ready.row, ACQUIRERS);
    BlockedExtraction(ready, s);
  }

  /** One FAILED regular acquirer claim stops a vault for good: it is never processed, its contributors are never
      paid and no pool or snapshot is made, whatever the rest of the run does. */
  lemma {:induction false} FailedAcquirerClaimBlocksForever(st: State, cs: seq<Cycle>)
    requires Blocked(st.row)
    ensures var t := Run(st, cs);
            && Blocked(t.row) && st.log <= t.log
            && forall k :: |st.log| <= k < |t.log| ==> t.log[k].call in {ParameterizeDispatch, ExtractAcquirers}
    decreases |cs|
  {
    if cs != [] {
      BlockedStep(st, cs[0]);
      StepMoves(st, cs[0]);
      FailedAcquirerClaimBlocksForever(Step(st, cs[0]), cs[1..]);
    }
  }
}
