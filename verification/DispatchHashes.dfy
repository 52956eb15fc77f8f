/**
 Which dispatch hash a vault ends up with: the one it began with or the first answer that was written, and no other,
 over any run.
 */
module DispatchHashes {
  import opened Wrappers
  import opened VaultSteps
  import opened DistributionSafety

  /** The cycle takes up a regular vault that has no hash yet, and both the call and the write of its answer work. */
  ghost predicate Parameterizes(st: State, c: Cycle) {
    && c.firstQueryOk && Ready(st.row) && c.script.markOk && !st.row.acquireOnly
    && !Truthy(st.row.dispatchHash) && c.script.dispatchHash.Some? && c.script.dispatchWriteOk
  }

  lemma FinalizeKeepsHash(st: State, s: Script)
    ensures FinalizeVaultDistribution(st, s).state.row.dispatchHash == st.row.dispatchHash
  {
    CreateLpKeepsFlags(st, s);
  }

  lemma MintKeepsHash(st: State, s: Script)
    ensures ProcessAcquireOnlyExtractions(st, s).state.row.dispatchHash == st.row.dispatchHash
  {
  }

  lemma ExtractKeepsHash(st: State, s: Script)
    ensures ProcessAcquirerExtractions(st, s).state.row.dispatchHash == st.row.dispatchHash
  {
  }

  lemma StartExtractionKeepsHash(st: State, s: Script)
    ensures StartExtraction(st, s).row.dispatchHash == st.row.dispatchHash
  {
    MintKeepsHash(st, s);
    ExtractKeepsHash(st, s);
    var minted, extracted := ProcessAcquireOnlyExtractions(st, s).state, ProcessAcquirerExtractions(st, s).state;
    assert StartExtraction(st, s) in {st, minted, extracted, SetRow(st, st.row.(manual := true))};
  }

  lemma FirstTurnHash(st: State, listed: Vault, s: Script)
    requires st.row.dispatchHash == listed.dispatchHash
    ensures FirstTurn(st, listed, s).row.dispatchHash ==
            if s.markOk && !listed.acquireOnly && !Truthy(listed.dispatchHash)
               && s.dispatchHash.Some? && s.dispatchWriteOk
            then s.dispatchHash else listed.dispatchHash
  {
    var marked := SetRow(st, st.row.(inProgress := true));
    if listed.acquireOnly {
      MintKeepsHash(marked, s);
      FinalizeKeepsHash(ProcessAcquireOnlyExtractions(marked, s).state, s);
    } else {
      StartExtractionKeepsHash(EnsureDispatchParameterized(marked, listed, s).state, s);
    }
  }

  lemma SecondTurnKeepsHash(st: State, listed: Vault, s: Script)
    ensures SecondTurn(st, listed, s).row.dispatchHash == st.row.dispatchHash
  {
    FinalizeKeepsHash(ProcessContributorPayments(st, listed, s).state, s);
  }

  lemma SecondPassKeepsHash(st: State, s: Script)
    ensures SecondPass(st, s).row.dispatchHash == st.row.dispatchHash
  {
    SecondTurnKeepsHash(Webhook(st, s.confirmedSecond), st.row, s);
  }

  /** One cycle: the vault gets the very hash that the call answered exactly when the cycle parameterises it, and keeps
      what it has in every other case. */
  lemma StepWritesTheAnswer(st: State, c: Cycle)
    ensures Step(st, c).row.dispatchHash ==
            if Parameterizes(st, c) then c.script.dispatchHash else st.row.dispatchHash
  {
    var s := c.script;
    var start := Webhook(st, s.confirmedBefore);
    FirstTurnHash(Webhook(start, s.confirmedFirst), start.row, s);
    SecondPassKeepsHash(Webhook(FirstPass(start, s), s.confirmedBetween), s);
  }

  /** So a vault without a hash that gets as far as its claims has the answer of that cycle. */
  lemma ReachedClaimsHaveTheAnswer(st: State, c: Cycle)
    requires !Truthy(st.row.dispatchHash) && ReachesClaims(st, c)
    ensures Step(st, c).row.dispatchHash == c.script.dispatchHash
  {
    StepWritesTheAnswer(st, c);
  }

  /** Cycle `k` of the run writes its answer. */
  ghost predicate WritesAt(st: State, cs: seq<Cycle>, k: nat)
    requires k < |cs|
  {
    Parameterizes(Run(st, cs[..k]), cs[k])
  }

  lemma WritesAtNext(st: State, cs: seq<Cycle>, k: nat)
    requires k + 1 < |cs|
    ensures WritesAt(st, cs, k + 1) <==> WritesAt(Step(st, cs[0]), cs[1..], k)
  {
    assert cs[..k + 1][0] == cs[0] && cs[..k + 1][1..] == cs[1..][..k];
  }

  lemma WritesShift(st: State, cs: seq<Cycle>)
    requires cs != []
    ensures WritesAt(st, cs, 0) <==> Parameterizes(st, cs[0])
    ensures forall k :: 1 <= k < |cs| ==> (WritesAt(st, cs, k) <==> WritesAt(Step(st, cs[0]), cs[1..], k - 1))
  {
    assert cs[..0] == [];
    forall k | 1 <= k < |cs| ensures WritesAt(st, cs, k) <==> WritesAt(Step(st, cs[0]), cs[1..], k - 1) {
      WritesAtNext(st, cs, k - 1);
    }
  }

  lemma {:induction false} HashIsKept(st: State, cs: seq<Cycle>)
    requires Truthy(st.row.dispatchHash)
    ensures Run(st, cs).row.dispatchHash == st.row.dispatchHash
    ensures forall k :: 0 <= k < |cs| ==> !WritesAt(st, cs, k)
    decreases |cs|
  {
    if cs != [] {
      StepWritesTheAnswer(st, cs[0]);
      HashIsKept(Step(st, cs[0]), cs[1..]);
      WritesShift(st, cs);
    }
  }

  lemma {:induction false} AtMostOneWrites(st: State, cs: seq<Cycle>, j: nat, k: nat)
    requires j < k < |cs| && WritesAt(st, cs, j)
    ensures !WritesAt(st, cs, k)
    decreases |cs|
  {
    WritesAtNext(st, cs, k - 1);
    if j == 0 {
      assert cs[..0] == [];
      StepWritesTheAnswer(st, cs[0]);
      HashIsKept(Step(st, cs[0]), cs[1..]);
    } else {
      WritesAtNext(st, cs, j - 1);
      AtMostOneWrites(Step(st, cs[0]), cs[1..], j - 1, k - 1);
    }
  }

  lemma {:induction false} WrittenAnswerStays(st: State, cs: seq<Cycle>, k: nat)
    requires k < |cs| && WritesAt(st, cs, k)
    ensures Run(st, cs).row.dispatchHash == cs[k].script.dispatchHash
    decreases |cs|
  {
    WritesShift(st, cs);
    StepWritesTheAnswer(st, cs[0]);
    if k == 0 {
      HashIsKept(Step(st, cs[0]), cs[1..]);
    } else {
      WrittenAnswerStays(Step(st, cs[0]), cs[1..], k - 1);
    }
  }

  lemma {:induction false} NothingWrittenNothingChanged(st: State, cs: seq<Cycle>)
    requires forall k :: 0 <= k < |cs| ==> !WritesAt(st, cs, k)
    ensures Run(st, cs).row.dispatchHash == st.row.dispatchHash
    decreases |cs|
  {
    if cs != [] {
      WritesShift(st, cs);
      StepWritesTheAnswer(st, cs[0]);
      forall k | 0 <= k < |cs[1..]| ensures !WritesAt(Step(st, cs[0]), cs[1..], k) {
        assert !WritesAt(st, cs, k + 1);
      }
      NothingWrittenNothingChanged(Step(st, cs[0]), cs[1..]);
    }
  }

  /** Over a run: at most one cycle writes its answer, the vault ends with exactly that answer, and without such a cycle
      with the hash it began with. */
  lemma RunWritesOneAnswer(st: State, cs: seq<Cycle>)
    ensures forall j, k :: 0 <= j < k < |cs| && WritesAt(st, cs, j) ==> !WritesAt(st, cs, k)
    ensures forall k :: 0 <= k < |cs| && WritesAt(st, cs, k) ==>
              Run(st, cs).row.dispatchHash == cs[k].script.dispatchHash
    ensures (forall k :: 0 <= k < |cs| ==> !WritesAt(st, cs, k)) ==>
              Run(st, cs).row.dispatchHash == st.row.dispatchHash
  {
    forall j, k | 0 <= j < k < |cs| && WritesAt(st, cs, j) ensures !WritesAt(st, cs, k) {
      AtMostOneWrites(st, cs, j, k);
    }
    forall k | 0 <= k < |cs| && WritesAt(st, cs, k)
      ensures Run(st, cs).row.dispatchHash == cs[k].script.dispatchHash
    {
      WrittenAnswerStays(st, cs, k);
    }
    if forall k :: 0 <= k < |cs| ==> !WritesAt(st, cs, k) {
      NothingWrittenNothingChanged(st, cs);
    }
  }
}
