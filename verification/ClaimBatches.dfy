/**
 How the extraction and minting orchestrators work through the claims they are handed: batches that are split in half
 when a transaction fails. Whether a transaction goes through is an input; which claims are tried with which is what
 the code decides.
 */
module ClaimBatches {
  import opened Sequences
  import opened VaultSteps
  import opened DistributionOutcomes
  import opened DistributionProgress
  import opened DistributionSafety

  const MAX_EXTRACTION_BATCH := 16

  /** Claims by position. */
  type Batch = seq<nat>

  function Members(b: Batch): set<nat> {
    set c | c in b
  }

  /** What became of the claims of one transaction: it returned, the claims are tried again in smaller company, or they
      are given up until the next cycle. */
  datatype Fate = Returned | Retried | GivenUp

  /** The claims a transaction's record lists for its confirmation: an extraction is recorded with its whole batch
      before validation, a payment after it. */
  datatype Listing = WholeBatch | ValidOnly

  /** `spent`: claims validation found already spent, which it marks CLAIMED; `dropped`: claims it took out for any
      other reason, such as a failed lookup; `confirmed`: the confirmation came, if only after this try had failed,
      and the write for the listed claims worked. */
  datatype Try = Try(batch: Batch, fate: Fate, spent: set<nat>, dropped: set<nat>, listing: Listing, confirmed: bool)

  function SpentBy(t: Try): set<nat> {
    Members(t.batch) * t.spent
  }

  /** The claims left after validation. */
  function Valid(t: Try): set<nat> {
    Members(t.batch) - t.spent - t.dropped
  }

  /** The claims that were put into a transaction that went out; none of them is extracted, minted or paid otherwise. */
  function SentBy(t: Try): set<nat> {
    if t.fate.Returned? || t.confirmed then Valid(t) else {}
  }

  /** The claims marked CLAIMED when the transaction is confirmed; with no valid claim none is sent. */
  function ConfirmedBy(t: Try): set<nat> {
    if !t.confirmed || Valid(t) == {} then {}
    else if t.listing.WholeBatch? then Members(t.batch)
    else Valid(t)
  }

  function SettledBy(t: Try): set<nat> {
    SpentBy(t) + ConfirmedBy(t)
  }

  datatype Progress = Progress(tries: seq<Try>, settled: set<nat>, threw: bool)

  function Start(): Progress {
    Progress([], {}, false)
  }

  function Log(p: Progress, t: Try): Progress {
    p.(tries := p.tries + [t], settled := p.settled + SettledBy(t))
  }

  // ----- Accounting for claims -----

  /** The claims whose last word is spoken, in order. */
  ghost function Finished(tries: seq<Try>): Batch {
    if tries == [] then []
    else Finished(tries[..|tries| - 1])
         + if tries[|tries| - 1].fate.Retried? then [] else tries[|tries| - 1].batch
  }

  lemma FinishedNext(tries: seq<Try>, t: Try)
    ensures Finished(tries + [t]) == Finished(tries) + if t.fate.Retried? then [] else t.batch
  {
    assert (tries + [t])[..|tries|] == tries;
  }

  /** Between two states of the work, exactly the claims `done` get finished. */
  ghost predicate Finishes(p: Progress, q: Progress, done: Batch) {
    p.tries <= q.tries && Finished(q.tries) == Finished(p.tries) + done
  }

  /** All of a list is done, or a prefix of it if something was thrown. */
  ghost predicate AsFarAsThrown(q: Progress, done: Batch, claims: Batch) {
    done <= claims && (!q.threw ==> done == claims)
  }

  lemma FinishCompose(p: Progress, q: Progress, r: Progress, a: Batch, b: Batch)
    requires Finishes(p, q, a) && Finishes(q, r, b)
    ensures Finishes(p, r, a + b)
  {
    assert Finished(p.tries) + (a + b) == Finished(p.tries) + a + b;
  }

  lemma FinishNothing(p: Progress, q: Progress, r: Progress, b: Batch)
    requires Finishes(p, q, []) && Finishes(q, r, b)
    ensures Finishes(p, r, b)
  {
    assert Finished(p.tries) + [] == Finished(p.tries);
  }

  lemma SplitAfter(done: Batch, claims: Batch, n: nat)
    requires n <= |claims|
    ensures done + claims == done + claims[..n] + claims[n..]
  {
    assert claims == claims[..n] + claims[n..];
  }

  lemma FinishesItself(p: Progress, q: Progress)
    requires q.tries == p.tries
    ensures Finishes(p, q, [])
  {
  }

  /** Thrown in the first part: nothing of the rest. */
  lemma FarAsThrownStops(q: Progress, done: Batch, a: Batch, b: Batch)
    requires AsFarAsThrown(q, done, a) && q.threw
    ensures AsFarAsThrown(q, done, a + b)
  {
  }

  /** After a part that went through, a part of the rest. */
  lemma FarAsThrownCompose(q: Progress, a: Batch, b: Batch, done: Batch)
    requires AsFarAsThrown(q, done, b)
    ensures AsFarAsThrown(q, a + done, a + b)
  {
  }

  lemma OneTry(p: Progress, t: Try)
    ensures Finishes(p, Log(p, t), if t.fate.Retried? then [] else t.batch)
  {
    FinishedNext(p.tries, t);
  }

  // ----- Extraction and minting: split in half -----

  /** How a batch is executed: it returns (also when validation leaves nothing to send), fails over a missing or spent
      UTxO, or fails otherwise. */
  datatype Execution = Returns | MissingUtxo | OtherError

  /** `saveOk`, `markOk`: the writes of its record before and after a failure; the sets and `confirmed` as above. */
  datatype Extraction = Extraction(saveOk: bool, spent: set<nat>, dropped: set<nat>, execution: Execution,
                                   confirmed: bool, markOk: bool)

  /** By number of the try and batch. */
  type Chain = (nat, Batch) -> Extraction

  function FateOf(e: Extraction, batch: Batch): Fate {
    if e.execution.Returns? then Returned
    else if |batch| == 1 || e.execution.MissingUtxo? then GivenUp
    else Retried
  }

  function TryOf(e: Extraction, batch: Batch): Try {
    Try(batch, FateOf(e, batch), e.spent, e.dropped, WholeBatch, e.confirmed)
  }

  function ProcessBatch(w: Chain, p: Progress, batch: Batch): Progress
    requires batch != []
    decreases |batch|
  {
    var e := w(|p.tries|, batch);
    if !e.saveOk then p.(threw := true)
    else
      var q := Log(p, TryOf(e, batch));
      if e.execution.Returns? then q
      else if !e.markOk then q.(threw := true)
      else if |batch| == 1 || e.execution.MissingUtxo? then q
      else
        var mid := (|batch| + 1) / 2;
        var first := ProcessBatch(w, q, batch[..mid]);
        if first.threw then first else ProcessBatch(w, first, batch[mid..])
  }

  function ProcessBatches(w: Chain, p: Progress, claims: Batch): Progress
    decreases |claims|
  {
    if claims == [] || p.threw then p
    else
      var n := if |claims| < MAX_EXTRACTION_BATCH then |claims| else MAX_EXTRACTION_BATCH;
      ProcessBatches(w, ProcessBatch(w, p, claims[..n]), claims[n..])
  }

  lemma BatchesNext(w: Chain, p: Progress, claims: Batch, n: nat)
    requires claims != [] && !p.threw
    requires n == if |claims| < MAX_EXTRACTION_BATCH then |claims| else MAX_EXTRACTION_BATCH
    ensures var q := ProcessBatch(w, p, claims[..n]);
            ProcessBatches(w, p, claims) == if q.threw then q else ProcessBatches(w, q, claims[n..])
  {
  }

  method ProcessExtractions(w: Chain, claims: Batch) returns (p: Progress)
    ensures p == ProcessBatches(w, Start(), claims)
  {
    p := Start();
    var i := 0;
    while i < |claims|
      invariant 0 <= i && !p.threw
      invariant ProcessBatches(w, Start(), claims) == ProcessBatches(w, p, if i < |claims| then claims[i..] else [])
      decreases |claims| - i
    {
      var end := if i + MAX_EXTRACTION_BATCH < |claims| then i + MAX_EXTRACTION_BATCH else |claims|;
      assert claims[i..][..end - i] == claims[i..end] && claims[i..][end - i..] == claims[end..];
      p := ProcessBatch(w, p, claims[i..end]);
      if p.threw {
        return;
      }
      i := i + MAX_EXTRACTION_BATCH;
    }
  }

  lemma Halves(batch: Batch)
    requires |batch| > 1
    ensures var mid := (|batch| + 1) / 2;
            0 < mid < |batch| && batch[..mid] + batch[mid..] == batch
  {
  }

  /** The two halves after a failed try. */
  ghost function SplitAndRetry(w: Chain, q: Progress, batch: Batch): Progress
    requires |batch| > 1
  {
    var mid := (|batch| + 1) / 2;
    var first := ProcessBatch(w, q, batch[..mid]);
    if first.threw then first else ProcessBatch(w, first, batch[mid..])
  }

  /** The cases of a batch: thrown before its try, ended with it, or split. */
  lemma BatchCases(w: Chain, p: Progress, batch: Batch)
    requires batch != []
    ensures var e, q := w(|p.tries|, batch), ProcessBatch(w, p, batch);
            var tried := Log(p, TryOf(e, batch));
            if !e.saveOk then q == p.(threw := true)
            else if FateOf(e, batch).Retried? && e.markOk then |batch| > 1 && q == SplitAndRetry(w, tried, batch)
            else q == tried || (q == tried.(threw := true) && !e.markOk)
  {
  }

  lemma {:induction false} SplittingWorksThrough(w: Chain, p: Progress, batch: Batch) returns (done: Batch)
    requires batch != [] && !p.threw
    ensures Finishes(p, ProcessBatch(w, p, batch), done) && AsFarAsThrown(ProcessBatch(w, p, batch), done, batch)
    decreases |batch|
  {
    var e := w(|p.tries|, batch);
    BatchCases(w, p, batch);
    OneTry(p, TryOf(e, batch));
    if !e.saveOk {
      done := [];
    } else if FateOf(e, batch).Retried? && e.markOk {
      var q := Log(p, TryOf(e, batch));
      done := HalvesWorkThrough(w, q, batch);
      FinishNothing(p, q, SplitAndRetry(w, q, batch), done);
    } else {
      done := if FateOf(e, batch).Retried? then [] else batch;
    }
  }

  lemma {:induction false} HalvesWorkThrough(w: Chain, q: Progress, batch: Batch) returns (done: Batch)
    requires |batch| > 1 && !q.threw
    ensures Finishes(q, SplitAndRetry(w, q, batch), done) && AsFarAsThrown(SplitAndRetry(w, q, batch), done, batch)
    decreases |batch|, 0
  {
    var mid := (|batch| + 1) / 2;
    Halves(batch);
    done := SplittingWorksThrough(w, q, batch[..mid]);
    var first := ProcessBatch(w, q, batch[..mid]);
    if !first.threw {
      var rest := SplittingWorksThrough(w, first, batch[mid..]);
      FinishCompose(q, first, ProcessBatch(w, first, batch[mid..]), batch[..mid], rest);
      FarAsThrownCompose(ProcessBatch(w, first, batch[mid..]), batch[..mid], batch[mid..], rest);
      done := batch[..mid] + rest;
    } else {
      FarAsThrownStops(first, done, batch[..mid], batch[mid..]);
    }
  }

  /** Fewer than two tries per claim, and no other claim settled. */
  lemma {:induction false} SplittingIsBounded(w: Chain, p: Progress, batch: Batch)
    requires batch != [] && !p.threw
    ensures |ProcessBatch(w, p, batch).tries| < |p.tries| + 2 * |batch|
    ensures ProcessBatch(w, p, batch).settled <= p.settled + Members(batch)
    decreases |batch|
  {
    var e := w(|p.tries|, batch);
    BatchCases(w, p, batch);
    if e.saveOk && e.markOk && FateOf(e, batch).Retried? {
      var q := Log(p, TryOf(e, batch));
      var mid := (|batch| + 1) / 2;
      Halves(batch);
      SplittingIsBounded(w, q, batch[..mid]);
      var first := ProcessBatch(w, q, batch[..mid]);
      if !first.threw {
        SplittingIsBounded(w, first, batch[mid..]);
      }
    }
  }

  lemma {:induction false} BatchesWorkThrough(w: Chain, p: Progress, claims: Batch) returns (done: Batch)
    requires !p.threw
    ensures Finishes(p, ProcessBatches(w, p, claims), done) && AsFarAsThrown(ProcessBatches(w, p, claims), done, claims)
    decreases |claims|
  {
    if claims == [] {
      FinishesItself(p, p);
      done := [];
    } else {
      var n := if |claims| < MAX_EXTRACTION_BATCH then |claims| else MAX_EXTRACTION_BATCH;
      done := SplittingWorksThrough(w, p, claims[..n]);
      var q := ProcessBatch(w, p, claims[..n]);
      BatchesNext(w, p, claims, n);
      assert claims[..n] + claims[n..] == claims;
      if !q.threw {
        var rest := BatchesWorkThrough(w, q, claims[n..]);
        FinishCompose(p, q, ProcessBatches(w, q, claims[n..]), claims[..n], rest);
        FarAsThrownCompose(ProcessBatches(w, q, claims[n..]), claims[..n], claims[n..], rest);
        done := claims[..n] + rest;
      } else {
        FarAsThrownStops(q, done, claims[..n], claims[n..]);
      }
    }
  }

  lemma {:induction false} BatchesAreBounded(w: Chain, p: Progress, claims: Batch)
    requires !p.threw
    ensures |ProcessBatches(w, p, claims).tries| <= |p.tries| + 2 * |claims|
    ensures ProcessBatches(w, p, claims).settled <= p.settled + Members(claims)
    decreases |claims|
  {
    if claims != [] {
      var n := if |claims| < MAX_EXTRACTION_BATCH then |claims| else MAX_EXTRACTION_BATCH;
      SplittingIsBounded(w, p, claims[..n]);
      var q := ProcessBatch(w, p, claims[..n]);
      if !q.threw {
        BatchesAreBounded(w, q, claims[n..]);
      }
    }
  }

  /** Every claim handed over ends in exactly one transaction that returned or was given up, in the order of the list;
      the tries stay below two per claim; a throw leaves a prefix finished. */
  lemma ExtractionsAccountForClaims(w: Chain, claims: Batch)
    ensures var p := ProcessBatches(w, Start(), claims);
            && Finished(p.tries) <= claims && (!p.threw ==> Finished(p.tries) == claims)
            && p.settled <= Members(claims)
            && |p.tries| <= 2 * |claims|
  {
    var done := BatchesWorkThrough(w, Start(), claims);
    BatchesAreBounded(w, Start(), claims);
    assert Finished(Start().tries) + done == done;
  }

  // ----- Which claims stay PENDING -----

  ghost predicate InTry(p: Progress, i: int, c: nat) {
    0 <= i < |p.tries| && c in p.tries[i].batch
  }

  /** What is settled is what the tries settled, and all of them list their claims the same way. */
  ghost predicate SettledByTries(p: Progress, listing: Listing) {
    && (forall c :: c in p.settled <==> exists i :: InTry(p, i, c) && c in SettledBy(p.tries[i]))
    && (forall i :: 0 <= i < |p.tries| ==> p.tries[i].listing == listing)
  }

  lemma LogKeepsSettled(p: Progress, t: Try)
    requires SettledByTries(p, t.listing)
    ensures SettledByTries(Log(p, t), t.listing)
  {
    var q := Log(p, t);
    assert q.tries[|p.tries|] == t;
    assert forall i :: 0 <= i < |p.tries| ==> q.tries[i] == p.tries[i];
    forall c ensures c in q.settled <==> exists i :: InTry(q, i, c) && c in SettledBy(q.tries[i]) {
      if c in p.settled {
        var i :| InTry(p, i, c) && c in SettledBy(p.tries[i]);
        assert InTry(q, i, c);
      }
      if c in SettledBy(t) {
        assert InTry(q, |p.tries|, c);
      }
      if i :| InTry(q, i, c) && c in SettledBy(q.tries[i]) && i < |p.tries| {
        assert InTry(p, i, c);
      }
    }
  }

  lemma {:induction false} SplittingKeepsSettled(w: Chain, p: Progress, batch: Batch)
    requires batch != [] && SettledByTries(p, WholeBatch)
    ensures SettledByTries(ProcessBatch(w, p, batch), WholeBatch)
    decreases |batch|
  {
    var e := w(|p.tries|, batch);
    LogKeepsSettled(p, TryOf(e, batch));
    if e.saveOk && e.markOk && FateOf(e, batch).Retried? {
      var q := Log(p, TryOf(e, batch));
      var mid := (|batch| + 1) / 2;
      SplittingKeepsSettled(w, q, batch[..mid]);
      SplittingKeepsSettled(w, ProcessBatch(w, q, batch[..mid]), batch[mid..]);
    }
  }

  lemma {:induction false} BatchesKeepSettled(w: Chain, p: Progress, claims: Batch)
    requires SettledByTries(p, WholeBatch)
    ensures SettledByTries(ProcessBatches(w, p, claims), WholeBatch)
    decreases |claims|
  {
    if claims != [] && !p.threw {
      var n := if |claims| < MAX_EXTRACTION_BATCH then |claims| else MAX_EXTRACTION_BATCH;
      SplittingKeepsSettled(w, p, claims[..n]);
      BatchesKeepSettled(w, ProcessBatch(w, p, claims[..n]), claims[n..]);
    }
  }

  lemma {:induction false} FinishedMember(tries: seq<Try>, c: nat)
    ensures c in Finished(tries) <==> exists i :: 0 <= i < |tries| && !tries[i].fate.Retried? && c in tries[i].batch
  {
    if tries != [] {
      var init := tries[..|tries| - 1];
      FinishedMember(init, c);
      assert forall i :: 0 <= i < |init| ==> init[i] == tries[i];
      if c in Finished(init) {
        var i :| 0 <= i < |init| && !init[i].fate.Retried? && c in init[i].batch;
        assert !tries[i].fate.Retried? && c in tries[i].batch;
      }
    }
  }

  lemma DistinctParts(a: Batch, b: Batch)
    requires Distinct(a + b)
    ensures Distinct(a) && forall c :: c in a ==> c !in b
  {
    assert forall i :: 0 <= i < |a| ==> a[i] == (a + b)[i];
    forall i, j | 0 <= i < |a| && 0 <= j < |b| ensures a[i] != b[j] {
      assert (a + b)[i] != (a + b)[|a| + j];
    }
  }

  /** When no claim is finished twice, two finished tries share none. */
  lemma {:induction false} FinishedOnce(tries: seq<Try>, i: nat, j: nat, c: nat)
    requires Distinct(Finished(tries)) && i < j < |tries|
    requires !tries[i].fate.Retried? && !tries[j].fate.Retried?
    ensures !(c in tries[i].batch && c in tries[j].batch)
  {
    var init, last := tries[..|tries| - 1], tries[|tries| - 1];
    var lastClaims := if last.fate.Retried? then [] else last.batch;
    DistinctParts(Finished(init), lastClaims);
    if j < |init| {
      FinishedOnce(init, i, j, c);
    } else if c in tries[i].batch {
      FinishedMember(init, c);
      assert init[i] == tries[i];
    }
  }

  /** The try that finished the claim was given up, or it returned without the claim getting confirmed by it: nothing
      was left to send, or the confirmation's write failed. */
  ghost predicate WasGivenUp(p: Progress, c: nat) {
    exists i :: InTry(p, i, c) &&
                (p.tries[i].fate.GivenUp? || (p.tries[i].fate.Returned? && c !in ConfirmedBy(p.tries[i])))
  }

  /** It was never found spent, and none of its failed transactions was confirmed late. */
  ghost predicate NeverElse(p: Progress, c: nat) {
    forall i :: InTry(p, i, c) ==>
      c !in SpentBy(p.tries[i]) && (!p.tries[i].fate.Returned? ==> c !in ConfirmedBy(p.tries[i]))
  }

  lemma OpenIffGivenUp(p: Progress, listing: Listing, claims: Batch, c: nat)
    requires Distinct(claims) && Finished(p.tries) == claims && SettledByTries(p, listing) && c in claims
    ensures c !in p.settled <==> WasGivenUp(p, c) && NeverElse(p, c)
  {
    FinishedMember(p.tries, c);
    var k :| 0 <= k < |p.tries| && !p.tries[k].fate.Retried? && c in p.tries[k].batch;
    forall i | InTry(p, i, c) && !p.tries[i].fate.Retried? ensures i == k {
      if i != k {
        FinishedOnce(p.tries, if i < k then i else k, if i < k then k else i, c);
      }
    }
    SettledOfOne(p, listing, k, c);
  }

  /** With one finishing try, whether the claim was settled is up to that try and to what happened besides. */
  lemma SettledOfOne(p: Progress, listing: Listing, k: nat, c: nat)
    requires InTry(p, k, c) && !p.tries[k].fate.Retried? && SettledByTries(p, listing)
    requires forall i :: InTry(p, i, c) && !p.tries[i].fate.Retried? ==> i == k
    ensures c !in p.settled <==> WasGivenUp(p, c) && NeverElse(p, c)
  {
    if c !in p.settled {
      forall i | InTry(p, i, c) ensures c !in SettledBy(p.tries[i]) {
      }
    }
  }

  /** When an extraction ends without a throw, a claim is still PENDING if and only if its own transaction was given
      up (it failed with the claim alone in it, or over a missing UTxO) or returned unconfirmed, with nothing valid to
      send or with the write of its confirmation lost, and the claim was never found spent nor confirmed late. */
  lemma LeftPendingIffGivenUp(w: Chain, claims: Batch, c: nat)
    requires Distinct(claims) && c in claims
    ensures var p := ProcessBatches(w, Start(), claims);
            !p.threw ==> (c !in p.settled <==> WasGivenUp(p, c) && NeverElse(p, c))
  {
    ExtractionsAccountForClaims(w, claims);
    BatchesKeepSettled(w, Start(), claims);
    var p := ProcessBatches(w, Start(), claims);
    if !p.threw {
      OpenIffGivenUp(p, WholeBatch, claims, c);
    }
  }

  // ----- Which claims are CLAIMED for nothing -----

  ghost predicate WasSent(p: Progress, c: nat) {
    exists i :: InTry(p, i, c) && c in SentBy(p.tries[i])
  }

  ghost predicate WasSpent(p: Progress, c: nat) {
    exists i :: InTry(p, i, c) && c in SpentBy(p.tries[i])
  }

  /** Recorded as CLAIMED although nothing was ever sent for it and it was never found spent. */
  ghost predicate ClaimedForNothing(p: Progress, c: nat) {
    c in p.settled && !WasSent(p, c) && !WasSpent(p, c)
  }

  /** Validation dropped the claim from a transaction that went out with the rest of its batch and was confirmed. */
  ghost predicate DroppedFromConfirmed(p: Progress, c: nat) {
    exists i :: InTry(p, i, c) && c in p.tries[i].dropped && p.tries[i].confirmed && Valid(p.tries[i]) != {}
  }

  /** Of every batch, thrown or not: a claim is recorded as extracted for nothing if and only if validation dropped it
      from a transaction that was confirmed with others in it, and no other try sent it or found it spent. */
  lemma ClaimedForNothingIffDropped(w: Chain, claims: Batch, c: nat)
    ensures var p := ProcessBatches(w, Start(), claims);
            ClaimedForNothing(p, c) <==> DroppedFromConfirmed(p, c) && !WasSent(p, c) && !WasSpent(p, c)
  {
    var p := ProcessBatches(w, Start(), claims);
    BatchesKeepSettled(w, Start(), claims);
    if DroppedFromConfirmed(p, c) {
      var i :| InTry(p, i, c) && c in p.tries[i].dropped && p.tries[i].confirmed && Valid(p.tries[i]) != {};
      assert c in SettledBy(p.tries[i]);
    }
    if ClaimedForNothing(p, c) {
      var i :| InTry(p, i, c) && c in SettledBy(p.tries[i]);
      assert c in ConfirmedBy(p.tries[i]) && c !in SentBy(p.tries[i]);
    }
  }

  /** It happens to two claims of one batch when one of the lookups fails: both are recorded as extracted, one was. */
  lemma ClaimedForNothingWitness(w: Chain)
    requires w(0, [0, 1]) == Extraction(true, {}, {1}, Returns, true, true)
    ensures var p := ProcessBatches(w, Start(), [0, 1]);
            && !p.threw && p.settled == {0, 1} && |p.tries| == 1 && SentBy(p.tries[0]) == {0}
            && ClaimedForNothing(p, 1)
  {
    var t := TryOf(w(0, [0, 1]), [0, 1]);
    assert Members([0, 1]) == {0, 1} && Valid(t) == {0} && SettledBy(t) == {0, 1};
    assert [0, 1][..2] == [0, 1] && [0, 1][2..] == [];
    BatchesNext(w, Start(), [0, 1], 2);
    var p := ProcessBatches(w, Start(), [0, 1]);
    assert p == Log(Start(), t) && p.tries == [t];
  }

  // ----- What the coordinator sees of it -----

  /** Writes work, UTxOs are there, validation drops nothing that is unspent, and a transaction for a single claim goes
      through. */
  ghost predicate SinglesGoThrough(w: Chain) {
    forall n, b ::
      && w(n, b).saveOk && w(n, b).markOk && !w(n, b).execution.MissingUtxo? && w(n, b).dropped == {}
      && (|b| == 1 ==> w(n, b).execution.Returns?)
      && (w(n, b).execution.Returns? ==> w(n, b).confirmed)
  }

  ghost predicate NoneGivenUp(p: Progress) {
    && !p.threw
    && forall i :: 0 <= i < |p.tries| ==>
         && !p.tries[i].fate.GivenUp? && p.tries[i].dropped == {}
         && (p.tries[i].fate.Returned? ==> p.tries[i].confirmed)
  }

  lemma {:induction false} SplittingGivesUpNone(w: Chain, p: Progress, batch: Batch)
    requires batch != [] && SinglesGoThrough(w) && NoneGivenUp(p)
    ensures NoneGivenUp(ProcessBatch(w, p, batch))
    decreases |batch|
  {
    var e := w(|p.tries|, batch);
    if FateOf(e, batch).Retried? {
      var q := Log(p, TryOf(e, batch));
      var mid := (|batch| + 1) / 2;
      SplittingGivesUpNone(w, q, batch[..mid]);
      SplittingGivesUpNone(w, ProcessBatch(w, q, batch[..mid]), batch[mid..]);
    }
  }

  lemma {:induction false} BatchesGiveUpNone(w: Chain, p: Progress, claims: Batch)
    requires SinglesGoThrough(w) && NoneGivenUp(p)
    ensures NoneGivenUp(ProcessBatches(w, p, claims))
    decreases |claims|
  {
    if claims != [] {
      var n := if |claims| < MAX_EXTRACTION_BATCH then |claims| else MAX_EXTRACTION_BATCH;
      SplittingGivesUpNone(w, p, claims[..n]);
      BatchesGiveUpNone(w, ProcessBatch(w, p, claims[..n]), claims[n..]);
    }
  }

  /** If single-claim transactions go through, splitting settles every claim, however large batches fail, and each was
      sent or found spent. */
  lemma SplittingSettlesAll(w: Chain, claims: Batch)
    requires Distinct(claims) && SinglesGoThrough(w)
    ensures var p := ProcessBatches(w, Start(), claims);
            p.settled == Members(claims) && !p.threw && forall c :: c in claims ==> WasSent(p, c) || WasSpent(p, c)
  {
    var p := ProcessBatches(w, Start(), claims);
    BatchesGiveUpNone(w, Start(), claims);
    ExtractionsAccountForClaims(w, claims);
    BatchesKeepSettled(w, Start(), claims);
    forall c | c in claims ensures c in p.settled && (WasSent(p, c) || WasSpent(p, c)) {
      FinishedIsSettled(p, c);
      ClaimedForNothingIffDropped(w, claims, c);
    }
  }

  /** With nothing dropped and every confirmation written, the finishing try found the claim spent or got it
      confirmed. */
  lemma FinishedIsSettled(p: Progress, c: nat)
    requires NoneGivenUp(p) && SettledByTries(p, WholeBatch) && c in Finished(p.tries)
    ensures c in p.settled && !DroppedFromConfirmed(p, c)
  {
    FinishedMember(p.tries, c);
    var i :| 0 <= i < |p.tries| && !p.tries[i].fate.Retried? && c in p.tries[i].batch;
    assert InTry(p, i, c);
    if c !in SpentBy(p.tries[i]) {
      assert c in Valid(p.tries[i]);
    }
    assert c in SettledBy(p.tries[i]);
  }

  /** The orchestration a chain gives rise to, for a query that lists claims in a given order. */
  ghost function Extracting(w: Chain, order: set<nat> -> Batch, throws: bool): Orchestration {
    Orchestration(true, NOTHING_CONFIRMED, found => ProcessBatches(w, Start(), order(found)).settled, throws)
  }

  ghost predicate Orders(order: set<nat> -> Batch) {
    forall found :: Members(order(found)) == found && Distinct(order(found))
  }

  /** The coordinator's abstraction of an orchestrator is met: its effect on the row is what Settle says. */
  lemma ExtractionIsSettle(st: State, kinds: set<ClaimType>, w: Chain, order: set<nat> -> Batch)
    requires Orders(order)
    ensures var p := ProcessBatches(w, Start(), order(PendingOf(st.row, kinds)));
            && Settle(st, kinds, Extracting(w, order, p.threw)) ==
               Outcome(SetRow(st, Confirm(st.row, p.settled)), p.threw)
            && (forall c :: c in p.settled ==> c in PendingOf(st.row, kinds))
  {
    var claims := order(PendingOf(st.row, kinds));
    ExtractionsAccountForClaims(w, claims);
    var settled := ProcessBatches(w, Start(), claims).settled;
    assert Members(claims) == PendingOf(st.row, kinds);
    assert settled * PendingOf(st.row, kinds) == settled;
  }

  /** ... and so is the progress assumption, when single-claim transactions go through. */
  lemma ExtractionIsProductive(w: Chain, order: set<nat> -> Batch)
    requires Orders(order) && SinglesGoThrough(w)
    ensures Productive(Extracting(w, order, false))
    ensures forall found :: !ProcessBatches(w, Start(), order(found)).threw
  {
    forall found: set<nat>
      ensures ProcessBatches(w, Start(), order(found)).settled == found
      ensures !ProcessBatches(w, Start(), order(found)).threw
    {
      SplittingSettlesAll(w, order(found));
    }
  }

  // ----- What it means for an acquire-only vault -----

  /** The claims among those handed over that were neither sent nor found spent. */
  ghost function Unminted(p: Progress, found: set<nat>): set<nat> {
    set i | i in found && !WasSent(p, i) && !WasSpent(p, i)
  }

  /** The minting call of the cycle that closes the vault works through its claims in this way. */
  ghost predicate MintsBy(st: State, c: Cycle, w: Chain, claims: Batch) {
    var p := ProcessBatches(w, Start(), claims);
    && Distinct(claims) && Members(claims) == MintFinds(AtFirstTurn(st, c.script).row, c.script)
    && c.script.mint.settles(Members(claims)) == p.settled && c.script.mint.throws == p.threw
  }

  /** The claims an acquire-only vault is closed with open are exactly the FAILED ones and those its orchestrator gave
      up, unless they are confirmed all the same. */
  lemma AcquireOnlyLosesGivenUp(st: State, c: Cycle, w: Chain, claims: Batch)
    requires st.row.acquireOnly && Truthy(st.row.treasury) && ClosesAcquireOnly(st, c) && MintsBy(st, c, w, claims)
    ensures var found, p := Members(claims), ProcessBatches(w, Start(), claims);
            LeftOpen(st, c) ==
            FailedOf(st.row, ACQUIRERS)
            + ((set i | i in found && WasGivenUp(p, i) && NeverElse(p, i)) - ConfirmedAfter(c))
  {
    var p := ProcessBatches(w, Start(), claims);
    if claims != [] {
      assert claims[0] in Members(claims);
    }
    forall i | i in claims ensures !p.threw ==> (i !in p.settled <==> WasGivenUp(p, i) && NeverElse(p, i)) {
      LeftPendingIffGivenUp(w, claims, i);
    }
  }

  /** What is not minted is more than that: the claims never sent nor found spent are those given up unsent, which stay
      PENDING, and those dropped from a confirmed transaction, which no longer count as open. */
  lemma UnmintedExactly(w: Chain, claims: Batch)
    requires Distinct(claims)
    ensures var found, p := Members(claims), ProcessBatches(w, Start(), claims);
            !p.threw ==>
              var open := set i | i in Unminted(p, found) && WasGivenUp(p, i) && NeverElse(p, i);
              var closed := set i | i in Unminted(p, found) && DroppedFromConfirmed(p, i);
              Unminted(p, found) == open + closed && open !! closed && closed <= p.settled && open !! p.settled
  {
    var p := ProcessBatches(w, Start(), claims);
    if !p.threw {
      forall i | i in claims
        ensures i !in p.settled <==> WasGivenUp(p, i) && NeverElse(p, i)
        ensures ClaimedForNothing(p, i) <==> DroppedFromConfirmed(p, i) && !WasSent(p, i) && !WasSpent(p, i)
      {
        LeftPendingIffGivenUp(w, claims, i);
        ClaimedForNothingIffDropped(w, claims, i);
      }
    }
  }

  /** If single-claim transactions go through, a vault closed by this call has no open claim, and every claim it was
      handed was sent or found spent. */
  lemma ClosedMeansMinted(st: State, c: Cycle, w: Chain, claims: Batch)
    requires st.row.acquireOnly && Truthy(st.row.treasury) && ClosesAcquireOnly(st, c) && MintsBy(st, c, w, claims)
    requires SinglesGoThrough(w) && FailedOf(st.row, ACQUIRERS) == {}
    ensures LeftOpen(st, c) == {} && Unminted(ProcessBatches(w, Start(), claims), Members(claims)) == {}
  {
    SplittingSettlesAll(w, claims);
    if claims != [] {
      assert claims[0] in Members(claims);
    }
  }

  lemma ClosedWithNoneOpen(st: State, c: Cycle, cs: seq<Cycle>)
    requires Ready(st.row) && st.row.acquireOnly && Truthy(st.row.treasury) && Undisturbed(c)
    requires st.row.claims == [Claim(Acquirer, Pending, false), Claim(Acquirer, Pending, false)]
    requires c.script.mint.settles({0, 1}) == {0, 1} && !c.script.mint.throws
    ensures var t := Run(Step(st, c), cs);
            t.row.processed && OpenOf(t.row, ACQUIRERS) == {} && t.log == Step(st, c).log
  {
    UndisturbedTurn(st, c);
    AcquireOnlyClosesExactly(st, c);
    TwoPending(st.row);
    assert MintFinds(st.row, c.script) == {0, 1};
    assert MintLeaves(st.row, c.script) == {};
    ClaimsAreLeftBehind(st, c, cs);
  }

  lemma MintsOneOfTwo(w: Chain)
    requires w(0, [0, 1]) == Extraction(true, {}, {1}, Returns, true, true)
    ensures var p := ProcessBatches(w, Start(), [0, 1]);
            !p.threw && p.settled == {0, 1} && Unminted(p, {0, 1}) == {1}
  {
    ClaimedForNothingWitness(w);
    var p := ProcessBatches(w, Start(), [0, 1]);
    assert InTry(p, 0, 0) && 0 in SentBy(p.tries[0]);
  }

  /** Without that it is false: two acquirers in one batch, one lookup fails, and the vault is closed with no claim
      open and nobody called again in any later cycle, although the second acquirer was never minted anything. */
  lemma ClosedWithoutMintingWitness(st: State, c: Cycle, w: Chain, cs: seq<Cycle>)
    requires Ready(st.row) && st.row.acquireOnly && Truthy(st.row.treasury) && Undisturbed(c)
    requires st.row.claims == [Claim(Acquirer, Pending, false), Claim(Acquirer, Pending, false)]
    requires w(0, [0, 1]) == Extraction(true, {}, {1}, Returns, true, true) && MintsBy(st, c, w, [0, 1])
    ensures var t := Run(Step(st, c), cs);
            t.row.processed && OpenOf(t.row, ACQUIRERS) == {} && t.log == Step(st, c).log
    ensures Unminted(ProcessBatches(w, Start(), [0, 1]), {0, 1}) == {1}
  {
    MintsOneOfTwo(w);
    assert Members([0, 1]) == {0, 1};
    ClosedWithNoneOpen(st, c, cs);
  }
}
