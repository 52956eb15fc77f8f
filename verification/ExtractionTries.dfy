/**
 Which extraction transactions are tried: what becomes of each batch, by what its execution answered, and which batches
 come after it.
 */
module ExtractionTries {
  import opened Sequences
  import opened ClaimBatches

  /** The try is what the chain answered for its number and batch: it ended if it returned; if it failed, it was given
      up when it held one claim or failed over a missing UTxO, and is split otherwise. */
  ghost predicate Answers(w: Chain, tries: seq<Try>, i: nat)
    requires i < |tries|
  {
    var t, e := tries[i], w(i, tries[i].batch);
    && t.batch != [] && e.saveOk
    && (t.fate.Returned? <==> e.execution.Returns?)
    && (t.fate.GivenUp? <==> !e.execution.Returns? && (|t.batch| == 1 || e.execution.MissingUtxo?))
    && t.spent == e.spent && t.dropped == e.dropped && t.confirmed == e.confirmed
  }

  /** No claim of the try is in any later one. */
  ghost predicate NoneAfter(tries: seq<Try>, i: nat)
    requires i < |tries|
  {
    forall j :: i < j < |tries| ==> Members(tries[i].batch) !! Members(tries[j].batch)
  }

  /** The larger half of the batch is tried next, the other half later. */
  ghost predicate HalvesAfter(tries: seq<Try>, i: nat)
    requires i < |tries|
  {
    var b := tries[i].batch;
    var mid := (|b| + 1) / 2;
    && i + 1 < |tries| && tries[i + 1].batch == b[..mid]
    && exists j :: i + 1 < j < |tries| && tries[j].batch == b[mid..]
  }

  ghost predicate Followed(w: Chain, p: Progress, i: nat)
    requires i < |p.tries|
  {
    && Answers(w, p.tries, i)
    && (!p.tries[i].fate.Retried? ==> NoneAfter(p.tries, i))
    && (p.tries[i].fate.Retried? && !p.threw ==> HalvesAfter(p.tries, i))
    && (!p.threw ==> w(i, p.tries[i].batch).execution.Returns? || w(i, p.tries[i].batch).markOk)
  }

  /** The tries from number `from` on are within the given claims and as they should be. */
  ghost predicate FollowedFrom(w: Chain, p: Progress, from: nat, claims: Batch, most: nat) {
    && from <= |p.tries|
    && forall i :: from <= i < |p.tries| ==>
         && Followed(w, p, i)
         && |p.tries[i].batch| <= most && Members(p.tries[i].batch) <= Members(claims)
  }

  lemma StaysFollowed(w: Chain, p: Progress, q: Progress, from: nat, a: Batch, b: Batch, most: nat)
    requires FollowedFrom(w, p, from, a, most) && !p.threw
    requires FollowedFrom(w, q, |p.tries|, b, most) && p.tries <= q.tries
    requires Members(a) !! Members(b)
    ensures FollowedFrom(w, q, from, a + b, most)
  {
    assert Members(a + b) == Members(a) + Members(b);
    forall i | from <= i < |q.tries|
      ensures Followed(w, q, i)
      ensures |q.tries[i].batch| <= most && Members(q.tries[i].batch) <= Members(a + b)
    {
      if i < |p.tries| {
        assert q.tries[i] == p.tries[i];
        assert Followed(w, p, i);
        StaysFollowedAt(w, p, q, i, a, b, most);
      }
    }
  }

  lemma StaysFollowedAt(w: Chain, p: Progress, q: Progress, i: nat, a: Batch, b: Batch, most: nat)
    requires i < |p.tries| && Followed(w, p, i) && !p.threw && Members(p.tries[i].batch) <= Members(a)
    requires FollowedFrom(w, q, |p.tries|, b, most) && p.tries <= q.tries
    requires Members(a) !! Members(b)
    ensures Followed(w, q, i)
  {
    assert q.tries[i] == p.tries[i];
    if p.tries[i].fate.Retried? {
      var batch := p.tries[i].batch;
      var mid := (|batch| + 1) / 2;
      assert q.tries[i + 1] == p.tries[i + 1];
      var j :| i + 1 < j < |p.tries| && p.tries[j].batch == batch[mid..];
      assert q.tries[j] == p.tries[j];
    } else {
      forall j | i < j < |q.tries| ensures Members(q.tries[i].batch) !! Members(q.tries[j].batch) {
        if j < |p.tries| {
          assert q.tries[j] == p.tries[j];
        }
      }
    }
  }

  lemma DistinctSplit(b: Batch, mid: nat)
    requires Distinct(b) && mid <= |b|
    ensures Distinct(b[..mid]) && Distinct(b[mid..]) && Members(b[..mid]) !! Members(b[mid..])
    ensures b[..mid] + b[mid..] == b && Members(b[..mid]) + Members(b[mid..]) == Members(b)
  {
    DistinctParts(b[..mid], b[mid..]);
    assert b[..mid] + b[mid..] == b;
    assert forall i, j :: 0 <= i < j < |b[mid..]| ==> b[mid..][i] == b[mid + i] && b[mid..][j] == b[mid + j];
  }

  /** A batch and everything that comes of it. */
  lemma {:induction false} SplittingFollows(w: Chain, p: Progress, batch: Batch)
    requires batch != [] && Distinct(batch) && !p.threw
    ensures var q := ProcessBatch(w, p, batch);
            && p.tries <= q.tries && FollowedFrom(w, q, |p.tries|, batch, |batch|)
            && (!q.threw ==> |p.tries| < |q.tries| && q.tries[|p.tries|].batch == batch)
    decreases |batch|
  {
    var e, q := w(|p.tries|, batch), ProcessBatch(w, p, batch);
    var tried := Log(p, TryOf(e, batch));
    BatchCases(w, p, batch);
    if e.saveOk && FateOf(e, batch).Retried? && e.markOk {
      HalvesFollow(w, p, batch, tried);
    }
  }

  lemma {:induction false} HalvesFollow(w: Chain, p: Progress, batch: Batch, tried: Progress)
    requires |batch| > 1 && Distinct(batch) && !p.threw
    requires w(|p.tries|, batch).saveOk && tried == Log(p, TryOf(w(|p.tries|, batch), batch))
    requires FateOf(w(|p.tries|, batch), batch).Retried? && w(|p.tries|, batch).markOk
    ensures var q := SplitAndRetry(w, tried, batch);
            && tried.tries <= q.tries && FollowedFrom(w, q, |p.tries|, batch, |batch|)
    decreases |batch|, 0
  {
    var mid := (|batch| + 1) / 2;
    DistinctSplit(batch, mid);
    SplittingFollows(w, tried, batch[..mid]);
    var first := ProcessBatch(w, tried, batch[..mid]);
    if first.threw {
      FailedTryFollows(w, p, batch, first, batch[..mid], mid);
    } else {
      SplittingFollows(w, first, batch[mid..]);
      var q := ProcessBatch(w, first, batch[mid..]);
      Wider(w, q, |first.tries|, batch[mid..], |batch| - mid, mid);
      StaysFollowed(w, first, q, |tried.tries|, batch[..mid], batch[mid..], mid);
      if !q.threw {
        assert q.tries[|first.tries|].batch == batch[mid..];
      }
      FailedTryFollows(w, p, batch, q, batch, mid);
    }
  }

  /** The failed try itself, when what comes after it is as it should be. */
  lemma FailedTryFollows(w: Chain, p: Progress, batch: Batch, q: Progress, rest: Batch, most: nat)
    requires batch != [] && w(|p.tries|, batch).saveOk && FateOf(w(|p.tries|, batch), batch).Retried?
    requires p.tries + [TryOf(w(|p.tries|, batch), batch)] <= q.tries
    requires FollowedFrom(w, q, |p.tries| + 1, rest, most) && most <= |batch| && Members(rest) <= Members(batch)
    requires !q.threw ==> HalvesAfter(q.tries, |p.tries|) && w(|p.tries|, batch).markOk
    ensures FollowedFrom(w, q, |p.tries|, batch, |batch|)
  {
    var n, t := |p.tries|, TryOf(w(|p.tries|, batch), batch);
    assert q.tries[n] == (p.tries + [t])[n] == t;
  }

  lemma Wider(w: Chain, p: Progress, from: nat, claims: Batch, most: nat, more: nat)
    requires FollowedFrom(w, p, from, claims, most) && most <= more
    ensures FollowedFrom(w, p, from, claims, more)
  {
  }

  // ----- All batches -----

  lemma {:induction false} BatchesFollow(w: Chain, p: Progress, claims: Batch)
    requires Distinct(claims) && !p.threw
    ensures var q := ProcessBatches(w, p, claims);
            p.tries <= q.tries && FollowedFrom(w, q, |p.tries|, claims, MAX_EXTRACTION_BATCH)
    decreases |claims|
  {
    if claims != [] {
      var n := if |claims| < MAX_EXTRACTION_BATCH then |claims| else MAX_EXTRACTION_BATCH;
      var q := ProcessBatch(w, p, claims[..n]);
      DistinctSplit(claims, n);
      SplittingFollows(w, p, claims[..n]);
      BatchesNext(w, p, claims, n);
      Wider(w, q, |p.tries|, claims[..n], n, MAX_EXTRACTION_BATCH);
      if !q.threw {
        BatchesFollow(w, q, claims[n..]);
        StaysFollowed(w, q, ProcessBatches(w, q, claims[n..]), |p.tries|, claims[..n], claims[n..],
                      MAX_EXTRACTION_BATCH);
      }
    }
  }

  /** Every claim of the batch is tried again later, with fewer others. */
  ghost predicate SmallerAfter(tries: seq<Try>, i: nat)
    requires i < |tries|
  {
    forall c :: c in tries[i].batch ==>
      exists j :: i < j < |tries| && c in tries[j].batch && |tries[j].batch| < |tries[i].batch|
  }

  lemma HalvesAreSmaller(tries: seq<Try>, i: nat)
    requires i < |tries| && |tries[i].batch| > 1 && HalvesAfter(tries, i)
    ensures SmallerAfter(tries, i)
  {
    var b := tries[i].batch;
    var mid := (|b| + 1) / 2;
    var j :| i + 1 < j < |tries| && tries[j].batch == b[mid..];
    assert b == b[..mid] + b[mid..];
    forall c | c in b ensures exists k :: i < k < |tries| && c in tries[k].batch && |tries[k].batch| < |b| {
      if c in b[..mid] {
        assert c in tries[i + 1].batch;
      } else {
        assert c in tries[j].batch;
      }
    }
  }

  /** Which transactions are tried, by what their execution answers and nothing else: a batch whose execution returns
      ends there; one that fails is given up if it holds a single claim or fails over a missing UTxO, and then none of
      its claims is tried again; any other failed batch is split, the larger half first, unless something is thrown.
      No batch holds more than sixteen claims, and the first is made of the first sixteen. */
  lemma TriesFollowTheChain(w: Chain, claims: Batch, i: nat)
    requires Distinct(claims) && i < |ProcessBatches(w, Start(), claims).tries|
    ensures var p := ProcessBatches(w, Start(), claims);
            var batch, e := p.tries[i].batch, w(i, p.tries[i].batch);
            var givenUp := !e.execution.Returns? && (|batch| == 1 || e.execution.MissingUtxo?);
            && 1 <= |batch| <= 16 && Members(batch) <= Members(claims) && e.saveOk
            && (p.tries[i].fate.Returned? <==> e.execution.Returns?)
            && (p.tries[i].fate.GivenUp? <==> givenUp)
            && (e.execution.Returns? || givenUp ==> NoneAfter(p.tries, i))
            && (!e.execution.Returns? && !givenUp && !p.threw ==> HalvesAfter(p.tries, i) && SmallerAfter(p.tries, i))
            && (!p.threw ==> e.execution.Returns? || e.markOk)
  {
    var p := ProcessBatches(w, Start(), claims);
    BatchesFollow(w, Start(), claims);
    assert Followed(w, p, i);
    if p.tries[i].fate.Retried? && !p.threw {
      HalvesAreSmaller(p.tries, i);
    }
  }

  lemma FirstBatchIsTaken(w: Chain, claims: Batch)
    requires claims != [] && Distinct(claims)
    ensures var p, n := ProcessBatches(w, Start(), claims), if |claims| < 16 then |claims| else 16;
            p.tries != [] ==> p.tries[0].batch == claims[..n]
    ensures !w(0, claims[..if |claims| < 16 then |claims| else 16]).saveOk <==>
            ProcessBatches(w, Start(), claims).tries == []
  {
    var n := if |claims| < MAX_EXTRACTION_BATCH then |claims| else MAX_EXTRACTION_BATCH;
    var batch, q := claims[..n], ProcessBatch(w, Start(), claims[..n]);
    BatchesNext(w, Start(), claims, n);
    DistinctSplit(claims, n);
    SplittingFollows(w, Start(), batch);
    BatchCases(w, Start(), batch);
    FirstTry(w, batch);
    if !q.threw {
      BatchesFollow(w, q, claims[n..]);
    }
  }

  lemma FirstTry(w: Chain, batch: Batch)
    requires batch != [] && Distinct(batch)
    ensures var q := ProcessBatch(w, Start(), batch);
            if w(0, batch).saveOk then q.tries != [] && q.tries[0].batch == batch else q.tries == [] && q.threw
  {
    var e := w(0, batch);
    BatchCases(w, Start(), batch);
    var tried := Log(Start(), TryOf(e, batch));
    if e.saveOk && FateOf(e, batch).Retried? && e.markOk {
      HalvesFollow(w, Start(), batch, tried);
    }
  }

  /** The record of the next batch, which starts where the finished claims end, cannot be written. */
  ghost predicate SaveFailed(w: Chain, claims: Batch, tries: seq<Try>) {
    exists k :: |Finished(tries)| < k <= |claims| && !w(|tries|, claims[|Finished(tries)|..k]).saveOk
  }

  /** The try made last failed, and so did the write that says so. */
  ghost predicate MarkFailed(w: Chain, tries: seq<Try>) {
    tries != []
    && var last := w(|tries| - 1, tries[|tries| - 1].batch); !last.execution.Returns? && !last.markOk
  }

  lemma NextBatchFails(w: Chain, claims: Batch, tries: seq<Try>, batch: Batch, rest: Batch)
    requires batch != [] && claims == Finished(tries) + batch + rest && !w(|tries|, batch).saveOk
    ensures SaveFailed(w, claims, tries)
  {
    var n := |Finished(tries)|;
    assert claims[n..n + |batch|] == batch;
  }

  lemma {:induction false} SplittingThrows(w: Chain, p: Progress, batch: Batch, claims: Batch, rest: Batch)
    requires batch != [] && !p.threw && claims == Finished(p.tries) + batch + rest
    ensures var q := ProcessBatch(w, p, batch);
            q.threw ==> SaveFailed(w, claims, q.tries) || MarkFailed(w, q.tries)
    decreases |batch|
  {
    var e := w(|p.tries|, batch);
    BatchCases(w, p, batch);
    if !e.saveOk {
      NextBatchFails(w, claims, p.tries, batch, rest);
    } else if FateOf(e, batch).Retried? && e.markOk {
      HalvesThrow(w, p, batch, Log(p, TryOf(e, batch)), claims, rest);
    }
  }

  lemma {:induction false} HalvesThrow(w: Chain, p: Progress, batch: Batch, tried: Progress, claims: Batch, rest: Batch)
    requires |batch| > 1 && !tried.threw && claims == Finished(p.tries) + batch + rest
    requires FateOf(w(|p.tries|, batch), batch).Retried? && tried == Log(p, TryOf(w(|p.tries|, batch), batch))
    ensures var mid := (|batch| + 1) / 2;
            var first := ProcessBatch(w, tried, batch[..mid]);
            var q := if first.threw then first else ProcessBatch(w, first, batch[mid..]);
            q.threw ==> SaveFailed(w, claims, q.tries) || MarkFailed(w, q.tries)
    decreases |batch|, 0
  {
    var mid := (|batch| + 1) / 2;
    Halves(batch);
    FinishedNext(p.tries, TryOf(w(|p.tries|, batch), batch));
    SplittingThrows(w, tried, batch[..mid], claims, batch[mid..] + rest);
    var first := ProcessBatch(w, tried, batch[..mid]);
    if !first.threw {
      var done := SplittingWorksThrough(w, tried, batch[..mid]);
      SplittingThrows(w, first, batch[mid..], claims, rest);
    }
  }

  lemma {:induction false} BatchesThrow(w: Chain, p: Progress, claims: Batch, left: Batch)
    requires !p.threw && claims == Finished(p.tries) + left
    ensures var q := ProcessBatches(w, p, left);
            q.threw ==> SaveFailed(w, claims, q.tries) || MarkFailed(w, q.tries)
    decreases |left|
  {
    if left != [] {
      var n := if |left| < MAX_EXTRACTION_BATCH then |left| else MAX_EXTRACTION_BATCH;
      SplitAfter(Finished(p.tries), left, n);
      SplittingThrows(w, p, left[..n], claims, left[n..]);
      BatchesNext(w, p, left, n);
      var q := ProcessBatch(w, p, left[..n]);
      if !q.threw {
        var done := SplittingWorksThrough(w, p, left[..n]);
        BatchesThrow(w, q, claims, left[n..]);
      }
    }
  }

  /** It throws if and only if a write failed: the record of the batch that comes after the finished claims, or the one
      after the try made last failed. */
  lemma ExtractionsThrowIffAWriteFails(w: Chain, claims: Batch)
    requires Distinct(claims)
    ensures var p := ProcessBatches(w, Start(), claims);
            p.threw <==> SaveFailed(w, claims, p.tries) || MarkFailed(w, p.tries)
  {
    var p := ProcessBatches(w, Start(), claims);
    assert [] + claims == claims;
    BatchesThrow(w, Start(), claims, claims);
    ExtractionsAccountForClaims(w, claims);
    if !p.threw && p.tries != [] {
      TriesFollowTheChain(w, claims, |p.tries| - 1);
    }
  }

  /** Two claims whose batch misses a UTxO are tried once, whatever would have become of them alone. */
  lemma MissingUtxoIsNotSplit(w: Chain, claims: Batch)
    requires Distinct(claims) && |claims| == 2
    requires w(0, claims).saveOk && w(0, claims).markOk && w(0, claims).execution.MissingUtxo?
    ensures |ProcessBatches(w, Start(), claims).tries| == 1 && !ProcessBatches(w, Start(), claims).threw
  {
    assert claims[..2] == claims && claims[2..] == [];
    BatchesNext(w, Start(), claims, 2);
  }
}
