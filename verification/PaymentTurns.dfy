/**
 Which payments are tried: the batch of each, by what the probes and payments answered, and exactly when running out of
 UTxOs ends the work.
 */
module PaymentTurns {
  import opened Sequences
  import opened ClaimBatches
  import opened PaymentBatches

  /** Validation leaves something to pay. */
  ghost predicate HasValid(e: PaymentTry, batch: Batch) {
    exists c :: c in batch && c !in e.spent && c !in e.dropped
  }

  ghost predicate IsPaid(e: PaymentTry, batch: Batch) {
    HasValid(e, batch) && e.sent.Paid?
  }

  ghost predicate RanOut(e: PaymentTry, batch: Batch) {
    HasValid(e, batch) && e.sent.OutOfUtxos?
  }

  /** The claims still to be worked on when try `i` starts. */
  ghost function Left(claims: Batch, tries: seq<Try>, i: nat): Batch
    requires i <= |tries|
  {
    var done := |Finished(tries[..i])|;
    if done <= |claims| then claims[done..] else []
  }

  /** The largest size below which every size fits, or one. */
  ghost predicate LargestFitting(fits: nat -> bool, claims: Batch, n: nat) {
    && 1 <= n <= |claims| && n <= 15
    && (n > 1 ==> forall k :: 1 <= k <= n ==> fits(k))
    && (n < |claims| && n < 15 ==> !fits(n + 1) || (n == 1 && !fits(1)))
  }

  /** The record of a payment: as its answers were; given up if it is the claim tried alone and was refused. */
  ghost predicate Records(t: Try, e: PaymentTry, alone: bool) {
    && t.spent == e.spent && t.dropped == e.dropped && t.confirmed == e.confirmed
    && (t.fate.Returned? <==> IsPaid(e, t.batch))
    && (t.fate.GivenUp? <==> alone && !IsPaid(e, t.batch) && !RanOut(e, t.batch))
  }

  /** The batch of the payment: the first claim alone right after a refused batch or a failed probe, else as many as
      fit. */
  ghost predicate Tries(probe: Probe, left: Batch, again: bool, batch: Batch)
    requires left != []
  {
    if again then batch == left[..1]
    else if |left| == 1 then batch == left
    else
      match probe
      case FetchFailed(o) => !o && batch == left[..1]
      case Fetched(fits) => LargestFitting(fits, left, |batch|) && batch == left[..|batch|]
  }

  ghost predicate IsAgain(tries: seq<Try>, i: nat)
    requires i <= |tries|
  {
    i > 0 && tries[i - 1].fate.Retried?
  }

  ghost predicate IsFailedProbe(probe: Probe, left: Batch) {
    |left| >= 2 && probe.FetchFailed?
  }

  /** Try `i` by the answers: its batch, and what is recorded of it. */
  ghost predicate Followed(w: Payer, claims: Batch, tries: seq<Try>, i: nat)
    requires i < |tries|
  {
    var left, again := Left(claims, tries, i), IsAgain(tries, i);
    && left != [] && Tries(w.probe(i, left), left, again, tries[i].batch)
    && Records(tries[i], w.pay(i, tries[i].batch), again || IsFailedProbe(w.probe(i, left), left))
  }

  /** A probe over two or more claims finds no UTxOs, or the last payment ran out of them. */
  ghost predicate EndsEarly(w: Payer, claims: Batch, tries: seq<Try>) {
    var n, left := |tries|, Left(claims, tries, |tries|);
    || (|left| >= 2 && w.probe(n, left) == FetchFailed(true))
    || (n > 0 && RanOut(w.pay(n - 1, tries[n - 1].batch), tries[n - 1].batch))
  }

  ghost predicate FollowedFrom(w: Payer, claims: Batch, tries: seq<Try>, from: nat) {
    from <= |tries| && forall i :: from <= i < |tries| ==> Followed(w, claims, tries, i)
  }

  lemma LongerIsFollowed(w: Payer, claims: Batch, tries: seq<Try>, longer: seq<Try>, i: nat)
    requires i < |tries| && tries <= longer && Followed(w, claims, tries, i)
    ensures Followed(w, claims, longer, i)
  {
    assert longer[..i] == tries[..i] && longer[i] == tries[i];
    assert IsAgain(longer, i) == IsAgain(tries, i);
  }

  /** One more payment is judged by the claims at hand. */
  lemma NextIsFollowed(w: Payer, all: Batch, tries: seq<Try>, left: Batch, t: Try)
    requires left != [] && all == Finished(tries) + left
    requires Tries(w.probe(|tries|, left), left, IsAgain(tries, |tries|), t.batch)
    requires Records(t, w.pay(|tries|, t.batch),
                     IsAgain(tries, |tries|) || IsFailedProbe(w.probe(|tries|, left), left))
    ensures FollowedFrom(w, all, tries + [t], |tries|)
  {
    var longer := tries + [t];
    assert longer[..|tries|] == tries && longer[|tries|] == t;
    LeftIs(all, longer, left);
    assert IsAgain(longer, |tries|) == IsAgain(tries, |tries|);
    assert Followed(w, all, longer, |tries|);
  }

  lemma LeftIs(all: Batch, longer: seq<Try>, left: Batch)
    requires longer != [] && all == Finished(Init(longer)) + left
    ensures Left(all, longer, |longer| - 1) == left
  {
  }

  lemma FollowedCompose(w: Payer, claims: Batch, a: seq<Try>, b: seq<Try>, from: nat)
    requires a <= b && FollowedFrom(w, claims, a, from) && FollowedFrom(w, claims, b, |a|)
    ensures FollowedFrom(w, claims, b, from)
  {
    forall i | from <= i < |b| ensures Followed(w, claims, b, i) {
      if i < |a| {
        LongerIsFollowed(w, claims, a, b, i);
      }
    }
  }

  lemma NothingValid(e: PaymentTry, batch: Batch)
    ensures Members(batch) - e.spent - e.dropped == {} <==> !HasValid(e, batch)
  {
    if HasValid(e, batch) {
      var c :| c in batch && c !in e.spent && c !in e.dropped;
      assert c in Members(batch) - e.spent - e.dropped;
    }
  }

  lemma PaymentIs(e: PaymentTry, batch: Batch)
    ensures PaymentOf(e, batch).Paid? <==> IsPaid(e, batch)
    ensures PaymentOf(e, batch).OutOfUtxos? <==> RanOut(e, batch)
  {
    NothingValid(e, batch);
  }

  /** What `claims` is at the start of a turn: all that is left, and no claim to be tried again. */
  ghost predicate AtTurn(p: Progress, all: Batch, claims: Batch) {
    && !p.threw && all == Finished(p.tries) + claims
    && (p.tries != [] ==> !Last(p.tries).fate.Retried?)
  }

  lemma LeftAtTurn(p: Progress, all: Batch, claims: Batch)
    requires all == Finished(p.tries) + claims
    ensures Left(all, p.tries, |p.tries|) == claims
  {
    assert p.tries[..|p.tries|] == p.tries;
  }

  lemma PaymentIsRecorded(e: PaymentTry, batch: Batch, retry: bool)
    ensures Records(LoggedPayment(e, batch, retry), e, retry)
  {
    PaymentIs(e, batch);
  }

  lemma SizeIsTried(probe: Probe, claims: Batch, n: nat)
    requires claims != [] && SizeOf(probe, claims) == Sized(n)
    ensures Tries(probe, claims, false, claims[..n]) && !IsFailedProbe(probe, claims)
  {
    if |claims| >= 2 {
      SizeIsLargestThatFits(probe, claims);
    }
  }

  /** A payment of everything that fits. */
  lemma SizedPayFollows(w: Payer, p: Progress, all: Batch, claims: Batch, n: nat)
    requires AtTurn(p, all, claims) && claims != [] && SizeOf(w.probe(|p.tries|, claims), claims) == Sized(n)
    ensures FollowedFrom(w, all, Pay(w, p, claims[..n], false).tries, |p.tries|)
  {
    var e := w.pay(|p.tries|, claims[..n]);
    SizeIsTried(w.probe(|p.tries|, claims), claims, n);
    PaymentIsRecorded(e, claims[..n], false);
    NextIsFollowed(w, all, p.tries, claims, LoggedPayment(e, claims[..n], false));
  }

  /** The single claim after a refusal or a failed probe. */
  lemma RetryFollows(w: Payer, q: Progress, all: Batch, claims: Batch)
    requires claims != [] && all == Finished(q.tries) + claims
    requires IsAgain(q.tries, |q.tries|) || (|claims| >= 2 && w.probe(|q.tries|, claims) == FetchFailed(false))
    ensures FollowedFrom(w, all, RetryFirst(w, q, claims).tries, |q.tries|)
  {
    var e := w.pay(|q.tries|, claims[..1]);
    PaymentIsRecorded(e, claims[..1], true);
    NextIsFollowed(w, all, q.tries, claims, LoggedPayment(e, claims[..1], true));
  }

  /** Running out of UTxOs in the payment tried last. */
  lemma PayEndsEarly(w: Payer, p: Progress, all: Batch, batch: Batch, retry: bool)
    requires !p.threw
    ensures var q := Pay(w, p, batch, retry);
            && (q.threw <==> RanOut(w.pay(|p.tries|, batch), batch)) && (q.threw ==> EndsEarly(w, all, q.tries))
  {
    PaymentIs(w.pay(|p.tries|, batch), batch);
  }

  lemma TurnFollows(w: Payer, p: Progress, all: Batch, claims: Batch)
    requires AtTurn(p, all, claims) && claims != []
    ensures var t := PayTurn(w, p, claims);
            && p.tries <= t.after.tries && FollowedFrom(w, all, t.after.tries, |p.tries|)
            && (!t.after.threw ==> AtTurn(t.after, all, claims[t.count..]))
            && (t.after.threw ==> EndsEarly(w, all, t.after.tries))
  {
    var s := SizeOf(w.probe(|p.tries|, claims), claims);
    if s.Sized? {
      SizedTurnFollows(w, p, all, claims, s.n);
    } else if s.outOfUtxos {
      LeftAtTurn(p, all, claims);
    } else {
      RetryTurnFollows(w, p, all, claims);
    }
    if !PayTurn(w, p, claims).after.threw {
      TurnLeaves(w, p, all, claims);
    }
  }

  lemma TurnLeaves(w: Payer, p: Progress, all: Batch, claims: Batch)
    requires AtTurn(p, all, claims) && claims != [] && !PayTurn(w, p, claims).after.threw
    ensures all == Finished(PayTurn(w, p, claims).after.tries) + claims[PayTurn(w, p, claims).count..]
  {
    var done := TurnWorksThrough(w, p, claims);
    SplitAfter(Finished(p.tries), claims, PayTurn(w, p, claims).count);
  }

  lemma RetryTurnFollows(w: Payer, q: Progress, all: Batch, claims: Batch)
    requires claims != [] && all == Finished(q.tries) + claims && !q.threw
    requires IsAgain(q.tries, |q.tries|) || (|claims| >= 2 && w.probe(|q.tries|, claims) == FetchFailed(false))
    ensures var r := RetryFirst(w, q, claims);
            && q.tries <= r.tries && FollowedFrom(w, all, r.tries, |q.tries|)
            && (!r.threw ==> !Last(r.tries).fate.Retried?) && (r.threw ==> EndsEarly(w, all, r.tries))
  {
    RetryFollows(w, q, all, claims);
    PayEndsEarly(w, q, all, claims[..1], true);
  }

  lemma RefusedIsTriedAgain(w: Payer, p: Progress, all: Batch, claims: Batch, n: nat)
    requires AtTurn(p, all, claims) && n <= |claims|
    requires PaymentOf(w.pay(|p.tries|, claims[..n]), claims[..n]).Refused?
    ensures var paid := Pay(w, p, claims[..n], false);
            && p.tries <= paid.tries && |paid.tries| == |p.tries| + 1 && !paid.threw
            && all == Finished(paid.tries) + claims && IsAgain(paid.tries, |paid.tries|)
  {
    var paid := Pay(w, p, claims[..n], false);
    assert paid.tries[..|p.tries|] == p.tries;
    assert Finished(p.tries) + [] == Finished(p.tries);
  }

  /** A refused batch, and its first claim alone after it. */
  lemma RefusedTurnFollows(w: Payer, p: Progress, all: Batch, claims: Batch, n: nat)
    requires AtTurn(p, all, claims) && claims != [] && SizeOf(w.probe(|p.tries|, claims), claims) == Sized(n)
    requires PaymentOf(w.pay(|p.tries|, claims[..n]), claims[..n]).Refused?
    ensures var q := RetryFirst(w, Pay(w, p, claims[..n], false), claims);
            && p.tries <= q.tries && FollowedFrom(w, all, q.tries, |p.tries|)
            && (!q.threw ==> !Last(q.tries).fate.Retried?) && (q.threw ==> EndsEarly(w, all, q.tries))
  {
    var paid := Pay(w, p, claims[..n], false);
    SizedPayFollows(w, p, all, claims, n);
    RefusedIsTriedAgain(w, p, all, claims, n);
    RetryTurnFollows(w, paid, all, claims);
    FollowedCompose(w, all, paid.tries, RetryFirst(w, paid, claims).tries, |p.tries|);
  }

  lemma SizedTurnFollows(w: Payer, p: Progress, all: Batch, claims: Batch, n: nat)
    requires AtTurn(p, all, claims) && claims != [] && SizeOf(w.probe(|p.tries|, claims), claims) == Sized(n)
    ensures var t := PayTurn(w, p, claims);
            && p.tries <= t.after.tries && FollowedFrom(w, all, t.after.tries, |p.tries|)
            && (!t.after.threw ==> !Last(t.after.tries).fate.Retried?)
            && (t.after.threw ==> EndsEarly(w, all, t.after.tries))
  {
    if PaymentOf(w.pay(|p.tries|, claims[..n]), claims[..n]).Refused? {
      RefusedTurnFollows(w, p, all, claims, n);
    } else {
      SizedPayFollows(w, p, all, claims, n);
      PayEndsEarly(w, p, all, claims[..n], false);
    }
  }

  lemma {:induction false} TurnsFollow(w: Payer, p: Progress, all: Batch, claims: Batch)
    requires AtTurn(p, all, claims)
    ensures var q := PayClaims(w, p, claims);
            && p.tries <= q.tries && FollowedFrom(w, all, q.tries, |p.tries|)
            && (!q.threw ==> AtTurn(q, all, [])) && (q.threw ==> EndsEarly(w, all, q.tries))
    decreases |claims|
  {
    if claims != [] {
      var t := PayTurn(w, p, claims);
      TurnFollows(w, p, all, claims);
      if !t.after.threw {
        TurnsFollow(w, t.after, all, claims[t.count..]);
        FollowedCompose(w, all, t.after.tries, PayClaims(w, p, claims).tries, |p.tries|);
      }
    }
  }

  lemma WorkFollows(w: Payer, claims: Batch)
    ensures var q := PayClaims(w, Start(), claims);
            && FollowedFrom(w, claims, q.tries, 0)
            && (!q.threw ==> AtTurn(q, claims, [])) && (q.threw ==> EndsEarly(w, claims, q.tries))
  {
    assert Finished([]) == [] && claims == [] + claims;
    TurnsFollow(w, Start(), claims, claims);
  }

  /** Every payment tried, by what the probes and payments answer and nothing else. */
  lemma PaymentsFollowTheAnswers(w: Payer, claims: Batch, i: nat)
    requires i < |PayClaims(w, Start(), claims).tries|
    ensures Followed(w, claims, PayClaims(w, Start(), claims).tries, i)
  {
    WorkFollows(w, claims);
  }

  /** The work ends early if and only if UTxOs ran out: in the payment tried last, or in a probe for two or more
      claims that came next; otherwise every claim is finished. */
  lemma PaymentsThrowIff(w: Payer, claims: Batch)
    ensures var p := PayClaims(w, Start(), claims);
            && (p.threw <==> EndsEarly(w, claims, p.tries))
            && (!p.threw ==> Finished(p.tries) == claims)
  {
    var p := PayClaims(w, Start(), claims);
    WorkFollows(w, claims);
    if !p.threw {
      LeftAtTurn(p, claims, []);
      if p.tries != [] {
        var i := |p.tries| - 1;
        assert Followed(w, claims, p.tries, i);
      }
    }
  }

  /** The first turn: a probe over two or more claims that finds no UTxOs ends the work before anything is tried, one
      that fails otherwise leads to the first claim alone. */
  lemma FirstProbeDecides(w: Payer, claims: Batch)
    requires |claims| >= 2 && w.probe(0, claims).FetchFailed?
    ensures var p := PayClaims(w, Start(), claims);
            if w.probe(0, claims).outOfUtxos then p.threw && p.tries == [] && p.settled == {}
            else p.tries != [] && p.tries[0].batch == claims[..1]
  {
    var p := PayClaims(w, Start(), claims);
    if !w.probe(0, claims).outOfUtxos {
      PaymentsThrowIff(w, claims);
      assert Finished([]) == [] && Left(claims, [], 0) == claims;
      assert p.tries != [];
      PaymentsFollowTheAnswers(w, claims, 0);
      assert p.tries[..0] == [];
    }
  }
}
