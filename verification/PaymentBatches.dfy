/**
 How the contributor orchestrator works through the claims it is handed: batches of probed size, with a retry of the
 first claim alone when a payment fails.
 */
module PaymentBatches {
  import opened Sequences
  import opened VaultSteps
  import opened ClaimBatches

  const MAX_PAYMENT_BATCH := 15

  /** Fetching the admin UTxOs for a probe, and which batch sizes then build within the limits. */
  datatype Probe = Fetched(fits: nat -> bool) | FetchFailed(outOfUtxos: bool)

  datatype Payment = Paid | Refused | OutOfUtxos

  /** The sets and `confirmed` as for an extraction. A payment that fails here loses its list of claims, so that a
      confirmation settles them only if it comes in before that. */
  datatype PaymentTry = PaymentTry(spent: set<nat>, dropped: set<nat>, sent: Payment, confirmed: bool)

  /** By number of tries so far and the claims at hand. */
  datatype Payer = Payer(probe: (nat, Batch) -> Probe, pay: (nat, Batch) -> PaymentTry)

  datatype Sizing = Sized(n: nat) | SizingFailed(outOfUtxos: bool)

  function Grow(fits: nat -> bool, size: nat, max: nat): (r: nat)
    requires size <= max
    ensures size <= r <= max
    ensures forall k :: size < k <= r ==> fits(k)
    ensures r < max ==> !fits(r + 1)
    decreases max - size
  {
    if size < max && fits(size + 1) then Grow(fits, size + 1, max) else size
  }

  function SizeOf(probe: Probe, claims: Batch): (s: Sizing)
    requires claims != []
    ensures s.Sized? ==> 1 <= s.n <= |claims| && s.n <= MAX_PAYMENT_BATCH
  {
    var max := if |claims| < MAX_PAYMENT_BATCH then |claims| else MAX_PAYMENT_BATCH;
    if |claims| == 1 then Sized(1)
    else
      match probe
      case FetchFailed(o) => SizingFailed(o)
      case Fetched(fits) => if fits(1) then Sized(Grow(fits, 1, max)) else Sized(1)
  }

  /** The size found is the largest up to which every smaller size fits too, and 1 if not even a single claim fits. */
  lemma SizeIsLargestThatFits(probe: Probe, claims: Batch)
    requires claims != [] && SizeOf(probe, claims).Sized?
    ensures var n := SizeOf(probe, claims).n;
            && (n > 1 ==> probe.Fetched? && forall k :: 1 <= k <= n ==> probe.fits(k))
            && (n < |claims| && n < MAX_PAYMENT_BATCH ==>
                  probe.Fetched? && (!probe.fits(n + 1) || (n == 1 && !probe.fits(1))))
  {
  }

  /** The probing loop. */
  method DetermineOptimalBatchSize(probe: Probe, claims: Batch) returns (s: Sizing)
    requires claims != []
    ensures s == SizeOf(probe, claims)
  {
    if |claims| == 1 {
      return Sized(1);
    }
    if probe.FetchFailed? {
      return SizingFailed(probe.outOfUtxos);
    }
    var max := if |claims| < MAX_PAYMENT_BATCH then |claims| else MAX_PAYMENT_BATCH;
    var test, last := 1, 1;
    while test <= max
      invariant 1 <= test <= max + 1 && last == if test == 1 then 1 else test - 1
      invariant test > 1 ==> probe.fits(1) && Grow(probe.fits, 1, max) == Grow(probe.fits, last, max)
    {
      if !probe.fits(test) {
        break;
      }
      last := test;
      if test >= MAX_PAYMENT_BATCH {
        break;
      }
      test := test + 1;
    }
    return Sized(last);
  }

  /** How the payment of a batch goes: with no valid claim it is refused before anything is sent. */
  function PaymentOf(t: PaymentTry, batch: Batch): Payment {
    if Members(batch) - t.spent - t.dropped == {} then Refused else t.sent
  }

  function FateOfPayment(payment: Payment, retry: bool): Fate {
    match payment
    case Paid => Returned
    case Refused => if retry then GivenUp else Retried
    case OutOfUtxos => Retried
  }

  function LoggedPayment(t: PaymentTry, batch: Batch, retry: bool): Try {
    Try(batch, FateOfPayment(PaymentOf(t, batch), retry), t.spent, t.dropped, ValidOnly, t.confirmed)
  }

  function Pay(w: Payer, p: Progress, batch: Batch, retry: bool): Progress {
    var t := w.pay(|p.tries|, batch);
    Log(p, LoggedPayment(t, batch, retry)).(threw := PaymentOf(t, batch).OutOfUtxos?)
  }

  /** The catch block: the first claim again, alone. */
  function RetryFirst(w: Payer, p: Progress, claims: Batch): Progress
    requires claims != []
  {
    Pay(w, p, claims[..1], true)
  }

  /** One turn of the loop: the progress after it and how many claims it gets past. */
  datatype Turn = Turn(after: Progress, count: nat)

  function PayTurn(w: Payer, p: Progress, claims: Batch): (t: Turn)
    requires claims != []
    ensures 1 <= t.count <= |claims|
  {
    match SizeOf(w.probe(|p.tries|, claims), claims)
    case SizingFailed(o) => if o then Turn(p.(threw := true), 1) else Turn(RetryFirst(w, p, claims), 1)
    case Sized(n) =>
      var paid := Pay(w, p, claims[..n], false);
      if paid.threw || PaymentOf(w.pay(|p.tries|, claims[..n]), claims[..n]).Paid? then Turn(paid, n)
      else Turn(RetryFirst(w, paid, claims), 1)
  }

  function PayClaims(w: Payer, p: Progress, claims: Batch): Progress
    decreases |claims|
  {
    if claims == [] then p
    else
      var t := PayTurn(w, p, claims);
      if t.after.threw then t.after else PayClaims(w, t.after, claims[t.count..])
  }

  method ProcessBatchedClaims(w: Payer, claims: Batch) returns (p: Progress)
    ensures p == PayClaims(w, Start(), claims)
  {
    p := Start();
    var processed := 0;
    ghost var left := claims;
    ghost var whole := PayClaims(w, p, claims);
    while processed < |claims|
      invariant 0 <= processed <= |claims| && left == claims[processed..]
      invariant !p.threw && PayClaims(w, p, left) == whole
    {
      var count;
      p, count := ProcessNextBatch(w, p, claims[processed..]);
      if p.threw {
        return;
      }
      DropDrop(claims, processed, count);
      left := left[count..];
      processed := processed + count;
    }
  }

  lemma DropDrop(b: Batch, m: nat, n: nat)
    requires m + n <= |b|
    ensures b[m..][n..] == b[m + n..]
  {
  }

  /** The body of the loop, with its catch: the rest of the work is what is left after it. */
  method ProcessNextBatch(w: Payer, before: Progress, remaining: Batch) returns (p: Progress, count: nat)
    requires remaining != []
    ensures 1 <= count <= |remaining|
    ensures PayClaims(w, before, remaining) == if p.threw then p else PayClaims(w, p, remaining[count..])
  {
    p, count := before, 1;
    var s := DetermineOptimalBatchSize(w.probe(|p.tries|, remaining), remaining);
    if s.Sized? {
      var paid := PaymentOf(w.pay(|p.tries|, remaining[..s.n]), remaining[..s.n]).Paid?;
      p := Pay(w, p, remaining[..s.n], false);
      if paid || p.threw {
        return p, s.n;
      }
    } else if s.outOfUtxos {
      p := p.(threw := true);
      return;
    }
    p := RetryFirst(w, p, remaining);
  }

  lemma PayFinishes(w: Payer, p: Progress, batch: Batch, retry: bool)
    ensures var t := w.pay(|p.tries|, batch);
            var retried := FateOfPayment(PaymentOf(t, batch), retry).Retried?;
            Finishes(p, Pay(w, p, batch, retry), if retried then [] else batch)
  {
    var t := w.pay(|p.tries|, batch);
    OneTry(p, LoggedPayment(t, batch, retry));
  }

  lemma RetryFinishes(w: Payer, p: Progress, q: Progress, claims: Batch) returns (done: Batch)
    requires claims != [] && Finishes(p, q, [])
    ensures var r := RetryFirst(w, q, claims);
            Finishes(p, r, done) && AsFarAsThrown(r, done, claims[..1])
  {
    PayFinishes(w, q, claims[..1], true);
    done := if PaymentOf(w.pay(|q.tries|, claims[..1]), claims[..1]).OutOfUtxos? then [] else claims[..1];
    FinishNothing(p, q, RetryFirst(w, q, claims), done);
  }

  /** A turn over a batch of `n`. */
  lemma SizedTurnWorksThrough(w: Payer, p: Progress, claims: Batch, n: nat) returns (done: Batch)
    requires 1 <= n <= |claims| && SizeOf(w.probe(|p.tries|, claims), claims) == Sized(n)
    ensures var t := PayTurn(w, p, claims);
            Finishes(p, t.after, done) && AsFarAsThrown(t.after, done, claims[..t.count])
  {
    PayFinishes(w, p, claims[..n], false);
    var payment := PaymentOf(w.pay(|p.tries|, claims[..n]), claims[..n]);
    if payment.Refused? {
      done := RetryFinishes(w, p, Pay(w, p, claims[..n], false), claims);
    } else {
      done := if payment.Paid? then claims[..n] else [];
    }
  }

  lemma TurnWorksThrough(w: Payer, p: Progress, claims: Batch) returns (done: Batch)
    requires claims != [] && !p.threw
    ensures var t := PayTurn(w, p, claims);
            Finishes(p, t.after, done) && AsFarAsThrown(t.after, done, claims[..t.count])
  {
    var s := SizeOf(w.probe(|p.tries|, claims), claims);
    if s.Sized? {
      done := SizedTurnWorksThrough(w, p, claims, s.n);
    } else if s.outOfUtxos {
      FinishesItself(p, p.(threw := true));
      done := [];
    } else {
      FinishesItself(p, p);
      done := RetryFinishes(w, p, p, claims);
    }
  }

  lemma TurnIsBounded(w: Payer, p: Progress, claims: Batch)
    requires claims != []
    ensures var t := PayTurn(w, p, claims);
            |t.after.tries| <= |p.tries| + 2 * t.count && t.after.settled <= p.settled + Members(claims)
  {
  }

  lemma {:induction false} PaymentsWorkThrough(w: Payer, p: Progress, claims: Batch) returns (done: Batch)
    requires !p.threw
    ensures Finishes(p, PayClaims(w, p, claims), done) && AsFarAsThrown(PayClaims(w, p, claims), done, claims)
    decreases |claims|
  {
    if claims == [] {
      FinishesItself(p, p);
      done := [];
    } else {
      var t := PayTurn(w, p, claims);
      done := TurnWorksThrough(w, p, claims);
      assert claims[..t.count] + claims[t.count..] == claims;
      if !t.after.threw {
        var rest := PaymentsWorkThrough(w, t.after, claims[t.count..]);
        FinishCompose(p, t.after, PayClaims(w, p, claims), claims[..t.count], rest);
        FarAsThrownCompose(PayClaims(w, p, claims), claims[..t.count], claims[t.count..], rest);
        done := claims[..t.count] + rest;
      } else {
        FarAsThrownStops(t.after, done, claims[..t.count], claims[t.count..]);
      }
    }
  }

  lemma {:induction false} PaymentsAreBounded(w: Payer, p: Progress, claims: Batch)
    ensures |PayClaims(w, p, claims).tries| <= |p.tries| + 2 * |claims|
    ensures PayClaims(w, p, claims).settled <= p.settled + Members(claims)
    decreases |claims|
  {
    if claims != [] {
      var t := PayTurn(w, p, claims);
      TurnIsBounded(w, p, claims);
      if !t.after.threw {
        PaymentsAreBounded(w, t.after, claims[t.count..]);
      }
    }
  }

  /** Payments account for every claim the same way: each ends in exactly one payment that went out or was given up
      after a try on its own, in order, with at most two tries per claim; running out of UTxOs leaves a prefix
      finished. */
  lemma PaymentsAccountForClaims(w: Payer, claims: Batch)
    ensures var p := PayClaims(w, Start(), claims);
            && Finished(p.tries) <= claims && (!p.threw ==> Finished(p.tries) == claims)
            && p.settled <= Members(claims)
            && |p.tries| <= 2 * |claims|
  {
    var done := PaymentsWorkThrough(w, Start(), claims);
    PaymentsAreBounded(w, Start(), claims);
    assert Finished(Start().tries) + done == done;
  }

  lemma PayKeepsSettled(w: Payer, p: Progress, batch: Batch, retry: bool)
    requires SettledByTries(p, ValidOnly)
    ensures SettledByTries(Pay(w, p, batch, retry), ValidOnly)
  {
    var t := w.pay(|p.tries|, batch);
    LogKeepsSettled(p, LoggedPayment(t, batch, retry));
  }

  lemma TurnKeepsSettled(w: Payer, p: Progress, claims: Batch)
    requires claims != [] && SettledByTries(p, ValidOnly)
    ensures SettledByTries(PayTurn(w, p, claims).after, ValidOnly)
  {
    var s := SizeOf(w.probe(|p.tries|, claims), claims);
    PayKeepsSettled(w, p, claims[..1], true);
    if s.Sized? {
      PayKeepsSettled(w, p, claims[..s.n], false);
      PayKeepsSettled(w, Pay(w, p, claims[..s.n], false), claims[..1], true);
    }
  }

  lemma {:induction false} PaymentsKeepSettled(w: Payer, p: Progress, claims: Batch)
    requires SettledByTries(p, ValidOnly)
    ensures SettledByTries(PayClaims(w, p, claims), ValidOnly)
    decreases |claims|
  {
    if claims != [] {
      var t := PayTurn(w, p, claims);
      TurnKeepsSettled(w, p, claims);
      if !t.after.threw {
        PaymentsKeepSettled(w, t.after, claims[t.count..]);
      }
    }
  }

  /** When the payments end without running out of UTxOs, a claim is still owed if and only if its payment was refused
      with the claim alone in it, or went out without it or without its confirmation getting written, and the claim
      was never found spent nor confirmed by a payment that failed here. */
  lemma LeftUnpaidIffGivenUp(w: Payer, claims: Batch, c: nat)
    requires Distinct(claims) && c in claims
    ensures var p := PayClaims(w, Start(), claims);
            !p.threw ==> (c !in p.settled <==> WasGivenUp(p, c) && NeverElse(p, c))
  {
    PaymentsAccountForClaims(w, claims);
    PaymentsKeepSettled(w, Start(), claims);
    var p := PayClaims(w, Start(), claims);
    if !p.threw {
      OpenIffGivenUp(p, ValidOnly, claims, c);
    }
  }

  /** Unlike extractions, payments record no claim as CLAIMED for nothing: each one settled was sent or found spent. */
  lemma PaidClaimsWereSent(w: Payer, claims: Batch, c: nat)
    ensures !ClaimedForNothing(PayClaims(w, Start(), claims), c)
  {
    var p := PayClaims(w, Start(), claims);
    PaymentsKeepSettled(w, Start(), claims);
    if c in p.settled {
      var i :| InTry(p, i, c) && c in SettledBy(p.tries[i]);
      assert c in SpentBy(p.tries[i]) || c in SentBy(p.tries[i]);
    }
  }

  /** The coordinator's abstraction is met by the payments too. */
  lemma PaymentIsSettle(st: State, w: Payer, claims: Batch)
    requires Members(claims) == PendingOf(st.row, PAYEES)
    ensures var p := PayClaims(w, Start(), claims);
            Settle(st, PAYEES, Orchestration(true, NOTHING_CONFIRMED, _ => p.settled, p.threw)) ==
            Outcome(SetRow(st, Confirm(st.row, p.settled)), p.threw)
  {
    PaymentsAccountForClaims(w, claims);
    var settled := PayClaims(w, Start(), claims).settled;
    assert settled * PendingOf(st.row, PAYEES) == settled;
  }
}
