/** Fee bumping of the transaction manager: how the fees of a resubmitted transaction follow the
    fee suggestions. */
module TxFees {
  import opened Wrappers

  const PRICE_BUMP_PERCENT := 110
  const FEE_LIMIT_MULTIPLIER := 5

  datatype Fees = Fees(tip: nat, feeCap: nat)
  datatype Suggestion = Suggestion(tip: nat, baseFee: nat)
  {
    /** The fees of a new transaction. */
    function Fresh(): Fees { Fees(tip, CalcGasFeeCap(baseFee, tip)) }
    /** The caps on bumped fees. */
    function Cap(): Fees {
      Fees(tip * FEE_LIMIT_MULTIPLIER, CalcGasFeeCap(baseFee * FEE_LIMIT_MULTIPLIER, tip * FEE_LIMIT_MULTIPLIER))
    }
  }

  function CalcGasFeeCap(baseFee: nat, gasTipCap: nat): nat { gasTipCap + baseFee * 2 }
  function CalcThresholdValue(x: nat): nat { PRICE_BUMP_PERCENT * x / 100 }

  function Min(a: nat, b: nat): nat { if a <= b then a else b }
  function Max(a: nat, b: nat): nat { if a <= b then b else a }

  function UpdateFees(prior: Fees, s: Suggestion): Fees {
    var suggested := s.Fresh();
    var threshold := Fees(CalcThresholdValue(prior.tip), CalcThresholdValue(prior.feeCap));
    if suggested.tip >= threshold.tip && suggested.feeCap >= threshold.feeCap then suggested
    else if suggested.tip >= threshold.tip && suggested.feeCap < threshold.feeCap then
      Fees(suggested.tip, threshold.feeCap)
    else if suggested.tip < threshold.tip && suggested.feeCap >= threshold.feeCap then
      Fees(threshold.tip, CalcGasFeeCap(s.baseFee, threshold.tip))
    else threshold
  }

  /** The fees of the next attempt. */
  function Bump(prior: Fees, s: Suggestion): Fees {
    var updated := UpdateFees(prior, s);
    Fees(Min(updated.tip, s.Cap().tip), Min(updated.feeCap, s.Cap().feeCap))
  }

  /** `increaseGasPrice`: the bumped values are capped one after the other. */
  method IncreaseGasPrice(prior: Fees, s: Suggestion) returns (fees: Fees)
    ensures fees == Bump(prior, s)
    ensures fees.tip == Min(Max(110 * prior.tip / 100, s.tip), 5 * s.tip)
    ensures var tip, feeCap, suggested := 110 * prior.tip / 100, 110 * prior.feeCap / 100, s.tip + 2 * s.baseFee;
            fees.feeCap == Min(if s.tip < tip && suggested >= feeCap then tip + 2 * s.baseFee
                               else Max(feeCap, suggested),
                               5 * s.tip + 10 * s.baseFee)
  {
    var updated := UpdateFees(prior, s);
    var bumpedTip, bumpedFee := updated.tip, updated.feeCap;
    var maxTip := s.tip * FEE_LIMIT_MULTIPLIER;
    if bumpedTip > maxTip { bumpedTip := maxTip; }
    var maxFee := CalcGasFeeCap(s.baseFee * FEE_LIMIT_MULTIPLIER, maxTip);
    if bumpedFee > maxFee { bumpedFee := maxFee; }
    fees := Fees(bumpedTip, bumpedFee);
  }

  /** The fees after some ticks of the resubmission timer. A tick that brings no suggestion, or
      whose new transaction cannot be signed, keeps the old transaction. */
  function Resubmit(first: Suggestion, ticks: seq<Option<Suggestion>>): Fees {
    if ticks == [] then first.Fresh()
    else
      var prior := Resubmit(first, ticks[..|ticks| - 1]);
      match ticks[|ticks| - 1]
      case None => prior
      case Some(s) => Bump(prior, s)
  }

  // ---------- one attempt ----------

  predicate AtMost(a: Fees, b: Fees) { a.tip <= b.tip && a.feeCap <= b.feeCap }

  /** What the pool asks of a replacement: both fees strictly higher, by 10 percent rounded down. */
  predicate Replaces(next: Fees, prior: Fees) {
    && next.tip > prior.tip && next.feeCap > prior.feeCap
    && next.tip >= CalcThresholdValue(prior.tip) && next.feeCap >= CalcThresholdValue(prior.feeCap)
  }

  /** Whether a replacement is possible, told from the old fees and the suggestion: the caps leave
      room for it, and either the threshold of the tip does not round back to the tip itself, or the
      suggestion is higher anyway. */
  predicate Replaceable(prior: Fees, s: Suggestion) {
    && CalcThresholdValue(prior.tip) <= s.Cap().tip && CalcThresholdValue(prior.feeCap) <= s.Cap().feeCap
    && (prior.tip >= 10 || (prior.tip < s.tip && (prior.feeCap >= 10 || prior.feeCap < s.Fresh().feeCap)))
  }

  lemma {:induction false} ThresholdMonotone(x: nat, y: nat)
    requires x <= y
    ensures CalcThresholdValue(x) <= CalcThresholdValue(y)
    ensures x <= CalcThresholdValue(x)
    ensures x < CalcThresholdValue(x) <==> x >= 10
  {
    assert PRICE_BUMP_PERCENT * x <= PRICE_BUMP_PERCENT * y;
  }

  /** The numbers behind the names: 10 percent, rounded down; a fee cap of the tip and twice the base fee; and
      at most five times the suggestion. */
  lemma {:induction false} FeeNumbers(x: nat, s: Suggestion)
    ensures 100 * CalcThresholdValue(x) <= 110 * x < 100 * CalcThresholdValue(x) + 100
    ensures s.Fresh() == Fees(s.tip, s.tip + 2 * s.baseFee)
    ensures s.Cap() == Fees(5 * s.tip, 5 * s.tip + 10 * s.baseFee)
  {
  }

  /** Never below the suggestion, never above the cap, each fee at least the threshold or pinned at
      its cap, and a replacement if and only if `Replaceable` said so beforehand. */
  lemma {:induction false} BumpBounds(prior: Fees, s: Suggestion)
    requires prior.feeCap >= prior.tip
    ensures var fees := Bump(prior, s);
            && fees.feeCap >= fees.tip
            && AtMost(s.Fresh(), fees) && AtMost(fees, s.Cap())
            && (fees.tip >= CalcThresholdValue(prior.tip) || fees.tip == s.Cap().tip)
            && (fees.feeCap >= CalcThresholdValue(prior.feeCap) || fees.feeCap == s.Cap().feeCap)
            && (Replaces(fees, prior) <==> Replaceable(prior, s))
  {
    ThresholdMonotone(prior.tip, prior.feeCap);
    ThresholdMonotone(prior.feeCap, prior.feeCap);
  }

  /** When the tip rises: it is below its cap, and either large enough for 10 percent of it not to be
      rounded away or below the suggestion. */
  lemma {:induction false} TipRises(prior: Fees, s: Suggestion)
    ensures Bump(prior, s).tip > prior.tip <==>
            prior.tip < s.Cap().tip && (prior.tip >= 10 || prior.tip < s.tip)
  {
    ThresholdMonotone(prior.tip, prior.tip);
  }

  /** When the fee cap rises: likewise, and also when it is recomputed around a tip that is kept
      above the suggestion. */
  lemma {:induction false} FeeCapRises(prior: Fees, s: Suggestion)
    requires prior.feeCap >= prior.tip
    ensures Bump(prior, s).feeCap > prior.feeCap <==>
            && prior.feeCap < s.Cap().feeCap
            && (|| prior.feeCap >= 10
                || prior.feeCap < s.Fresh().feeCap
                || (prior.feeCap == s.Fresh().feeCap && s.tip < prior.tip))
  {
    ThresholdMonotone(prior.tip, prior.feeCap);
    ThresholdMonotone(prior.feeCap, prior.feeCap);
  }

  /** A transaction that cannot be replaced although both caps leave room: the bumped tip is the old
      one. */
  lemma {:induction false} SmallTipNotReplaced()
    ensures var prior, s := Fees(5, 25), Suggestion(5, 10);
            && AtMost(prior, s.Cap()) && CalcThresholdValue(prior.tip) <= s.Cap().tip
            && CalcThresholdValue(prior.feeCap) <= s.Cap().feeCap
            && Bump(prior, s) == Fees(5, 27) && !Replaces(Bump(prior, s), prior)
  {
  }

  // ---------- any number of attempts ----------

  lemma {:induction false} FeeCapCoversTip(first: Suggestion, ticks: seq<Option<Suggestion>>)
    ensures Resubmit(first, ticks).feeCap >= Resubmit(first, ticks).tip
  {
    if ticks != [] {
      FeeCapCoversTip(first, ticks[..|ticks| - 1]);
      match ticks[|ticks| - 1]
      case None =>
      case Some(s) => BumpBounds(Resubmit(first, ticks[..|ticks| - 1]), s);
    }
  }

  /** After any history of suggestions, an attempt with suggestion `s` has valid fees within the
      bounds that `s` gives, and relates to the previous attempt as the pool demands unless capped. */
  lemma {:induction false} ResubmissionSound(first: Suggestion, ticks: seq<Option<Suggestion>>, s: Suggestion)
    ensures var prior := Resubmit(first, ticks);
            var fees := Resubmit(first, ticks + [Some(s)]);
            && fees.feeCap >= fees.tip
            && AtMost(s.Fresh(), fees) && AtMost(fees, s.Cap())
            && (fees.tip >= CalcThresholdValue(prior.tip) || fees.tip == s.Cap().tip)
            && (fees.feeCap >= CalcThresholdValue(prior.feeCap) || fees.feeCap == s.Cap().feeCap)
            && (Replaces(fees, prior) <==> Replaceable(prior, s))
  {
    assert (ticks + [Some(s)])[..|ticks|] == ticks;
    FeeCapCoversTip(first, ticks);
    BumpBounds(Resubmit(first, ticks), s);
  }

  /** A tick that brings no new transaction changes nothing, and the first one has the suggested fees. */
  lemma {:induction false} ResubmissionIdle(first: Suggestion, ticks: seq<Option<Suggestion>>)
    ensures Resubmit(first, ticks + [None]) == Resubmit(first, ticks)
    ensures Resubmit(first, []) == Fees(first.tip, first.tip + 2 * first.baseFee)
  {
    assert (ticks + [None])[..|ticks|] == ticks;
  }

  // ---------- under a fixed suggestion ----------

  function Repeat(fees: Fees, s: Suggestion, n: nat): Fees {
    if n == 0 then fees else Bump(Repeat(fees, s, n - 1), s)
  }

  lemma {:induction false} BumpWithin(fees: Fees, s: Suggestion)
    requires AtMost(fees, s.Cap())
    ensures AtMost(fees, Bump(fees, s)) && AtMost(Bump(fees, s), s.Cap())
  {
    ThresholdMonotone(fees.tip, fees.tip);
    ThresholdMonotone(fees.feeCap, fees.feeCap);
  }

  /** Once within the caps, fees never decrease and never leave the caps. */
  lemma {:induction false} NeverDecrease(fees: Fees, s: Suggestion, m: nat, n: nat)
    requires AtMost(fees, s.Cap()) && m <= n
    ensures AtMost(Repeat(fees, s, m), Repeat(fees, s, n)) && AtMost(Repeat(fees, s, n), s.Cap())
    decreases n
  {
    if n > 0 {
      if m < n {
        NeverDecrease(fees, s, m, n - 1);
      } else {
        NeverDecrease(fees, s, n - 1, n - 1);
      }
      BumpWithin(Repeat(fees, s, n - 1), s);
    }
  }

  /** From the first attempt on, whatever the fees were before. */
  lemma {:induction false} NeverDecreaseAfterFirst(fees: Fees, s: Suggestion, m: nat, n: nat)
    requires 1 <= m <= n
    ensures AtMost(Repeat(fees, s, m), Repeat(fees, s, n))
  {
    BumpCapped(fees, s);
    hide Bump, CalcGasFeeCap;
    RepeatFrom(fees, s, m - 1);
    RepeatFrom(fees, s, n - 1);
    NeverDecrease(Bump(fees, s), s, m - 1, n - 1);
  }

  lemma {:induction false} BumpCapped(fees: Fees, s: Suggestion)
    ensures AtMost(Bump(fees, s), s.Cap())
  {
  }

  lemma {:induction false} RepeatFrom(fees: Fees, s: Suggestion, n: nat)
    ensures Repeat(fees, s, n + 1) == Repeat(Bump(fees, s), s, n)
  {
    if n > 0 {
      RepeatFrom(fees, s, n - 1);
    }
  }

  /** A tip suggestion of 10 or more drives the tip all the way to its cap. */
  lemma {:induction false} TipReachesCap(fees: Fees, s: Suggestion, n: nat)
    requires s.tip >= 10 && n >= 4 * s.tip + 1
    ensures Repeat(fees, s, n).tip == s.Cap().tip
  {
    TipClimbs(fees, s, n);
  }

  lemma {:induction false} TipClimbs(fees: Fees, s: Suggestion, n: nat)
    requires s.tip >= 10 && n >= 1
    ensures Min(s.tip + n - 1, s.Cap().tip) <= Repeat(fees, s, n).tip <= s.Cap().tip
  {
    var last := Repeat(fees, s, n - 1);
    if n > 1 {
      TipClimbs(fees, s, n - 1);
      ThresholdMonotone(last.tip, last.tip);
    }
  }

  /** Under a fixed suggestion that its cap does not force down, a tip ever rises if and only if it
      is at least 10 or below the suggestion, and has not reached its cap. */
  lemma {:induction false} TipEverRises(fees: Fees, s: Suggestion, n: nat)
    requires fees.tip <= s.Cap().tip && n >= 1
    ensures Repeat(fees, s, n).tip > fees.tip <==> fees.tip < s.Cap().tip && (fees.tip >= 10 || fees.tip < s.tip)
    ensures fees.tip <= Repeat(fees, s, n).tip <= s.Cap().tip
  {
    var last := Repeat(fees, s, n - 1);
    ThresholdMonotone(last.tip, last.tip);
    if n > 1 {
      TipEverRises(fees, s, n - 1);
    }
  }
}
