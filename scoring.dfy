/** The bucketed additive scorer: one number for a (transaction, attachment)
    pair, the sum of an amount, a date and a name contribution. */
module Scoring {
  import opened Wrappers
  import opened Records
  import opened Features

  /** The absolute difference of the two absolute amounts, absent when
      either amount is. */
  function AmountDiff(tx: Transaction, att: Attachment): Option<real> {
    var a := TxAmount(tx);
    var b := AttAmount(att);
    if a.Some? && b.Some? then Some(Abs(a.value - b.value)) else None
  }

  /** The amount contribution: 40 within a cent, 30 within 1.0, 10 within 5.0. */
  function AmountPoints(diff: Option<real>): real {
    if diff.None? then 0.0
    else if diff.value <= 0.01 then 40.0
    else if diff.value <= 1.0 then 30.0
    else if diff.value <= 5.0 then 10.0
    else 0.0
  }

  /** The date contribution: 35 on the same day, 20 within 3 days, 10 within 7. */
  function DatePoints(days: Option<nat>): real {
    if days.None? then 0.0
    else if days.value == 0 then 35.0
    else if days.value <= 3 then 20.0
    else if days.value <= 7 then 10.0
    else 0.0
  }

  /** The name contribution: 30 from 0.90, 20 from 0.80, 10 from 0.70. */
  function NamePoints(ratio: real): real {
    if ratio >= 0.90 then 30.0
    else if ratio >= 0.80 then 20.0
    else if ratio >= 0.70 then 10.0
    else 0.0
  }

  /** The score of a pair: the three contributions added. */
  function Score(tx: Transaction, att: Attachment, lib: Library): real {
    AmountPoints(AmountDiff(tx, att))
      + DatePoints(DateDistanceDays(tx, att, lib))
      + NamePoints(MaxSimilarity(tx, att, lib))
  }

  /** Each contribution takes one of its table's values, an absent signal
      contributes nothing, and the total lies in [0, 105]. */
  lemma ScoreBounds(tx: Transaction, att: Attachment, lib: Library)
    ensures AmountPoints(AmountDiff(tx, att)) in {0.0, 10.0, 30.0, 40.0}
    ensures DatePoints(DateDistanceDays(tx, att, lib)) in {0.0, 10.0, 20.0, 35.0}
    ensures NamePoints(MaxSimilarity(tx, att, lib)) in {0.0, 10.0, 20.0, 30.0}
    ensures TxAmount(tx).None? || AttAmount(att).None? ==> AmountPoints(AmountDiff(tx, att)) == 0.0
    ensures DateDistanceDays(tx, att, lib).None? ==> DatePoints(DateDistanceDays(tx, att, lib)) == 0.0
    ensures 0.0 <= Score(tx, att, lib) <= 105.0
  {
  }

  /** A smaller amount difference never earns fewer points, and an absent
      amount earns no more than any present one. */
  lemma AmountPointsMonotone(d1: real, d2: real)
    requires 0.0 <= d1 <= d2
    ensures AmountPoints(Some(d1)) >= AmountPoints(Some(d2)) >= AmountPoints(None)
  {
  }

  /** A smaller day distance never earns fewer points, and an absent distance
      earns no more than any present one. */
  lemma DatePointsMonotone(days1: nat, days2: nat)
    requires days1 <= days2
    ensures DatePoints(Some(days1)) >= DatePoints(Some(days2)) >= DatePoints(None)
  {
  }

  /** A higher name ratio never earns fewer points. */
  lemma NamePointsMonotone(r1: real, r2: real)
    requires r1 <= r2
    ensures NamePoints(r1) <= NamePoints(r2)
  {
  }

  /** With the amount and name signals fixed, an attachment dated closer to
      the transaction never scores lower. */
  lemma ScoreMonotoneInDate(tx: Transaction, near: Attachment, far: Attachment, lib: Library)
    requires AmountDiff(tx, near) == AmountDiff(tx, far)
    requires MaxSimilarity(tx, near, lib) == MaxSimilarity(tx, far, lib)
    requires DateDistanceDays(tx, far, lib).Some? ==>
      DateDistanceDays(tx, near, lib).Some? && DateDistanceDays(tx, near, lib).value <= DateDistanceDays(tx, far, lib).value
    ensures Score(tx, near, lib) >= Score(tx, far, lib)
  {
    var dn := DateDistanceDays(tx, near, lib);
    var df := DateDistanceDays(tx, far, lib);
    if df.Some? {
      DatePointsMonotone(dn.value, df.value);
    } else if dn.Some? {
      DatePointsMonotone(dn.value, dn.value);
    }
  }

  /** `_score_pair`: accumulates the amount, date and name contributions in
      the source's order. */
  method ScorePair(tx: Transaction, att: Attachment, lib: Library) returns (score: real)
    ensures score == Score(tx, att, lib)
    ensures 0.0 <= score <= 105.0
  {
    score := 0.0;

    var txAmount := TxAmount(tx);
    var attAmount := AttAmount(att);
    if txAmount.Some? && attAmount.Some? {
      var diff := Abs(txAmount.value - attAmount.value);
      if diff <= 0.01 {
        score := score + 40.0;
      } else if diff <= 1.0 {
        score := score + 30.0;
      } else if diff <= 5.0 {
        score := score + 10.0;
      }
    }

    ghost var amountPoints := AmountPoints(AmountDiff(tx, att));
    assert score == amountPoints;

    var days := DateDistanceDays(tx, att, lib);
    if days.Some? {
      if days.value == 0 {
        score := score + 35.0;
      } else if days.value <= 3 {
        score := score + 20.0;
      } else if days.value <= 7 {
        score := score + 10.0;
      }
    }

    assert score == amountPoints + DatePoints(days);

    var ratio := MaxNameSimilarity(tx, att, lib);
    if ratio >= 0.90 {
      score := score + 30.0;
    } else if ratio >= 0.80 {
      score := score + 20.0;
    } else if ratio >= 0.70 {
      score := score + 10.0;
    }
  }
}
