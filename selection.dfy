/** The heuristic fallback's selection rule on its own: a best-so-far scan
    over candidate scores that starts from 0.0 and moves only on a strictly
    greater score, followed by a threshold test. */
module Selection {
  import opened Wrappers

  /** The scan's accumulator: the best score seen and where it was seen. */
  datatype Best = Best(score: real, index: Option<nat>)

  /** The accumulator after scanning `scores` from the left. */
  function Scan(scores: seq<real>): (b: Best)
    ensures b.index.Some? ==> b.index.value < |scores|
  {
    if scores == [] then Best(0.0, None)
    else
      var b := Scan(scores[..|scores| - 1]);
      var s := scores[|scores| - 1];
      if s > b.score then Best(s, Some(|scores| - 1)) else b
  }

  /** A single score is kept exactly when it is positive. */
  lemma ScanSingleton(s: real)
    ensures Scan([s]) == if s > 0.0 then Best(s, Some(0)) else Best(0.0, None)
  {
    assert [s][..0] == [];
  }

  /** One more score moves the scan exactly when it beats the best so far. */
  lemma ScanStep(scores: seq<real>, i: nat)
    requires i < |scores|
    ensures Scan(scores[..i + 1]) ==
      var b := Scan(scores[..i]);
      if scores[i] > b.score then Best(scores[i], Some(i)) else b
  {
    assert scores[..i + 1][..i] == scores[..i];
  }

  /** Index `k` holds the first maximum of `scores`, and that maximum is at
      least `threshold`. */
  ghost predicate FirstBest(scores: seq<real>, k: nat, threshold: real) {
    && k < |scores|
    && scores[k] >= threshold
    && (forall j :: 0 <= j < |scores| ==> scores[j] <= scores[k])
    && (forall j :: 0 <= j < k ==> scores[j] < scores[k])
  }

  /** The scan ends on the first maximal score when some score is positive,
      and keeps its start (0.0, nothing) when none is. */
  lemma {:induction false} ScanFindsFirstMaximum(scores: seq<real>)
    ensures Scan(scores).index.None? <==> forall j :: 0 <= j < |scores| ==> scores[j] <= 0.0
    ensures Scan(scores).index.None? ==> Scan(scores).score == 0.0
    ensures Scan(scores).index.Some? ==>
      var k := Scan(scores).index.value;
      && Scan(scores).score == scores[k] > 0.0
      && (forall j :: 0 <= j < |scores| ==> scores[j] <= scores[k])
      && (forall j :: 0 <= j < k ==> scores[j] < scores[k])
  {
    if scores != [] {
      var init := scores[..|scores| - 1];
      ScanFindsFirstMaximum(init);
      assert forall j :: 0 <= j < |init| ==> init[j] == scores[j];
    }
  }

  /** The index the fallback returns: the scan's, when its score reaches the
      threshold. */
  function Accept(scores: seq<real>, threshold: real): (k: Option<nat>)
    ensures k.Some? ==> k.value < |scores|
  {
    var b := Scan(scores);
    if b.score >= threshold then b.index else None
  }

  /** For a positive threshold the fallback returns exactly the first
      maximum when the maximum reaches the threshold, and nothing when every
      score is below it (in particular for no scores at all). */
  lemma AcceptIsFirstBest(scores: seq<real>, threshold: real)
    requires threshold > 0.0
    ensures Accept(scores, threshold).Some? ==> FirstBest(scores, Accept(scores, threshold).value, threshold)
    ensures forall k: nat :: FirstBest(scores, k, threshold) ==> Accept(scores, threshold) == Some(k)
    ensures Accept(scores, threshold).None? <==> forall j :: 0 <= j < |scores| ==> scores[j] < threshold
  {
    ScanFindsFirstMaximum(scores);
  }
}
