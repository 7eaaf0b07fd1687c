/** The two matchers. Each answers one query against a list of candidates of
    the other kind: a unique reference match wins outright; otherwise every
    candidate is scored and the first best one is returned when it reaches
    the threshold. */
module Matching {
  import opened Wrappers
  import opened Records
  import opened Normalize
  import opened Scoring
  import opened Selection

  /** The least score a match found by scoring must reach. */
  const THRESHOLD: real := 75.0

  /** A candidate reference agrees with the (normalised) query reference:
      it normalises to a non-empty string equal to it. */
  predicate SameReference(query: string, ref: Option<string>) {
    var r := NormalizeReference(ref);
    r != "" && r == query
  }

  /** The `ref_matches` list: the candidates whose reference agrees, in order. */
  function RefMatches<C>(query: string, cands: seq<C>, refOf: C -> Option<string>): seq<C> {
    if cands == [] then []
    else
      var last := cands[|cands| - 1];
      RefMatches(query, cands[..|cands| - 1], refOf) + (if SameReference(query, refOf(last)) then [last] else [])
  }

  /** One candidate is a reference match exactly when its reference agrees. */
  lemma RefMatchesSingleton<C>(query: string, c: C, refOf: C -> Option<string>)
    ensures RefMatches(query, [c], refOf) == if SameReference(query, refOf(c)) then [c] else []
  {
    assert [c][..0] == [];
  }

  /** No agreeing candidate, no reference matches. */
  lemma {:induction false} RefMatchesNone<C>(query: string, cands: seq<C>, refOf: C -> Option<string>)
    requires forall j :: 0 <= j < |cands| ==> !SameReference(query, refOf(cands[j]))
    ensures RefMatches(query, cands, refOf) == []
  {
    if cands != [] {
      var init := cands[..|cands| - 1];
      assert forall j :: 0 <= j < |init| ==> init[j] == cands[j];
      RefMatchesNone(query, init, refOf);
    }
  }

  /** Exactly one agreeing candidate, exactly that one reference match. */
  lemma {:induction false} RefMatchesUnique<C>(query: string, cands: seq<C>, refOf: C -> Option<string>, k: nat)
    requires k < |cands| && SameReference(query, refOf(cands[k]))
    requires forall j :: 0 <= j < |cands| && SameReference(query, refOf(cands[j])) ==> j == k
    ensures RefMatches(query, cands, refOf) == [cands[k]]
  {
    var init := cands[..|cands| - 1];
    assert forall j :: 0 <= j < |init| ==> init[j] == cands[j];
    if k == |cands| - 1 {
      RefMatchesNone(query, init, refOf);
    } else {
      RefMatchesUnique(query, init, refOf, k);
    }
  }

  /** An agreeing candidate gives at least one reference match. */
  lemma {:induction false} RefMatchesSome<C>(query: string, cands: seq<C>, refOf: C -> Option<string>, j1: nat)
    requires j1 < |cands| && SameReference(query, refOf(cands[j1]))
    ensures |RefMatches(query, cands, refOf)| >= 1
  {
    var init := cands[..|cands| - 1];
    if j1 < |cands| - 1 {
      assert init[j1] == cands[j1];
      RefMatchesSome(query, init, refOf, j1);
    }
  }

  /** Two agreeing candidates give at least two reference matches. */
  lemma {:induction false} RefMatchesTwo<C>(query: string, cands: seq<C>, refOf: C -> Option<string>, j1: nat, j2: nat)
    requires j1 < j2 < |cands|
    requires SameReference(query, refOf(cands[j1])) && SameReference(query, refOf(cands[j2]))
    ensures |RefMatches(query, cands, refOf)| >= 2
  {
    var init := cands[..|cands| - 1];
    assert init[j1] == cands[j1];
    if j2 == |cands| - 1 {
      RefMatchesSome(query, init, refOf, j1);
    } else {
      assert init[j2] == cands[j2];
      RefMatchesTwo(query, init, refOf, j1, j2);
    }
  }

  /** Phase 2, heuristic scoring: the candidate at the index the selection
      accepts, or nothing. */
  function Fallback<C>(cands: seq<C>, scores: seq<real>): Option<C>
    requires |scores| == |cands|
  {
    var k := Accept(scores, THRESHOLD);
    if k.Some? then Some(cands[k.value]) else None
  }

  /** The two-phase decision shared by both matchers: a unique reference
      match when the query has a reference, otherwise phase 2. */
  function Decide<C>(query: string, cands: seq<C>, refOf: C -> Option<string>, scores: seq<real>): Option<C>
    requires |scores| == |cands|
  {
    var matches := RefMatches(query, cands, refOf);
    if query != "" && |matches| == 1 then Some(matches[0]) else Fallback(cands, scores)
  }

  /** Phase 2 gives nothing for no candidates; otherwise it gives the first
      candidate of maximal score when that score reaches the threshold and
      nothing when every score is below it. */
  lemma FallbackSpec<C>(cands: seq<C>, scores: seq<real>)
    requires |scores| == |cands|
    ensures cands == [] ==> Fallback(cands, scores).None?
    ensures Fallback(cands, scores).None? <==> forall j :: 0 <= j < |scores| ==> scores[j] < THRESHOLD
    ensures forall k: nat :: FirstBest(scores, k, THRESHOLD) ==> Fallback(cands, scores) == Some(cands[k])
    ensures Fallback(cands, scores).Some? ==>
      exists k: nat :: FirstBest(scores, k, THRESHOLD) && Fallback(cands, scores) == Some(cands[k])
  {
    AcceptIsFirstBest(scores, THRESHOLD);
    var k := Accept(scores, THRESHOLD);
    if k.Some? {
      assert FirstBest(scores, k.value, THRESHOLD);
    }
  }

  /** A unique reference match decides, whatever the scores. */
  lemma DecideByReference<C>(query: string, cands: seq<C>, refOf: C -> Option<string>, scores: seq<real>, k: nat)
    requires |scores| == |cands| && query != ""
    requires k < |cands| && SameReference(query, refOf(cands[k]))
    requires forall j :: 0 <= j < |cands| && SameReference(query, refOf(cands[j])) ==> j == k
    ensures Decide(query, cands, refOf, scores) == Some(cands[k])
  {
    RefMatchesUnique(query, cands, refOf, k);
  }

  /** Without a query reference, with no agreeing candidate, or with two,
      the decision is phase 2 over all candidates. */
  lemma DecideByScore<C>(query: string, cands: seq<C>, refOf: C -> Option<string>, scores: seq<real>)
    requires |scores| == |cands|
    requires || query == ""
             || (forall j :: 0 <= j < |cands| ==> !SameReference(query, refOf(cands[j])))
             || (exists j1: nat, j2: nat :: j1 < j2 < |cands| && SameReference(query, refOf(cands[j1])) && SameReference(query, refOf(cands[j2])))
    ensures Decide(query, cands, refOf, scores) == Fallback(cands, scores)
  {
    if query != "" {
      if forall j :: 0 <= j < |cands| ==> !SameReference(query, refOf(cands[j])) {
        RefMatchesNone(query, cands, refOf);
      } else {
        var j1: nat, j2: nat :| j1 < j2 < |cands| && SameReference(query, refOf(cands[j1])) && SameReference(query, refOf(cands[j2]));
        RefMatchesTwo(query, cands, refOf, j1, j2);
      }
    }
  }

  /** Every reference match is a candidate. */
  lemma {:induction false} RefMatchesAreCandidates<C>(query: string, cands: seq<C>, refOf: C -> Option<string>)
    ensures forall c :: c in RefMatches(query, cands, refOf) ==> c in cands
  {
    if cands != [] {
      var init := cands[..|cands| - 1];
      RefMatchesAreCandidates(query, init, refOf);
      assert forall c :: c in init ==> c in cands;
    }
  }

  /** Whatever the decision returns is one of the candidates. */
  lemma DecideReturnsCandidate<C>(query: string, cands: seq<C>, refOf: C -> Option<string>, scores: seq<real>)
    requires |scores| == |cands|
    ensures Decide(query, cands, refOf, scores).Some? ==> Decide(query, cands, refOf, scores).value in cands
    ensures cands == [] ==> Decide(query, cands, refOf, scores).None?
  {
    RefMatchesAreCandidates(query, cands, refOf);
    var matches := RefMatches(query, cands, refOf);
    if query != "" && |matches| == 1 {
      assert matches[0] in matches;
    }
  }

  // ---- the two entry points ----

  /** The score of each attachment against the transaction, in order. */
  function AttachmentScores(tx: Transaction, atts: seq<Attachment>, lib: Library): (scores: seq<real>)
    ensures |scores| == |atts|
  {
    seq(|atts|, k requires 0 <= k < |atts| => Score(tx, atts[k], lib))
  }

  /** The score of each transaction against the attachment, in order. */
  function TransactionScores(att: Attachment, txs: seq<Transaction>, lib: Library): (scores: seq<real>)
    ensures |scores| == |txs|
  {
    seq(|txs|, k requires 0 <= k < |txs| => Score(txs[k], att, lib))
  }

  /** What `find_attachment` returns. */
  function AttachmentFor(tx: Transaction, atts: seq<Attachment>, lib: Library): Option<Attachment> {
    Decide(NormalizeReference(tx.reference), atts, AttachmentReference, AttachmentScores(tx, atts, lib))
  }

  /** What `find_transaction` returns. */
  function TransactionFor(att: Attachment, txs: seq<Transaction>, lib: Library): Option<Transaction> {
    Decide(NormalizeReference(att.data.reference), txs, TransactionReference, TransactionScores(att, txs, lib))
  }

  /** Reference priority for `find_attachment`: exactly one attachment whose
      reference agrees with the transaction's is returned, whatever the scores. */
  lemma AttachmentByReference(tx: Transaction, atts: seq<Attachment>, lib: Library, k: nat)
    requires NormalizeReference(tx.reference) != ""
    requires k < |atts| && SameReference(NormalizeReference(tx.reference), atts[k].data.reference)
    requires forall j :: 0 <= j < |atts| && SameReference(NormalizeReference(tx.reference), atts[j].data.reference) ==> j == k
    ensures AttachmentFor(tx, atts, lib) == Some(atts[k])
  {
    DecideByReference(NormalizeReference(tx.reference), atts, AttachmentReference, AttachmentScores(tx, atts, lib), k);
  }

  /** Heuristic fallback for `find_attachment`, used when the transaction has
      no reference or no attachment or several agree with it: the first
      attachment of maximal score over all attachments, if that score is at
      least THRESHOLD; nothing if every score is below it. */
  lemma AttachmentByScore(tx: Transaction, atts: seq<Attachment>, lib: Library)
    requires var q := NormalizeReference(tx.reference);
      || q == ""
      || (forall j :: 0 <= j < |atts| ==> !SameReference(q, atts[j].data.reference))
      || (exists j1: nat, j2: nat :: j1 < j2 < |atts| && SameReference(q, atts[j1].data.reference) && SameReference(q, atts[j2].data.reference))
    ensures AttachmentFor(tx, atts, lib).None? <==> forall j :: 0 <= j < |atts| ==> Score(tx, atts[j], lib) < THRESHOLD
    ensures forall k: nat :: FirstBest(AttachmentScores(tx, atts, lib), k, THRESHOLD) ==> AttachmentFor(tx, atts, lib) == Some(atts[k])
    ensures AttachmentFor(tx, atts, lib).Some? ==>
      exists k: nat :: FirstBest(AttachmentScores(tx, atts, lib), k, THRESHOLD) && AttachmentFor(tx, atts, lib) == Some(atts[k])
  {
    var q := NormalizeReference(tx.reference);
    var scores := AttachmentScores(tx, atts, lib);
    DecideByScore(q, atts, AttachmentReference, scores);
    FallbackSpec(atts, scores);
    assert forall j :: 0 <= j < |atts| ==> scores[j] == Score(tx, atts[j], lib);
  }

  /** `find_attachment` never invents a result, and finds nothing among no
      attachments. */
  lemma AttachmentIsCandidate(tx: Transaction, atts: seq<Attachment>, lib: Library)
    ensures AttachmentFor(tx, atts, lib).Some? ==> AttachmentFor(tx, atts, lib).value in atts
    ensures atts == [] ==> AttachmentFor(tx, atts, lib).None?
  {
    DecideReturnsCandidate(NormalizeReference(tx.reference), atts, AttachmentReference, AttachmentScores(tx, atts, lib));
  }

  /** Reference priority for `find_transaction`. */
  lemma TransactionByReference(att: Attachment, txs: seq<Transaction>, lib: Library, k: nat)
    requires NormalizeReference(att.data.reference) != ""
    requires k < |txs| && SameReference(NormalizeReference(att.data.reference), txs[k].reference)
    requires forall j :: 0 <= j < |txs| && SameReference(NormalizeReference(att.data.reference), txs[j].reference) ==> j == k
    ensures TransactionFor(att, txs, lib) == Some(txs[k])
  {
    DecideByReference(NormalizeReference(att.data.reference), txs, TransactionReference, TransactionScores(att, txs, lib), k);
  }

  /** Heuristic fallback for `find_transaction`. */
  lemma TransactionByScore(att: Attachment, txs: seq<Transaction>, lib: Library)
    requires var q := NormalizeReference(att.data.reference);
      || q == ""
      || (forall j :: 0 <= j < |txs| ==> !SameReference(q, txs[j].reference))
      || (exists j1: nat, j2: nat :: j1 < j2 < |txs| && SameReference(q, txs[j1].reference) && SameReference(q, txs[j2].reference))
    ensures TransactionFor(att, txs, lib).None? <==> forall j :: 0 <= j < |txs| ==> Score(txs[j], att, lib) < THRESHOLD
    ensures forall k: nat :: FirstBest(TransactionScores(att, txs, lib), k, THRESHOLD) ==> TransactionFor(att, txs, lib) == Some(txs[k])
    ensures TransactionFor(att, txs, lib).Some? ==>
      exists k: nat :: FirstBest(TransactionScores(att, txs, lib), k, THRESHOLD) && TransactionFor(att, txs, lib) == Some(txs[k])
  {
    var q := NormalizeReference(att.data.reference);
    var scores := TransactionScores(att, txs, lib);
    DecideByScore(q, txs, TransactionReference, scores);
    FallbackSpec(txs, scores);
    assert forall j :: 0 <= j < |txs| ==> scores[j] == Score(txs[j], att, lib);
  }

  /** `find_transaction` never invents a result, and finds nothing among no
      transactions. */
  lemma TransactionIsCandidate(att: Attachment, txs: seq<Transaction>, lib: Library)
    ensures TransactionFor(att, txs, lib).Some? ==> TransactionFor(att, txs, lib).value in txs
    ensures txs == [] ==> TransactionFor(att, txs, lib).None?
  {
    DecideReturnsCandidate(NormalizeReference(att.data.reference), txs, TransactionReference, TransactionScores(att, txs, lib));
  }

  /** The two directions agree on a single pair: matching the transaction
      against the attachment alone succeeds exactly when matching the
      attachment against the transaction alone does. */
  lemma SingletonSymmetry(tx: Transaction, att: Attachment, lib: Library)
    ensures AttachmentFor(tx, [att], lib) == Some(att) <==> TransactionFor(att, [tx], lib) == Some(tx)
    ensures AttachmentFor(tx, [att], lib).Some? <==> TransactionFor(att, [tx], lib).Some?
  {
    var qa := NormalizeReference(tx.reference);
    var qt := NormalizeReference(att.data.reference);
    var s := Score(tx, att, lib);
    assert AttachmentScores(tx, [att], lib) == [s];
    assert TransactionScores(att, [tx], lib) == [s];
    ScanSingleton(s);
    RefMatchesSingleton(qa, att, AttachmentReference);
    RefMatchesSingleton(qt, tx, TransactionReference);
  }

  /** The threshold boundary on one attachment without an agreeing
      reference: it is returned exactly when its score is at least
      THRESHOLD, so a score of exactly 75.0 matches and anything below does not. */
  lemma SingleAttachmentThreshold(tx: Transaction, att: Attachment, lib: Library)
    requires !SameReference(NormalizeReference(tx.reference), att.data.reference)
    ensures AttachmentFor(tx, [att], lib) == if Score(tx, att, lib) >= THRESHOLD then Some(att) else None
  {
    var s := Score(tx, att, lib);
    assert AttachmentScores(tx, [att], lib) == [s];
    ScanSingleton(s);
    RefMatchesSingleton(NormalizeReference(tx.reference), att, AttachmentReference);
  }

  // ---- the imperative matchers ----

  /** The candidate at the scan's index, if it has one. */
  function BestCandidate<C>(cands: seq<C>, b: Best): Option<C>
    requires b.index.Some? ==> b.index.value < |cands|
  {
    if b.index.Some? then Some(cands[b.index.value]) else None
  }

  /** The `ref_matches` loop of `find_attachment`. */
  method CollectAttachmentMatches(txRef: string, atts: seq<Attachment>) returns (refMatches: seq<Attachment>)
    ensures refMatches == RefMatches(txRef, atts, AttachmentReference)
  {
    refMatches := [];
    for i := 0 to |atts|
      invariant refMatches == RefMatches(txRef, atts[..i], AttachmentReference)
    {
      assert atts[..i + 1][..i] == atts[..i];
      var attRef := NormalizeReference(atts[i].data.reference);
      if attRef != "" && attRef == txRef {
        refMatches := refMatches + [atts[i]];
      }
    }
    assert atts[..|atts|] == atts;
  }

  /** The scoring loop of `find_attachment`: best score so far and the
      attachment that first reached it, replaced only on a strictly greater score. */
  method ScanAttachments(tx: Transaction, atts: seq<Attachment>, lib: Library) returns (bestScore: real, bestAttachment: Option<Attachment>)
    ensures bestScore == Scan(AttachmentScores(tx, atts, lib)).score
    ensures bestAttachment == BestCandidate(atts, Scan(AttachmentScores(tx, atts, lib)))
  {
    ghost var scores := AttachmentScores(tx, atts, lib);
    bestAttachment := None;
    bestScore := 0.0;
    for i := 0 to |atts|
      invariant bestScore == Scan(scores[..i]).score
      invariant bestAttachment == BestCandidate(atts, Scan(scores[..i]))
    {
      var score := ScorePair(tx, atts[i], lib);
      assert score == scores[i];
      ScanStep(scores, i);
      if score > bestScore {
        bestScore := score;
        bestAttachment := Some(atts[i]);
      }
    }
    assert scores[..|atts|] == scores;
  }

  /** `find_attachment` */
  method FindAttachment(tx: Transaction, atts: seq<Attachment>, lib: Library) returns (r: Option<Attachment>)
    ensures r == AttachmentFor(tx, atts, lib)
  {
    // 1) reference priority
    var txRef := NormalizeReference(tx.reference);
    if txRef != "" {
      var refMatches := CollectAttachmentMatches(txRef, atts);
      if |refMatches| == 1 {
        return Some(refMatches[0]);
      }
    }
    // 2) heuristic scoring
    var bestScore, bestAttachment := ScanAttachments(tx, atts, lib);
    if bestScore >= THRESHOLD {
      r := bestAttachment;
    } else {
      r := None;
    }
  }

  /** The `ref_matches` loop of `find_transaction`. */
  method CollectTransactionMatches(attRef: string, txs: seq<Transaction>) returns (refMatches: seq<Transaction>)
    ensures refMatches == RefMatches(attRef, txs, TransactionReference)
  {
    refMatches := [];
    for i := 0 to |txs|
      invariant refMatches == RefMatches(attRef, txs[..i], TransactionReference)
    {
      assert txs[..i + 1][..i] == txs[..i];
      var txRef := NormalizeReference(txs[i].reference);
      if txRef != "" && txRef == attRef {
        refMatches := refMatches + [txs[i]];
      }
    }
    assert txs[..|txs|] == txs;
  }

  /** The scoring loop of `find_transaction`. */
  method ScanTransactions(att: Attachment, txs: seq<Transaction>, lib: Library) returns (bestScore: real, bestTransaction: Option<Transaction>)
    ensures bestScore == Scan(TransactionScores(att, txs, lib)).score
    ensures bestTransaction == BestCandidate(txs, Scan(TransactionScores(att, txs, lib)))
  {
    ghost var scores := TransactionScores(att, txs, lib);
    bestTransaction := None;
    bestScore := 0.0;
    for i := 0 to |txs|
      invariant bestScore == Scan(scores[..i]).score
      invariant bestTransaction == BestCandidate(txs, Scan(scores[..i]))
    {
      var score := ScorePair(txs[i], att, lib);
      assert score == scores[i];
      ScanStep(scores, i);
      if score > bestScore {
        bestScore := score;
        bestTransaction := Some(txs[i]);
      }
    }
    assert scores[..|txs|] == scores;
  }

  /** `find_transaction` */
  method FindTransaction(att: Attachment, txs: seq<Transaction>, lib: Library) returns (r: Option<Transaction>)
    ensures r == TransactionFor(att, txs, lib)
  {
    // 1) reference priority
    var attRef := NormalizeReference(att.data.reference);
    if attRef != "" {
      var refMatches := CollectTransactionMatches(attRef, txs);
      if |refMatches| == 1 {
        return Some(refMatches[0]);
      }
    }
    // 2) heuristic scoring
    var bestScore, bestTransaction := ScanTransactions(att, txs, lib);
    if bestScore >= THRESHOLD {
      r := bestTransaction;
    } else {
      r := None;
    }
  }
}
