/** The feature extractors: amount, date and counterparty-name signals pulled
    out of a transaction and an attachment. Each gives "absent" (or 0) when
    the signal is missing instead of failing. */
module Features {
  import opened Wrappers
  import opened Text
  import opened Records

  function Abs(x: real): (r: real)
    ensures r >= 0.0 && (r == x || r == -x)
  {
    if x < 0.0 then -x else x
  }

  /** The distance in days between two day ordinals, abs((a - b).days). */
  function Dist(a: int, b: int): nat {
    if a >= b then a - b else b - a
  }

  // ---- amounts ----

  /** `_get_tx_amount`: the absolute transaction amount, absent when missing. */
  function TxAmount(tx: Transaction): (r: Option<real>)
    ensures r.Some? <==> tx.amount.Some?
    ensures r.Some? ==> r.value >= 0.0 && (r.value == tx.amount.value || r.value == -tx.amount.value)
  {
    match tx.amount
    case None => None
    case Some(a) => Some(Abs(a))
  }

  /** `_get_att_amount`: the absolute `total_amount`, absent when missing. */
  function AttAmount(att: Attachment): (r: Option<real>)
    ensures r.Some? <==> att.data.totalAmount.Some?
    ensures r.Some? ==> r.value >= 0.0 && (r.value == att.data.totalAmount.value || r.value == -att.data.totalAmount.value)
  {
    match att.data.totalAmount
    case None => None
    case Some(a) => Some(Abs(a))
  }

  // ---- dates ----

  /** `_parse_date`: no date for an absent or empty value, otherwise whatever
      the library parser gives. */
  function ParseDate(value: Option<string>, lib: Library): (r: Option<int>)
    ensures value.None? || value.value == "" ==> r.None?
  {
    if value.None? || value.value == "" then None else lib.parseDate(value.value)
  }

  /** `_get_tx_date` */
  function TxDate(tx: Transaction, lib: Library): (r: Option<int>)
    ensures tx.date.None? || tx.date.value == "" ==> r.None?
    ensures tx.date.Some? && tx.date.value != "" ==> r == lib.parseDate(tx.date.value)
  {
    ParseDate(tx.date, lib)
  }

  /** The attachment's date fields in the order the source visits them. */
  function DateFields(d: AttachmentData): seq<Option<string>> {
    [d.invoicingDate, d.dueDate, d.receivingDate]
  }

  /** The values among `values` that parse, in order. */
  function ParsedDates(values: seq<Option<string>>, lib: Library): seq<int> {
    if values == [] then []
    else
      var last := ParseDate(values[|values| - 1], lib);
      ParsedDates(values[..|values| - 1], lib) + (if last.Some? then [last.value] else [])
  }

  /** What `_get_att_dates` returns. */
  function AttDates(att: Attachment, lib: Library): seq<int> {
    ParsedDates(DateFields(att.data), lib)
  }

  /** A day is among the parsed dates exactly when one of the values parses
      to it; there are never more parsed dates than values. */
  lemma {:induction false} ParsedDatesMembers(values: seq<Option<string>>, lib: Library)
    ensures |ParsedDates(values, lib)| <= |values|
    ensures forall d :: d in ParsedDates(values, lib) <==>
      exists k :: 0 <= k < |values| && ParseDate(values[k], lib) == Some(d)
  {
    if values != [] {
      var init := values[..|values| - 1];
      ParsedDatesMembers(init, lib);
      forall d | (exists k :: 0 <= k < |values| && ParseDate(values[k], lib) == Some(d))
        ensures d in ParsedDates(values, lib)
      {
        var k :| 0 <= k < |values| && ParseDate(values[k], lib) == Some(d);
        if k < |init| {
          assert init[k] == values[k];
        }
      }
      forall d | d in ParsedDates(init, lib)
        ensures exists k :: 0 <= k < |values| && ParseDate(values[k], lib) == Some(d)
      {
        var k :| 0 <= k < |init| && ParseDate(init[k], lib) == Some(d);
        assert values[k] == init[k];
      }
    }
  }

  /** `_get_att_dates`: every one of invoicing_date, due_date and
      receiving_date that parses, in that order; the others are dropped. */
  method GetAttDates(att: Attachment, lib: Library) returns (dates: seq<int>)
    ensures dates == AttDates(att, lib)
  {
    var fields := DateFields(att.data);
    dates := [];
    for i := 0 to |fields|
      invariant dates == ParsedDates(fields[..i], lib)
    {
      assert fields[..i + 1][..i] == fields[..i];
      var d := ParseDate(fields[i], lib);
      if d.Some? {
        dates := dates + [d.value];
      }
    }
    assert fields[..|fields|] == fields;
  }

  /** min(abs(t - d) for d in ds) */
  function MinDistance(t: int, ds: seq<int>): (r: nat)
    requires |ds| > 0
    ensures forall k :: 0 <= k < |ds| ==> r <= Dist(t, ds[k])
    ensures exists k :: 0 <= k < |ds| && r == Dist(t, ds[k])
  {
    if |ds| == 1 then Dist(t, ds[0])
    else
      var init := ds[..|ds| - 1];
      var m := MinDistance(t, init);
      var last := Dist(t, ds[|ds| - 1]);
      assert forall k :: 0 <= k < |init| ==> init[k] == ds[k];
      if last < m then last else m
  }

  /** `_date_distance_days`: the smallest distance in days between the
      transaction date and any attachment date that parses. */
  function DateDistanceDays(tx: Transaction, att: Attachment, lib: Library): Option<nat> {
    var t := TxDate(tx, lib);
    var ds := AttDates(att, lib);
    if t.None? || ds == [] then None else Some(MinDistance(t.value, ds))
  }

  /** The distance is absent exactly when the transaction date or every
      attachment date is missing or unparseable; otherwise it is the least
      distance to an attachment date that parses. */
  lemma DateDistanceDaysSpec(tx: Transaction, att: Attachment, lib: Library)
    ensures DateDistanceDays(tx, att, lib).None? <==>
      TxDate(tx, lib).None? || forall k :: 0 <= k < 3 ==> ParseDate(DateFields(att.data)[k], lib).None?
    ensures DateDistanceDays(tx, att, lib).Some? ==>
      var days := DateDistanceDays(tx, att, lib).value;
      && (forall d :: d in AttDates(att, lib) ==> days <= Dist(TxDate(tx, lib).value, d))
      && (exists d :: d in AttDates(att, lib) && days == Dist(TxDate(tx, lib).value, d))
  {
    var fields := DateFields(att.data);
    ParsedDatesMembers(fields, lib);
    var ds := AttDates(att, lib);
    if ds != [] {
      assert ds[0] in ds;
    }
    forall k | 0 <= k < 3 && ParseDate(fields[k], lib).Some? ensures ds != [] {
      var v := ParseDate(fields[k], lib).value;
      assert ParseDate(fields[k], lib) == Some(v);
      assert v in ds;
    }
  }

  // ---- counterparty names ----

  /** Python truthiness of an optional string: present and non-empty. */
  predicate HasText(v: Option<string>) {
    v.Some? && v.value != ""
  }

  /** `_get_tx_name`: the contact, stripped and lower-cased, or "". */
  function TxName(tx: Transaction): string {
    Lower(Strip(if HasText(tx.contact) then tx.contact.value else ""))
  }

  /** The transaction name is empty exactly when the contact is absent,
      empty or white space only; otherwise it is the contact from its first
      to its last non-white-space character, lower-cased; it never holds an
      upper-case letter. */
  lemma TxNameSpec(tx: Transaction)
    ensures TxName(tx) == "" <==> !HasText(tx.contact) || AllSpace(tx.contact.value)
    ensures HasText(tx.contact) ==>
      var c := tx.contact.value;
      var i := SkipSpace(c, 0);
      var j := BackSpace(c, i, |c|);
      && TxName(tx) == Lower(c[i..j])
      && (forall k :: 0 <= k < i ==> IsSpace(c[k]))
      && (forall k :: j <= k < |c| ==> IsSpace(c[k]))
      && (i < j ==> !IsSpace(c[i]) && !IsSpace(c[j - 1]))
    ensures forall k :: 0 <= k < |TxName(tx)| ==> !IsUpper(TxName(tx)[k])
  {
    var c := if HasText(tx.contact) then tx.contact.value else "";
    StripSpec(c);
    LowerFacts(Strip(c));
  }

  /** `_name_similarity`: 0 when either name is empty, otherwise the
      library ratio. */
  function NameSimilarity(a: string, b: string, lib: Library): real {
    if a == "" || b == "" then 0.0 else lib.ratio(a, b)
  }

  lemma NameSimilarityRange(a: string, b: string, lib: Library)
    ensures a == "" || b == "" ==> NameSimilarity(a, b, lib) == 0.0
    ensures RatioInUnit(lib) ==> 0.0 <= NameSimilarity(a, b, lib) <= 1.0
  {
  }

  /** The attachment's counterparty fields in the order the source visits them. */
  function CounterpartyFields(d: AttachmentData): seq<Option<string>> {
    [d.recipient, d.issuer, d.supplier]
  }

  /** The stripped, lower-cased text of each present, non-empty value, in order. */
  function CleanNames(values: seq<Option<string>>): seq<string> {
    if values == [] then []
    else
      var last := values[|values| - 1];
      CleanNames(values[..|values| - 1]) + (if HasText(last) then [Lower(Strip(last.value))] else [])
  }

  /** The names `_max_name_similarity` compares against. */
  function NameCandidates(att: Attachment): seq<string> {
    CleanNames(CounterpartyFields(att.data))
  }

  /** A name is a candidate exactly when it is the cleaned text of a present,
      non-empty value. */
  lemma {:induction false} CleanNamesMembers(values: seq<Option<string>>)
    ensures forall c :: c in CleanNames(values) <==>
      exists k :: 0 <= k < |values| && HasText(values[k]) && c == Lower(Strip(values[k].value))
  {
    if values != [] {
      var init := values[..|values| - 1];
      CleanNamesMembers(init);
      forall c | (exists k :: 0 <= k < |values| && HasText(values[k]) && c == Lower(Strip(values[k].value)))
        ensures c in CleanNames(values)
      {
        var k :| 0 <= k < |values| && HasText(values[k]) && c == Lower(Strip(values[k].value));
        if k < |init| {
          assert init[k] == values[k];
        }
      }
      forall c | c in CleanNames(init)
        ensures exists k :: 0 <= k < |values| && HasText(values[k]) && c == Lower(Strip(values[k].value))
      {
        var k :| 0 <= k < |init| && HasText(init[k]) && c == Lower(Strip(init[k].value));
        assert values[k] == init[k];
      }
    }
  }

  /** max(xs) */
  function MaxOf(xs: seq<real>): (r: real)
    requires |xs| > 0
    ensures forall k :: 0 <= k < |xs| ==> xs[k] <= r
    ensures exists k :: 0 <= k < |xs| && r == xs[k]
  {
    if |xs| == 1 then xs[0]
    else
      var init := xs[..|xs| - 1];
      var m := MaxOf(init);
      assert forall k :: 0 <= k < |init| ==> init[k] == xs[k];
      if xs[|xs| - 1] > m then xs[|xs| - 1] else m
  }

  /** The similarity of `name` to each candidate, in order. */
  function Similarities(name: string, cands: seq<string>, lib: Library): seq<real> {
    seq(|cands|, k requires 0 <= k < |cands| => NameSimilarity(name, cands[k], lib))
  }

  /** What `_max_name_similarity` returns. */
  function MaxSimilarity(tx: Transaction, att: Attachment, lib: Library): real {
    var name := TxName(tx);
    var cands := NameCandidates(att);
    if name == "" || cands == [] then 0.0 else MaxOf(Similarities(name, cands, lib))
  }

  /** The best name similarity is 0 without a transaction name or without a
      non-empty recipient, issuer or supplier; otherwise it is the largest
      similarity to one of them; it stays in [0, 1] when the ratio does. */
  lemma MaxSimilaritySpec(tx: Transaction, att: Attachment, lib: Library)
    ensures TxName(tx) == "" ==> MaxSimilarity(tx, att, lib) == 0.0
    ensures !HasText(tx.contact) || AllSpace(tx.contact.value) ==> MaxSimilarity(tx, att, lib) == 0.0
    ensures (forall k :: 0 <= k < 3 ==> !HasText(CounterpartyFields(att.data)[k])) ==> MaxSimilarity(tx, att, lib) == 0.0
    ensures TxName(tx) != "" && (exists k :: 0 <= k < 3 && HasText(CounterpartyFields(att.data)[k])) ==>
      && (forall c :: c in NameCandidates(att) ==> NameSimilarity(TxName(tx), c, lib) <= MaxSimilarity(tx, att, lib))
      && (exists c :: c in NameCandidates(att) && MaxSimilarity(tx, att, lib) == NameSimilarity(TxName(tx), c, lib))
    ensures RatioInUnit(lib) ==> 0.0 <= MaxSimilarity(tx, att, lib) <= 1.0
  {
    var fields := CounterpartyFields(att.data);
    var name := TxName(tx);
    var cands := NameCandidates(att);
    TxNameSpec(tx);
    CleanNamesMembers(fields);
    forall k | 0 <= k < 3 && HasText(fields[k]) ensures cands != [] {
      assert Lower(Strip(fields[k].value)) in cands;
    }
    if cands != [] {
      assert cands[0] in cands;
      if name != "" {
        var sims := Similarities(name, cands, lib);
        forall c | c in cands ensures NameSimilarity(name, c, lib) <= MaxSimilarity(tx, att, lib) {
          var k :| 0 <= k < |cands| && cands[k] == c;
          assert sims[k] == NameSimilarity(name, c, lib);
        }
        assert MaxSimilarity(tx, att, lib) == MaxOf(sims);
        var k :| 0 <= k < |sims| && MaxOf(sims) == sims[k];
        assert sims[k] == NameSimilarity(name, cands[k], lib);
        assert cands[k] in cands;
        if RatioInUnit(lib) {
          NameSimilarityRange(name, cands[k], lib);
        }
      }
    }
  }

  /** `_max_name_similarity`: collects the cleaned recipient, issuer and
      supplier names and returns the best similarity to the transaction name. */
  method MaxNameSimilarity(tx: Transaction, att: Attachment, lib: Library) returns (ratio: real)
    ensures ratio == MaxSimilarity(tx, att, lib)
  {
    var txName := TxName(tx);
    if txName == "" {
      return 0.0;
    }
    var fields := CounterpartyFields(att.data);
    var candidates: seq<string> := [];
    for i := 0 to |fields|
      invariant candidates == CleanNames(fields[..i])
    {
      assert fields[..i + 1][..i] == fields[..i];
      var value := fields[i];
      if HasText(value) {
        candidates := candidates + [Lower(Strip(value.value))];
      }
    }
    assert fields[..|fields|] == fields;
    if |candidates| == 0 {
      return 0.0;
    }
    ratio := MaxOf(Similarities(txName, candidates, lib));
  }
}
