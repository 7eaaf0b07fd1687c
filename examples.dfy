/** Two worked cases of one transaction against one invoice. Dates and name
    similarities come from the library, so each case states what it needs of
    them: the day ordinals of the dates involved, and nothing or a bound for
    the similarity ratio. */
module Examples {
  import opened Wrappers
  import opened Text
  import opened Records
  import opened Features
  import opened Scoring
  import opened Matching

  /** An expense of 120.00 booked on 2024-03-10 with contact "Acme Corp". */
  function AcmeTransaction(): Transaction {
    Transaction(Some(-120.0), Some("2024-03-10"), Some("Acme Corp"), None)
  }

  /** An invoice of 120.00 dated 2024-03-09 to "Acme Corporation". */
  function AcmeInvoice(): Attachment {
    Attachment(AttachmentData(Some(120.0), Some("2024-03-09"), None, None, Some("Acme Corporation"), None, None, None))
  }

  /** An invoice of 500.00 dated 2024-01-01 to "Unrelated LLC". */
  function UnrelatedInvoice(): Attachment {
    Attachment(AttachmentData(Some(500.0), Some("2024-01-01"), None, None, Some("Unrelated LLC"), None, None, None))
  }

  /** The transaction's name is "acme corp". */
  lemma AcmeName()
    ensures TxName(AcmeTransaction()) == "acme corp"
  {
  }

  /** With only the recipient set, the one name candidate is the cleaned
      recipient. */
  lemma {:induction false} RecipientOnly(att: Attachment)
    requires HasText(att.data.recipient)
    requires att.data.issuer.None? && att.data.supplier.None?
    ensures NameCandidates(att) == [Lower(Strip(att.data.recipient.value))]
  {
    var names := CounterpartyFields(att.data);
    var name := Lower(Strip(att.data.recipient.value));
    assert names[..1][..0] == [];
    assert CleanNames(names[..1]) == [name];
    assert names[..2][..1] == names[..1];
    assert CleanNames(names[..2]) == [name];
    assert names[..2] == names[..|names| - 1];
  }

  /** With only the invoicing date set, and parsing, it is the one date. */
  lemma {:induction false} InvoicingDateOnly(att: Attachment, lib: Library, day: int)
    requires att.data.invoicingDate.Some? && ParseDate(att.data.invoicingDate, lib) == Some(day)
    requires att.data.dueDate.None? && att.data.receivingDate.None?
    ensures AttDates(att, lib) == [day]
  {
    var dates := DateFields(att.data);
    assert dates[..1][..0] == [];
    assert ParsedDates(dates[..1], lib) == [day];
    assert dates[..2][..1] == dates[..1];
    assert ParsedDates(dates[..2], lib) == [day];
    assert dates[..2] == dates[..|dates| - 1];
  }

  /** The three signals of the Acme pair: no amount difference, one day
      apart, and the ratio of "acme corp" to "acme corporation". */
  lemma AcmeSignals(lib: Library, day: int)
    requires lib.parseDate("2024-03-10") == Some(day)
    requires lib.parseDate("2024-03-09") == Some(day - 1)
    ensures AmountDiff(AcmeTransaction(), AcmeInvoice()) == Some(0.0)
    ensures DateDistanceDays(AcmeTransaction(), AcmeInvoice(), lib) == Some(1)
    ensures MaxSimilarity(AcmeTransaction(), AcmeInvoice(), lib) == lib.ratio("acme corp", "acme corporation")
  {
    var att := AcmeInvoice();
    AcmeName();
    assert Lower(Strip("Acme Corporation")) == "acme corporation";
    RecipientOnly(att);
    InvoicingDateOnly(att, lib, day - 1);
  }

  /** Exact amount (40) and one day apart (20): the pair scores 60 plus the
      name points, so it is matched exactly when the ratio of "acme corp" to
      "acme corporation" reaches 0.80. */
  lemma AcmeExample(lib: Library, day: int)
    requires lib.parseDate("2024-03-10") == Some(day)
    requires lib.parseDate("2024-03-09") == Some(day - 1)
    ensures Score(AcmeTransaction(), AcmeInvoice(), lib) == 60.0 + NamePoints(lib.ratio("acme corp", "acme corporation"))
    ensures AttachmentFor(AcmeTransaction(), [AcmeInvoice()], lib) == Some(AcmeInvoice())
      <==> lib.ratio("acme corp", "acme corporation") >= 0.80
  {
    AcmeSignals(lib, day);
    SingleAttachmentThreshold(AcmeTransaction(), AcmeInvoice(), lib);
  }

  /** The three signals of the unrelated pair: 380.00 apart, 69 days apart,
      and the ratio of "acme corp" to "unrelated llc". */
  lemma UnrelatedSignals(lib: Library, day: int)
    requires lib.parseDate("2024-03-10") == Some(day)
    requires lib.parseDate("2024-01-01") == Some(day - 69)
    ensures AmountDiff(AcmeTransaction(), UnrelatedInvoice()) == Some(380.0)
    ensures DateDistanceDays(AcmeTransaction(), UnrelatedInvoice(), lib) == Some(69)
    ensures MaxSimilarity(AcmeTransaction(), UnrelatedInvoice(), lib) == lib.ratio("acme corp", "unrelated llc")
  {
    var att := UnrelatedInvoice();
    AcmeName();
    assert Lower(Strip("Unrelated LLC")) == "unrelated llc";
    RecipientOnly(att);
    InvoicingDateOnly(att, lib, day - 69);
  }

  /** Whatever the name ratio, the unrelated pair scores at most 30 and is
      not matched; with a ratio below 0.70 it scores 0. */
  lemma UnrelatedExample(lib: Library, day: int)
    requires lib.parseDate("2024-03-10") == Some(day)
    requires lib.parseDate("2024-01-01") == Some(day - 69)
    ensures Score(AcmeTransaction(), UnrelatedInvoice(), lib) <= 30.0
    ensures lib.ratio("acme corp", "unrelated llc") < 0.70 ==> Score(AcmeTransaction(), UnrelatedInvoice(), lib) == 0.0
    ensures AttachmentFor(AcmeTransaction(), [UnrelatedInvoice()], lib).None?
  {
    UnrelatedSignals(lib, day);
    SingleAttachmentThreshold(AcmeTransaction(), UnrelatedInvoice(), lib);
  }
}
