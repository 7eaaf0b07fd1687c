/** The two record shapes the matcher reads, and the two library routines it
    delegates to. Records are immutable values: the engine never changes them. */
module Records {
  import opened Wrappers

  /** A bank movement. `amount` is the signed amount as a number (negative for
      an expense, positive for income); `date` is the raw booking-date text,
      expected in the form YYYY-MM-DD. */
  datatype Transaction = Transaction(
    amount: Option<real>,
    date: Option<string>,
    contact: Option<string>,
    reference: Option<string>)

  /** The `data` record of an invoice or receipt. A key the source's dictionary
      lacks is `None` here; an attachment without `data` has every field `None`. */
  datatype AttachmentData = AttachmentData(
    totalAmount: Option<real>,
    invoicingDate: Option<string>,
    dueDate: Option<string>,
    receivingDate: Option<string>,
    recipient: Option<string>,
    issuer: Option<string>,
    supplier: Option<string>,
    reference: Option<string>)

  datatype Attachment = Attachment(data: AttachmentData)

  /** The library calls the engine makes and this model does not define:
      `parseDate` is strptime with the format "%Y-%m-%d", giving the day
      ordinal of the date or `None` where strptime raises ValueError;
      `ratio` is difflib's SequenceMatcher(None, a, b).ratio(). */
  datatype Library = Library(parseDate: string -> Option<int>, ratio: (string, string) -> real)

  /** What SequenceMatcher documents of its ratio: a value in [0, 1]. */
  ghost predicate RatioInUnit(lib: Library) {
    forall a, b :: 0.0 <= lib.ratio(a, b) <= 1.0
  }

  /** `transaction.get("reference")` */
  function TransactionReference(tx: Transaction): Option<string> {
    tx.reference
  }

  /** `attachment.get("data", {}).get("reference")` */
  function AttachmentReference(att: Attachment): Option<string> {
    att.data.reference
  }
}
