/** The reference normaliser: the canonical form under which a transaction's
    and an attachment's payment references are compared for equality. */
module Normalize {
  import opened Wrappers
  import opened Text

  /** The input with every space removed and upper-cased. */
  function Cleaned(raw: string): string {
    Upper(RemoveSpaces(raw))
  }

  /** The most digits int() converts from a string: CPython's default
      integer string conversion length limit. Beyond it int() raises
      ValueError. */
  const MaxStrDigits: nat := 4300

  /** `_normalize_reference`: "" for an absent or empty reference; otherwise
      the cleaned text, and for purely numeric text that int() accepts its
      integer value rendered back in decimal. */
  function NormalizeReference(ref: Option<string>): string {
    if ref.None? || ref.value == "" then ""
    else
      var s := Cleaned(ref.value);
      if IsDigits(s) then
        if |s| > MaxStrDigits then s
        else
          var value := DigitsValue(s);
          if value != 0 then DecimalString(value) else "0"
      else s
  }

  /** What the normaliser returns for each kind of input. */
  lemma NormalizeReferenceCases(ref: Option<string>)
    ensures ref.None? || ref.value == "" ==> NormalizeReference(ref) == ""
    ensures ' ' !in NormalizeReference(ref)
    ensures forall i :: 0 <= i < |NormalizeReference(ref)| ==> !IsLower(NormalizeReference(ref)[i])
    ensures ref.Some? && IsDigits(Cleaned(ref.value)) && |Cleaned(ref.value)| <= MaxStrDigits ==>
      var r := NormalizeReference(ref);
      && r == DropLeadingZeros(Cleaned(ref.value))
      && Canonical(r)
      && DigitsValue(r) == DigitsValue(Cleaned(ref.value))
    ensures ref.Some? && (!IsDigits(Cleaned(ref.value)) || |Cleaned(ref.value)| > MaxStrDigits) ==>
      NormalizeReference(ref) == Cleaned(ref.value)
  {
    if ref.Some? {
      var s := Cleaned(ref.value);
      UpperFacts(RemoveSpaces(ref.value));
      if IsDigits(s) && |s| <= MaxStrDigits {
        var c := DropLeadingZeros(s);
        DropLeadingZerosValue(s);
        CanonicalRoundTrip(c);
        if DigitsValue(s) == 0 {
          if c != "0" {
            CanonicalPositive(c);
          }
        }
        DecimalStringValue(DigitsValue(s));
      }
    }
  }

  /** Normalising a normalised reference changes nothing. */
  lemma NormalizeReferenceIdempotent(ref: Option<string>)
    ensures NormalizeReference(Some(NormalizeReference(ref))) == NormalizeReference(ref)
  {
    var r := NormalizeReference(ref);
    NormalizeReferenceCases(ref);
    if r != "" {
      RemoveSpacesOfSpaceless(r);
      assert Upper(r) == r;
      assert Cleaned(r) == r;
      if IsDigits(r) && |r| <= MaxStrDigits {
        CanonicalRoundTrip(r);
        if r != "0" {
          CanonicalPositive(r);
        }
      }
    }
  }

  /** Numeric references that differ only in leading zeros normalise alike. */
  lemma NumericReferenceExamples()
    ensures NormalizeReference(Some("007")) == "7"
    ensures NormalizeReference(Some("7")) == "7"
  {
    assert Cleaned("007") == "007" by {
      assert RemoveSpaces("007") == "007";
      assert Upper("007") == "007";
    }
    assert IsDigits("007");
    DropLeadingZerosValue("007");
    assert DropLeadingZeros("007") == "7";
    assert DigitsValue("7") == 7 by { assert "7"[..0] == []; }
    assert DecimalString(7) == "7";
    assert Cleaned("7") == "7" by {
      assert RemoveSpaces("7") == "7";
      assert Upper("7") == "7";
    }
  }

  /** An all-zero reference normalises to "0". */
  lemma ZeroReferenceExample()
    ensures NormalizeReference(Some("0000")) == "0"
  {
    assert Cleaned("0000") == "0000" by {
      assert RemoveSpaces("0000") == "0000";
      assert Upper("0000") == "0000";
    }
    assert IsDigits("0000");
    DropLeadingZerosValue("0000");
    assert DropLeadingZeros("0000") == "0";
    assert DigitsValue("0") == 0 by { assert "0"[..0] == []; }
  }

  /** A reference of spaces only counts as no reference. */
  lemma BlankReferenceExample()
    ensures NormalizeReference(None) == "" && NormalizeReference(Some("   ")) == ""
  {
    assert RemoveSpaces("   ") == "";
  }
}
