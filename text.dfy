/** The string operations the engine takes from Python, restricted to ASCII:
    str.replace(" ", ""), str.upper(), str.lower(), str.strip(), str.isdigit(),
    and int()/str() on decimal digit strings. */
module Text {

  predicate IsDigit(c: char) {
    '0' <= c <= '9'
  }

  predicate IsLower(c: char) {
    'a' <= c <= 'z'
  }

  predicate IsUpper(c: char) {
    'A' <= c <= 'Z'
  }

  /** The ASCII characters for which Python's str.isspace() holds: the space,
      tab, line feed, vertical tab, form feed, carriage return (9 to 13) and
      the four information separators (28 to 31). */
  predicate IsSpace(c: char) {
    c == ' ' || 9 <= c as int <= 13 || 28 <= c as int <= 31
  }

  /** str.replace(" ", ""): every space removed, nothing else touched. */
  function RemoveSpaces(s: string): (r: string)
    ensures ' ' !in r
    ensures |r| <= |s|
  {
    if s == [] then []
    else (if s[0] == ' ' then [] else [s[0]]) + RemoveSpaces(s[1..])
  }

  function UpperChar(c: char): char {
    if IsLower(c) then (c as int - 32) as char else c
  }

  function LowerChar(c: char): char {
    if IsUpper(c) then (c as int + 32) as char else c
  }

  /** str.upper() on ASCII */
  function Upper(s: string): string {
    seq(|s|, i requires 0 <= i < |s| => UpperChar(s[i]))
  }

  /** str.lower() on ASCII */
  function Lower(s: string): string {
    seq(|s|, i requires 0 <= i < |s| => LowerChar(s[i]))
  }

  /** The first index from `i` on that does not hold white space (`|s|`
      when there is none). */
  function SkipSpace(s: string, i: nat): (r: nat)
    requires i <= |s|
    ensures i <= r <= |s|
    decreases |s| - i
  {
    if i < |s| && IsSpace(s[i]) then SkipSpace(s, i + 1) else i
  }

  /** The end of `s[lo..j]` once its trailing white space is dropped. */
  function BackSpace(s: string, lo: nat, j: nat): (r: nat)
    requires lo <= j <= |s|
    ensures lo <= r <= j
  {
    if j > lo && IsSpace(s[j - 1]) then BackSpace(s, lo, j - 1) else j
  }

  /** Everything skipped is white space, and the skip stops at a character
      that is not. */
  lemma {:induction false} SkipSpaceSpec(s: string, i: nat)
    requires i <= |s|
    ensures forall k :: i <= k < SkipSpace(s, i) ==> IsSpace(s[k])
    ensures SkipSpace(s, i) < |s| ==> !IsSpace(s[SkipSpace(s, i)])
    decreases |s| - i
  {
    if i < |s| && IsSpace(s[i]) {
      SkipSpaceSpec(s, i + 1);
    }
  }

  /** Everything dropped from the end is white space, and what is kept ends
      in a character that is not. */
  lemma {:induction false} BackSpaceSpec(s: string, lo: nat, j: nat)
    requires lo <= j <= |s|
    ensures forall k :: BackSpace(s, lo, j) <= k < j ==> IsSpace(s[k])
    ensures BackSpace(s, lo, j) > lo ==> !IsSpace(s[BackSpace(s, lo, j) - 1])
  {
    if j > lo && IsSpace(s[j - 1]) {
      BackSpaceSpec(s, lo, j - 1);
    }
  }

  /** str.strip(): the leading and the trailing white space removed. */
  function Strip(s: string): string {
    var i := SkipSpace(s, 0);
    s[i..BackSpace(s, i, |s|)]
  }

  predicate AllSpace(s: string) {
    forall i :: 0 <= i < |s| ==> IsSpace(s[i])
  }

  /** str.strip() keeps the middle of the string, from its first to its last
      non-white-space character, and drops the white space around it; it
      gives "" exactly for a string of white space only. */
  lemma StripSpec(s: string)
    ensures Strip(s) == "" <==> AllSpace(s)
    ensures
      var i := SkipSpace(s, 0);
      var j := BackSpace(s, i, |s|);
      && Strip(s) == s[i..j]
      && (forall k :: 0 <= k < i ==> IsSpace(s[k]))
      && (forall k :: j <= k < |s| ==> IsSpace(s[k]))
      && (i < j ==> !IsSpace(s[i]) && !IsSpace(s[j - 1]))
  {
    StripCuts(s, SkipSpace(s, 0), BackSpace(s, SkipSpace(s, 0), |s|));
    CutSpace(s, SkipSpace(s, 0), BackSpace(s, SkipSpace(s, 0), |s|));
  }

  /** The two cuts str.strip() makes, stated of the cut points alone: white
      space before the first and after the second, and none at either edge
      of what is kept. */
  lemma StripCuts(s: string, i: nat, j: nat)
    requires i == SkipSpace(s, 0) && j == BackSpace(s, i, |s|)
    ensures i <= j <= |s|
    ensures forall k :: 0 <= k < i ==> IsSpace(s[k])
    ensures forall k :: j <= k < |s| ==> IsSpace(s[k])
    ensures i < |s| ==> !IsSpace(s[i])
    ensures i < j ==> !IsSpace(s[j - 1])
  {
    SkipSpaceSpec(s, 0);
    BackSpaceSpec(s, i, |s|);
  }

  /** Cutting white space only from both ends leaves "" exactly when the
      whole string is white space. */
  lemma CutSpace(s: string, i: nat, j: nat)
    requires i <= j <= |s|
    requires forall k :: 0 <= k < i ==> IsSpace(s[k])
    requires forall k :: j <= k < |s| ==> IsSpace(s[k])
    requires i < j ==> !IsSpace(s[i])
    ensures s[i..j] == "" <==> AllSpace(s)
  {
    if i < j {
      assert !IsSpace(s[i]);
    } else {
      forall k | 0 <= k < |s|
        ensures IsSpace(s[k])
      {
        if k >= i {
          assert j <= k;
        }
      }
    }
  }

  lemma {:induction false} RemoveSpacesOfSpaceless(s: string)
    requires ' ' !in s
    ensures RemoveSpaces(s) == s
  {
    if s != [] {
      assert s[0] != ' ';
      assert ' ' !in s[1..] by {
        forall i | 0 <= i < |s[1..]| ensures s[1..][i] != ' ' {
          assert s[1..][i] == s[i + 1];
        }
      }
      RemoveSpacesOfSpaceless(s[1..]);
      assert [s[0]] + s[1..] == s;
    }
  }

  /** Upper-casing keeps a spaceless string spaceless, leaves no lower-case
      letter behind, and changes nothing a second time. */
  lemma UpperFacts(s: string)
    ensures ' ' !in s ==> ' ' !in Upper(s)
    ensures forall i :: 0 <= i < |Upper(s)| ==> !IsLower(Upper(s)[i])
    ensures Upper(Upper(s)) == Upper(s)
  {
    if ' ' !in s {
      forall i | 0 <= i < |s| ensures Upper(s)[i] != ' ' {
        assert s[i] in s;
      }
    }
  }

  /** str.lower() keeps the length, leaves no upper-case letter, and changes
      only upper-case letters, each to its lower-case form. */
  lemma LowerFacts(s: string)
    ensures |Lower(s)| == |s|
    ensures forall i :: 0 <= i < |s| ==> !IsUpper(Lower(s)[i])
    ensures forall i :: 0 <= i < |s| && !IsUpper(s[i]) ==> Lower(s)[i] == s[i]
    ensures forall i :: 0 <= i < |s| && IsUpper(s[i]) ==> Lower(s)[i] as int == s[i] as int + 32
  {
  }

  // ---- decimal digit strings: int() and str() ----

  predicate AllDigits(s: string) {
    forall i :: 0 <= i < |s| ==> IsDigit(s[i])
  }

  /** str.isdigit() on ASCII: non-empty and every character a decimal digit */
  predicate IsDigits(s: string) {
    |s| > 0 && AllDigits(s)
  }

  /** A string str() can give for a non-negative int: digits, and no leading
      zero unless the number is 0 itself. */
  predicate Canonical(s: string) {
    IsDigits(s) && (s[0] == '0' ==> |s| == 1)
  }

  /** int(s) for a string of decimal digits */
  function DigitsValue(s: string): nat
    requires AllDigits(s)
  {
    if s == [] then 0
    else DigitsValue(s[..|s| - 1]) * 10 + (s[|s| - 1] as int - '0' as int)
  }

  function DigitChar(d: nat): char
    requires d < 10
  {
    ('0' as int + d) as char
  }

  /** str(n) for n >= 0 */
  function DecimalString(n: nat): (r: string)
    ensures Canonical(r)
    ensures n == 0 <==> r == "0"
  {
    if n < 10 then [DigitChar(n)] else DecimalString(n / 10) + [DigitChar(n % 10)]
  }

  /** Leading zeros dropped, at least one digit kept: "007" gives "7", "0000" gives "0". */
  function DropLeadingZeros(s: string): (r: string)
    ensures |r| <= |s|
  {
    if |s| > 1 && s[0] == '0' then DropLeadingZeros(s[1..]) else s
  }

  /** int(str(n)) == n */
  lemma {:induction false} DecimalStringValue(n: nat)
    ensures DigitsValue(DecimalString(n)) == n
  {
    var s := DecimalString(n);
    if n < 10 {
      assert s[..0] == [];
    } else {
      DecimalStringValue(n / 10);
      assert s[..|s| - 1] == DecimalString(n / 10);
    }
  }

  /** A canonical digit string has a positive value unless it is "0". */
  lemma {:induction false} CanonicalPositive(s: string)
    requires Canonical(s) && s != "0"
    ensures DigitsValue(s) > 0
  {
    if |s| > 1 {
      var p := s[..|s| - 1];
      assert p[0] == s[0];
      CanonicalPositive(p);
    } else {
      assert s == [s[0]];
    }
  }

  /** str(int(s)) == s for every canonical digit string */
  lemma {:induction false} CanonicalRoundTrip(s: string)
    requires Canonical(s)
    ensures DecimalString(DigitsValue(s)) == s
  {
    if |s| == 1 {
      assert s[..0] == [];
      assert DigitsValue(s) == s[0] as int - '0' as int;
    } else {
      var p := s[..|s| - 1];
      assert p[0] == s[0];
      CanonicalPositive(p);
      CanonicalRoundTrip(p);
      var v := DigitsValue(s);
      assert v == DigitsValue(p) * 10 + (s[|s| - 1] as int - '0' as int);
      assert v / 10 == DigitsValue(p) && v % 10 == s[|s| - 1] as int - '0' as int;
      assert p + [s[|s| - 1]] == s;
    }
  }

  /** A leading zero does not change int(s). */
  lemma {:induction false} LeadingZeroValue(s: string)
    requires AllDigits(s)
    ensures AllDigits(['0'] + s) && DigitsValue(['0'] + s) == DigitsValue(s)
  {
    var t := ['0'] + s;
    if s == [] {
      assert t[..0] == [];
    } else {
      var p := s[..|s| - 1];
      LeadingZeroValue(p);
      assert t[..|t| - 1] == ['0'] + p;
    }
  }

  /** Dropping leading zeros gives a canonical string of the same value. */
  lemma {:induction false} DropLeadingZerosValue(s: string)
    requires IsDigits(s)
    ensures Canonical(DropLeadingZeros(s))
    ensures DigitsValue(DropLeadingZeros(s)) == DigitsValue(s)
  {
    if |s| > 1 && s[0] == '0' {
      var t := s[1..];
      DropLeadingZerosValue(t);
      LeadingZeroValue(t);
      assert ['0'] + t == s;
    }
  }
}
