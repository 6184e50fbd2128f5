/**
 * The drag data that ties a grid item to its index. Each item writes its index
 * into the drag's data as a string; the delete zone reads that string back and
 * uses it as a property key on the JavaScript array of files. A key names an
 * element only when it is an array index written canonically: decimal digits,
 * no leading zero, at most 2^32 - 2.
 */
module Transfer {
  import opened Wrappers

  /** The largest array index of ECMAScript, 2^32 - 2. */
  const MaxArrayIndex: nat := 4294967294

  predicate IsDigit(c: char) {
    '0' <= c <= '9'
  }

  function DigitChar(d: nat): (c: char)
    requires d < 10
    ensures IsDigit(c)
  {
    (('0' as int) + d) as char
  }

  function DigitValue(c: char): (d: nat)
    requires IsDigit(c)
    ensures d < 10 && DigitChar(d) == c
  {
    (c as int) - ('0' as int)
  }

  /** The string JavaScript gives for a non-negative integer, as `setData` stores it. */
  function Decimal(k: nat): (s: string)
    ensures |s| > 0
    decreases k
  {
    if k < 10 then [DigitChar(k)] else Decimal(k / 10) + [DigitChar(k % 10)]
  }

  predicate AllDigits(s: string) {
    forall i :: 0 <= i < |s| ==> IsDigit(s[i])
  }

  /** The number a string of decimal digits denotes. */
  function DecimalValue(s: string): nat
    requires AllDigits(s)
    decreases |s|
  {
    if s == [] then 0 else DecimalValue(s[..|s| - 1]) * 10 + DigitValue(s[|s| - 1])
  }

  /** Decimal digits with no leading zero, other than "0" itself. */
  predicate IsCanonical(s: string) {
    |s| > 0 && AllDigits(s) && (s[0] == '0' ==> |s| == 1)
  }

  /** The array index a property key stands for, if it stands for one. */
  function ArrayIndexKey(s: string): (r: Option<nat>)
    ensures r.Some? ==> r.value <= MaxArrayIndex && s != ""
  {
    if IsCanonical(s) && DecimalValue(s) <= MaxArrayIndex then Some(DecimalValue(s)) else None
  }

  /** The string written for an index is canonical and denotes that index. */
  lemma {:induction false} DecimalIsCanonical(k: nat)
    ensures IsCanonical(Decimal(k)) && DecimalValue(Decimal(k)) == k
    decreases k
  {
    if k >= 10 {
      var t := Decimal(k / 10);
      DecimalIsCanonical(k / 10);
      var s := Decimal(k);
      assert s == t + [DigitChar(k % 10)];
      assert s[..|s| - 1] == t;
      if |t| == 1 {
        assert t[..0] == [];
      }
      assert s[0] == t[0];
    }
  }

  /** A positive leading digit makes a positive number. */
  lemma {:induction false} LeadingDigitPositive(s: string)
    requires |s| > 0 && AllDigits(s) && s[0] != '0'
    ensures DecimalValue(s) >= 1
    decreases |s|
  {
    if |s| > 1 {
      LeadingDigitPositive(s[..|s| - 1]);
    } else {
      assert s[..0] == [];
    }
  }

  /** A canonical string is the one written for the number it denotes. */
  lemma {:induction false} CanonicalIsDecimal(s: string)
    requires IsCanonical(s)
    ensures Decimal(DecimalValue(s)) == s
    decreases |s|
  {
    if |s| == 1 {
      assert s[..0] == [];
      assert DecimalValue(s) == DigitValue(s[0]);
    } else {
      var t, d := s[..|s| - 1], DigitValue(s[|s| - 1]);
      assert t[0] == s[0];
      LeadingDigitPositive(t);
      CanonicalIsDecimal(t);
      var v := DecimalValue(s);
      assert v == DecimalValue(t) * 10 + d;
      assert v / 10 == DecimalValue(t) && v % 10 == d;
      assert s == t + [s[|s| - 1]];
    }
  }

  /** The key an item writes for its index reads back as that index. */
  lemma ArrayIndexKeyOfDecimal(k: nat)
    requires k <= MaxArrayIndex
    ensures ArrayIndexKey(Decimal(k)) == Some(k)
  {
    DecimalIsCanonical(k);
  }

  /** A key reads back as an index only if it is exactly the string written for it. */
  lemma ArrayIndexKeyIsDecimal(s: string)
    requires ArrayIndexKey(s).Some?
    ensures s == Decimal(ArrayIndexKey(s).value)
  {
    CanonicalIsDecimal(s);
  }
}
