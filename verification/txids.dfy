/**
 * Transaction identifiers: "TX" followed by a random number in 0..9999 in
 * decimal, left-padded with '0' to four characters.
 */
module TxIds {
  import opened Wrappers
  import opened Js

  /** The id generator draws `Math.floor(Math.random() * 10000)`. */
  const IdRange: nat := 10000

  /** `s.padStart(width, c)` for a one-character pad string. */
  function PadStart(s: string, width: nat, c: char): (r: string)
    ensures |r| == if |s| >= width then |s| else width
    ensures r[|r| - |s|..] == s
    ensures forall i :: 0 <= i < |r| - |s| ==> r[i] == c
  {
    if |s| >= width then s else seq(width - |s|, _ => c) + s
  }

  /** `n.toString().padStart(4, '0')`. */
  function Pad4(n: nat): string
    requires n < IdRange
  {
    PadStart(DecimalString(n), 4, '0')
  }

  /** The id every create path assigns, for a drawn number n. */
  function TransactionId(n: nat): string
    requires n < IdRange
  {
    "TX" + Pad4(n)
  }

  /** Reads the number back out of an id of the generated shape, if it has it. */
  function ParseTransactionId(id: string): (r: Option<nat>)
    ensures r.Some? ==> r.value < IdRange
  {
    if |id| == 6 && id[..2] == "TX" && AllDigits(id[2..]) then
      DigitsValueBound(id[2..]);
      assert Pow10(4) == IdRange;
      Some(DigitsValue(id[2..], 10))
    else None
  }

  /** Padding to four places: four digits whose value is n. */
  lemma Pad4Digits(n: nat)
    requires n < IdRange
    ensures |Pad4(n)| == 4 && AllDigits(Pad4(n))
    ensures DigitsValue(Pad4(n), 10) == n
  {
    var ds := DecimalString(n);
    DecimalLength(n, 4);
    LeadingZerosValue(4 - |ds|, ds);
    assert Pad4(n) == seq(4 - |ds|, _ => '0') + ds;
    DecimalRoundTrip(n);
  }

  /** Every generated id is six characters: "TX" and four decimal digits. */
  lemma IdShape(n: nat)
    requires n < IdRange
    ensures |TransactionId(n)| == 6
    ensures TransactionId(n)[..2] == "TX"
    ensures AllDigits(TransactionId(n)[2..])
  {
    Pad4Digits(n);
    assert TransactionId(n)[2..] == Pad4(n);
  }

  /** The digits of a generated id parse back to the number drawn. */
  lemma IdRoundTrip(n: nat)
    requires n < IdRange
    ensures ParseTransactionId(TransactionId(n)) == Some(n)
  {
    IdShape(n);
    Pad4Digits(n);
    assert TransactionId(n)[2..] == Pad4(n);
  }

  /** A k-digit string is the k-place padding of the rendering of its own value. */
  lemma PaddedCanonical(d: string)
    requires d != [] && AllDigits(d)
    ensures PadStart(DecimalString(DigitsValue(d, 10)), |d|, '0') == d
  {
    DigitsValueBound(d);
    PaddedOf(DigitsValue(d, 10), d);
  }

  lemma PaddedOf(v: nat, d: string)
    requires d != [] && AllDigits(d) && DigitsValue(d, 10) == v && v < Pow10(|d|)
    ensures PadStart(DecimalString(v), |d|, '0') == d
  {
    var ds := DecimalString(v);
    DecimalLength(v, |d|);
    var z := |d| - |ds|;
    LeadingZerosValue(z, ds);
    DecimalRoundTrip(v);
    var p := PadStart(ds, |d|, '0');
    assert p == seq(z, _ => '0') + ds;
    DigitsDetermined(p, d);
  }

  /** Two digit strings of the same length and the same value are the same string. */
  lemma {:induction false} DigitsDetermined(s: string, t: string)
    requires AllDigits(s) && AllDigits(t) && |s| == |t|
    requires DigitsValue(s, 10) == DigitsValue(t, 10)
    ensures s == t
    decreases |s|
  {
    if s != [] {
      var n := |s| - 1;
      DecimalDigitValue(s[n]);
      DecimalDigitValue(t[n]);
      assert AllDigits(s[..n]) && AllDigits(t[..n]);
      LastDigitDetermined(DigitsValue(s[..n], 10), s[n] as int - '0' as int, DigitsValue(t[..n], 10), t[n] as int - '0' as int);
      DigitsDetermined(s[..n], t[..n]);
      assert s == s[..n] + [s[n]] && t == t[..n] + [t[n]];
    }
  }

  lemma LastDigitDetermined(a: nat, e: nat, b: nat, f: nat)
    requires e < 10 && f < 10 && a * 10 + e == b * 10 + f
    ensures a == b && e == f
  {
  }

  /** Every string of the generated shape is the id of the number it parses to. */
  lemma IdParseInverse(id: string)
    requires ParseTransactionId(id).Some?
    ensures TransactionId(ParseTransactionId(id).value) == id
  {
    PaddedCanonical(id[2..]);
    assert id == id[..2] + id[2..];
  }

  /** Distinct draws give distinct ids, so a clash means the same number was drawn. */
  lemma IdInjective(m: nat, n: nat)
    requires m < IdRange && n < IdRange
    ensures TransactionId(m) == TransactionId(n) <==> m == n
  {
    IdRoundTrip(m);
    IdRoundTrip(n);
  }
}
