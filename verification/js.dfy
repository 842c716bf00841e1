/**
 * The JavaScript value and string semantics the handlers rely on: request
 * fields that may be missing, `null` or present; truthiness; `parseInt`;
 * `trim`; `toLowerCase` on the ASCII range; `includes`; decimal rendering of
 * integers.
 */
module Js {
  import opened Wrappers

  /**
   * One field of a JSON request body. `Undefined` is a key the client did not
   * send (`x === undefined`), `Null` an explicit JSON `null`, `Val` a value.
   */
  datatype Field<T> = Undefined | Null | Val(value: T) {
    /** `x !== undefined`: the key was sent, possibly as `null`. */
    predicate Supplied() {
      !Undefined?
    }

    /** `x ?? default`: both `null` and a missing key fall back. */
    function Coalesce(default: T): T {
      if Val? then value else default
    }
  }

  /** JavaScript truthiness of a string field: `undefined`, `null` and "" are falsy. */
  predicate TruthyText(f: Field<string>) {
    f.Val? && f.value != ""
  }

  /** JavaScript truthiness of a numeric field: `undefined`, `null` and 0 are falsy. */
  predicate TruthyInt(f: Field<int>) {
    f.Val? && f.value != 0
  }

  /** `x || null` on a string field. */
  function TextOrNull(f: Field<string>): (r: Option<string>)
    ensures r.Some? <==> TruthyText(f)
    ensures r.Some? ==> r.value == f.value && r.value != ""
  {
    if TruthyText(f) then Some(f.value) else None
  }

  /** `x || default` on a string field. */
  function TextOr(f: Field<string>, default: string): (r: string)
    ensures TruthyText(f) ==> r == f.value
    ensures !TruthyText(f) ==> r == default
  {
    if TruthyText(f) then f.value else default
  }

  /** `x || null` on a numeric id field (a user id, say). */
  function IntOrNull(f: Field<int>): (r: Option<int>)
    ensures r.Some? <==> TruthyInt(f)
    ensures r.Some? ==> r.value == f.value && r.value != 0
  {
    if TruthyInt(f) then Some(f.value) else None
  }

  /**
   * A JavaScript number as far as the handlers look at it: an integral
   * value, a finite fraction or an infinity (`NonInteger`), or NaN.
   */
  datatype Number = Int(value: int) | NonInteger | NaN

  /** `!isNaN(n) && n > 0 && Number.isInteger(n)`. */
  predicate IsPositiveInteger(n: Number) {
    n.Int? && n.value > 0
  }

  /** A raw JSON value as it can arrive in a request body under some key. */
  datatype Raw = Absent | Null | Str(s: string) | Num(n: Number) | Bool(b: bool) | Other

  // ---------------------------------------------------------------------------
  // Characters

  /** The line terminators of ECMAScript (not matched by a regular expression `.`). */
  predicate IsLineTerminator(c: char) {
    c == '\n' || c == '\r' || c == '\U{2028}' || c == '\U{2029}'
  }

  /** The characters `\s` matches and `trim` removes: white space plus line terminators. */
  predicate IsWhite(c: char) {
    || c == ' ' || c == '\t' || c == '\U{000B}' || c == '\U{000C}'
    || c == '\U{00A0}' || c == '\U{1680}' || ('\U{2000}' <= c <= '\U{200A}')
    || c == '\U{202F}' || c == '\U{205F}' || c == '\U{3000}' || c == '\U{FEFF}'
    || IsLineTerminator(c)
  }

  /** A decimal digit character. */
  predicate IsDigit(c: char) {
    DigitValue(c, 10).Some?
  }

  /** A string of decimal digits only. */
  predicate AllDigits(s: string) {
    forall i :: 0 <= i < |s| ==> IsDigit(s[i])
  }

  predicate IsAsciiAlnum(c: char) {
    '0' <= c <= '9' || 'a' <= c <= 'z' || 'A' <= c <= 'Z'
  }

  /** The UTF-16 code units that encode `c`: a character outside the Basic Multilingual Plane takes a surrogate pair. */
  function Utf16Units(c: char): nat {
    if c as int > 0xFFFF then 2 else 1
  }

  /** A JavaScript string's `length`: its count of UTF-16 code units. */
  function Utf16Length(s: string): (n: nat)
    ensures |s| <= n <= 2 * |s|
    ensures n == |s| <==> forall i :: 0 <= i < |s| ==> s[i] as int <= 0xFFFF
  {
    if s == [] then 0 else Utf16Units(s[0]) + Utf16Length(s[1..])
  }

  lemma {:induction false} Utf16LengthAppend(a: string, b: string)
    ensures Utf16Length(a + b) == Utf16Length(a) + Utf16Length(b)
    decreases |a|
  {
    if a != [] {
      assert (a + b)[1..] == a[1..] + b;
      Utf16LengthAppend(a[1..], b);
    } else {
      assert a + b == b;
    }
  }

  /** Lower-cases an ASCII capital letter and leaves every other character alone. */
  function AsciiLower(c: char): char {
    if 'A' <= c <= 'Z' then (c as int - 'A' as int + 'a' as int) as char else c
  }

  function Lower(s: string): (r: string)
    ensures |r| == |s|
    ensures forall i :: 0 <= i < |s| ==> r[i] == AsciiLower(s[i])
  {
    if s == [] then [] else [AsciiLower(s[0])] + Lower(s[1..])
  }

  /** A string with no ASCII capital is its own lower-case form. */
  lemma LowercaseFixed(s: string)
    requires forall i :: 0 <= i < |s| ==> !('A' <= s[i] <= 'Z')
    ensures Lower(s) == s
  {
  }

  // ---------------------------------------------------------------------------
  // Trimming

  function TrimStart(s: string): (r: string)
    ensures r == [] || !IsWhite(r[0])
    ensures |r| <= |s| && r == s[|s| - |r|..]
    ensures forall i :: 0 <= i < |s| - |r| ==> IsWhite(s[i])
  {
    if s != [] && IsWhite(s[0]) then TrimStart(s[1..]) else s
  }

  function TrimEnd(s: string): (r: string)
    ensures r == [] || !IsWhite(r[|r| - 1])
    ensures |r| <= |s| && r == s[..|r|]
    ensures forall i :: |r| <= i < |s| ==> IsWhite(s[i])
  {
    if s != [] && IsWhite(s[|s| - 1]) then TrimEnd(s[..|s| - 1]) else s
  }

  lemma TrimStartKeeps(s: string)
    requires s != [] && !IsWhite(s[0])
    ensures TrimStart(s) == s
  {
  }

  lemma DigitNotWhite(c: char)
    requires '0' <= c <= '9'
    ensures !IsWhite(c)
  {
  }

  /** `String.prototype.trim`. */
  function Trim(s: string): string {
    TrimEnd(TrimStart(s))
  }

  /** A string that `trim` leaves unchanged. */
  predicate IsTrimmed(s: string) {
    s == [] || (!IsWhite(s[0]) && !IsWhite(s[|s| - 1]))
  }

  lemma TrimmedIsFixed(s: string)
    requires IsTrimmed(s)
    ensures Trim(s) == s
  {
  }

  lemma TrimIsTrimmed(s: string)
    ensures IsTrimmed(Trim(s))
  {
    var t := TrimStart(s);
    var r := TrimEnd(t);
    if r != [] {
      assert r[0] == t[0];
    }
  }

  /** `s.trim() !== ''`: the string holds a character that is not white space. */
  lemma TrimEmptyIffAllWhite(s: string)
    ensures Trim(s) == "" <==> forall i :: 0 <= i < |s| ==> IsWhite(s[i])
  {
    var t := TrimStart(s);
    if t != [] {
      assert t[0] == s[|s| - |t|] && !IsWhite(t[0]);
    }
  }

  // ---------------------------------------------------------------------------
  // Substrings

  /** `hay.includes(needle)`. */
  predicate Contains(hay: string, needle: string)
    decreases |hay|
  {
    needle <= hay || (hay != [] && Contains(hay[1..], needle))
  }

  lemma EmptyContained(hay: string)
    ensures Contains(hay, "")
  {
  }

  // ---------------------------------------------------------------------------
  // Decimal rendering and parseInt

  function DigitChar(d: nat): char
    requires d < 10
  {
    ('0' as int + d) as char
  }

  /** `String(n)` for a non-negative integer. */
  function DecimalString(n: nat): (r: string)
    ensures r != []
    ensures AllDigits(r)
    ensures |r| > 1 ==> r[0] != '0'
  {
    if n < 10 then [DigitChar(n)] else DecimalString(n / 10) + [DigitChar(n % 10)]
  }

  /** Value of a digit character in the given radix, if it is one. */
  function DigitValue(c: char, radix: nat): Option<nat> {
    if '0' <= c <= '9' && (c as int - '0' as int) < radix then Some(c as int - '0' as int)
    else if radix == 16 && 'a' <= c <= 'f' then Some(c as int - 'a' as int + 10)
    else if radix == 16 && 'A' <= c <= 'F' then Some(c as int - 'A' as int + 10)
    else None
  }

  /** Length of the longest prefix of `s` made of digits of the radix. */
  function DigitRun(s: string, radix: nat): (n: nat)
    ensures n <= |s|
    ensures forall i :: 0 <= i < n ==> DigitValue(s[i], radix).Some?
    ensures n < |s| ==> DigitValue(s[n], radix).None?
  {
    if s != [] && DigitValue(s[0], radix).Some? then 1 + DigitRun(s[1..], radix) else 0
  }

  /** Positional value of a digit string. */
  function DigitsValue(s: string, radix: nat): nat
    requires forall i :: 0 <= i < |s| ==> DigitValue(s[i], radix).Some?
  {
    if s == [] then 0
    else DigitsValue(s[..|s| - 1], radix) * radix + DigitValue(s[|s| - 1], radix).value
  }

  /** Drops one leading '+' or '-'. */
  function StripSign(t: string): string {
    if t != [] && (t[0] == '-' || t[0] == '+') then t[1..] else t
  }

  /** Without an explicit radix, "0x"/"0X" after the sign selects radix 16. */
  predicate HexPrefixed(u: string, autoRadix: bool) {
    autoRadix && |u| >= 2 && u[0] == '0' && (u[1] == 'x' || u[1] == 'X')
  }

  /** The magnitude `parseInt` reads after the sign: the longest digit run, if any. */
  function ParseMagnitude(u: string, autoRadix: bool): Option<nat> {
    var radix := if HexPrefixed(u, autoRadix) then 16 else 10;
    var body := if HexPrefixed(u, autoRadix) then u[2..] else u;
    var n := DigitRun(body, radix);
    if n == 0 then None else Some(DigitsValue(body[..n], radix))
  }

  /**
   * 2^1024 - 2^970, the least magnitude that rounds to an infinity rather
   * than to the largest finite double (section 6.1.6.1 of ECMA-262).
   */
  const InfinityThreshold: nat := 179769313486231580793728971405303415079934132710037826936173778980444968292764750946649017977587207096330286416692887910946555547851940402630657488671505820681908902000708383676273854845817711531764475730270069855571366959622842914819860834936475292719074168444365510704342711559699508093042880177904174497792

  /** The magnitude `parseInt` reads once leading white space and the sign are skipped. */
  function Magnitude(s: string, autoRadix: bool): Option<nat> {
    ParseMagnitude(StripSign(TrimStart(s)), autoRadix)
  }

  /** The sign `parseInt` reads is '-'. */
  predicate Negated(s: string) {
    var t := TrimStart(s);
    t != [] && t[0] == '-'
  }

  /**
   * `parseInt(s, 10)` (autoRadix false) or `parseInt(s)` (autoRadix true):
   * skip leading white space, read an optional sign and the longest run of
   * digits; no digits gives NaN, and a magnitude past the double range gives
   * an infinity. A finite value is the exact integer: the rounding of values
   * above 2^53 to the nearest double is not modelled.
   */
  function ParseInt(s: string, autoRadix: bool): (r: Number)
    ensures r.NaN? <==> Magnitude(s, autoRadix).None?
    ensures r.NonInteger? <==> Magnitude(s, autoRadix).Some? && Magnitude(s, autoRadix).value >= InfinityThreshold
    ensures r.Int? ==> -(InfinityThreshold as int) < r.value < InfinityThreshold
  {
    match Magnitude(s, autoRadix)
    case None => NaN
    case Some(v) =>
      if v >= InfinityThreshold then NonInteger
      else Int(if Negated(s) then -(v as int) else v)
  }

  lemma {:induction false} DecimalRoundTrip(n: nat)
    ensures DigitsValue(DecimalString(n), 10) == n
  {
    var s := DecimalString(n);
    if n >= 10 {
      DecimalRoundTrip(n / 10);
      assert s[..|s| - 1] == DecimalString(n / 10);
    }
  }

  /** `parseInt(String(n))` gives back n, whichever radix rule is in force, unless n is past the double range. */
  lemma ParseDecimal(n: nat, autoRadix: bool)
    ensures ParseInt(DecimalString(n), autoRadix) == if n < InfinityThreshold then Int(n) else NonInteger
  {
    var s := DecimalString(n);
    ParseDigitString(s, autoRadix);
    DecimalRoundTrip(n);
  }

  /** `parseInt` reads a non-empty string of decimal digits as its positional value. */
  lemma ParseDigitString(s: string, autoRadix: bool)
    requires s != [] && AllDigits(s)
    requires |s| > 1 ==> s[0] != '0'
    ensures ParseInt(s, autoRadix) == if DigitsValue(s, 10) < InfinityThreshold then Int(DigitsValue(s, 10)) else NonInteger
  {
    DecimalDigitValue(s[0]);
    DigitNotWhite(s[0]);
    TrimStartKeeps(s);
    assert StripSign(s) == s;
    assert !HexPrefixed(s, autoRadix);
    DigitRunAll(s, 10);
    assert s[..|s|] == s;
  }

  lemma {:induction false} DigitRunAll(s: string, radix: nat)
    requires forall i :: 0 <= i < |s| ==> DigitValue(s[i], radix).Some?
    ensures DigitRun(s, radix) == |s|
  {
    if s != [] {
      DigitRunAll(s[1..], radix);
    }
  }

  function Pow10(k: nat): (r: nat)
    ensures r >= 1
  {
    if k == 0 then 1 else 10 * Pow10(k - 1)
  }

  lemma DecimalDigitValue(c: char)
    requires IsDigit(c)
    ensures '0' <= c <= '9'
    ensures DigitValue(c, 10) == Some(c as int - '0' as int)
  {
  }

  /** A string of k decimal digits denotes a number below 10^k. */
  lemma {:induction false} DigitsValueBound(s: string)
    requires AllDigits(s)
    ensures DigitsValue(s, 10) < Pow10(|s|)
  {
    if s != [] {
      DigitsValueBound(s[..|s| - 1]);
    }
  }

  /** Rendering n in decimal takes at most k characters when n < 10^k. */
  lemma {:induction false} DecimalLength(n: nat, k: nat)
    requires k >= 1 && n < Pow10(k)
    ensures |DecimalString(n)| <= k
  {
    if n >= 10 {
      DecimalLength(n / 10, k - 1);
    }
  }

  /** A digit string of value 0 is all zeros. */
  lemma {:induction false} ZeroValueAllZeros(s: string)
    requires AllDigits(s)
    requires DigitsValue(s, 10) == 0
    ensures forall i :: 0 <= i < |s| ==> s[i] == '0'
  {
    if s != [] {
      ZeroValueAllZeros(s[..|s| - 1]);
      assert forall i :: 0 <= i < |s| - 1 ==> s[i] == s[..|s| - 1][i];
    }
  }

  /** Leading zeros do not change the value of a digit string. */
  lemma {:induction false} LeadingZerosValue(z: nat, s: string)
    requires AllDigits(s)
    ensures AllDigits(seq(z, _ => '0') + s)
    ensures DigitsValue(seq(z, _ => '0') + s, 10) == DigitsValue(s, 10)
  {
    var t := seq(z, _ => '0') + s;
    assert forall i :: 0 <= i < |t| ==> IsDigit(t[i]);
    if s == [] {
      if z > 0 {
        assert t[..|t| - 1] == seq(z - 1, _ => '0') + [];
        LeadingZerosValue(z - 1, []);
      }
    } else {
      assert t[..|t| - 1] == seq(z, _ => '0') + s[..|s| - 1];
      LeadingZerosValue(z, s[..|s| - 1]);
    }
  }

  /** Distinct numbers render as distinct strings. */
  lemma DecimalInjective(m: nat, n: nat)
    requires DecimalString(m) == DecimalString(n)
    ensures m == n
  {
    DecimalRoundTrip(m);
    DecimalRoundTrip(n);
  }
}
