/**
 * Exact sompi amounts carried through a decimal string.
 *
 * The prediction handlers bake an integer sompi amount into an escrow script, then hand the
 * relay the text `(sompi / 1e8).toFixed(8)`, which the relay parses back into sompi.  This
 * module models the three steps (a double-precision division, the printing of
 * Number.prototype.toFixed, the relay's parser) and says when the amount survives them.
 */
module Sompi {
  import opened Common

  const SOMPI_PER_KAS: nat := 100_000_000
  const TWO_TO_52: nat := 0x10_0000_0000_0000
  const TWO_TO_53: nat := 0x20_0000_0000_0000

  // ---------- decimal digits ----------

  predicate IsDigit(c: char) { '0' <= c <= '9' }

  predicate AllDigits(s: string) { forall i :: 0 <= i < |s| ==> IsDigit(s[i]) }

  function Digit(d: nat): (c: char)
    requires d < 10
    ensures IsDigit(c) && c as int - '0' as int == d
  {
    ('0' as int + d) as char
  }

  /** The decimal digits of `n`, most significant first, without leading zeros. */
  function Digits(n: nat): (s: string)
    ensures s != [] && AllDigits(s)
  {
    if n < 10 then [Digit(n)] else Digits(n / 10) + [Digit(n % 10)]
  }

  /** The number a digit string denotes. */
  function Value(s: string): nat
    requires AllDigits(s)
  {
    if s == [] then 0
    else Value(s[..|s| - 1]) * 10 + (s[|s| - 1] as int - '0' as int)
  }

  function Pow10(k: nat): (p: nat)
    ensures p >= 1
  {
    if k == 0 then 1 else 10 * Pow10(k - 1)
  }

  function Zeros(k: nat): (s: string)
    ensures |s| == k && AllDigits(s)
  {
    seq(k, _ => '0')
  }

  lemma {:induction false} ValueOfDigits(n: nat)
    ensures Value(Digits(n)) == n
  {
    if n >= 10 {
      ValueOfDigits(n / 10);
      assert Digits(n)[..|Digits(n)| - 1] == Digits(n / 10);
    }
  }

  lemma {:induction false} ValueOfSnoc(a: string, c: char)
    requires AllDigits(a) && IsDigit(c)
    ensures AllDigits(a + [c]) && Value(a + [c]) == Value(a) * 10 + (c as int - '0' as int)
  {
    assert (a + [c])[..|a|] == a;
  }

  lemma {:induction false} ValueOfConcat(a: string, b: string)
    requires AllDigits(a) && AllDigits(b)
    ensures AllDigits(a + b) && Value(a + b) == Value(a) * Pow10(|b|) + Value(b)
  {
    if b == [] {
      assert a + b == a;
    } else {
      var b', c := b[..|b| - 1], b[|b| - 1];
      assert b == b' + [c] && a + b == (a + b') + [c];
      ValueOfConcat(a, b');
      ValueOfSnoc(a + b', c);
      ValueOfSnoc(b', c);
      TimesTen(Value(a), Pow10(|b'|));
    }
  }

  lemma {:induction false} TimesTen(v: nat, p: nat)
    ensures v * (10 * p) == (v * p) * 10
  {
  }

  lemma {:induction false} ValueOfZeros(k: nat)
    ensures Value(Zeros(k)) == 0
  {
    if k > 0 {
      ValueOfZeros(k - 1);
      assert Zeros(k)[..k - 1] == Zeros(k - 1);
    }
  }

  // ---------- printing: Number.prototype.toFixed(8), ECMA-262 section 21.1.3.3 ----------

  /** The integer `n` for which n / 10^8 is closest to `x`; the larger one on a tie. */
  function Nearest(x: real): (n: int)
    ensures n as real - 0.5 <= x * 100000000.0 < n as real + 0.5
  {
    (x * 100000000.0 + 0.5).Floor
  }

  /** Pads `n` with zeros to at least nine digits and puts a point before the last eight. */
  function Print(n: nat): string {
    var d := Digits(n);
    var m := if |d| <= 8 then Zeros(9 - |d|) + d else d;
    m[..|m| - 8] + "." + m[|m| - 8..]
  }

  /** toFixed(8) of a non-negative number below 10^21 (larger ones print in exponent form). */
  function ToFixed8(x: real): string
    requires 0.0 <= x < 1000000000000000000000.0
  {
    Print(Nearest(x))
  }

  // ---------- parsing: the relay's kasToSompi ----------

  /** The position of the first point in `s`, or |s|. */
  function PointAt(s: string): (i: nat)
    ensures i <= |s| && (i < |s| ==> s[i] == '.')
    ensures forall j :: 0 <= j < i ==> s[j] != '.'
  {
    if s == [] || s[0] == '.' then 0 else 1 + PointAt(s[1..])
  }

  /** The sompi amount of a KAS text; None stands for the exceptions the relay throws. */
  function ParseKas(s: string): Option<nat> {
    var i := PointAt(s);
    var whole := s[..i];
    var fraction := if i < |s| then s[i + 1..] else [];
    if whole == [] || !AllDigits(whole) || !AllDigits(fraction) then None
    else if i < |s| && fraction == [] then None
    else if |fraction| > 8 then None
    else
      var sompi := Value(whole) * SOMPI_PER_KAS + Value(fraction + Zeros(8 - |fraction|));
      if sompi == 0 then None else Some(sompi)
  }

  lemma {:induction false} PointIsBetween(whole: string, fraction: string)
    requires AllDigits(whole)
    ensures var s := whole + "." + fraction;
      PointAt(s) == |whole| < |s| && s[..|whole|] == whole && s[|whole| + 1..] == fraction
  {
    var s := whole + "." + fraction;
    assert s[|whole|] == '.';
    assert forall j :: 0 <= j < |whole| ==> s[j] == whole[j];
  }

  /** Parsing reads the two sides of the point as one number when eight places are given. */
  lemma {:induction false} ParseOfParts(whole: string, fraction: string)
    requires whole != [] && AllDigits(whole) && AllDigits(fraction) && |fraction| == 8
    ensures ParseKas(whole + "." + fraction) ==
            var n := Value(whole + fraction); if n == 0 then None else Some(n)
  {
    PointIsBetween(whole, fraction);
    assert fraction + Zeros(0) == fraction;
    ValueOfConcat(whole, fraction);
    assert Pow10(8) == SOMPI_PER_KAS;
  }

  lemma {:induction false} ValueOfPadding(fraction: string, k: nat)
    requires AllDigits(fraction)
    ensures Value(fraction + Zeros(k)) == Value(fraction) * Pow10(k)
  {
    ValueOfConcat(fraction, Zeros(k));
    ValueOfZeros(k);
  }

  /** With fewer places the last one given still counts in its own place: the missing ones are zeros after it. */
  lemma {:induction false} ParseOfShortText(whole: string, fraction: string)
    requires whole != [] && AllDigits(whole) && AllDigits(fraction) && 1 <= |fraction| <= 8
    ensures ParseKas(whole + "." + fraction) ==
            var n := Value(whole) * 100_000_000 + Value(fraction) * Pow10(8 - |fraction|); if n == 0 then None else Some(n)
  {
    PointIsBetween(whole, fraction);
    ValueOfPadding(fraction, 8 - |fraction|);
  }

  /** Text without a point counts whole coins. */
  lemma {:induction false} ParseOfWholeText(s: string)
    requires s != [] && AllDigits(s)
    ensures ParseKas(s) == var n := Value(s) * 100_000_000; if n == 0 then None else Some(n)
  {
    assert PointAt(s) == |s| && s[..|s|] == s;
    ValueOfPadding("", 8);
  }

  /** Digits, and perhaps a point and between one and eight places. */
  predicate IsAmount(s: string, whole: string, fraction: string) {
    && whole != [] && AllDigits(whole) && AllDigits(fraction) && |fraction| <= 8
    && (if fraction == [] then s == whole else s == whole + "." + fraction)
  }

  /** Nothing else is accepted: no bare point, no ninth place, no other character. */
  lemma {:induction false} ParseAcceptsAmounts(s: string)
    requires ParseKas(s).Some?
    ensures exists whole, fraction :: IsAmount(s, whole, fraction)
  {
    var i := PointAt(s);
    if i < |s| {
      assert s == s[..i] + "." + s[i + 1..];
      assert IsAmount(s, s[..i], s[i + 1..]);
    } else {
      assert IsAmount(s, s, "");
    }
  }

  /** Printing an amount and parsing the text gives the amount back; only zero is refused. */
  lemma {:induction false} ParseOfPrint(n: nat)
    ensures ParseKas(Print(n)) == if n == 0 then None else Some(n)
  {
    var d := Digits(n);
    var z := Zeros(if |d| <= 8 then 9 - |d| else 0);
    var m := z + d;
    assert |d| > 8 ==> m == d;
    assert Value(m) == n by {
      ValueOfDigits(n);
      ValueOfZeros(|z|);
      ValueOfConcat(z, d);
    }
    assert m[..|m| - 8] + m[|m| - 8..] == m;
    ParseOfParts(m[..|m| - 8], m[|m| - 8..]);
  }

  // ---------- the double in the middle ----------

  /**
   * `q` is a possible double for sompi / 1e8: IEEE 754 division returns the exact quotient
   * with a relative error of at most 2^-53.
   */
  ghost predicate FloatQuotient(q: real, sompi: nat) {
    var exact := sompi as real / 100000000.0;
    && 0.0 <= q < 1000000000000000000000.0
    && exact - exact / (TWO_TO_53 as real) <= q <= exact + exact / (TWO_TO_53 as real)
  }

  /** What the relay moves when it is handed the text of the double `q`. */
  function Transferred(q: real): Option<nat>
    requires 0.0 <= q < 1000000000000000000000.0
  {
    ParseKas(ToFixed8(q))
  }

  /** The transfer is exact for precisely those doubles that lie within half a sompi. */
  lemma {:induction false} TransferExactIff(q: real, sompi: nat)
    requires 0.0 <= q < 1000000000000000000000.0
    ensures Transferred(q) == Some(sompi) <==>
            sompi >= 1 && sompi as real - 0.5 <= q * 100000000.0 < sompi as real + 0.5
  {
    ParseOfPrint(Nearest(q));
    NearestIff(q, sompi);
  }

  lemma {:induction false} NearestIff(q: real, n: nat)
    ensures Nearest(q) == n <==> n as real - 0.5 <= q * 100000000.0 < n as real + 0.5
  {
  }

  /** Every positive amount below 2^52 sompi reaches the chain unchanged. */
  lemma {:induction false} TransferExact(q: real, sompi: nat)
    requires 1 <= sompi < TWO_TO_52
    requires FloatQuotient(q, sompi)
    ensures Transferred(q) == Some(sompi)
  {
    var error := sompi as real / (TWO_TO_53 as real);
    assert error < 0.5;
    assert sompi as real - error <= q * 100000000.0 <= sompi as real + error;
    TransferExactIff(q, sompi);
  }

  /** `moved` is what the relay may pay when a handler asks for `sompi`. */
  ghost predicate Moves(sompi: nat, moved: Option<nat>) {
    exists q :: FloatQuotient(q, sompi) && moved == Transferred(q)
  }

  lemma {:induction false} MovesExactly(sompi: nat, moved: Option<nat>)
    requires 1 <= sompi < TWO_TO_52 && Moves(sompi, moved)
    ensures moved == Some(sompi)
  {
    var q :| FloatQuotient(q, sompi) && moved == Transferred(q);
    TransferExact(q, sompi);
  }

  /** The exact amount is among what a division may lead to, so below the bound it is all there is. */
  lemma {:induction false} MovesIff(sompi: nat, moved: Option<nat>)
    requires 1 <= sompi < TWO_TO_52
    ensures Moves(sompi, moved) <==> moved == Some(sompi)
  {
    if Moves(sompi, moved) {
      MovesExactly(sompi, moved);
    }
    var q := sompi as real / 100000000.0;
    assert FloatQuotient(q, sompi);
    TransferExact(q, sompi);
  }

  /** The bound cannot be raised: at 2^52 the permitted error already moves one sompi more. */
  lemma {:induction false} BoundIsTight()
    ensures exists q :: FloatQuotient(q, TWO_TO_52) && Transferred(q) == Some(TWO_TO_52 + 1)
  {
    var q := (TWO_TO_52 as real + 0.5) / 100000000.0;
    assert FloatQuotient(q, TWO_TO_52);
    TransferExactIff(q, TWO_TO_52 + 1);
  }

  // ---------- rounding against flooring ----------

  /** Math.round: halves go up. */
  function MathRound(x: real): (n: int)
    ensures n as real - 0.5 <= x < n as real + 0.5
  {
    (x + 0.5).Floor
  }

  /**
   * Flooring a stake into sompi, while the transfer prints it, can differ by one sompi: the
   * double nearest 0.29 (numerator over 2^54) times 1e8 is the double 29000000 - 2^-28.
   */
  lemma {:induction false} FlooringLosesASompi()
    ensures
      var stakeKas := 5224175567749775.0 / 18014398509481984.0;
      var product := 29000000.0 - 1.0 / 268435456.0;
      && stakeKas * 100000000.0 * (1.0 - 1.0 / (TWO_TO_53 as real)) <= product
      && product <= stakeKas * 100000000.0 * (1.0 + 1.0 / (TWO_TO_53 as real))
      && Transferred(stakeKas) == Some(MathRound(product))
      && Transferred(stakeKas) == Some(product.Floor + 1)
  {
    var stakeKas := 5224175567749775.0 / 18014398509481984.0;
    TransferExactIff(stakeKas, 29000000);
  }
}
