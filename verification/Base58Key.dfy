/**
 * The extended private key of the key generator: Base58 text decoded to a fixed 82 bytes, from
 * which bytes 46 to 78 are the private key.
 */
module Base58Key {
  import opened Common

  const ALPHABET: string :=
    "123456789" + "ABCDEFGH" + "JKLMN" + "PQRSTUVWXYZ" + "abcdefghijk" + "mnopqrstuvwxyz"

  type Byte = b: nat | b < 256

  // ---------- positional notation ----------

  function Pow(b: nat, e: nat): (p: nat)
    ensures b > 0 ==> p > 0
  {
    if e == 0 then 1 else Pow(b, e - 1) * b
  }

  predicate Below(ds: seq<nat>, b: nat) { forall i :: 0 <= i < |ds| ==> ds[i] < b }

  /** The number written by the digits `ds`, most significant first. */
  function Val(b: nat, ds: seq<nat>): nat {
    if ds == [] then 0 else Val(b, ds[..|ds| - 1]) * b + ds[|ds| - 1]
  }

  /** The digits of `n` without leading zeros; none for zero. */
  function Digits(b: nat, n: nat): (ds: seq<nat>)
    requires b >= 2
    ensures Below(ds, b)
  {
    if n == 0 then [] else DivShrinks(n, b); Digits(b, n / b) + [n % b]
  }

  lemma {:induction false} DivShrinks(n: nat, b: nat)
    requires n > 0 && b >= 2
    ensures n / b < n && n == n / b * b + n % b
  {
  }

  lemma {:induction false} DigitsSpell(b: nat, n: nat)
    requires b >= 2
    ensures Val(b, Digits(b, n)) == n
    ensures n > 0 ==> Digits(b, n) != [] && Digits(b, n)[0] > 0
  {
    if n > 0 {
      DivShrinks(n, b);
      DigitsSpell(b, n / b);
      assert Digits(b, n)[..|Digits(b, n)| - 1] == Digits(b, n / b);
    }
  }

  function Zeros(k: nat): seq<nat> { seq(k, _ => 0) }

  lemma {:induction false} ValOfConcat(b: nat, x: seq<nat>, y: seq<nat>)
    ensures Val(b, x + y) == Val(b, x) * Pow(b, |y|) + Val(b, y)
  {
    if y == [] {
      assert x + y == x;
    } else {
      var y', d := y[..|y| - 1], y[|y| - 1];
      ValOfConcat(b, x, y');
      assert (x + y)[..|x + y| - 1] == x + y';
      Rearrange(Val(b, x), Pow(b, |y'|), Val(b, y'), b, d);
    }
  }

  lemma {:induction false} Rearrange(v: int, p: int, w: int, b: int, d: int)
    ensures (v * p + w) * b + d == v * (p * b) + (w * b + d)
  {
    assert v * p * b == v * (p * b);
  }

  lemma {:induction false} ValOfZeros(b: nat, k: nat)
    ensures Val(b, Zeros(k)) == 0
  {
    if k > 0 {
      ValOfZeros(b, k - 1);
      assert Zeros(k)[..k - 1] == Zeros(k - 1);
    }
  }

  lemma {:induction false} LeadingZeros(b: nat, k: nat, ds: seq<nat>)
    ensures Val(b, Zeros(k) + ds) == Val(b, ds)
  {
    ValOfZeros(b, k);
    ValOfConcat(b, Zeros(k), ds);
    assert 0 * Pow(b, |ds|) == 0;
  }

  lemma {:induction false} ValBound(b: nat, ds: seq<nat>)
    requires Below(ds, b)
    ensures Val(b, ds) < Pow(b, |ds|) || b == 0
    ensures ds != [] && ds[0] > 0 ==> Val(b, ds) >= Pow(b, |ds| - 1)
  {
    if ds != [] {
      var init := ds[..|ds| - 1];
      ValBound(b, init);
      StepBound(Val(b, init), Pow(b, |init|), b, ds[|ds| - 1]);
      if |init| > 0 { MulMonotone(Pow(b, |init| - 1), Val(b, init), b); }
    }
  }

  lemma {:induction false} StepBound(v: nat, p: nat, b: nat, d: nat)
    requires d < b && v < p
    ensures v * b + d < p * b
  {
    assert (v + 1) * b <= p * b;
  }

  lemma {:induction false} MulMonotone(x: nat, y: nat, b: nat)
    ensures x <= y ==> x * b <= y * b
  {
  }

  lemma {:induction false} DigitsAreUnique(b: nat, x: seq<nat>, y: seq<nat>)
    requires |x| == |y| && Below(x, b) && Below(y, b) && Val(b, x) == Val(b, y)
    ensures x == y
  {
    if x != [] {
      var n := |x| - 1;
      QuotientAndRemainder(Val(b, x), Val(b, x[..n]), b, x[n]);
      QuotientAndRemainder(Val(b, y), Val(b, y[..n]), b, y[n]);
      DigitsAreUnique(b, x[..n], y[..n]);
      assert x == x[..n] + [x[n]] && y == y[..n] + [y[n]];
    }
  }

  lemma {:induction false} QuotientAndRemainder(v: nat, q: nat, d: nat, r: nat)
    requires v == q * d + r && r < d
    ensures v / d == q && v % d == r
  {
    var q', r' := v / d, v % d;
    assert v == q' * d + r';
    MulMonotone(q' + 1, q, d);
    MulMonotone(q + 1, q', d);
  }

  // ---------- the decoder ----------

  /** `ALPHABET.indexOf(c)`, which is -1 for a character outside the alphabet. */
  function IndexIn(alphabet: string, c: char): (i: int)
    ensures -1 <= i < |alphabet|
    ensures i >= 0 ==> alphabet[i] == c
    ensures i == -1 <==> c !in alphabet
  {
    if alphabet == [] then -1
    else if alphabet[|alphabet| - 1] == c && IndexIn(alphabet[..|alphabet| - 1], c) == -1 then |alphabet| - 1
    else
      assert c in alphabet ==> c == alphabet[|alphabet| - 1] || c in alphabet[..|alphabet| - 1];
      IndexIn(alphabet[..|alphabet| - 1], c)
  }

  /** The BigInt accumulated over the text. */
  function Accumulated(s: string): int {
    if s == [] then 0 else Accumulated(s[..|s| - 1]) * 58 + IndexIn(ALPHABET, s[|s| - 1])
  }

  function HexDigit(d: nat): char
    requires d < 16
  {
    if d < 10 then '0' + d as char else 'a' + (d - 10) as char
  }

  /** The value of a hexadecimal digit in either case; -1 for any other character. */
  function HexValue(c: char): int {
    if '0' <= c <= '9' then c as int - '0' as int
    else if 'a' <= c <= 'f' then c as int - 'a' as int + 10
    else if 'A' <= c <= 'F' then c as int - 'A' as int + 10
    else -1
  }

  function HexText(ds: seq<nat>): (r: string)
    requires Below(ds, 16)
    ensures |r| == |ds|
  {
    seq(|ds|, i requires 0 <= i < |ds| => HexDigit(ds[i]))
  }

  /** `n.toString(16)`. */
  function ToString16(n: int): string {
    if n < 0 then "-" + HexText(Digits(16, -n)) else if n == 0 then "0" else HexText(Digits(16, n))
  }

  function PadStart(s: string, width: nat): string {
    if |s| >= width then s else seq(width - |s|, _ => '0') + s
  }

  /** `Buffer.from(s, 'hex')`: stops at the first pair that is not two hexadecimal digits. */
  function FromHex(s: string): (r: seq<Byte>)
    ensures |r| <= |s| / 2
  {
    if |s| < 2 then []
    else
      var hi, lo := HexValue(s[0]), HexValue(s[1]);
      if hi < 0 || lo < 0 then [] else [(16 * hi + lo) as Byte] + FromHex(s[2..])
  }

  /** The bytes of the text padded to `n` bytes; the decoder pads to 82. */
  function DecodeTo(s: string, n: nat): seq<Byte> { FromHex(PadStart(ToString16(Accumulated(s)), 2 * n)) }

  function Decode(s: string): seq<Byte> { DecodeTo(s, 82) }

  method DecodeBase58(s: string) returns (r: seq<Byte>)
    ensures r == Decode(s)
  {
    var result, i := 0, 0;
    while i < |s|
      invariant 0 <= i <= |s|
      invariant result == Accumulated(s[..i])
    {
      assert s[..i + 1][..i] == s[..i];
      result := result * 58 + IndexIn(ALPHABET, s[i]);
      i := i + 1;
    }
    assert s[..i] == s;
    var hex := PadStart(ToString16(result), 164);
    r := FromHex(hex);
  }

  /** The private key handed on: `raw.slice(46, 78)`, which clamps like every slice. */
  function PrivateKey(raw: seq<Byte>): seq<Byte> {
    raw[if |raw| < 46 then |raw| else 46..if |raw| < 78 then |raw| else 78]
  }

  // ---------- what it decodes ----------

  predicate InAlphabet(s: string) { forall i :: 0 <= i < |s| ==> s[i] in ALPHABET }

  function Indices(s: string): (ds: seq<nat>)
    requires InAlphabet(s)
    ensures |ds| == |s| && Below(ds, 58)
  {
    seq(|s|, i requires 0 <= i < |s| => IndexIn(ALPHABET, s[i]) as nat)
  }

  lemma {:induction false} AccumulatedIsValue(s: string)
    requires InAlphabet(s)
    ensures Accumulated(s) == Val(58, Indices(s))
  {
    if s != [] {
      var init := s[..|s| - 1];
      AccumulatedIsValue(init);
      assert Indices(s)[..|s| - 1] == Indices(init);
    }
  }

  /** A byte string read as one big-endian integer. */
  function BigEndian(bytes: seq<Byte>): nat { Val(256, bytes) }

  predicate IsHexOf(s: string, ds: seq<nat>) {
    |s| == |ds| && Below(ds, 16) && forall i :: 0 <= i < |ds| ==> s[i] == HexDigit(ds[i])
  }

  lemma {:induction false} FirstPair(s: string, ds: seq<nat>)
    requires IsHexOf(s, ds) && |ds| >= 2
    ensures FromHex(s) == [(16 * ds[0] + ds[1]) as Byte] + FromHex(s[2..])
  {
  }

  lemma {:induction false} DropPair(s: string, ds: seq<nat>)
    requires IsHexOf(s, ds) && |ds| >= 2
    ensures IsHexOf(s[2..], ds[2..])
  {
    assert forall i :: 0 <= i < |ds| - 2 ==> s[2..][i] == s[i + 2] && ds[2..][i] == ds[i + 2];
  }

  lemma {:induction false} FromHexReadsPairs(s: string, ds: seq<nat>, n: nat)
    requires IsHexOf(s, ds) && |ds| == 2 * n
    ensures |FromHex(s)| == n && BigEndian(FromHex(s)) == Val(16, ds)
  {
    if n > 0 {
      FirstPair(s, ds);
      DropPair(s, ds);
      var x, y, rest := ds[0], ds[1], FromHex(s[2..]);
      FromHexReadsPairs(s[2..], ds[2..], n - 1);
      PairThenRest(x, y, ds[2..], rest);
      assert ds == [x, y] + ds[2..];
    }
  }

  /** An unpaired last digit is dropped. */
  lemma {:induction false} FromHexDropsLast(s: string, ds: seq<nat>)
    requires IsHexOf(s, ds) && |ds| % 2 == 1
    ensures FromHex(s) == FromHex(s[..|s| - 1])
  {
    var m := |s| - 1;
    if m > 0 {
      FirstPair(s, ds);
      assert IsHexOf(s[..m], ds[..m]);
      FirstPair(s[..m], ds[..m]);
      DropPair(s, ds);
      FromHexDropsLast(s[2..], ds[2..]);
      assert s[2..][..m - 2] == s[..m][2..];
    }
  }

  lemma {:induction false} PairThenRest(x: nat, y: nat, ds: seq<nat>, rest: seq<nat>)
    requires |ds| == 2 * |rest| && Val(16, ds) == Val(256, rest)
    ensures Val(16, [x, y] + ds) == Val(256, [16 * x + y] + rest)
  {
    ValOfConcat(16, [x, y], ds);
    ValOfConcat(256, [16 * x + y], rest);
    PowSquare(|rest|);
    TwoDigits(x, y);
  }

  lemma {:induction false} TwoDigits(x: nat, y: nat)
    ensures Val(16, [x, y]) == 16 * x + y == Val(256, [16 * x + y])
  {
    assert [x, y][..1] == [x] && [x][..0] == [] && [16 * x + y][..0] == [];
    assert Val(16, [x]) == x;
  }

  lemma {:induction false} PowSquare(n: nat)
    ensures Pow(16, 2 * n) == Pow(256, n)
  {
    if n > 0 {
      PowSquare(n - 1);
      assert Pow(16, 2 * n) == Pow(16, 2 * n - 1) * 16;
      assert Pow(16, 2 * n - 1) == Pow(16, 2 * n - 2) * 16;
    }
  }

  lemma {:induction false} DigitsFit(v: nat, n: nat)
    requires v < Pow(256, n)
    ensures |Digits(16, v)| <= 2 * n
  {
    var ds := Digits(16, v);
    DigitsSpell(16, v);
    ValBound(16, ds);
    PowSquare(n);
    if |ds| > 2 * n {
      PowMonotone(16, 2 * n, |ds| - 1);
    }
  }

  lemma {:induction false} PowMonotone(b: nat, m: nat, n: nat)
    requires b > 0 && m <= n
    ensures Pow(b, m) <= Pow(b, n)
  {
    if m < n {
      PowMonotone(b, m, n - 1);
      MulMonotone(1, b, Pow(b, n - 1));
    }
  }

  predicate Padded(text: string, ds: seq<nat>, v: nat, n: nat) {
    IsHexOf(text, ds) && |ds| == 2 * n && Val(16, ds) == v
  }

  lemma {:induction false} PadIsZeros(text: string, ds: seq<nat>, m: nat)
    requires IsHexOf(text, ds) && |ds| <= m
    ensures IsHexOf(PadStart(text, m), Zeros(m - |ds|) + ds)
  {
  }

  /** The padded text is `2 * n` hexadecimal digits of the value. */
  lemma {:induction false} PaddedText(v: nat, n: nat)
    requires n > 0 && v < Pow(256, n)
    ensures exists ds :: Padded(PadStart(ToString16(v), 2 * n), ds, v, n)
  {
    DigitsFit(v, n);
    DigitsSpell(16, v);
    var ds := if v == 0 then Zeros(1) else Digits(16, v);
    ValOfZeros(16, 1);
    PadIsZeros(ToString16(v), ds, 2 * n);
    LeadingZeros(16, 2 * n - |ds|, ds);
    assert Padded(PadStart(ToString16(v), 2 * n), Zeros(2 * n - |ds|) + ds, v, n);
  }

  /** Text over the alphabet whose value fits decodes to exactly `n` bytes of that value. */
  lemma {:induction false} DecodeIsValue(s: string, n: nat)
    requires n > 0 && InAlphabet(s) && Val(58, Indices(s)) < Pow(256, n)
    ensures |DecodeTo(s, n)| == n && BigEndian(DecodeTo(s, n)) == Val(58, Indices(s))
  {
    AccumulatedIsValue(s);
    var v := Val(58, Indices(s));
    var text := PadStart(ToString16(v), 2 * n);
    PaddedText(v, n);
    var ds :| Padded(text, ds, v, n);
    FromHexReadsPairs(text, ds, n);
  }

  /**
   * When the value does not fit, the bytes are those of the value itself if it has an even number
   * of hexadecimal digits, and otherwise of the value without its last digit.
   */
  lemma {:induction false} DecodeOfLargeValue(s: string, n: nat)
    requires InAlphabet(s) && Val(58, Indices(s)) >= Pow(256, n)
    ensures
      var v := Val(58, Indices(s)); var digits := |Digits(16, v)|;
      && digits > 2 * n && |DecodeTo(s, n)| == digits / 2
      && BigEndian(DecodeTo(s, n)) == (if digits % 2 == 0 then v else v / 16)
  {
    AccumulatedIsValue(s);
    var v := Val(58, Indices(s));
    var ds := Digits(16, v);
    DigitsSpell(16, v);
    ManyDigits(v, n);
    var text := HexText(ds);
    assert PadStart(ToString16(v), 2 * n) == text;
    TextReads(text, ds);
  }

  /** The bytes read from hexadecimal digits. */
  lemma {:induction false} TextReads(text: string, ds: seq<nat>)
    requires IsHexOf(text, ds)
    ensures |FromHex(text)| == |ds| / 2
    ensures BigEndian(FromHex(text)) == if |ds| % 2 == 0 then Val(16, ds) else Val(16, ds) / 16
  {
    if |ds| % 2 == 0 {
      FromHexReadsPairs(text, ds, |ds| / 2);
    } else {
      var m := |ds| - 1;
      FromHexDropsLast(text, ds);
      FromHexReadsPairs(text[..m], ds[..m], m / 2);
      QuotientAndRemainder(Val(16, ds), Val(16, ds[..m]), 16, ds[m]);
    }
  }

  lemma {:induction false} ManyDigits(v: nat, n: nat)
    requires v >= Pow(256, n)
    ensures v > 0 && |Digits(16, v)| > 2 * n
  {
    var ds := Digits(16, v);
    DigitsSpell(16, v);
    ValBound(16, ds);
    PowSquare(n);
    if |ds| <= 2 * n {
      PowMonotone(16, |ds|, 2 * n);
    }
  }

  // ---------- the round trip ----------

  function LeadingZeroBytes(p: seq<Byte>): nat {
    if p == [] || p[0] != 0 then 0 else 1 + LeadingZeroBytes(p[1..])
  }

  function Letter(d: nat): (c: char)
    requires d < 58
    ensures c in ALPHABET
  {
    AlphabetRuns(d);
    ALPHABET[d]
  }

  /** Base58: a '1' for every leading zero byte, then the digits of the rest. */
  function Encode(p: seq<Byte>): (s: string)
    ensures InAlphabet(s)
  {
    var ds := Zeros(LeadingZeroBytes(p)) + Digits(58, BigEndian(p));
    seq(|ds|, i requires 0 <= i < |ds| => Letter(ds[i]))
  }

  /** The runs of the alphabet, which leaves out 0, O, I and l. */
  function Nth(i: nat): char
    requires i < 58
  {
    if i < 9 then '1' + i as char
    else if i < 17 then 'A' + (i - 9) as char
    else if i < 22 then 'J' + (i - 17) as char
    else if i < 33 then 'P' + (i - 22) as char
    else if i < 44 then 'a' + (i - 33) as char
    else 'm' + (i - 44) as char
  }

  lemma {:induction false} AlphabetRuns(i: nat)
    requires i < 58
    ensures |ALPHABET| == 58 && ALPHABET[i] == Nth(i)
  {
  }

  lemma {:induction false} RunsAreDistinct(i: nat, d: nat)
    requires i < 58 && d < 58 && Nth(i) == Nth(d)
    ensures i == d
  {
  }

  lemma {:induction false} IndexOfDistinct(alphabet: string, d: nat)
    requires d < |alphabet| && forall i :: 0 <= i < |alphabet| && alphabet[i] == alphabet[d] ==> i == d
    ensures IndexIn(alphabet, alphabet[d]) == d
  {
    assert alphabet[d] in alphabet;
  }

  lemma {:induction false} AlphabetIndex(d: nat)
    requires d < 58
    ensures IndexIn(ALPHABET, Nth(d)) == d
  {
    AlphabetRuns(d);
    forall i | 0 <= i < |ALPHABET| && ALPHABET[i] == ALPHABET[d] ensures i == d {
      AlphabetRuns(i);
      RunsAreDistinct(i, d);
    }
    IndexOfDistinct(ALPHABET, d);
  }

  lemma {:induction false} EncodedValue(p: seq<Byte>)
    ensures Val(58, Indices(Encode(p))) == BigEndian(p)
  {
    var ds := Zeros(LeadingZeroBytes(p)) + Digits(58, BigEndian(p));
    forall i | 0 <= i < |ds| ensures Indices(Encode(p))[i] == ds[i] {
      AlphabetRuns(ds[i]);
      AlphabetIndex(ds[i]);
    }
    assert Indices(Encode(p)) == ds;
    DigitsSpell(58, BigEndian(p));
    LeadingZeros(58, LeadingZeroBytes(p), Digits(58, BigEndian(p)));
  }

  lemma {:induction false} DecodeEncodeTo(p: seq<Byte>, n: nat)
    requires |p| == n > 0
    ensures DecodeTo(Encode(p), n) == p
  {
    EncodedValue(p);
    BytesBound(p);
    DecodeIsValue(Encode(p), n);
    BytesAreUnique(DecodeTo(Encode(p), n), p);
  }

  lemma {:induction false} BytesBound(p: seq<Byte>)
    ensures BigEndian(p) < Pow(256, |p|)
  {
    ValBound(256, p);
  }

  lemma {:induction false} BytesAreUnique(p: seq<Byte>, q: seq<Byte>)
    requires |p| == |q| && BigEndian(p) == BigEndian(q)
    ensures p == q
  {
    DigitsAreUnique(256, p, q);
  }

  /** Every 82-byte payload comes back whole, leading zero bytes included. */
  lemma {:induction false} DecodeEncode(p: seq<Byte>)
    requires |p| == 82
    ensures Decode(Encode(p)) == p
  {
    DecodeEncodeTo(p, 82);
  }

  // ---------- the private key ----------

  /** Bytes 46 to 78 of an 82-byte payload are ser256(k), the 32 bytes above the 4-byte checksum. */
  lemma {:induction false} KeyIsSer256(raw: seq<Byte>)
    requires |raw| == 82
    ensures |PrivateKey(raw)| == 32
    ensures BigEndian(PrivateKey(raw)) == BigEndian(raw) / Pow(256, 4) % Pow(256, 32)
  {
    var head, key, sum := raw[..46], raw[46..78], raw[78..];
    assert raw == (head + key) + sum;
    ValOfConcat(256, head + key, sum);
    ValOfConcat(256, head, key);
    ValBound(256, sum);
    ValBound(256, key);
    QuotientAndRemainder(BigEndian(raw), Val(256, head + key), Pow(256, 4), BigEndian(sum));
    QuotientAndRemainder(Val(256, head + key), BigEndian(head), Pow(256, 32), BigEndian(key));
  }

  /** From the text of any payload the generator obtains the payload's own key bytes. */
  lemma {:induction false} KeySurvivesTheText(p: seq<Byte>)
    requires |p| == 82
    ensures PrivateKey(Decode(Encode(p))) == p[46..78]
    ensures BigEndian(p[46..78]) == BigEndian(p) / Pow(256, 4) % Pow(256, 32)
  {
    DecodeEncode(p);
    KeyIsSer256(p);
  }

  /** The letters of the digits of a value. */
  function TextOf(v: nat): (t: string)
    ensures InAlphabet(t)
  {
    var ds := Digits(58, v);
    seq(|ds|, i requires 0 <= i < |ds| => Letter(ds[i]))
  }

  lemma {:induction false} TextOfValue(v: nat)
    ensures Accumulated(TextOf(v)) == v
  {
    var ds := Digits(58, v);
    forall i | 0 <= i < |ds| ensures Indices(TextOf(v))[i] == ds[i] {
      AlphabetRuns(ds[i]);
      AlphabetIndex(ds[i]);
    }
    assert Indices(TextOf(v)) == ds;
    DigitsSpell(58, v);
    AccumulatedIsValue(TextOf(v));
  }

  /**
   * A foreign character is not reported: it counts as -1, and whenever the value of such a text is
   * not negative, a different text over the alphabet decodes to the same bytes.
   */
  lemma {:induction false} ForeignTextCollides(s: string)
    requires !InAlphabet(s) && Accumulated(s) >= 0
    ensures InAlphabet(TextOf(Accumulated(s))) && TextOf(Accumulated(s)) != s
    ensures Decode(TextOf(Accumulated(s))) == Decode(s)
  {
    TextOfValue(Accumulated(s));
  }

  /** For instance `2!` and `z`. */
  lemma {:induction false} ForeignCharacterCollides()
    ensures !InAlphabet("2!") && InAlphabet("z") && Decode("2!") == Decode("z")
  {
    assert "2!"[..1] == "2" && "2"[..0] == "" && "z"[..0] == "";
    AlphabetIndex(1);
    AlphabetIndex(57);
    AlphabetRuns(57);
    forall i | 0 <= i < |ALPHABET| ensures ALPHABET[i] != '!' {
      AlphabetRuns(i);
    }
    assert "2!"[1] == '!' && "2"[0] == Nth(1) && "z"[0] == Nth(57);
    assert IndexIn(ALPHABET, '!') == -1;
    assert Accumulated("2") == 1;
    assert Accumulated("2!") == 57;
    assert Accumulated("z") == 57;
  }
}
