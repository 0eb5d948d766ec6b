/** Small datatypes and functions that several modules use. */
module Common {
  datatype Option<+T> = None | Some(value: T)

  datatype Result<+T, +E> = Ok(value: T) | Err(error: E)

  /** The first position of `x`, or the length when there is none. */
  function FirstIndex<T(==)>(s: seq<T>, x: T): (i: nat)
    ensures i <= |s|
    ensures i < |s| ==> s[i] == x
    ensures forall j :: 0 <= j < i ==> s[j] != x
  {
    if s == [] || s[0] == x then 0 else 1 + FirstIndex(s[1..], x)
  }

  // ---------- hexadecimal digits ----------

  predicate IsHex(c: char) { '0' <= c <= '9' || 'a' <= c <= 'f' || 'A' <= c <= 'F' }

  const HEX_DIGITS := "0123456789abcdefABCDEF"

  lemma {:induction false} HexIff(c: char)
    ensures IsHex(c) <==> c in HEX_DIGITS
  {
    assert HEX_DIGITS[0] == '0' && HEX_DIGITS[1] == '1' && HEX_DIGITS[2] == '2' && HEX_DIGITS[3] == '3' && HEX_DIGITS[4] == '4';
    assert HEX_DIGITS[5] == '5' && HEX_DIGITS[6] == '6' && HEX_DIGITS[7] == '7' && HEX_DIGITS[8] == '8' && HEX_DIGITS[9] == '9';
    assert HEX_DIGITS[10] == 'a' && HEX_DIGITS[11] == 'b' && HEX_DIGITS[12] == 'c' && HEX_DIGITS[13] == 'd';
    assert HEX_DIGITS[14] == 'e' && HEX_DIGITS[15] == 'f' && HEX_DIGITS[16] == 'A' && HEX_DIGITS[17] == 'B';
    assert HEX_DIGITS[18] == 'C' && HEX_DIGITS[19] == 'D' && HEX_DIGITS[20] == 'E' && HEX_DIGITS[21] == 'F';
  }
}
