/** Bytes, and the little-endian 32-bit words the journal stores next to each body. */
module Bytes {
  type byte = c: char | (c as int) < 256 witness 'a'
  type bytes = seq<byte>

  const U32_BOUND := 0x1_0000_0000

  datatype Option<+T> = None | Some(value: T)

  function GetOr<T>(o: Option<T>, default: T): (v: T) {
    match o case None => default case Some(v) => v
  }

  function ToByte(v: nat): (b: byte)
    requires v < 256
  {
    v as char
  }

  /** write_u32_le: the value is reduced to 32 bits by the cast at the call. */
  function U32ToBytes(v: nat): (s: bytes)
    ensures |s| == 4
  {
    [ToByte(v % 256), ToByte(v / 256 % 256), ToByte(v / 65536 % 256), ToByte(v / 16777216 % 256)]
  }

  /** read_u32_le. */
  function BytesToU32(s: bytes): (v: nat)
    requires |s| == 4
    ensures v < U32_BOUND
  {
    s[0] as int + 256 * (s[1] as int) + 65536 * (s[2] as int) + 16777216 * (s[3] as int)
  }

  lemma U32RoundTrip(v: nat)
    requires v < U32_BOUND
    ensures BytesToU32(U32ToBytes(v)) == v
  {
    var a := v / 256;
    var b := a / 256;
    assert v == 256 * a + v % 256;
    assert a == 256 * b + a % 256;
    assert b == 256 * (b / 256) + b % 256;
    Quotients(v);
  }

  lemma Quotients(v: nat)
    requires v < U32_BOUND
    ensures v / 65536 == v / 256 / 256 && v / 16777216 == v / 256 / 256 / 256 < 256
  {
  }

  lemma U32Injective(s: bytes, t: bytes)
    requires |s| == |t| == 4
    requires BytesToU32(s) == BytesToU32(t)
    ensures s == t
  {
    var a, b := s[1] as int + 256 * (s[2] as int + 256 * (s[3] as int)), t[1] as int + 256 * (t[2] as int + 256 * (t[3] as int));
    Digit(s[0] as int, a, t[0] as int, b);
    Digit(s[1] as int, s[2] as int + 256 * (s[3] as int), t[1] as int, t[2] as int + 256 * (t[3] as int));
    Digit(s[2] as int, s[3] as int, t[2] as int, t[3] as int);
  }

  lemma Digit(low: nat, high: nat, low': nat, high': nat)
    requires low < 256 && low' < 256
    requires low + 256 * high == low' + 256 * high'
    ensures low == low' && high == high'
  {
  }

  function Min(a: int, b: int): int {
    if a < b then a else b
  }
}
