/** Bytes on the wire: errors, big-endian integers, length prefixes and UTF-8. */
module Wire {
  import opened Base

  /** `Panic` stands for the places where the source indexes out of bounds. */
  datatype Error =
    | InsufficientBytes | InvalidLength | MalformedPacket | InvalidString | InvalidProperty(id: byte)
    | BadIdentifier | WrongQos | InvalidHeader | PidMissing | BufferSize | Panic

  function U16Bytes(n: nat): (r: Bytes)
    ensures |r| == 2
  {
    [n / 256 % 256, n % 256]
  }

  /** Most significant byte first (section 1.5.2 of MQTT 5.0). */
  lemma BigEndian(n: nat)
    requires n < 0x1_0000
    ensures Big(U16Bytes(n)[0], U16Bytes(n)[1]) == n && U16Bytes(n)[0] == n / 256
  {
  }

  function U32Bytes(n: nat): (r: Bytes)
    ensures |r| == 4
  {
    U16Bytes(n / 0x1_0000) + U16Bytes(n % 0x1_0000)
  }

  function Big(hi: int, lo: int): int {
    hi * 256 + lo
  }

  /** The bytes `x` stand in `d` at `i`. */
  ghost predicate At(d: Bytes, i: nat, x: Bytes) {
    i + |x| <= |d| && d[i..i + |x|] == x
  }

  lemma AtSplit(d: Bytes, i: nat, x: Bytes, y: Bytes)
    requires At(d, i, x + y)
    ensures At(d, i, x) && At(d, i + |x|, y)
  {
    assert d[i..i + |x|] == d[i..i + |x + y|][..|x|] == x;
    assert d[i + |x|..i + |x| + |y|] == d[i..i + |x + y|][|x|..] == y;
  }

  lemma AtByte(d: Bytes, i: nat, x: Bytes, k: nat)
    requires At(d, i, x) && k < |x|
    ensures d[i + k] == x[k]
  {
    assert d[i..i + |x|][k] == x[k];
  }

  /** `write_slice`: the length is cast to `u16`, the bytes are written in full. */
  function Prefixed(s: Bytes): (r: Bytes)
    ensures |r| == 2 + |s|
  {
    U16Bytes(|s| % 0x1_0000) + s
  }

  predicate Continues(b: byte) {
    0x80 <= b <= 0xBF
  }

  /** The length of the well-formed UTF-8 character at `i` (table 3-7 of the Unicode standard), 0 when there is none. */
  function CharWidth(s: Bytes, i: nat): (w: nat)
    requires i < |s|
    ensures i + w <= |s|
  {
    var left := |s| - i;
    if s[i] < 0x80 then 1
    else if 0xC2 <= s[i] <= 0xDF && left >= 2 && Continues(s[i + 1]) then 2
    else if && 0xE0 <= s[i] <= 0xEF && left >= 3 && Continues(s[i + 1]) && Continues(s[i + 2])
            && (s[i] == 0xE0 ==> s[i + 1] >= 0xA0) && (s[i] == 0xED ==> s[i + 1] <= 0x9F) then 3
    else if && 0xF0 <= s[i] <= 0xF4 && left >= 4 && Continues(s[i + 1]) && Continues(s[i + 2]) && Continues(s[i + 3])
            && (s[i] == 0xF0 ==> s[i + 1] >= 0x90) && (s[i] == 0xF4 ==> s[i + 1] <= 0x8F) then 4
    else 0
  }

  predicate Utf8From(s: Bytes, i: nat)
    requires i <= |s|
    decreases |s| - i
  {
    i == |s| || (CharWidth(s, i) > 0 && Utf8From(s, i + CharWidth(s, i)))
  }

  /** What `core::str::from_utf8` accepts. */
  predicate IsUtf8(s: Bytes) {
    Utf8From(s, 0)
  }
}
