/** Bytes and the little-endian integers of Go's encoding/binary. */
module Bytes {

  type byte = x: int | 0 <= x < 256

  const TWO16 := 0x1_0000
  const TWO32 := 0x1_0000_0000

  function Le16(s: seq<byte>): (v: nat)
    requires |s| == 2
    ensures v < TWO16
  {
    var low: int, high: int := s[0], s[1];
    low + 256 * high
  }

  function Le32(s: seq<byte>): (v: nat)
    requires |s| == 4
    ensures v < TWO32
  {
    Le16(s[..2]) + TWO16 * Le16(s[2..])
  }

  /** PutUint16(b, uint16(v)): all but the low 16 bits of `v` are lost. */
  function Put16(v: int): (s: seq<byte>)
    ensures |s| == 2 && Le16(s) == v % TWO16
  {
    [v % 256, v / 256 % 256]
  }

  function Put32(v: int): (s: seq<byte>)
    ensures |s| == 4 && Le32(s) == v % TWO32
  {
    var s := Put16(v % TWO16) + Put16(v / TWO16);
    assert s[..2] == Put16(v % TWO16) && s[2..] == Put16(v / TWO16);
    s
  }

  /** A 16-bit word read as a signed number. */
  function Signed16(v: nat): (r: int)
    requires v < TWO16
    ensures -0x8000 <= r < 0x8000 && r % TWO16 == v
  {
    if v < 0x8000 then v else v - TWO16
  }

  lemma Signed16Of(v: int)
    requires -0x8000 <= v < 0x8000
    ensures Signed16(v % TWO16) == v
  {
  }

  /** A 32-bit word read as a signed number. */
  function Signed32(v: nat): (r: int)
    requires v < TWO32
    ensures -0x8000_0000 <= r < 0x8000_0000 && r % TWO32 == v
  {
    if v < 0x8000_0000 then v else v - TWO32
  }

  const TWO63 := 0x8000_0000_0000_0000
  const TWO64 := 0x1_0000_0000_0000_0000

  /** A 64-bit word read as a signed number. */
  function Signed64(v: nat): (r: int)
    requires v < TWO64
    ensures -TWO63 <= r < TWO63 && r % TWO64 == v
  {
    if v < TWO63 then v else v - TWO64
  }

  lemma PutOfLe16(s: seq<byte>)
    requires |s| == 2
    ensures Put16(Le16(s)) == s
  {
  }

  method PutUint16(b: array<byte>, at: nat, v: int)
    requires at + 2 <= b.Length
    modifies b
    ensures b[..at + 2] == old(b[..at]) + Put16(v) && b[at + 2..] == old(b[at + 2..])
  {
    PutBytes(b, at, Put16(v));
  }

  method PutUint32(b: array<byte>, at: nat, v: int)
    requires at + 4 <= b.Length
    modifies b
    ensures b[..at + 4] == old(b[..at]) + Put32(v) && b[at + 4..] == old(b[at + 4..])
  {
    PutBytes(b, at, Put32(v));
  }

  method PutBytes(b: array<byte>, at: nat, s: seq<byte>)
    requires at + |s| <= b.Length
    modifies b
    ensures b[..at + |s|] == old(b[..at]) + s && b[at + |s|..] == old(b[at + |s|..])
  {
    for i := 0 to |s|
      invariant b[..at + i] == old(b[..at]) + s[..i] && b[at + i..] == old(b[at + i..])
    {
      ghost var before := b[..];
      b[at + i] := s[i];
      assert b[..at + i] == before[..at + i];
    }
  }
}
