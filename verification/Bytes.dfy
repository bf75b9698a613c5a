/** Bytes and the fixed-width integers of the wire formats. */
module Bytes {
  type Byte = x: int | 0 <= x < 256

  /** Little-endian 16 bits. */
  function LE16(n: nat): (b: seq<Byte>)
    requires n < 0x1_0000
    ensures |b| == 2
  {
    [n % 256, n / 256]
  }

  function GetLE16(b: seq<Byte>): (n: nat)
    requires |b| >= 2
    ensures n < 0x1_0000
  {
    var low: int := b[0];
    var high: int := b[1];
    low + 256 * high
  }

  function LE32(n: nat): (b: seq<Byte>)
    requires n < 0x1_0000_0000
    ensures |b| == 4
  {
    LE16(n % 0x1_0000) + LE16(n / 0x1_0000)
  }

  function GetLE32(b: seq<Byte>): (n: nat)
    requires |b| >= 4
    ensures n < 0x1_0000_0000
  {
    GetLE16(b) + 0x1_0000 * GetLE16(b[2..])
  }

  /** Big-endian 32 bits. */
  function BE32(n: nat): (b: seq<Byte>)
    requires n < 0x1_0000_0000
    ensures |b| == 4
  {
    [n / 0x100_0000, n / 0x1_0000 % 256, n / 0x100 % 256, n % 256]
  }

  function GetBE32(b: seq<Byte>): (n: nat)
    requires |b| >= 4
    ensures n < 0x1_0000_0000
  {
    var b0: int := b[0];
    var b1: int := b[1];
    var b2: int := b[2];
    b0 * 0x100_0000 + b1 * 0x1_0000 + b2 * 0x100 + b[3]
  }

  lemma LE16RoundTrip(n: nat, rest: seq<Byte>)
    requires n < 0x1_0000
    ensures GetLE16(LE16(n) + rest) == n
  {
  }

  lemma LE32RoundTrip(n: nat, rest: seq<Byte>)
    requires n < 0x1_0000_0000
    ensures GetLE32(LE32(n) + rest) == n
  {
    var b := LE32(n) + rest;
    assert b == LE16(n % 0x1_0000) + (LE16(n / 0x1_0000) + rest);
    assert b[2..] == LE16(n / 0x1_0000) + rest;
  }

  lemma ShiftsOf(n: nat)
    ensures n / 0x1_0000 == n / 0x100 / 0x100
    ensures n / 0x100_0000 == n / 0x1_0000 / 0x100
  {
  }

  lemma BE32RoundTrip(n: nat, rest: seq<Byte>)
    requires n < 0x1_0000_0000
    ensures GetBE32(BE32(n) + rest) == n
  {
    ShiftsOf(n);
    var n1 := n / 0x100;
    var n2 := n1 / 0x100;
    assert n == n % 256 + 0x100 * n1;
    assert n1 == n1 % 256 + 0x100 * n2;
    assert n2 == n2 % 256 + 0x100 * (n2 / 0x100);
  }
}
