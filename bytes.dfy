/** Fixed-width unsigned integers and their big-endian byte layouts (`to_be_bytes` / `from_be_bytes`). */
module Bytes {

  type byte = x: int | 0 <= x < 0x100
  type u16 = x: int | 0 <= x < 0x1_0000
  type u32 = x: int | 0 <= x < 0x1_0000_0000
  type u64 = x: int | 0 <= x < 0x1_0000_0000_0000_0000

  const U16_MAX: u16 := 0xffff
  const U32_MAX: u32 := 0xffff_ffff

  /** Rust `as u8` on a length: keeps the low eight bits. */
  function TruncU8(n: nat): (r: byte)
    ensures n < 0x100 ==> r == n
  {
    n % 0x100
  }

  /** Rust `as u16` on a length. */
  function TruncU16(n: nat): (r: u16)
    ensures n < 0x1_0000 ==> r == n
  {
    n % 0x1_0000
  }

  /** Rust `as u32` on a length. */
  function TruncU32(n: nat): (r: u32)
    ensures n < 0x1_0000_0000 ==> r == n
  {
    n % 0x1_0000_0000
  }

  /** `u16::to_be_bytes`. */
  function BE16(n: u16): (r: seq<byte>)
    ensures |r| == 2 && r[0] as int * 0x100 + r[1] == n
  {
    [n / 0x100, n % 0x100]
  }

  /** `u32::to_be_bytes`. */
  function BE32(n: u32): (r: seq<byte>)
    ensures |r| == 4
  {
    [n / 0x100_0000, (n / 0x1_0000) % 0x100, (n / 0x100) % 0x100, n % 0x100]
  }

  /** `u32::from_be_bytes`. */
  function FromBE32(b: seq<byte>): u32
    requires |b| == 4
  {
    b[0] as int * 0x100_0000 + b[1] as int * 0x1_0000 + b[2] as int * 0x100 + b[3]
  }

  lemma FromBE32OfBE32(n: u32)
    ensures FromBE32(BE32(n)) == n
  {
    var b := BE32(n);
    var q1 := n / 0x100;
    var q2 := q1 / 0x100;
    assert n == q1 * 0x100 + b[3];
    assert q1 == q2 * 0x100 + b[2] by { assert b[2] == q1 % 0x100; }
    assert q2 == b[0] as int * 0x100 + b[1] by {
      assert b[1] == q2 % 0x100;
      assert b[0] == q2 / 0x100;
    }
  }

  lemma BE32OfFromBE32(b: seq<byte>)
    requires |b| == 4
    ensures BE32(FromBE32(b)) == b
  {
    var n := FromBE32(b);
    assert n / 0x100 == b[0] as int * 0x1_0000 + b[1] as int * 0x100 + b[2];
    assert n % 0x100 == b[3];
    assert (n / 0x100) / 0x100 == b[0] as int * 0x100 + b[1];
    assert (n / 0x100) % 0x100 == b[2];
    assert n / 0x1_0000 == (n / 0x100) / 0x100;
    assert n / 0x100_0000 == ((n / 0x100) / 0x100) / 0x100;
  }

  /** Big-endian encoding is injective: distinct values never share a layout. */
  lemma BE32Injective(m: u32, n: u32)
    ensures BE32(m) == BE32(n) <==> m == n
  {
    if BE32(m) == BE32(n) {
      FromBE32OfBE32(m);
      FromBE32OfBE32(n);
    }
  }

  /** `u64::to_be_bytes`: the high word's four bytes, then the low word's. */
  function BE64(n: u64): (r: seq<byte>)
    ensures |r| == 8
  {
    BE32(n / 0x1_0000_0000) + BE32(n % 0x1_0000_0000)
  }

  lemma BE64Injective(m: u64, n: u64)
    ensures BE64(m) == BE64(n) <==> m == n
  {
    if BE64(m) == BE64(n) {
      assert BE64(m)[..4] == BE32(m / 0x1_0000_0000);
      assert BE64(n)[..4] == BE32(n / 0x1_0000_0000);
      assert BE64(m)[4..] == BE32(m % 0x1_0000_0000);
      assert BE64(n)[4..] == BE32(n % 0x1_0000_0000);
      BE32Injective(m / 0x1_0000_0000, n / 0x1_0000_0000);
      BE32Injective(m % 0x1_0000_0000, n % 0x1_0000_0000);
    }
  }
}
