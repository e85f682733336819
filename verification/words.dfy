/** Fixed-width numbers, and the arithmetic the two virtqueues share. */
module Words {
  const INT_MAX := 0x7fff_ffff

  type int32 = x: int | -0x8000_0000 <= x < 0x8000_0000
  type u16 = x: int | 0 <= x < 0x10000
  type Byte = x: int | 0 <= x < 256

  /** A descriptor index: a position in a ring of RING_SIZE = 256 entries. */
  type Slot = x: int | 0 <= x < 256

  /** One 1536-byte packet buffer. */
  type Buffer = b: seq<Byte> | |b| == 1536 witness seq(1536, _ => 0)

  const BLANK: Buffer := seq(1536, _ => 0)

  /** A ring of 256 descriptor indices, and the packet buffers they name. */
  type AvailRing = s: seq<Slot> | |s| == 256 witness seq<Slot>(256, _ => 0)
  type Buffers = s: seq<Buffer> | |s| == 256 witness seq<Buffer>(256, _ => BLANK)

  /** The increment of a C `uint16_t`. */
  function Inc16(x: u16): u16 {
    (x + 1) % 0x10000
  }

  /** The distance between two `uint16_t` counters, modulo 2^16. */
  function Gap16(from: u16, to: u16): u16 {
    (to - from) % 0x10000
  }

  lemma IncrementWraps(n: nat)
    ensures Inc16(n % 0x10000) == (n + 1) % 0x10000
  {
  }

  /** 256 divides 2^16, so a slot computed from the wrapped counter is the slot of the unwrapped one. */
  lemma SlotSurvivesWrap(n: nat, i: nat)
    ensures (n % 0x10000 + i) % 256 == (n + i) % 256
  {
    var q := n / 0x10000;
    assert n == 0x10000 * q + n % 0x10000;
    assert n + i == 256 * (256 * q) + (n % 0x10000 + i);
    AddMultiple(n % 0x10000 + i, 256 * q);
  }

  lemma AddMultiple(a: nat, q: nat)
    ensures (256 * q + a) % 256 == a % 256
  {
  }

  /** Two positions less than one lap apart never share a slot. */
  lemma SlotsDiffer(i: nat, j: nat)
    requires i < j < i + 256
    ensures i % 256 != j % 256
  {
  }

  /** A wrapped counter gap is the true gap while the true gap is below 2^16. */
  lemma GapIsExact(lo: nat, hi: nat)
    requires lo <= hi < lo + 0x10000
    ensures Gap16(lo % 0x10000, hi % 0x10000) == hi - lo
    ensures lo % 0x10000 == hi % 0x10000 <==> lo == hi
  {
    var d := hi - lo;
    assert (hi % 0x10000 - lo % 0x10000) % 0x10000 == d % 0x10000;
  }
}
