/** `PreparePattern`: the test data the application programs and compares against.

    The pattern is chosen by a `PatternType_t` code. Codes 0 to 3 fill with a constant (0xAA, 0x55, 0xFF,
    0x00), code 4 alternates 0xAA and 0x55, code 5 repeats 0xAA 0x55 0xFF 0x00, and code 6 is a pseudo-random
    sequence from a 16-bit Galois LFSR (taps 0xB400, seed 0xACE1, kept in a uint32) whose low byte after
    each step is the next output byte. Any other code fills with 0x00. Only the first `len` bytes of the
    buffer are written.
 */
module Pattern {
  import opened Spi

  const PatternAa := 0
  const Pattern55 := 1
  const PatternFf := 2
  const Pattern00 := 3
  const PatternAltAa55 := 4
  const PatternSeqAa55Ff00 := 5
  const PatternPrbs := 6

  const LfsrSeed: bv32 := 0xACE1
  const LfsrTaps: bv32 := 0xB400

  /** One LFSR step as the source writes it: shift right, and XOR in the taps masked by the negated low
      bit, which in 32-bit arithmetic is all ones when that bit is set and zero otherwise. */
  function Step(s: bv32): bv32
  {
    (s >> 1) ^ ((0 - (s & 1)) & 0xB400)
  }

  /** The state after `n` steps from the seed. */
  function Lfsr(n: nat): bv32
    decreases n
  {
    if n == 0 then LfsrSeed else Step(Lfsr(n - 1))
  }

  /** The step is the textbook Galois update: shift, then XOR the taps exactly when the bit shifted out
      was 1. */
  lemma StepIsGalois(s: bv32)
    ensures Step(s) == if s & 1 == 1 then (s >> 1) ^ LfsrTaps else s >> 1
  {
    if s & 1 == 1 {
      assert 0 - (s & 1) == 0xFFFF_FFFF;
    } else {
      assert s & 1 == 0;
    }
  }

  /** A state below 2^16 other than zero steps to a state below 2^16 other than zero. */
  lemma StepKeepsState(s: bv32)
    requires 0 < s < 0x1_0000
    ensures 0 < Step(s) < 0x1_0000
  {
    StepIsGalois(s);
  }

  /** Every state fits the 16-bit register and none is zero, so the sequence never locks up at zero. */
  lemma {:induction false} LfsrInvariant(n: nat)
    ensures 0 < Lfsr(n) < 0x1_0000
    decreases n
  {
    if n > 0 {
      LfsrInvariant(n - 1);
      StepKeepsState(Lfsr(n - 1));
    }
  }

  /** The step run backwards: bit 15 of the new state says whether the taps went in, since the shifted state
      alone never reaches it. */
  function Unstep(t: bv32): bv32
  {
    if t & 0x8000 != 0 then ((t ^ LfsrTaps) << 1) | 1 else t << 1
  }

  /** On 16-bit states the step is invertible, so distinct states never merge and the sequence from the
      seed is purely periodic. */
  lemma StepInverse(s: bv32)
    requires s < 0x1_0000
    ensures Step(s) < 0x1_0000 && Unstep(Step(s)) == s
  {
    StepIsGalois(s);
  }

  /** The low byte of a state, as the `(uint8_t)` cast takes it. */
  function LowByte(s: bv32): byte
  {
    (s & 0xFF) as byte
  }

  /** Byte `i` of pattern `code`: the reference the fill is measured against. */
  function PatternByte(code: int, i: nat): byte
  {
    if code == PatternAa then 0xAA
    else if code == Pattern55 then 0x55
    else if code == PatternFf then 0xFF
    else if code == Pattern00 then 0x00
    else if code == PatternAltAa55 then (if i % 2 == 0 then 0xAA else 0x55)
    else if code == PatternSeqAa55Ff00 then [0xAA, 0x55, 0xFF, 0x00][i % 4]
    else if code == PatternPrbs then LowByte(Lfsr(i + 1))
    else 0x00
  }

  /** `memset(buf, v, len)`. */
  method Fill(buf: seq<byte>, len: nat, v: byte) returns (out: seq<byte>)
    requires len <= |buf|
    ensures |out| == |buf|
    ensures forall i :: 0 <= i < len ==> out[i] == v
    ensures out[len..] == buf[len..]
  {
    out := buf;
    var i := 0;
    while i < len
      invariant i <= len && |out| == |buf|
      invariant forall k :: 0 <= k < i ==> out[k] == v
      invariant out[len..] == buf[len..]
    {
      out := out[i := v];
      i := i + 1;
    }
  }

  method PreparePattern(buf: seq<byte>, len: bv32, code: int) returns (out: seq<byte>)
    requires len as int <= |buf|
    ensures |out| == |buf|
    ensures forall i :: 0 <= i < len as int ==> out[i] == PatternByte(code, i)
    ensures out[len..] == buf[len..]
  {
    var n := len as int;
    if code == PatternAa {
      out := Fill(buf, n, 0xAA);
    } else if code == Pattern55 {
      out := Fill(buf, n, 0x55);
    } else if code == PatternFf {
      out := Fill(buf, n, 0xFF);
    } else if code == Pattern00 {
      out := Fill(buf, n, 0x00);
    } else if code == PatternAltAa55 {
      out := buf;
      var i := 0;
      while i < n
        invariant i <= n && |out| == |buf|
        invariant forall k :: 0 <= k < i ==> out[k] == PatternByte(code, k)
        invariant out[n..] == buf[n..]
      {
        out := out[i := if i % 2 == 0 then 0xAA else 0x55];
        i := i + 1;
      }
    } else if code == PatternSeqAa55Ff00 {
      var table: seq<byte> := [0xAA, 0x55, 0xFF, 0x00];
      out := buf;
      var i := 0;
      while i < n
        invariant i <= n && |out| == |buf|
        invariant forall k :: 0 <= k < i ==> out[k] == PatternByte(code, k)
        invariant out[n..] == buf[n..]
      {
        out := out[i := table[i % 4]];
        i := i + 1;
      }
    } else if code == PatternPrbs {
      var lfsr := LfsrSeed;
      out := buf;
      var i := 0;
      while i < n
        invariant i <= n && |out| == |buf|
        invariant lfsr == Lfsr(i)
        invariant forall k :: 0 <= k < i ==> out[k] == PatternByte(code, k)
        invariant out[n..] == buf[n..]
      {
        lfsr := (lfsr >> 1) ^ ((0 - (lfsr & 1)) & 0xB400);
        out := out[i := LowByte(lfsr)];
        i := i + 1;
      }
    } else {
      out := Fill(buf, n, 0x00);
    }
  }

  /** The alternating pattern is the first two bytes of the four-byte sequence, repeated. */
  lemma AlternatingPeriod(i: nat)
    ensures PatternByte(PatternAltAa55, i) == PatternByte(PatternSeqAa55Ff00, i % 2)
  {
  }
}
