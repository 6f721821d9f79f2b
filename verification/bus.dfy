/** The driver layer: one chip-select frame per call, seen as an event on the bus.

    A transmit-only command (page-to-cache, load, program execute, erase, status write, write enable and
    disable) is a `Frame` carrying `Encode(c)` and receiving nothing; a cache read or a status-register read
    sends `Encode(c)` and then clocks in a fixed number of bytes from the device.
 */
module Bus {
  import opened Spi
  import opened Frames
  import opened StatusBits

  /** `e` is the transmit-only frame of command `c`. */
  predicate Sent(e: Event, c: Command)
  {
    e == Send(Encode(c))
  }

  /** `e` sent command `c` and then received exactly `n` bytes. */
  predicate Received(e: Event, c: Command, n: nat)
  {
    e.Frame? && e.tx == Encode(c) && |e.rx| == n
  }

  /** `e` is one read of status register `register`. */
  predicate IsStatusRead(e: Event, register: byte)
  {
    Received(e, ReadStatusRegister(register), 1)
  }

  /** `ReadStatusRegister`: the byte the device returns for `register`, as the one byte received. */
  function ReadRegister(env: Env, history: Trace, register: byte): (e: Event)
    ensures IsStatusRead(e, register)
    ensures Decode(e.tx) == Some(ReadStatusRegister(register))
  {
    DecodeEncode(ReadStatusRegister(register));
    Exchange(env, history, Encode(ReadStatusRegister(register)), 1)
  }

  /** `ReadData` and the ten fast cache reads: the frame that clocks `len` bytes out of the page cache from
      `column` on. */
  function CacheReadFrame(env: Env, history: Trace, read: CacheRead, column: bv16, len: bv16): (e: Event)
    ensures Received(e, CacheReadCmd(read, column), len as int)
    ensures Decode(e.tx) == Some(CacheReadCmd(read, column))
  {
    DecodeEncode(CacheReadCmd(read, column));
    Exchange(env, history, Encode(CacheReadCmd(read, column)), len as int)
  }

  /** The bytes a frame received, copied over the front of `buf` as the driver's receive does. */
  function Deposit(buf: seq<byte>, e: Event): (out: seq<byte>)
    requires e.Frame? && |e.rx| <= |buf|
    ensures |out| == |buf|
    ensures out[..|e.rx|] == e.rx && out[|e.rx|..] == buf[|e.rx|..]
  {
    e.rx + buf[|e.rx|..]
  }
}
