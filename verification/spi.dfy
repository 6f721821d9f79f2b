/** The chip-select-framed SPI transport, the millisecond tick source and the NAND device, as seen by the
    controller.

    Every transfer the controller makes between chip-select low and chip-select high is recorded as one
    `Frame` event holding the bytes sent and the bytes received; every read of the millisecond tick is
    recorded as a `Tick` event. The device and the tick source are oracles: each received byte and each
    tick value is a function of everything recorded before it, so any deterministic device and clock can be
    plugged in, and every contract stated over a trace holds for all of them.
 */
module Spi {

  type byte = bv8

  datatype Option<+T> = None | Some(value: T)

  datatype Event =
    | Frame(tx: seq<byte>, rx: seq<byte>)
    | Tick(ms: bv32)

  type Trace = seq<Event>

  /** `device(history, tx, i)` is byte `i` the device drives during a frame that sent `tx` after `history`;
      `clock(history)` is the tick value read after `history`; `pollBudget` is how many busy rounds one
      bounded wait may observe before it gives up (see `Poll`). */
  datatype Env = Env(device: (Trace, seq<byte>, nat) -> byte, clock: Trace -> bv32, pollBudget: nat)

  /** A transmit-only frame. */
  function Send(tx: seq<byte>): Event
  {
    Frame(tx, [])
  }

  /** A frame that sends `tx`, then clocks exactly `n` bytes in from the device. */
  function Exchange(env: Env, history: Trace, tx: seq<byte>, n: nat): (e: Event)
    ensures e.Frame? && e.tx == tx && |e.rx| == n
  {
    Frame(tx, seq(n, i requires 0 <= i < n => env.device(history, tx, i)))
  }

  /** One read of the millisecond tick. */
  function ReadTick(env: Env, history: Trace): (e: Event)
    ensures e.Tick?
  {
    Tick(env.clock(history))
  }

  function Last(d: Trace): Event
    requires |d| > 0
  {
    d[|d| - 1]
  }

  /** The first byte a frame received (0 for events that received nothing). */
  function Reply(e: Event): byte
  {
    if e.Frame? && |e.rx| > 0 then e.rx[0] else 0
  }
}
