/** `OTP_ReadPage` and `OTP_ProgramPage`: page moves inside the one-time-programmable region.

    The region has pages 0x00 to 0x0B; 0x00 and 0x01 are factory pages that can only be read. Both services
    check the index first and send nothing for one out of range, then switch OTP access on with the OTP-E
    setter and give up, sending nothing more, if that setter fails. The read then moves the page (whose
    address is the index itself) into the cache, waits up to 100 ms and clocks `len` bytes out from column 0;
    the program loads `len` bytes at column 0 and executes on the index, with no write enable of its own,
    and waits up to 100 ms. A wait that times out returns failure at once, so OTP access stays on. After a
    completed wait both switch OTP access off and succeed whatever that setter reports; the program never
    reads P-FAIL and the read never reads the ECC status.
 */
module Otp {
  import opened Spi
  import opened Frames
  import opened StatusBits
  import opened Bus
  import opened Poll
  import opened RegisterUpdate
  import opened Protect

  const OtpPage0: byte := 0x02
  const OtpPageMax: byte := 0x0B
  const OtpTimeout: bv32 := 100

  /** One run of the OTP-E setter switching access off, whatever its result. */
  predicate SwitchedOff(r: Trace)
  {
    SetterTrace(OtpEnable(false), r, true) || SetterTrace(OtpEnable(false), r, false)
  }

  /** The first `n` events of `d` are a successful run of the OTP-E setter switching access on. */
  predicate SwitchedOn(d: Trace, n: nat)
  {
    n <= |d| && SetterTrace(OtpEnable(true), d[..n], true)
  }

  /** What follows the read's wait: nothing after a timeout, with the buffer untouched; otherwise the data
      frame from column 0, whose bytes land at the front of the buffer, and the switch-off. */
  predicate AfterOtpReadWait(wait: Trace, r: Trace, buf: seq<byte>, len: bv16, out: seq<byte>, ok: bool)
  {
    if !PollReady(wait) then r == [] && out == buf && !ok
    else
      |r| >= 1 && Received(r[0], CacheReadCmd(ReadData, 0), len as int) && len as int <= |buf| &&
      out == Deposit(buf, r[0]) && SwitchedOff(r[1..]) && ok
  }

  predicate OtpReadWait(w: Trace, buf: seq<byte>, len: bv16, budget: nat, out: seq<byte>, ok: bool)
  {
    exists m :: 0 <= m <= |w| && WaitSplit(w, OtpTimeout, budget, m) && AfterOtpReadWait(w[..m], w[m..], buf, len, out, ok)
  }

  /** The read once OTP access is on: page-to-cache of the index, the wait and what follows it. */
  predicate OtpReadAfterEnable(index: byte, buf: seq<byte>, len: bv16, budget: nat, e: Trace, out: seq<byte>, ok: bool)
  {
    |e| >= 1 && Sent(e[0], PageDataRead(index as bv32)) && OtpReadWait(e[1..], buf, len, budget, out, ok)
  }

  /** The events, the buffer and the result of one `OTP_ReadPage(index, buf, len)`. */
  predicate OtpReadTrace(index: byte, buf: seq<byte>, len: bv16, budget: nat, d: Trace, out: seq<byte>, ok: bool)
  {
    if index > OtpPageMax then d == [] && out == buf && !ok
    else
      (SetterTrace(OtpEnable(true), d, false) && out == buf && !ok) ||
      (exists n :: 0 <= n <= |d| && SwitchedOn(d, n) && OtpReadAfterEnable(index, buf, len, budget, d[n..], out, ok))
  }

  /** What follows the program's wait: nothing after a timeout; otherwise the switch-off, and success. */
  predicate AfterOtpProgramWait(wait: Trace, r: Trace, ok: bool)
  {
    if !PollReady(wait) then r == [] && !ok
    else SwitchedOff(r) && ok
  }

  predicate OtpProgramWait(w: Trace, budget: nat, ok: bool)
  {
    exists m :: 0 <= m <= |w| && WaitSplit(w, OtpTimeout, budget, m) && AfterOtpProgramWait(w[..m], w[m..], ok)
  }

  /** The program once OTP access is on: the 02h load at column 0, Program Execute of the index, the wait
      and what follows it. */
  predicate OtpProgramAfterEnable(index: byte, data: seq<byte>, budget: nat, e: Trace, ok: bool)
  {
    |e| >= 2 && Sent(e[0], LoadCmd(LoadProgramData, 0, data)) && Sent(e[1], ProgramExecute(index as bv32)) &&
    OtpProgramWait(e[2..], budget, ok)
  }

  /** The events and the result of one `OTP_ProgramPage(index, data, |data|)`. */
  predicate OtpProgramTrace(index: byte, data: seq<byte>, budget: nat, d: Trace, ok: bool)
  {
    if index < OtpPage0 || index > OtpPageMax then d == [] && !ok
    else
      (SetterTrace(OtpEnable(true), d, false) && !ok) ||
      (exists n :: 0 <= n <= |d| && SwitchedOn(d, n) && OtpProgramAfterEnable(index, data, budget, d[n..], ok))
  }

  /** From position `k` on, `e` is one complete wait that did not see the device ready: a service whose wait
      this is gave up there, so nothing after it switched OTP access off. */
  predicate LeftOn(e: Trace, k: nat, budget: nat)
  {
    k <= |e| && PollTrace(e[k..], OtpTimeout, budget) && !PollReady(e[k..])
  }

  method OtpReadPage(env: Env, history: Trace, index: byte, buf: seq<byte>, len: bv16)
    returns (d: Trace, out: seq<byte>, ok: bool)
    requires len as int <= |buf|
    ensures OtpReadTrace(index, buf, len, env.pollBudget, d, out, ok)
  {
    if index > OtpPageMax {
      return [], buf, false;
    }
    var on, enabled := OtpEnableService(env, history, true);
    if !enabled {
      return on, buf, false;
    }
    var e;
    e, out, ok := ReadAfterEnable(env, history + on, index, buf, len);
    ReadCompose(on, e, index, buf, len, env.pollBudget, out, ok);
    d := on + e;
  }

  /** The read once OTP access is on. */
  method ReadAfterEnable(env: Env, history: Trace, index: byte, buf: seq<byte>, len: bv16)
    returns (e: Trace, out: seq<byte>, ok: bool)
    requires len as int <= |buf|
    ensures OtpReadAfterEnable(index, buf, len, env.pollBudget, e, out, ok)
  {
    var load := Send(Encode(PageDataRead(index as bv32)));
    var wait, ready := IsBusyWithTimeout(env, history + [load], OtpTimeout);
    var rest: Trace;
    if !ready {
      rest, out, ok := [], buf, false;
    } else {
      var data := CacheReadFrame(env, history + [load] + wait, ReadData, 0, len);
      var off, _ := OtpEnableService(env, history + [load] + wait + [data], false);
      rest, out, ok := [data] + off, Deposit(buf, data), true;
      assert rest[1..] == off;
    }
    ReadWaitThen(wait, rest, buf, len, env.pollBudget, out, ok);
    e := [load] + (wait + rest);
    assert e[1..] == wait + rest;
  }

  lemma ReadWaitThen(wait: Trace, rest: Trace, buf: seq<byte>, len: bv16, budget: nat, out: seq<byte>, ok: bool)
    requires PollTrace(wait, OtpTimeout, budget) && AfterOtpReadWait(wait, rest, buf, len, out, ok)
    ensures OtpReadWait(wait + rest, buf, len, budget, out, ok)
  {
    var w := wait + rest;
    assert w[..|wait|] == wait && w[|wait|..] == rest;
    assert WaitSplit(w, OtpTimeout, budget, |wait|);
  }

  lemma ReadCompose(on: Trace, e: Trace, index: byte, buf: seq<byte>, len: bv16, budget: nat, out: seq<byte>, ok: bool)
    requires index <= OtpPageMax && SetterTrace(OtpEnable(true), on, true)
    requires OtpReadAfterEnable(index, buf, len, budget, e, out, ok)
    ensures OtpReadTrace(index, buf, len, budget, on + e, out, ok)
  {
    var d := on + e;
    assert d[..|on|] == on && d[|on|..] == e;
    assert SwitchedOn(d, |on|);
  }

  method OtpProgramPage(env: Env, history: Trace, index: byte, buf: seq<byte>, len: bv16)
    returns (d: Trace, ok: bool)
    requires len as int <= |buf|
    ensures OtpProgramTrace(index, buf[..len], env.pollBudget, d, ok)
  {
    if index < OtpPage0 || index > OtpPageMax {
      return [], false;
    }
    var on, enabled := OtpEnableService(env, history, true);
    if !enabled {
      return on, false;
    }
    var e;
    e, ok := ProgramAfterEnable(env, history + on, index, buf[..len]);
    ProgramCompose(on, e, index, buf[..len], env.pollBudget, ok);
    d := on + e;
  }

  /** The program once OTP access is on. */
  method ProgramAfterEnable(env: Env, history: Trace, index: byte, data: seq<byte>) returns (e: Trace, ok: bool)
    ensures OtpProgramAfterEnable(index, data, env.pollBudget, e, ok)
  {
    var frames := [Send(Encode(LoadCmd(LoadProgramData, 0, data))), Send(Encode(ProgramExecute(index as bv32)))];
    var wait, ready := IsBusyWithTimeout(env, history + frames, OtpTimeout);
    var rest: Trace;
    if !ready {
      rest, ok := [], false;
    } else {
      var off, _ := OtpEnableService(env, history + frames + wait, false);
      rest, ok := off, true;
    }
    ProgramWaitThen(wait, rest, env.pollBudget, ok);
    e := frames + (wait + rest);
    assert e[2..] == wait + rest;
  }

  lemma ProgramWaitThen(wait: Trace, rest: Trace, budget: nat, ok: bool)
    requires PollTrace(wait, OtpTimeout, budget) && AfterOtpProgramWait(wait, rest, ok)
    ensures OtpProgramWait(wait + rest, budget, ok)
  {
    var w := wait + rest;
    assert w[..|wait|] == wait && w[|wait|..] == rest;
    assert WaitSplit(w, OtpTimeout, budget, |wait|);
  }

  lemma ProgramCompose(on: Trace, e: Trace, index: byte, data: seq<byte>, budget: nat, ok: bool)
    requires OtpPage0 <= index <= OtpPageMax && SetterTrace(OtpEnable(true), on, true)
    requires OtpProgramAfterEnable(index, data, budget, e, ok)
    ensures OtpProgramTrace(index, data, budget, on + e, ok)
  {
    var d := on + e;
    assert d[..|on|] == on && d[|on|..] == e;
    assert SwitchedOn(d, |on|);
  }

  /** Switching OTP access on succeeded only after reading OTP-E back set, in a run of six events. */
  lemma SwitchedOnConfirmed(d: Trace, n: nat)
    requires SwitchedOn(d, n)
    ensures n == 6 && IsSet(OtpE, Reply(d[4]))
  {
    SucceededSetter(OtpEnable(true), d[..n], true);
    assert d[..n][4] == d[4];
  }

  /** A successful OTP read had its index in range and switched OTP access on. */
  lemma OtpReadSplit(index: byte, buf: seq<byte>, len: bv16, budget: nat, d: Trace, out: seq<byte>) returns (n: nat)
    requires OtpReadTrace(index, buf, len, budget, d, out, true)
    ensures index <= OtpPageMax && n <= |d| && SwitchedOn(d, n)
    ensures OtpReadAfterEnable(index, buf, len, budget, d[n..], out, true)
  {
    n :| 0 <= n <= |d| && SwitchedOn(d, n) && OtpReadAfterEnable(index, buf, len, budget, d[n..], out, true);
  }

  /** Once OTP access is on, a successful read moved page `index` to the cache, waited until ready, clocked
      exactly `len` bytes from column 0 into the front of the buffer, left the rest of the buffer alone, and
      ended by switching OTP access off. */
  lemma OtpReadSucceeded(index: byte, buf: seq<byte>, len: bv16, budget: nat, e: Trace, out: seq<byte>)
    returns (m: nat)
    requires OtpReadAfterEnable(index, buf, len, budget, e, out, true)
    ensures 1 + m < |e| && Sent(e[0], PageDataRead(index as bv32))
    ensures PollTrace(e[1..][..m], OtpTimeout, budget) && PollReady(e[1..][..m])
    ensures Received(e[1 + m], CacheReadCmd(ReadData, 0), len as int)
    ensures |out| == |buf| && out[..len] == e[1 + m].rx && out[len..] == buf[len..]
    ensures SwitchedOff(e[1..][m..][1..])
  {
    var w := e[1..];
    m :| 0 <= m <= |w| && WaitSplit(w, OtpTimeout, budget, m) && AfterOtpReadWait(w[..m], w[m..], buf, len, out, true);
    assert w[m..][0] == e[1 + m];
    DepositFills(buf, w[m..][0], out);
  }

  lemma DepositFills(buf: seq<byte>, f: Event, out: seq<byte>)
    requires f.Frame? && |f.rx| <= |buf| && out == Deposit(buf, f)
    ensures |out| == |buf| && out[..|f.rx|] == f.rx && out[|f.rx|..] == buf[|f.rx|..]
  {
  }

  /** Once OTP access is on, a failed read leaves the buffer as it was: after the page-to-cache frame its
      wait timed out, and it stopped there with OTP access left on. */
  lemma OtpReadTimedOut(index: byte, buf: seq<byte>, len: bv16, budget: nat, e: Trace, out: seq<byte>)
    requires OtpReadAfterEnable(index, buf, len, budget, e, out, false)
    ensures out == buf && Sent(e[0], PageDataRead(index as bv32)) && LeftOn(e, 1, budget)
  {
    var w := e[1..];
    var m :| 0 <= m <= |w| && WaitSplit(w, OtpTimeout, budget, m) && AfterOtpReadWait(w[..m], w[m..], buf, len, out, false);
    assert w[..m] == w;
  }

  /** A successful OTP program had its index among the user pages and switched OTP access on. */
  lemma OtpProgramSplit(index: byte, data: seq<byte>, budget: nat, d: Trace) returns (n: nat)
    requires OtpProgramTrace(index, data, budget, d, true)
    ensures OtpPage0 <= index <= OtpPageMax && n <= |d| && SwitchedOn(d, n)
    ensures OtpProgramAfterEnable(index, data, budget, d[n..], true)
  {
    n :| 0 <= n <= |d| && SwitchedOn(d, n) && OtpProgramAfterEnable(index, data, budget, d[n..], true);
  }

  /** Once OTP access is on, a successful program loaded `data` at column 0 and executed on page `index` with
      no frame between, waited until ready, and ended by switching OTP access off. */
  lemma OtpProgramSucceeded(index: byte, data: seq<byte>, budget: nat, e: Trace) returns (m: nat)
    requires OtpProgramAfterEnable(index, data, budget, e, true)
    ensures 2 + m <= |e|
    ensures Sent(e[0], LoadCmd(LoadProgramData, 0, data)) && Sent(e[1], ProgramExecute(index as bv32))
    ensures PollTrace(e[2..][..m], OtpTimeout, budget) && PollReady(e[2..][..m])
    ensures SwitchedOff(e[2..][m..])
  {
    var w := e[2..];
    m :| 0 <= m <= |w| && WaitSplit(w, OtpTimeout, budget, m) && AfterOtpProgramWait(w[..m], w[m..], true);
  }

  /** Once the load and execute are sent, the program's result is the wait's alone: P-FAIL plays no part. A
      wait that saw the device ready means success, and one that did not means failure with OTP access
      left on. */
  lemma OtpProgramResultIsWait(index: byte, data: seq<byte>, budget: nat, e: Trace, ok: bool, m: nat)
    requires OtpProgramAfterEnable(index, data, budget, e, ok)
    requires WaitSplit(e[2..], OtpTimeout, budget, m)
    ensures ok <==> PollReady(e[2..][..m])
    ensures !ok ==> LeftOn(e, 2, budget)
  {
    var w := e[2..];
    var m' :| 0 <= m' <= |w| && WaitSplit(w, OtpTimeout, budget, m') && AfterOtpProgramWait(w[..m'], w[m'..], ok);
    WaitLengthUnique(w, OtpTimeout, budget, m, m');
    if !ok {
      assert w[..m] == w;
    }
  }
}
