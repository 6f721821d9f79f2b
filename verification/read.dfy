/** `StandardRead_Service` and `RandomRead_Service`: move one page into the cache and clock part of it out.

    Both send Page Data Read for the page and wait up to 100 ms; a wait that ends without seeing the device
    ready fails the read before any data moves. Otherwise they clock `len` bytes out of the cache from the
    caller's column into the front of the caller's buffer and read SR3 for the ECC status. The standard read
    succeeds whatever that status is; the random read fails on an uncorrectable page only.
 */
module Read {
  import opened Spi
  import opened Frames
  import opened StatusBits
  import opened Bus
  import opened Poll

  const ReadTimeout: bv32 := 100

  /** What follows the wait: nothing after a timeout; otherwise the data frame and the ECC status read. */
  predicate AfterReadWait(wait: Trace, r: Trace, column: bv16, len: bv16, issued: bool)
  {
    if !PollReady(wait) then r == [] && !issued
    else |r| == 2 && Received(r[0], CacheReadCmd(ReadData, column), len as int) && IsStatusRead(r[1], Sr3Addr) && issued
  }

  predicate ReadWait(w: Trace, column: bv16, len: bv16, budget: nat, issued: bool)
  {
    exists m :: 0 <= m <= |w| && WaitSplit(w, ReadTimeout, budget, m) && AfterReadWait(w[..m], w[m..], column, len, issued)
  }

  /** The events of one page read; `issued` says whether the data frame went out. */
  predicate ReadTrace(page: bv32, column: bv16, len: bv16, budget: nat, d: Trace, issued: bool)
  {
    |d| >= 1 && Sent(d[0], PageDataRead(page)) && ReadWait(d[1..], column, len, budget, issued)
  }

  /** The caller's buffer after the read: when the data frame went out (it is then the second-last event),
      its bytes over the front of `buf`; otherwise `buf` unchanged. */
  predicate Delivered(buf: seq<byte>, len: bv16, d: Trace, issued: bool, out: seq<byte>)
  {
    |out| == |buf| && len as int <= |buf| &&
    if issued then |d| >= 2 && d[|d| - 2].Frame? && out[..len] == d[|d| - 2].rx && out[len..] == buf[len..]
    else out == buf
  }

  lemma WaitThen(wait: Trace, rest: Trace, column: bv16, len: bv16, budget: nat, issued: bool)
    requires PollTrace(wait, ReadTimeout, budget) && AfterReadWait(wait, rest, column, len, issued)
    ensures ReadWait(wait + rest, column, len, budget, issued)
  {
    var w := wait + rest;
    assert w[..|wait|] == wait && w[|wait|..] == rest;
    assert WaitSplit(w, ReadTimeout, budget, |wait|);
  }

  /** The part both reads share. */
  method PageToBuffer(env: Env, history: Trace, page: bv32, column: bv16, buf: seq<byte>, len: bv16)
    returns (d: Trace, out: seq<byte>, issued: bool)
    requires len as int <= |buf|
    ensures ReadTrace(page, column, len, env.pollBudget, d, issued)
    ensures Delivered(buf, len, d, issued, out)
  {
    var load := Send(Encode(PageDataRead(page)));
    var wait, ready := IsBusyWithTimeout(env, history + [load], ReadTimeout);
    var rest: Trace;
    if !ready {
      rest, out, issued := [], buf, false;
    } else {
      var data := CacheReadFrame(env, history + [load] + wait, ReadData, column, len);
      var ecc := ReadRegister(env, history + [load] + wait + [data], Sr3Addr);
      rest, out, issued := [data, ecc], Deposit(buf, data), true;
    }
    WaitThen(wait, rest, column, len, env.pollBudget, issued);
    d := [load] + (wait + rest);
    assert d[1..] == wait + rest;
    if issued {
      assert d[|d| - 2] == rest[0];
    }
  }

  /** `StandardRead_Service(page_addr, col_addr, buf, len)`: succeeds exactly when the data frame went out. */
  method StandardRead(env: Env, history: Trace, page: bv32, column: bv16, buf: seq<byte>, len: bv16)
    returns (d: Trace, out: seq<byte>, ok: bool)
    requires len as int <= |buf|
    ensures ReadTrace(page, column, len, env.pollBudget, d, ok)
    ensures Delivered(buf, len, d, ok, out)
  {
    d, out, ok := PageToBuffer(env, history, page, column, buf, len);
  }

  /** `RandomRead_Service(page_addr, col_addr, buf, len)`: when the data frame went out, the buffer is filled
      and the result is whether the ECC status read after it is not UNCORRECTABLE. */
  method RandomRead(env: Env, history: Trace, page: bv32, column: bv16, buf: seq<byte>, len: bv16)
    returns (d: Trace, out: seq<byte>, ok: bool)
    requires len as int <= |buf|
    ensures (ReadTrace(page, column, len, env.pollBudget, d, true) && Delivered(buf, len, d, true, out) &&
             (ok <==> EccStatusOf(Reply(Last(d))) != EccUncorrectable))
         || (ReadTrace(page, column, len, env.pollBudget, d, false) && out == buf && !ok)
  {
    var issued;
    d, out, issued := PageToBuffer(env, history, page, column, buf, len);
    ok := issued && EccStatusOf(Reply(Last(d))) != EccUncorrectable;
  }

  /** The data frame goes out exactly when the wait saw the device ready. */
  lemma IssuedIffReady(page: bv32, column: bv16, len: bv16, budget: nat, d: Trace, issued: bool, m: nat)
    requires ReadTrace(page, column, len, budget, d, issued)
    requires WaitSplit(d[1..], ReadTimeout, budget, m)
    ensures issued <==> PollReady(d[1..][..m])
  {
    var w := d[1..];
    var m' :| 0 <= m' <= |w| && WaitSplit(w, ReadTimeout, budget, m') && AfterReadWait(w[..m'], w[m'..], column, len, issued);
    WaitLengthUnique(w, ReadTimeout, budget, m, m');
  }

  /** An issued read ends with the data frame, which sent ReadData at the caller's column and received
      exactly `len` bytes, and then the SR3 read the ECC status comes from. */
  lemma IssuedReadEnds(page: bv32, column: bv16, len: bv16, budget: nat, d: Trace)
    requires ReadTrace(page, column, len, budget, d, true)
    ensures |d| >= 3
    ensures Received(d[|d| - 2], CacheReadCmd(ReadData, column), len as int)
    ensures Decode(d[|d| - 2].tx) == Some(CacheReadCmd(ReadData, column))
    ensures IsStatusRead(Last(d), Sr3Addr)
  {
    var w := d[1..];
    var m :| 0 <= m <= |w| && WaitSplit(w, ReadTimeout, budget, m) && AfterReadWait(w[..m], w[m..], column, len, true);
    assert w[m..][0] == d[|d| - 2] && w[m..][1] == Last(d);
    DecodeEncode(CacheReadCmd(ReadData, column));
  }

  /** The random read rejects exactly the SR3 bytes whose ECC field is 2; the threshold code 3 and the
      reserved codes 4..7 pass. */
  lemma RandomReadRejects(sr3: byte)
    ensures EccStatusOf(sr3) == EccUncorrectable <==> EccField(sr3) == 2
    ensures EccStatusOf(sr3) == EccUncorrectable <==> sr3 & Sr3EccMask == 0x20
  {
  }
}
