/** `StandardProgram_Service` and `RandomProgram_Service`: load the page cache and commit it to one page.

    Both set the write-enable latch and give up if it did not come up, send one load frame and the Program
    Execute frame, and wait up to 100 ms. The standard program fails on a wait that times out; the random
    program discards the wait's result. Both then read SR3 once, and the result is P-FAIL clear.
 */
module Program {
  import opened Spi
  import opened Frames
  import opened StatusBits
  import opened Bus
  import opened Poll
  import opened Protect

  const ProgramTimeout: bv32 := 100

  /** What follows the wait: when `waitChecked` and the wait did not see the device ready, nothing and
      failure; otherwise one SR3 read, and success exactly when its P-FAIL bit is clear. */
  predicate AfterProgramWait(wait: Trace, r: Trace, waitChecked: bool, ok: bool)
  {
    if waitChecked && !PollReady(wait) then r == [] && !ok
    else |r| == 1 && IsStatusRead(r[0], Sr3Addr) && (ok <==> !IsSet(PFail, Reply(r[0])))
  }

  predicate ProgramWait(w: Trace, waitChecked: bool, budget: nat, ok: bool)
  {
    exists m :: 0 <= m <= |w| && WaitSplit(w, ProgramTimeout, budget, m) && AfterProgramWait(w[..m], w[m..], waitChecked, ok)
  }

  /** The events and the result of one program: write enable, then the load frame `load` of `data` at
      `column` and Program Execute of `page`, then the wait and the P-FAIL read. */
  predicate ProgramTrace(load: Load, column: bv16, page: bv32, data: seq<byte>, waitChecked: bool, budget: nat,
                         d: Trace, ok: bool)
  {
    |d| >= 2 && WriteEnableTrace(d[..2], IsSet(Wel, Reply(d[1]))) &&
    if !IsSet(Wel, Reply(d[1])) then |d| == 2 && !ok
    else
      |d| >= 4 && Sent(d[2], LoadCmd(load, column, data)) && Sent(d[3], ProgramExecute(page)) &&
      ProgramWait(d[4..], waitChecked, budget, ok)
  }

  lemma WaitThen(wait: Trace, rest: Trace, waitChecked: bool, budget: nat, ok: bool)
    requires PollTrace(wait, ProgramTimeout, budget) && AfterProgramWait(wait, rest, waitChecked, ok)
    ensures ProgramWait(wait + rest, waitChecked, budget, ok)
  {
    var w := wait + rest;
    assert w[..|wait|] == wait && w[|wait|..] == rest;
    assert WaitSplit(w, ProgramTimeout, budget, |wait|);
  }

  /** The sequence both services share; `waitChecked` says whether a timed-out wait ends it. */
  method LoadAndExecute(env: Env, history: Trace, load: Load, column: bv16, page: bv32, data: seq<byte>,
                        waitChecked: bool) returns (d: Trace, ok: bool)
    ensures ProgramTrace(load, column, page, data, waitChecked, env.pollBudget, d, ok)
  {
    var we, wel := WriteEnableService(env, history);
    if !wel {
      return we, false;
    }
    var frames := [Send(Encode(LoadCmd(load, column, data))), Send(Encode(ProgramExecute(page)))];
    var wait, ready := IsBusyWithTimeout(env, history + we + frames, ProgramTimeout);
    var rest: Trace;
    if waitChecked && !ready {
      rest, ok := [], false;
    } else {
      var sr3 := ReadRegister(env, history + we + frames + wait, Sr3Addr);
      rest, ok := [sr3], !IsSet(PFail, Reply(sr3));
    }
    WaitThen(wait, rest, waitChecked, env.pollBudget, ok);
    d := we + frames + (wait + rest);
    assert d[..2] == we && d[4..] == wait + rest;
  }

  /** `StandardProgram_Service(page_addr, buf, len)`: a 02h load of `buf[..len]` at column 0. */
  method StandardProgram(env: Env, history: Trace, page: bv32, buf: seq<byte>, len: bv16) returns (d: Trace, ok: bool)
    requires len as int <= |buf|
    ensures ProgramTrace(LoadProgramData, 0, page, buf[..len], true, env.pollBudget, d, ok)
  {
    d, ok := LoadAndExecute(env, history, LoadProgramData, 0, page, buf[..len], true);
  }

  /** `RandomProgram_Service(page_addr, col_addr, buf, len)`: an 84h load of `buf[..len]` at `column`. */
  method RandomProgram(env: Env, history: Trace, page: bv32, column: bv16, buf: seq<byte>, len: bv16)
    returns (d: Trace, ok: bool)
    requires len as int <= |buf|
    ensures ProgramTrace(RandomLoadProgramData, column, page, buf[..len], false, env.pollBudget, d, ok)
  {
    d, ok := LoadAndExecute(env, history, RandomLoadProgramData, column, page, buf[..len], false);
  }

  /** A program that succeeded read WEL set before loading, sent the load and the execute, and read P-FAIL
      clear as its last event; when the wait is checked, the wait also saw the device ready. */
  lemma ProgramSucceeded(load: Load, column: bv16, page: bv32, data: seq<byte>, waitChecked: bool, budget: nat,
                         d: Trace) returns (m: nat)
    requires ProgramTrace(load, column, page, data, waitChecked, budget, d, true)
    ensures 4 + m + 1 == |d|
    ensures Sent(d[0], WriteEnable) && IsStatusRead(d[1], Sr3Addr) && IsSet(Wel, Reply(d[1]))
    ensures Sent(d[2], LoadCmd(load, column, data)) && Sent(d[3], ProgramExecute(page))
    ensures PollTrace(d[4..4 + m], ProgramTimeout, budget)
    ensures waitChecked ==> PollReady(d[4..4 + m])
    ensures IsStatusRead(Last(d), Sr3Addr) && !IsSet(PFail, Reply(Last(d)))
  {
    assert d[..2][0] == d[0] && d[..2][1] == d[1];
    var w := d[4..];
    m :| 0 <= m <= |w| && WaitSplit(w, ProgramTimeout, budget, m) && AfterProgramWait(w[..m], w[m..], waitChecked, true);
    assert d[4..4 + m] == w[..m];
    assert w[m..][0] == Last(d);
  }

  /** The result is decided by the P-FAIL read alone whenever that read happens: for the random program that
      is every run past the latch, whatever the wait saw. */
  lemma ProgramResultIsPFail(load: Load, column: bv16, page: bv32, data: seq<byte>, waitChecked: bool,
                             budget: nat, d: Trace, ok: bool)
    requires ProgramTrace(load, column, page, data, waitChecked, budget, d, ok)
    requires IsSet(Wel, Reply(d[1]))
    ensures !waitChecked ==> IsStatusRead(Last(d), Sr3Addr) && (ok <==> !IsSet(PFail, Reply(Last(d))))
    ensures ok ==> IsStatusRead(Last(d), Sr3Addr) && !IsSet(PFail, Reply(Last(d)))
  {
    var w := d[4..];
    var m :| 0 <= m <= |w| && WaitSplit(w, ProgramTimeout, budget, m) && AfterProgramWait(w[..m], w[m..], waitChecked, ok);
    if !waitChecked || ok {
      assert w[m..][0] == Last(d);
    }
  }
}
