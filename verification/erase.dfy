/** `BlockErase128K_service`: erase one 128 KB block.

    The service first clears every block-protect bit (a failure is only logged), then sets the write-enable
    latch and gives up if it did not come up, sends the D8h erase frame and waits for the device. After a
    completed wait it reads SR1, SR2 and SR3 for a log line, reads SR3 again for E-FAIL, and when E-FAIL is
    clear reads SR3 once more to warn about a latch left set; the warning never changes the result.
 */
module Erase {
  import opened Spi
  import opened Frames
  import opened StatusBits
  import opened Bus
  import opened Poll
  import opened RegisterUpdate
  import opened Protect

  /** The unprotect step the erase starts with: BP = 0, TB = 0. */
  const Unlock: Update := BlockProtect(0, false)

  /** The first `n` events of `d` are one run of the unprotect setter, whatever its result. */
  predicate UnlockPrefix(d: Trace, n: nat)
  {
    n <= |d| && (SetterTrace(Unlock, d[..n], true) || SetterTrace(Unlock, d[..n], false))
  }

  /** What follows a wait: nothing after a timeout; otherwise the three logged register reads, the E-FAIL
      read and, when E-FAIL is clear, the WEL read of the warning. */
  predicate AfterWait(wait: Trace, r: Trace, ok: bool)
  {
    if !PollReady(wait) then r == [] && !ok
    else
      |r| >= 4 && IsStatusRead(r[0], Sr1Addr) && IsStatusRead(r[1], Sr2Addr) &&
      IsStatusRead(r[2], Sr3Addr) && IsStatusRead(r[3], Sr3Addr) &&
      if IsSet(EFail, Reply(r[3])) then |r| == 4 && !ok
      else |r| == 5 && IsStatusRead(r[4], Sr3Addr) && ok
  }

  /** The wait after the erase frame, and what follows it. */
  predicate EraseWait(w: Trace, timeout: bv32, budget: nat, ok: bool)
  {
    exists m :: 0 <= m <= |w| && WaitSplit(w, timeout, budget, m) && AfterWait(w[..m], w[m..], ok)
  }

  /** Everything after the unprotect step. */
  predicate EraseAfterUnlock(block: bv32, timeout: bv32, budget: nat, e: Trace, ok: bool)
  {
    |e| >= 2 && WriteEnableTrace(e[..2], IsSet(Wel, Reply(e[1]))) &&
    if !IsSet(Wel, Reply(e[1])) then |e| == 2 && !ok
    else |e| >= 3 && Sent(e[2], BlockErase(block)) && EraseWait(e[3..], timeout, budget, ok)
  }

  /** The events and the result of one erase of `block` with timeout `timeout`. */
  predicate EraseTrace(block: bv32, timeout: bv32, budget: nat, d: Trace, ok: bool)
  {
    exists n :: 0 <= n <= |d| && UnlockPrefix(d, n) && EraseAfterUnlock(block, timeout, budget, d[n..], ok)
  }

  method FinishErase(env: Env, history: Trace, wait: Trace, ready: bool) returns (r: Trace, ok: bool)
    requires ready <==> PollReady(wait)
    ensures AfterWait(wait, r, ok)
  {
    if !ready {
      return [], false;
    }
    var sr1 := ReadRegister(env, history, Sr1Addr);
    var sr2 := ReadRegister(env, history + [sr1], Sr2Addr);
    var sr3 := ReadRegister(env, history + [sr1, sr2], Sr3Addr);
    var fail := ReadRegister(env, history + [sr1, sr2, sr3], Sr3Addr);
    r := [sr1, sr2, sr3, fail];
    if IsSet(EFail, Reply(fail)) {
      return r, false;
    }
    var latch := ReadRegister(env, history + r, Sr3Addr);
    r := r + [latch];
    ok := true;
  }

  method BlockErase128K(env: Env, history: Trace, block: bv32, timeout: bv32) returns (d: Trace, ok: bool)
    ensures EraseTrace(block, timeout, env.pollBudget, d, ok)
  {
    var unlock, unlocked := SetBlockProtectService(env, history, 0, false);
    var we, wel := WriteEnableService(env, history + unlock);
    var e: Trace;
    if !wel {
      e, ok := we, false;
    } else {
      var erase := Send(Encode(BlockErase(block)));
      var wait, ready := IsBusyWithTimeout(env, history + unlock + we + [erase], timeout);
      var rest;
      rest, ok := FinishErase(env, history + unlock + we + [erase] + wait, wait, ready);
      WaitThen(wait, rest, timeout, env.pollBudget, ok);
      e := we + [erase] + (wait + rest);
      assert e[..2] == we && e[3..] == wait + rest;
    }
    Compose(unlock, unlocked, e, block, timeout, env.pollBudget, ok);
    d := unlock + e;
  }

  lemma WaitThen(wait: Trace, rest: Trace, timeout: bv32, budget: nat, ok: bool)
    requires PollTrace(wait, timeout, budget) && AfterWait(wait, rest, ok)
    ensures EraseWait(wait + rest, timeout, budget, ok)
  {
    var w := wait + rest;
    assert w[..|wait|] == wait && w[|wait|..] == rest;
    assert WaitSplit(w, timeout, budget, |wait|);
  }

  lemma Compose(unlock: Trace, unlocked: bool, e: Trace, block: bv32, timeout: bv32, budget: nat, ok: bool)
    requires SetterTrace(Unlock, unlock, unlocked)
    requires EraseAfterUnlock(block, timeout, budget, e, ok)
    ensures EraseTrace(block, timeout, budget, unlock + e, ok)
  {
    var d := unlock + e;
    assert d[..|unlock|] == unlock && d[|unlock|..] == e;
    assert UnlockPrefix(d, |unlock|);
  }

  /** Every erase run splits into one run of the unprotect setter and the erase proper. */
  lemma EraseSplit(block: bv32, timeout: bv32, budget: nat, d: Trace, ok: bool) returns (n: nat)
    requires EraseTrace(block, timeout, budget, d, ok)
    ensures n <= |d| && UnlockPrefix(d, n) && EraseAfterUnlock(block, timeout, budget, d[n..], ok)
  {
    n :| 0 <= n <= |d| && UnlockPrefix(d, n) && EraseAfterUnlock(block, timeout, budget, d[n..], ok);
  }

  /** The erase proper, when it succeeds: it sent the erase frame of `block` right after reading WEL set,
      its wait saw the device ready within the timeout, and its E-FAIL read came back clear. */
  lemma EraseSucceeded(block: bv32, timeout: bv32, budget: nat, e: Trace) returns (m: nat)
    requires EraseAfterUnlock(block, timeout, budget, e, true)
    ensures 3 + m + 4 < |e|
    ensures Sent(e[0], WriteEnable) && IsStatusRead(e[1], Sr3Addr) && IsSet(Wel, Reply(e[1]))
    ensures Sent(e[2], BlockErase(block))
    ensures PollTrace(e[3..3 + m], timeout, budget) && PollReady(e[3..3 + m])
    ensures IsStatusRead(e[|e| - 2], Sr3Addr) && !IsSet(EFail, Reply(e[|e| - 2]))
  {
    assert e[..2][0] == e[0] && e[..2][1] == e[1];
    var w := e[3..];
    m :| 0 <= m <= |w| && WaitSplit(w, timeout, budget, m) && AfterWait(w[..m], w[m..], true);
    assert e[3..3 + m] == w[..m];
    assert w[m..][3] == e[|e| - 2];
  }

  /** The erase proper fails, sending nothing after the latch read, when that read finds WEL clear; and it
      fails when its wait ends without seeing the device ready. */
  lemma EraseNeedsLatchAndReady(block: bv32, timeout: bv32, budget: nat, e: Trace, ok: bool)
    requires EraseAfterUnlock(block, timeout, budget, e, ok)
    ensures !IsSet(Wel, Reply(e[1])) ==> !ok && |e| == 2
    ensures ok ==> forall m :: 0 <= m <= |e| - 3 && WaitSplit(e[3..], timeout, budget, m) ==> PollReady(e[3..][..m])
  {
    assert e[..2][1] == e[1];
    if ok {
      forall m | 0 <= m <= |e| - 3 && WaitSplit(e[3..], timeout, budget, m)
        ensures PollReady(e[3..][..m])
      {
        var w := e[3..];
        var m' :| 0 <= m' <= |w| && WaitSplit(w, timeout, budget, m') && AfterWait(w[..m'], w[m'..], true);
        WaitLengthUnique(w, timeout, budget, m, m');
      }
    }
  }
}
