/** `IsBusyWithTimeout_service`: the bounded wait for the device to leave its busy state.

    The wait reads the millisecond tick once as its start, then repeats: read the tick; if the elapsed time
    `now - start`, computed in 32-bit unsigned arithmetic and so correct across a tick wrap, is no longer
    below the timeout, give up; otherwise read SR3 and return ready as soon as BUSY reads clear.

    The trace of one wait is the start tick followed by rounds. A round is a tick that has run out, or a tick
    still within the timeout followed by one SR3 read. Because the tick source is an oracle, the model bounds
    the number of busy rounds by `env.pollBudget`: once that many busy reads have been seen, the next busy
    read ends the wait as a timeout.
 */
module Poll {
  import opened Spi
  import opened Frames
  import opened StatusBits
  import opened Bus

  /** Ticks `now` and `start` are less than `timeout` milliseconds apart, in uint32 arithmetic. */
  predicate Within(now: bv32, start: bv32, timeout: bv32)
  {
    now - start < timeout
  }

  /** The rounds of a wait that started at tick `start` and may still see `budget` busy reads before the
      last one. */
  predicate Rounds(r: Trace, start: bv32, timeout: bv32, budget: nat)
    decreases |r|
  {
    |r| >= 1 && r[0].Tick? &&
    if !Within(r[0].ms, start, timeout) then |r| == 1
    else
      |r| >= 2 && IsStatusRead(r[1], Sr3Addr) &&
      if !IsSet(Busy, Reply(r[1])) || budget == 0 then |r| == 2
      else Rounds(r[2..], start, timeout, budget - 1)
  }

  /** A complete wait: the start tick, then its rounds. */
  predicate PollTrace(d: Trace, timeout: bv32, budget: nat)
  {
    |d| >= 1 && d[0].Tick? && Rounds(d[1..], d[0].ms, timeout, budget)
  }

  /** The first `m` events of `e` are a complete wait; the services use this to say where a wait ends and
      what follows it. */
  predicate WaitSplit(e: Trace, timeout: bv32, budget: nat, m: nat)
  {
    m <= |e| && PollTrace(e[..m], timeout, budget)
  }

  /** The wait ended by reading SR3 with BUSY clear. */
  predicate PollReady(d: Trace)
  {
    |d| >= 1 && IsStatusRead(Last(d), Sr3Addr) && !IsSet(Busy, Reply(Last(d)))
  }

  /** `n` consecutive rounds that each saw the device busy within the timeout. */
  predicate BusyRounds(r: Trace, start: bv32, timeout: bv32, n: nat)
    decreases n
  {
    if n == 0 then r == []
    else
      |r| >= 2 &&
      var t, s := r[|r| - 2], r[|r| - 1];
      t.Tick? && Within(t.ms, start, timeout) && IsStatusRead(s, Sr3Addr) && IsSet(Busy, Reply(s)) &&
      BusyRounds(r[..|r| - 2], start, timeout, n - 1)
  }

  /** Busy rounds followed by the rounds of a wait with the remaining budget form the rounds of the whole
      wait. */
  lemma {:induction false} BusyRoundsThen(r: Trace, tail: Trace, start: bv32, timeout: bv32, n: nat, budget: nat)
    requires BusyRounds(r, start, timeout, n)
    requires n <= budget
    requires Rounds(tail, start, timeout, budget - n)
    ensures Rounds(r + tail, start, timeout, budget)
    decreases n
  {
    if n > 0 {
      var front := r[..|r| - 2];
      var step := r[|r| - 2..] + tail;
      assert step[0] == r[|r| - 2] && step[1] == r[|r| - 1] && step[2..] == tail;
      assert Rounds(step, start, timeout, budget - n + 1);
      BusyRoundsThen(front, step, start, timeout, n - 1, budget);
      assert front + step == r + tail;
    } else {
      assert r + tail == tail;
    }
  }

  /** The start tick, the busy rounds so far and the final rounds make a complete wait. */
  lemma FinishWait(start: Event, busy: Trace, tail: Trace, timeout: bv32, n: nat, budget: nat)
    requires start.Tick? && BusyRounds(busy, start.ms, timeout, n)
    requires n <= budget && Rounds(tail, start.ms, timeout, budget - n)
    ensures PollTrace([start] + busy + tail, timeout, budget)
  {
    BusyRoundsThen(busy, tail, start.ms, timeout, n, budget);
    assert ([start] + busy + tail)[1..] == busy + tail;
  }

  /** `IsBusyWithTimeout_service(timeout)`: returns the events of the wait and whether the device was seen
      ready. */
  method IsBusyWithTimeout(env: Env, history: Trace, timeout: bv32) returns (d: Trace, ready: bool)
    ensures PollTrace(d, timeout, env.pollBudget)
    ensures ready <==> PollReady(d)
    ensures timeout == 0 ==> |d| == 2 && !ready
  {
    var start := ReadTick(env, history);
    var busy: Trace := [];
    var budget: nat := env.pollBudget;
    while true
      invariant budget <= env.pollBudget
      invariant BusyRounds(busy, start.ms, timeout, env.pollBudget - budget)
      invariant timeout == 0 ==> busy == []
      decreases budget
    {
      var now := ReadTick(env, history + [start] + busy);
      if !Within(now.ms, start.ms, timeout) {
        FinishWait(start, busy, [now], timeout, env.pollBudget - budget, env.pollBudget);
        return [start] + busy + [now], false;
      }
      var sr3 := ReadRegister(env, history + [start] + busy + [now], Sr3Addr);
      if !IsSet(Busy, Reply(sr3)) || budget == 0 {
        FinishWait(start, busy, [now, sr3], timeout, env.pollBudget - budget, env.pollBudget);
        return [start] + busy + [now, sr3], !IsSet(Busy, Reply(sr3));
      }
      assert (busy + [now, sr3])[..|busy|] == busy;
      busy := busy + [now, sr3];
      budget := budget - 1;
    }
  }

  /** A wait reports ready only after an SR3 read that was preceded by a tick still within the timeout. */
  lemma {:induction false} ReadyWithinTimeout(r: Trace, start: bv32, timeout: bv32, budget: nat)
    requires Rounds(r, start, timeout, budget)
    requires PollReady(r)
    ensures |r| >= 2 && r[|r| - 2].Tick? && Within(r[|r| - 2].ms, start, timeout)
    decreases |r|
  {
    if |r| > 2 {
      ReadyWithinTimeout(r[2..], start, timeout, budget - 1);
      assert r[2..][|r[2..]| - 2] == r[|r| - 2];
    }
  }

  /** A wait that is not ready ended either on a tick past the timeout or on a busy read with the budget
      spent; every SR3 read before the last one saw the device busy. */
  lemma {:induction false} NotReadyEnding(r: Trace, start: bv32, timeout: bv32, budget: nat)
    requires Rounds(r, start, timeout, budget)
    requires !PollReady(r)
    ensures (Last(r).Tick? && !Within(Last(r).ms, start, timeout))
         || (IsStatusRead(Last(r), Sr3Addr) && IsSet(Busy, Reply(Last(r))))
    decreases |r|
  {
    if |r| > 2 {
      NotReadyEnding(r[2..], start, timeout, budget - 1);
      assert Last(r[2..]) == Last(r);
    }
  }

  /** Only ticks and SR3 reads happen during a wait: it sends no command. */
  lemma {:induction false} RoundsOnlyReadStatus(r: Trace, start: bv32, timeout: bv32, budget: nat)
    requires Rounds(r, start, timeout, budget)
    ensures forall i :: 0 <= i < |r| ==> r[i].Tick? || IsStatusRead(r[i], Sr3Addr)
    decreases |r|
  {
    if |r| > 2 {
      RoundsOnlyReadStatus(r[2..], start, timeout, budget - 1);
      forall i | 2 <= i < |r|
        ensures r[i].Tick? || IsStatusRead(r[i], Sr3Addr)
      {
        assert r[i] == r[2..][i - 2];
      }
    }
  }

  /** Rounds are prefix-free: no complete wait is a proper prefix of another with the same start, timeout
      and budget. */
  lemma {:induction false} RoundsPrefixFree(r1: Trace, r2: Trace, start: bv32, timeout: bv32, budget: nat)
    requires Rounds(r1, start, timeout, budget) && Rounds(r2, start, timeout, budget)
    requires |r1| <= |r2| && r1 == r2[..|r1|]
    ensures r1 == r2
    decreases |r1|
  {
    assert r1[0] == r2[0];
    if |r1| > 2 {
      assert r1[1] == r2[1];
      assert r1[2..] == r2[2..][..|r1| - 2];
      RoundsPrefixFree(r1[2..], r2[2..], start, timeout, budget - 1);
      assert r1 == r1[..2] + r1[2..] && r2 == r2[..2] + r2[2..];
    } else if |r1| == 2 {
      assert r1[1] == r2[1];
    }
  }

  /** Where a wait ends is determined by the events themselves: two complete waits at the front of the same
      events have the same length. */
  lemma WaitLengthUnique(e: Trace, timeout: bv32, budget: nat, m1: nat, m2: nat)
    requires WaitSplit(e, timeout, budget, m1) && WaitSplit(e, timeout, budget, m2)
    ensures m1 == m2
  {
    if m1 <= m2 {
      PollPrefixFree(e[..m1], e[..m2], timeout, budget);
    } else {
      PollPrefixFree(e[..m2], e[..m1], timeout, budget);
    }
  }

  lemma PollPrefixFree(d1: Trace, d2: Trace, timeout: bv32, budget: nat)
    requires PollTrace(d1, timeout, budget) && PollTrace(d2, timeout, budget)
    requires |d1| <= |d2| && d1 == d2[..|d1|]
    ensures |d1| == |d2|
  {
    assert d1[0] == d2[0];
    assert d1[1..] == d2[1..][..|d1| - 1];
    RoundsPrefixFree(d1[1..], d2[1..], d1[0].ms, timeout, budget);
  }
}
