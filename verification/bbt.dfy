/** The bad-block table (`BBT_service`): one flag per block, true for a block that must not be used.

    The factory scan reads two marker bytes of page 0 of every block outside the factory-information ranges
    and records the block bad when both reads complete and either byte differs from 0xFF; a read that fails
    records the block good. A block found bad at run time is marked in the table first and then gets a 0x00
    marker programmed into the first spare byte of its page 0. The queries treat any index past the table as
    bad, list the bad indices in ascending order, count them, and look for the first usable block.
 */
module Bbt {
  import opened Spi
  import opened Frames
  import opened StatusBits
  import opened Bus
  import opened Poll
  import opened Geometry
  import opened Read

  /** Entries in the table: one per block. */
  const TableSize: nat := 2048

  const MarkerTimeout: bv32 := 100

  predicate ValidTable(t: seq<bool>)
  {
    |t| == TableSize
  }

  /** Blocks the factory scan skips and records good: below `FactoryInfoBlockEnd` or above
      `FactoryInfoBlock2Start`. Block 2043 itself is scanned. */
  predicate Reserved(b: int)
  {
    b < 8 || b > 2043
  }

  lemma ReservedMatchesGeometry(b: bv32)
    ensures Reserved(b as int) <==> b < FactoryInfoBlockEnd || b > FactoryInfoBlock2Start
  {
  }

  // ---------------------------------------------------------------------------------------------------------
  // The table as data

  /** The indices of the bad entries among the first `k`, in ascending order: the reference every query is
      measured against. */
  function BadBelow(t: seq<bool>, k: nat): (r: seq<nat>)
    requires k <= |t|
    ensures |r| <= k
    ensures forall i :: 0 <= i < |r| ==> r[i] < k
    decreases k
  {
    if k == 0 then [] else BadBelow(t, k - 1) + (if t[k - 1] then [k - 1] else [])
  }

  /** The ascending indices of all bad entries. */
  function BadIndices(t: seq<bool>): seq<nat>
  {
    BadBelow(t, |t|)
  }

  /** `BadBelow` lists exactly the bad entries below `k`. */
  lemma {:induction false} BadBelowMembers(t: seq<bool>, k: nat)
    requires k <= |t|
    ensures forall i :: 0 <= i < k ==> (i in BadBelow(t, k) <==> t[i])
    ensures forall i :: i in BadBelow(t, k) ==> i < k
    decreases k
  {
    if k > 0 {
      BadBelowMembers(t, k - 1);
    }
  }

  /** `BadBelow` is strictly ascending, so it lists each bad entry once. */
  lemma {:induction false} BadBelowAscending(t: seq<bool>, k: nat)
    requires k <= |t|
    ensures forall i, j :: 0 <= i < j < |BadBelow(t, k)| ==> BadBelow(t, k)[i] < BadBelow(t, k)[j]
    decreases k
  {
    if k > 0 {
      BadBelowAscending(t, k - 1);
    }
  }

  /** `BBT_IsBad(block)`: an index past the table reads as bad, so a caller never uses a block it cannot
      look up; otherwise the block's entry. */
  function IsBad(t: seq<bool>, block: nat): (r: bool)
    requires ValidTable(t)
    ensures r <==> block >= TableSize || block in BadIndices(t)
  {
    BadBelowMembers(t, |t|);
    if block >= TableSize then true else t[block]
  }

  /** The table after `BBT_MarkRuntimeBad(block)`: `block`'s entry set when it is in range, every other entry
      as it was. */
  function Mark(t: seq<bool>, block: nat): (r: seq<bool>)
    requires ValidTable(t)
    ensures ValidTable(r)
    ensures forall i :: 0 <= i < |t| ==> r[i] == (t[i] || i == block)
  {
    if block >= TableSize || t[block] then t else t[block := true]
  }

  /** Marking twice is marking once. */
  lemma MarkIdempotent(t: seq<bool>, block: nat)
    requires ValidTable(t)
    ensures Mark(Mark(t, block), block) == Mark(t, block)
  {
  }

  /** A marked block reads as bad from then on, and marking never makes a bad block good. */
  lemma MarkIsFailSafe(t: seq<bool>, block: nat, other: nat)
    requires ValidTable(t)
    ensures IsBad(Mark(t, block), block)
    ensures IsBad(t, other) ==> IsBad(Mark(t, block), other)
  {
    BadBelowMembers(t, |t|);
    BadBelowMembers(Mark(t, block), |t|);
  }

  /** Marking an in-range block adds exactly that block to the bad list. */
  lemma MarkAddsOne(t: seq<bool>, block: nat)
    requires ValidTable(t) && block < TableSize
    ensures forall i :: i in BadIndices(Mark(t, block)) <==> i in BadIndices(t) || i == block
  {
    var m := Mark(t, block);
    BadBelowMembers(t, |t|);
    BadBelowMembers(m, |m|);
    forall i: nat
      ensures i in BadIndices(m) <==> i in BadIndices(t) || i == block
    {
      if i < |t| {
        assert m[i] == (t[i] || i == block);
      }
    }
  }

  /** The counts of `BBT_PrintSummary`: the loop counts the true entries; the good count is
      `TOTAL_BLOCKS - bad`. */
  method CountBad(t: seq<bool>) returns (bad: nat, good: nat)
    requires ValidTable(t)
    ensures bad == |BadIndices(t)|
    ensures bad + good == TableSize
  {
    bad := 0;
    var blk := 0;
    while blk < TableSize
      invariant blk <= TableSize
      invariant bad == |BadBelow(t, blk)|
    {
      if t[blk] {
        bad := bad + 1;
      }
      blk := blk + 1;
    }
    good := TableSize - bad;
  }

  /** `BBT_GetBadBlocks(list, maxlen)`: returns the number of bad entries whatever `maxlen` is, writes the
      first `min(count, maxlen)` bad indices, in ascending order, to the front of `list`, and leaves the rest
      of `list` alone. */
  method GetBadBlocks(t: seq<bool>, list: seq<nat>, maxlen: nat) returns (count: nat, out: seq<nat>)
    requires ValidTable(t) && maxlen <= |list|
    ensures count == |BadIndices(t)|
    ensures |out| == |list|
    ensures forall i :: 0 <= i < count && i < maxlen ==> out[i] == BadIndices(t)[i]
    ensures forall i :: 0 <= i < |list| && (i >= count || i >= maxlen) ==> out[i] == list[i]
  {
    count := 0;
    out := list;
    var blk := 0;
    while blk < TableSize
      invariant blk <= TableSize
      invariant count == |BadBelow(t, blk)|
      invariant |out| == |list|
      invariant forall i :: 0 <= i < count && i < maxlen ==> out[i] == BadBelow(t, blk)[i]
      invariant forall i :: 0 <= i < |list| && (i >= count || i >= maxlen) ==> out[i] == list[i]
    {
      if t[blk] {
        if count < maxlen {
          out := out[count := blk];
        }
        count := count + 1;
      }
      blk := blk + 1;
    }
  }

  /** `FindFirstValidBlock`: the least block in [8, 2043) that is not bad, or -1 when every one is. */
  method FindFirstValidBlock(t: seq<bool>) returns (r: int)
    requires ValidTable(t)
    ensures r == -1 <==> forall b :: 8 <= b < 2043 ==> t[b]
    ensures r != -1 ==> 8 <= r < 2043 && !t[r] && forall b :: 8 <= b < r ==> t[b]
  {
    var block := 8;
    while block < 2043
      invariant 8 <= block <= 2043
      invariant forall b :: 8 <= b < block ==> t[b]
    {
      if !IsBad(t, block) {
        return block;
      }
      block := block + 1;
    }
    return -1;
  }

  /** The entry `BBT_ShowBadBlock` reads at index `i`: an entry of the table, or nothing for an index past
      its end. */
  function Lookup(t: seq<bool>, i: nat): (r: Option<bool>)
    ensures r.Some? <==> i < |t|
    ensures r.Some? ==> r.value == t[i]
  {
    if i < |t| then Some(t[i]) else None
  }

  /** `BBT_ShowBadBlock` as written: its loop runs while `blk <= TOTAL_BLOCKS`, so it looks up one entry more
      than the table holds, and the last lookup is past the end. */
  method ShowBadBlockAsWritten(t: seq<bool>) returns (lookups: seq<Option<bool>>)
    requires ValidTable(t)
    ensures |lookups| == TableSize + 1
    ensures forall i :: 0 <= i < TableSize ==> lookups[i] == Some(t[i])
    ensures lookups[TableSize] == None
  {
    lookups := [];
    var blk := 0;
    while blk <= TableSize
      invariant blk <= TableSize + 1
      invariant |lookups| == blk
      invariant forall i :: 0 <= i < |lookups| ==> lookups[i] == Lookup(t, i)
    {
      lookups := lookups + [Lookup(t, blk)];
      blk := blk + 1;
    }
  }

  /** `BBT_ShowBadBlock` with the loop bound `blk < TOTAL_BLOCKS`: every lookup is in range and the blocks it
      shows are exactly the bad list, in ascending order. */
  method ShowBadBlock(t: seq<bool>) returns (shown: seq<nat>)
    requires ValidTable(t)
    ensures shown == BadIndices(t)
  {
    shown := [];
    var blk := 0;
    while blk < TableSize
      invariant blk <= TableSize
      invariant shown == BadBelow(t, blk)
    {
      if t[blk] {
        shown := shown + [blk];
      }
      blk := blk + 1;
    }
  }

  // ---------------------------------------------------------------------------------------------------------
  // The device side: the factory scan and the run-time marker

  /** The byte a 1-byte read left in a buffer that held 0xFF: the byte received by its data frame, the
      second-last event of a read that went out. */
  function ReadByte(r: Trace): byte
  {
    if |r| >= 2 && r[|r| - 2].Frame? && |r[|r| - 2].rx| >= 1 then r[|r| - 2].rx[0] else ErasedByte
  }

  /** `read_marker_bytes_page0(block, main0, spare0)` as called from `is_factory_bad`, which sets both bytes
      to 0xFF first: main[0] is read from page 0 of the block at column 0, and only when that read succeeds
      is spare[0] read at column `PageMainSize`, each with a 1-byte `StandardRead_Service`. */
  predicate MarkerTrace(block: bv32, budget: nat, d: Trace, main0: byte, spare0: byte, ok: bool)
  {
    var page := PageAddr(block, 0);
    (ReadTrace(page, 0, 1, budget, d, false) && main0 == ErasedByte && spare0 == ErasedByte && !ok) ||
    (exists n :: 0 <= n <= |d| && ReadTrace(page, 0, 1, budget, d[..n], true) && main0 == ReadByte(d[..n]) &&
                 ReadTrace(page, PageMainSize, 1, budget, d[n..], ok) &&
                 spare0 == if ok then ReadByte(d[n..]) else ErasedByte)
  }

  /** The verdict of `is_factory_bad` for `block` from the events `r`: bad exactly when both marker reads went
      out and a marker byte is not 0xFF; a marker read that fails gives a good block. */
  predicate FactoryVerdict(block: bv32, budget: nat, r: Trace, bad: bool)
  {
    var page := PageAddr(block, 0);
    (ReadTrace(page, 0, 1, budget, r, false) && !bad) ||
    (exists n :: 0 <= n <= |r| && ReadTrace(page, 0, 1, budget, r[..n], true) &&
                 ((ReadTrace(page, PageMainSize, 1, budget, r[n..], false) && !bad) ||
                  (ReadTrace(page, PageMainSize, 1, budget, r[n..], true) &&
                   (bad <==> ReadByte(r[..n]) != ErasedByte || ReadByte(r[n..]) != ErasedByte))))
  }

  method ReadMarkerBytes(env: Env, history: Trace, block: bv32) returns (d: Trace, main0: byte, spare0: byte, ok: bool)
    ensures MarkerTrace(block, env.pollBudget, d, main0, spare0, ok)
  {
    var page0 := PageAddr(block, 0);
    var m, first;
    d, m, first := StandardRead(env, history, page0, 0, [ErasedByte], 1);
    main0, spare0 := m[0], ErasedByte;
    if !first {
      return d, main0, spare0, false;
    }
    assert [main0] == m[..1];
    var r, s;
    r, s, ok := StandardRead(env, history + d, page0, PageMainSize, [ErasedByte], 1);
    spare0 := s[0];
    if ok {
      assert [spare0] == s[..1];
    }
    assert (d + r)[..|d|] == d && (d + r)[|d|..] == r;
    d := d + r;
  }

  lemma MarkersGiveVerdict(block: bv32, budget: nat, d: Trace, main0: byte, spare0: byte, ok: bool)
    requires MarkerTrace(block, budget, d, main0, spare0, ok)
    ensures FactoryVerdict(block, budget, d, ok && (main0 != ErasedByte || spare0 != ErasedByte))
  {
  }

  method IsFactoryBad(env: Env, history: Trace, block: bv32) returns (d: Trace, main0: byte, spare0: byte, bad: bool)
    ensures FactoryVerdict(block, env.pollBudget, d, bad)
    ensures bad ==> main0 != ErasedByte || spare0 != ErasedByte
  {
    var ok;
    d, main0, spare0, ok := ReadMarkerBytes(env, history, block);
    MarkersGiveVerdict(block, env.pollBudget, d, main0, spare0, ok);
    bad := ok && (main0 != ErasedByte || spare0 != ErasedByte);
  }

  /** A block found bad had both marker reads go out, each the one-byte ReadData frame from page 0 of the
      block, main[0] at column 0 and then spare[0] at column `PageMainSize`, and one of the two bytes it
      received is not 0xFF. */
  lemma FactoryBadRead(block: bv32, budget: nat, r: Trace) returns (n: nat)
    requires FactoryVerdict(block, budget, r, true)
    ensures n <= |r|
    ensures ReadTrace(PageAddr(block, 0), 0, 1, budget, r[..n], true)
    ensures ReadTrace(PageAddr(block, 0), PageMainSize, 1, budget, r[n..], true)
    ensures Received(r[..n][n - 2], CacheReadCmd(ReadData, 0), 1)
    ensures Received(r[n..][|r| - n - 2], CacheReadCmd(ReadData, PageMainSize), 1)
    ensures r[..n][n - 2].rx[0] != ErasedByte || r[n..][|r| - n - 2].rx[0] != ErasedByte
  {
    n :| 0 <= n <= |r| && ReadTrace(PageAddr(block, 0), 0, 1, budget, r[..n], true) &&
      ReadTrace(PageAddr(block, 0), PageMainSize, 1, budget, r[n..], true) &&
      (ReadByte(r[..n]) != ErasedByte || ReadByte(r[n..]) != ErasedByte);
    IssuedReadEnds(PageAddr(block, 0), 0, 1, budget, r[..n]);
    IssuedReadEnds(PageAddr(block, 0), PageMainSize, 1, budget, r[n..]);
  }

  /** The events of a run of reads, one trace per block, in block order. */
  function Concat(segs: seq<Trace>): Trace
  {
    if segs == [] then [] else Concat(segs[..|segs| - 1]) + segs[|segs| - 1]
  }

  /** The first `|t|` blocks of `BBT_ScanFactoryBlocks`, block `b` adding the events `segs[b]`: a reserved
      block adds no event and a good entry, every other block the events and the verdict of its marker
      reads. */
  ghost predicate ScanOf(budget: nat, segs: seq<Trace>, t: seq<bool>)
  {
    |segs| == |t| <= TableSize && forall b :: 0 <= b < |t| ==> BlockScan(budget, b, segs[b], t[b])
  }

  /** Block `b` of the scan added the events `seg` and recorded `bad`. */
  ghost predicate BlockScan(budget: nat, b: nat, seg: Trace, bad: bool)
    requires b < TableSize
  {
    if Reserved(b) then seg == [] && !bad else FactoryVerdict(b as bv32, budget, seg, bad)
  }

  ghost predicate Scanned(budget: nat, d: Trace, t: seq<bool>)
  {
    exists segs :: ScanOf(budget, segs, t) && d == Concat(segs)
  }

  lemma ScanStep(budget: nat, segs: seq<Trace>, t: seq<bool>, r: Trace, bad: bool)
    requires ScanOf(budget, segs, t) && |t| < TableSize
    requires BlockScan(budget, |t|, r, bad)
    ensures ScanOf(budget, segs + [r], t + [bad])
    ensures Concat(segs + [r]) == Concat(segs) + r
  {
    assert (segs + [r])[..|segs|] == segs;
    forall b | 0 <= b < |t| + 1
      ensures BlockScan(budget, b, (segs + [r])[b], (t + [bad])[b])
    {
      if b < |t| {
        assert (segs + [r])[b] == segs[b] && (t + [bad])[b] == t[b];
      }
    }
  }

  method ScanFactoryBlocks(env: Env, history: Trace) returns (d: Trace, t: seq<bool>)
    ensures ValidTable(t) && Scanned(env.pollBudget, d, t)
    ensures forall b :: 0 <= b < TableSize && Reserved(b) ==> !t[b]
  {
    d, t := [], [];
    ghost var segs: seq<Trace> := [];
    var blk := 0;
    while blk < TableSize
      invariant blk <= TableSize && |t| == blk
      invariant ScanOf(env.pollBudget, segs, t) && d == Concat(segs)
    {
      if Reserved(blk) {
        ScanStep(env.pollBudget, segs, t, [], false);
        segs, t := segs + [[]], t + [false];
        assert d + [] == d;
      } else {
        var r, _, _, bad := IsFactoryBad(env, history + d, blk as bv32);
        ScanStep(env.pollBudget, segs, t, r, bad);
        d, t, segs := d + r, t + [bad], segs + [r];
      }
      blk := blk + 1;
    }
  }

  /** Empty traces at the end of a run add no events. */
  lemma {:induction false} ConcatEmptyTail(segs: seq<Trace>, k: nat)
    requires k <= |segs| && forall i :: k <= i < |segs| ==> segs[i] == []
    ensures Concat(segs) == Concat(segs[..k])
    decreases |segs|
  {
    if |segs| > k {
      var front := segs[..|segs| - 1];
      assert front[..k] == segs[..k];
      ConcatEmptyTail(front, k);
      assert Concat(segs) == Concat(front) + [] == Concat(front);
    } else {
      assert segs[..k] == segs;
    }
  }

  /** Empty traces at the start of a run add no events. */
  lemma {:induction false} ConcatEmptyHead(segs: seq<Trace>, k: nat)
    requires k <= |segs| && forall i :: 0 <= i < k ==> segs[i] == []
    ensures Concat(segs) == Concat(segs[k..])
    decreases |segs|
  {
    if |segs| > k {
      var front := segs[..|segs| - 1];
      ConcatEmptyHead(front, k);
      assert segs[k..][..|segs| - k - 1] == front[k..];
    } else {
      ConcatEmptyTail(segs, 0);
    }
  }

  /** The scan issues commands for blocks 8 to 2043 only: its events are those of the verdicts of these
      blocks, in order, and every other block is recorded good. */
  lemma ScanReadsOnlyUnreserved(budget: nat, d: Trace, t: seq<bool>) returns (segs: seq<Trace>)
    requires ValidTable(t) && Scanned(budget, d, t)
    ensures |segs| == TableSize && d == Concat(segs[8..2044])
    ensures forall b :: 8 <= b < 2044 ==> BlockScan(budget, b, segs[b], t[b])
    ensures forall b :: 0 <= b < TableSize && Reserved(b) ==> !t[b]
  {
    segs :| ScanOf(budget, segs, t) && d == Concat(segs);
    ConcatEmptyTail(segs, 2044);
    ConcatEmptyHead(segs[..2044], 8);
    assert segs[..2044][8..] == segs[8..2044];
  }

  /** What follows the marker program's wait: after a timeout nothing; otherwise the one SR3 read of
      `CheckProgramFail_service`, whose result is only logged. */
  predicate AfterMarkerWait(wait: Trace, r: Trace)
  {
    if PollReady(wait) then |r| == 1 && IsStatusRead(r[0], Sr3Addr) else r == []
  }

  predicate MarkerWait(w: Trace, budget: nat)
  {
    exists m :: 0 <= m <= |w| && WaitSplit(w, MarkerTimeout, budget, m) && AfterMarkerWait(w[..m], w[m..])
  }

  /** `write_bad_marker_page0_spare0(block)`: a 02h load of the one byte 0x00 at column `PageMainSize`, with
      no write enable before it, Program Execute of page 0 of the block, and the wait. */
  predicate MarkerWriteTrace(block: bv32, budget: nat, d: Trace)
  {
    |d| >= 2 && Sent(d[0], LoadCmd(LoadProgramData, PageMainSize, [0x00])) &&
    Sent(d[1], ProgramExecute(PageAddr(block, 0))) && MarkerWait(d[2..], budget)
  }

  method WriteBadMarker(env: Env, history: Trace, block: bv32) returns (d: Trace)
    ensures MarkerWriteTrace(block, env.pollBudget, d)
  {
    var frames := [Send(Encode(LoadCmd(LoadProgramData, PageMainSize, [0x00]))), Send(Encode(ProgramExecute(PageAddr(block, 0))))];
    var wait, ready := IsBusyWithTimeout(env, history + frames, MarkerTimeout);
    var rest: Trace := [];
    if ready {
      var sr3 := ReadRegister(env, history + frames + wait, Sr3Addr);
      rest := [sr3];
    }
    var w := wait + rest;
    assert w[..|wait|] == wait && w[|wait|..] == rest;
    assert WaitSplit(w, MarkerTimeout, budget := env.pollBudget, m := |wait|);
    d := frames + w;
    assert d[2..] == w;
  }

  /** `BBT_MarkRuntimeBad(block)`: out of range or already bad, nothing happens and nothing is sent;
      otherwise the entry is set and then the marker is programmed, and the entry stays set whatever the
      program reports. */
  method MarkRuntimeBad(env: Env, history: Trace, t: seq<bool>, block: nat) returns (d: Trace, r: seq<bool>)
    requires ValidTable(t)
    ensures r == Mark(t, block)
    ensures block >= TableSize || t[block] ==> d == []
    ensures block < TableSize && !t[block] ==> MarkerWriteTrace(block as bv32, env.pollBudget, d)
  {
    if block >= TableSize {
      return [], t;
    }
    if t[block] {
      return [], t;
    }
    r := t[block := true];
    d := WriteBadMarker(env, history, block as bv32);
  }
}
