/** Organisation of the W25N02KV array: 2048 blocks of 64 pages, each page a 2048-byte main area followed by
    a 128-byte spare area, and the linear page address used on the wire. Page addresses are `uint32`
    values, so the arithmetic here is 32-bit and wraps.
 */
module Geometry {

  const PageMainSize: bv16 := 2048
  const PageSpareSize: bv16 := 128
  /** Bytes in one page's cache: the spare area starts at column `PageMainSize`. */
  const PageTotalSize: bv16 := PageMainSize + PageSpareSize
  const PagesPerBlock: bv32 := 64
  const TotalBlocks: bv32 := 2048
  const TotalPages: bv32 := TotalBlocks * PagesPerBlock

  /** Blocks [0, FactoryInfoBlockEnd) and from FactoryInfoBlock2Start on hold factory data. */
  const FactoryInfoBlockStart: bv32 := 0
  const FactoryInfoBlockEnd: bv32 := 8
  const FactoryInfoBlock2Start: bv32 := 2043
  const FactoryInfoBlock2End: bv32 := 2047

  /** Every byte of an erased page. */
  const ErasedByte: bv8 := 0xFF

  /** Linear page address of page `page` of block `block` (the multiplier is `PagesPerBlock`, written out
      so that the solver sees a literal). */
  function PageAddr(block: bv32, page: bv32): bv32
  {
    block * 64 + page
  }

  /** The block a linear page address lies in (the divisor is `PagesPerBlock`). */
  function BlockAddr(pageAddr: bv32): bv32
  {
    pageAddr / 64
  }

  /** For an in-range block and page, the page address splits back into the two, lies below `TotalPages`,
      and so fits the 24-bit address field of a command frame. */
  lemma PageAddrSplits(block: bv32, page: bv32)
    requires block < TotalBlocks && page < PagesPerBlock
    ensures BlockAddr(PageAddr(block, page)) == block
    ensures PageAddr(block, page) % 64 == page
    ensures PageAddr(block, page) < TotalPages
    ensures PageAddr(block, page) < 0x100_0000
  {
  }

  /** Different in-range (block, page) pairs have different page addresses. */
  lemma PageAddrInjective(b1: bv32, p1: bv32, b2: bv32, p2: bv32)
    requires b1 < TotalBlocks && p1 < PagesPerBlock
    requires b2 < TotalBlocks && p2 < PagesPerBlock
    requires PageAddr(b1, p1) == PageAddr(b2, p2)
    ensures b1 == b2 && p1 == p2
  {
    PageAddrSplits(b1, p1);
    PageAddrSplits(b2, p2);
  }

  /** Every page address below `TotalPages` is reached by the split into `BlockAddr` and the page offset. */
  lemma PageAddrOnto(pageAddr: bv32)
    requires pageAddr < TotalPages
    ensures BlockAddr(pageAddr) < TotalBlocks
    ensures PageAddr(BlockAddr(pageAddr), pageAddr % 64) == pageAddr
  {
  }
}
