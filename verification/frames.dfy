/** The byte layout of every command frame the controller sends: an opcode, then a big-endian 24-bit page
    (or block) address, a big-endian 16-bit column address, or a status-register address, then the payload.

    `Encode` builds the transmitted bytes of a command; `Decode` parses them back. The round trip
    `Decode(Encode(c)) == Some(c)` holds for every command whose address fits the 24-bit field, which makes
    `Encode` injective on those commands: no two commands share a frame, so the opcodes are pairwise distinct.
 */
module Frames {
  import opened Spi

  // Opcodes of the page-read path.
  const OpPageDataRead: byte := 0x13
  const OpReadData: byte := 0x03
  const OpFastRead: byte := 0x0B
  const OpFastRead4ByteAddr: byte := 0x0C
  const OpFastReadDualOutput: byte := 0x3B
  const OpFastReadDualOutput4ByteAddr: byte := 0x3C
  const OpFastReadQuadOutput: byte := 0x6B
  const OpFastReadQuadOutput4ByteAddr: byte := 0x6C
  const OpFastReadDualIo: byte := 0xBB
  const OpFastReadDualIo4ByteAddr: byte := 0xBC
  const OpFastReadQuadIo: byte := 0xEB
  const OpFastReadQuadIo4ByteAddr: byte := 0xEC

  // Opcodes of the program path.
  const OpLoadProgramData: byte := 0x02
  const OpRandomLoadProgramData: byte := 0x84
  const OpQuadLoadProgramData: byte := 0x32
  const OpQuadRandomLoadProgramData: byte := 0x34
  const OpProgramExecute: byte := 0x10

  // Erase, status-register and write-latch opcodes.
  const OpBlockErase: byte := 0xD8
  const OpReadStatusRegister: byte := 0x05
  const OpWriteStatusRegister: byte := 0x01
  const OpWriteEnable: byte := 0x06
  const OpWriteDisable: byte := 0x04

  /** The eleven ways of clocking data out of the page cache: `ReadData` (03h) and the ten fast variants. */
  datatype CacheRead =
    | ReadData
    | FastRead
    | FastRead4ByteAddr
    | FastReadDualOutput
    | FastReadDualOutput4ByteAddr
    | FastReadQuadOutput
    | FastReadQuadOutput4ByteAddr
    | FastReadDualIo
    | FastReadDualIo4ByteAddr
    | FastReadQuadIo
    | FastReadQuadIo4ByteAddr

  /** The four ways of loading the page cache before Program Execute. */
  datatype Load = LoadProgramData | RandomLoadProgramData | QuadLoadProgramData | QuadRandomLoadProgramData

  datatype Command =
    | PageDataRead(page: bv32)
    | CacheReadCmd(read: CacheRead, column: bv16)
    | LoadCmd(load: Load, column: bv16, data: seq<byte>)
    | ProgramExecute(page: bv32)
    | BlockErase(block: bv32)
    | ReadStatusRegister(register: byte)
    | WriteStatusRegister(register: byte, value: byte)
    | WriteEnable
    | WriteDisable

  function CacheReadOpcode(r: CacheRead): byte
  {
    match r
    case ReadData => OpReadData
    case FastRead => OpFastRead
    case FastRead4ByteAddr => OpFastRead4ByteAddr
    case FastReadDualOutput => OpFastReadDualOutput
    case FastReadDualOutput4ByteAddr => OpFastReadDualOutput4ByteAddr
    case FastReadQuadOutput => OpFastReadQuadOutput
    case FastReadQuadOutput4ByteAddr => OpFastReadQuadOutput4ByteAddr
    case FastReadDualIo => OpFastReadDualIo
    case FastReadDualIo4ByteAddr => OpFastReadDualIo4ByteAddr
    case FastReadQuadIo => OpFastReadQuadIo
    case FastReadQuadIo4ByteAddr => OpFastReadQuadIo4ByteAddr
  }

  /** Which cache read an opcode selects, if any. */
  function CacheReadOf(op: byte): (r: Option<CacheRead>)
    ensures r.Some? ==> CacheReadOpcode(r.value) == op
  {
    if op == OpReadData then Some(ReadData)
    else if op == OpFastRead then Some(FastRead)
    else if op == OpFastRead4ByteAddr then Some(FastRead4ByteAddr)
    else if op == OpFastReadDualOutput then Some(FastReadDualOutput)
    else if op == OpFastReadDualOutput4ByteAddr then Some(FastReadDualOutput4ByteAddr)
    else if op == OpFastReadQuadOutput then Some(FastReadQuadOutput)
    else if op == OpFastReadQuadOutput4ByteAddr then Some(FastReadQuadOutput4ByteAddr)
    else if op == OpFastReadDualIo then Some(FastReadDualIo)
    else if op == OpFastReadDualIo4ByteAddr then Some(FastReadDualIo4ByteAddr)
    else if op == OpFastReadQuadIo then Some(FastReadQuadIo)
    else if op == OpFastReadQuadIo4ByteAddr then Some(FastReadQuadIo4ByteAddr)
    else None
  }

  function LoadOpcode(l: Load): byte
  {
    match l
    case LoadProgramData => OpLoadProgramData
    case RandomLoadProgramData => OpRandomLoadProgramData
    case QuadLoadProgramData => OpQuadLoadProgramData
    case QuadRandomLoadProgramData => OpQuadRandomLoadProgramData
  }

  function LoadOf(op: byte): (l: Option<Load>)
    ensures l.Some? ==> LoadOpcode(l.value) == op
  {
    if op == OpLoadProgramData then Some(LoadProgramData)
    else if op == OpRandomLoadProgramData then Some(RandomLoadProgramData)
    else if op == OpQuadLoadProgramData then Some(QuadLoadProgramData)
    else if op == OpQuadRandomLoadProgramData then Some(QuadRandomLoadProgramData)
    else None
  }

  /** The three address bytes of a page or block address, most significant first; bits 31..24 are dropped. */
  function Addr24(a: bv32): seq<byte>
  {
    [((a >> 16) & 0xFF) as byte, ((a >> 8) & 0xFF) as byte, (a & 0xFF) as byte]
  }

  function Addr24Value(hi: byte, mid: byte, lo: byte): bv32
  {
    (hi as bv32 << 16) | (mid as bv32 << 8) | lo as bv32
  }

  /** The two column bytes, most significant first. */
  function Column(c: bv16): seq<byte>
  {
    [(c >> 8) as byte, (c & 0xFF) as byte]
  }

  function ColumnValue(hi: byte, lo: byte): bv16
  {
    (hi as bv16 << 8) | lo as bv16
  }

  /** The transmitted bytes of a command frame. */
  function Encode(c: Command): (tx: seq<byte>)
    ensures |tx| >= 1
  {
    match c
    case PageDataRead(page) => [OpPageDataRead] + Addr24(page)
    case CacheReadCmd(r, column) => [CacheReadOpcode(r)] + Column(column) + [0x00]
    case LoadCmd(l, column, data) => [LoadOpcode(l)] + Column(column) + data
    case ProgramExecute(page) => [OpProgramExecute] + Addr24(page)
    case BlockErase(block) => [OpBlockErase] + Addr24(block)
    case ReadStatusRegister(register) => [OpReadStatusRegister, register]
    case WriteStatusRegister(register, value) => [OpWriteStatusRegister, register, value]
    case WriteEnable => [OpWriteEnable]
    case WriteDisable => [OpWriteDisable]
  }

  /** Parses a transmitted frame back into the command it carries. */
  function Decode(tx: seq<byte>): Option<Command>
  {
    if |tx| == 0 then None
    else
      var op := tx[0];
      if op == OpPageDataRead && |tx| == 4 then Some(PageDataRead(Addr24Value(tx[1], tx[2], tx[3])))
      else if op == OpProgramExecute && |tx| == 4 then Some(ProgramExecute(Addr24Value(tx[1], tx[2], tx[3])))
      else if op == OpBlockErase && |tx| == 4 then Some(BlockErase(Addr24Value(tx[1], tx[2], tx[3])))
      else if CacheReadOf(op).Some? && |tx| == 4 && tx[3] == 0x00 then
        Some(CacheReadCmd(CacheReadOf(op).value, ColumnValue(tx[1], tx[2])))
      else if LoadOf(op).Some? && |tx| >= 3 then
        Some(LoadCmd(LoadOf(op).value, ColumnValue(tx[1], tx[2]), tx[3..]))
      else if op == OpReadStatusRegister && |tx| == 2 then Some(ReadStatusRegister(tx[1]))
      else if op == OpWriteStatusRegister && |tx| == 3 then Some(WriteStatusRegister(tx[1], tx[2]))
      else if op == OpWriteEnable && |tx| == 1 then Some(WriteEnable)
      else if op == OpWriteDisable && |tx| == 1 then Some(WriteDisable)
      else None
  }

  /** The address fields of a command fit their 24-bit wire field. */
  predicate Framable(c: Command)
  {
    match c
    case PageDataRead(page) => page < 0x100_0000
    case ProgramExecute(page) => page < 0x100_0000
    case BlockErase(block) => block < 0x100_0000
    case _ => true
  }

  /** The three address bytes carry the address modulo 2^24. */
  lemma Addr24RoundTrip(a: bv32)
    ensures Addr24Value(Addr24(a)[0], Addr24(a)[1], Addr24(a)[2]) == a & 0xFF_FFFF
  {
  }

  /** Addresses equal modulo 2^24 produce the same address bytes. */
  lemma Addr24Congruent(a: bv32, b: bv32)
    requires a & 0xFF_FFFF == b & 0xFF_FFFF
    ensures Addr24(a) == Addr24(b)
  {
  }

  /** The two column bytes carry the whole column, as `hi * 256 + lo`. */
  lemma ColumnRoundTrip(c: bv16)
    ensures ColumnValue(Column(c)[0], Column(c)[1]) == c
    ensures Column(c)[0] as int * 256 + Column(c)[1] as int == c as int
  {
  }

  lemma CacheReadOpcodeRoundTrip(r: CacheRead)
    ensures CacheReadOf(CacheReadOpcode(r)) == Some(r)
  {
  }

  lemma LoadOpcodeRoundTrip(l: Load)
    ensures LoadOf(LoadOpcode(l)) == Some(l)
  {
  }

  /** Every framable command is recovered from its transmitted bytes. */
  lemma DecodeEncode(c: Command)
    requires Framable(c)
    ensures Decode(Encode(c)) == Some(c)
  {
    match c
    case PageDataRead(page) => DecodePageDataRead(page);
    case ProgramExecute(page) => DecodeProgramExecute(page);
    case BlockErase(block) => DecodeBlockErase(block);
    case CacheReadCmd(r, column) => DecodeCacheRead(r, column);
    case LoadCmd(l, column, data) => DecodeLoad(l, column, data);
    case ReadStatusRegister(_) =>
    case WriteStatusRegister(_, _) =>
    case WriteEnable =>
    case WriteDisable =>
  }

  lemma DecodePageDataRead(page: bv32)
    requires page < 0x100_0000
    ensures Decode(Encode(PageDataRead(page))) == Some(PageDataRead(page))
  {
    Addr24RoundTrip(page);
  }

  lemma DecodeProgramExecute(page: bv32)
    requires page < 0x100_0000
    ensures Decode(Encode(ProgramExecute(page))) == Some(ProgramExecute(page))
  {
    Addr24RoundTrip(page);
  }

  lemma DecodeBlockErase(block: bv32)
    requires block < 0x100_0000
    ensures Decode(Encode(BlockErase(block))) == Some(BlockErase(block))
  {
    Addr24RoundTrip(block);
  }

  lemma DecodeCacheRead(r: CacheRead, column: bv16)
    ensures Decode(Encode(CacheReadCmd(r, column))) == Some(CacheReadCmd(r, column))
  {
    CacheReadOpcodeRoundTrip(r);
    ColumnRoundTrip(column);
  }

  lemma DecodeLoad(l: Load, column: bv16, data: seq<byte>)
    ensures Decode(Encode(LoadCmd(l, column, data))) == Some(LoadCmd(l, column, data))
  {
    LoadOpcodeRoundTrip(l);
    ColumnRoundTrip(column);
    assert Encode(LoadCmd(l, column, data))[3..] == data;
  }

  /** Distinct framable commands never share a frame. */
  lemma EncodeInjective(c1: Command, c2: Command)
    requires Framable(c1) && Framable(c2)
    requires Encode(c1) == Encode(c2)
    ensures c1 == c2
  {
    DecodeEncode(c1);
    DecodeEncode(c2);
  }
}
