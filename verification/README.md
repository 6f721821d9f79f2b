# W25N02KV NAND controller: command layer, bad-block table and test patterns

This project models the firmware that drives a Winbond W25N02KV 2 Gbit SPI NAND flash from an STM32H7. It proves
properties of that model in Dafny. The model covers four layers:

- **Drivers.** These build the SPI command frames: page-to-cache read, the eleven cache reads, the four cache loads,
  Program Execute, block erase, and status-register read and write.
- **Services.** These are built from the drivers:
  - the status-register accessors and the ECC decode;
  - write enable and disable, and the eleven protection and configuration setters;
  - the bounded busy wait;
  - block erase, standard and random program, standard and random read, and OTP read and program.
- **Bad-block table (BBT).** This is the in-memory table of 2048 flags, with:
  - the factory scan;
  - run-time marking;
  - the queries: lookup, count, listing and first usable block.
- **Test patterns.** This is the generator the test applications use.

The SPI bus, the millisecond tick and the NAND device are oracles (`Spi.Env`). The model records every chip-select
frame (bytes sent and bytes received) and every tick read as one event of a trace. Each service returns the events
it caused. Its contract is a grammar over those events: which frames go out, in which order, under which earlier
replies, and how the result depends on them. The contracts therefore hold for every device and every clock.

Modules follow the firmware's structure:

- `Spi` and `Bus`: the transport.
- `Frames`: the frame layout.
- `Geometry`: `W25N02KV_Config.h`.
- `StatusBits` and `StatusService`: the status registers.
- `RegisterUpdate` and `Protect`: `Protect_service`.
- `Poll`: the bounded wait.
- `Erase`, `Program`, `Read` and `Otp`: the operation services.
- `Bbt`: `BBT_service`.
- `Pattern`: `Pattern.c`.

Where the firmware's comments disagree with its code, the model follows the code:

- The ECC field of SR3 is three bits wide (mask 0x70, values 4..7 read as success), not two.
- The factory scan skips blocks below 8 and above 2043, so block 2043 is scanned although it is described as
  reserved.
- `StandardRead_Service` succeeds for every ECC status, including UNCORRECTABLE, whatever its header comment says.
- The status-register frames use opcodes 05h and 01h, the header constants, not the 0Fh/1Fh of the comments.
- `RandomProgram_Service` discards the result of its wait.
- The run-time bad-block marker is programmed with load opcode 02h and no write enable.
- `OTP_ProgramPage` never reads P-FAIL and sends no write enable of its own.

## Model

| member | source | states |
|---|---|---|
| StatusBits.IsSetIsBit | USB_MassStorage_CM7/NandController/service/StatusRegister_service.h:30-98 | each single-bit accessor tests exactly the datasheet bit S7..S0 of its flag |
| StatusBits.MasksDisjoint | USB_MassStorage_CM7/NandController/service/StatusRegister_service.h:30-98 | two different flags of one register never share a mask bit |
| StatusBits.RegisterLayout | USB_MassStorage_CM7/NandController/service/StatusRegister_service.h:30-101 | the SR1 fields and the SR2 fields each cover their byte exactly (union 0xFF); BP mask 0x78, ODS mask 0x06, ECC mask 0x70 |
| StatusBits.BlockProtectBits | USB_MassStorage_CM7/NandController/service/StatusRegister_service.c:42-45 | the result is below 16 and its bit i is SR1 bit i+3 |
| StatusBits.OutputDriverStrength | USB_MassStorage_CM7/NandController/service/StatusRegister_service.c:148-151 | the result is below 4 and its two bits are SR2 bits 1 and 2 |
| StatusBits.EccField | USB_MassStorage_CM7/NandController/service/StatusRegister_service.c:249 | the extracted ECC field is below 8 and its bit i is SR3 bit i+4 |
| StatusBits.EccStatusOf | USB_MassStorage_CM7/NandController/service/StatusRegister_service.c:246-266 | field values 0..3 decode to the enumeration value equal to the field; reserved values 4..7 decode to success, so the decode is total |
| StatusBits.EccStatusOnlyEccBits | USB_MassStorage_CM7/NandController/service/StatusRegister_service.c:248-249 | two SR3 bytes that agree on bits 6..4 decode to the same status |
| StatusBits.EccStatusRoundTrip | USB_MassStorage_CM7/NandController/service/StatusRegister_service.h:103-108 | writing a status's enumeration value into the ECC field of any SR3 byte decodes back to that status |
| StatusBits.IsEccErrorBits | USB_MassStorage_CM7/NandController/service/StatusRegister_service.c:221-227 | an ECC error is reported exactly for field 010 or 011; reserved codes are never errors |
| StatusService.GetRegister | USB_MassStorage_CM7/NandController/service/StatusRegister_service.c:29-32 | `GetSR1`/`GetSR2`/`GetSR3` make exactly one read of the register and return the byte received |
| StatusService.GetFlag | USB_MassStorage_CM7/NandController/service/StatusRegister_service.c:184-210 | every boolean accessor makes one read of its flag's register and is true exactly when the flag's datasheet bit is set |
| StatusService.GetBlockProtect | USB_MassStorage_CM7/NandController/service/StatusRegister_service.c:42-45 | one SR1 read; the result is below 16 and equals BP3..BP0 of that read bit for bit |
| StatusService.GetDriveStrength | USB_MassStorage_CM7/NandController/service/StatusRegister_service.c:148-151 | one SR2 read; the result is below 4 and equals ODS1..ODS0 of that read |
| StatusService.GetEccStatus | USB_MassStorage_CM7/NandController/service/StatusRegister_service.c:246-266 | one SR3 read; field 0..3 gives the matching status, 4..7 give success |
| StatusService.IsEccErrorService | USB_MassStorage_CM7/NandController/service/StatusRegister_service.c:221-227 | one SR3 read; true exactly when bit 6 is clear and bit 5 set |
| Frames.CacheReadOf | USB_MassStorage_CM7/NandController/driver/nand_dri_Read.h:30-41 | an opcode recognised as a cache read is the opcode of that read |
| Frames.LoadOf | USB_MassStorage/CM7/NandController/driver/nand_dri_Program.h:14-18 | an opcode recognised as a load is the opcode of that load |
| Frames.CacheReadOpcodeRoundTrip | USB_MassStorage_CM7/NandController/driver/nand_dri_Read.h:30-41 | the eleven cache-read opcodes are recognised back, so they are pairwise distinct |
| Frames.LoadOpcodeRoundTrip | USB_MassStorage/CM7/NandController/driver/nand_dri_Program.h:14-18 | the four load opcodes are recognised back, so they are pairwise distinct |
| Frames.Addr24RoundTrip | USB_MassStorage/CM7/NandController/driver/nand_dri_Read.c:38-40 | the three big-endian address bytes carry the address modulo 2^24 |
| Frames.Addr24Congruent | USB_MassStorage_CM7/NandController/driver/nand_dri_BlockErase.c:43-45 | addresses equal modulo 2^24 give identical address bytes |
| Frames.ColumnRoundTrip | USB_MassStorage/CM7/NandController/driver/nand_dri_Read.c:78-79 | the two column bytes give back the column, `hi * 256 + lo` |
| Frames.DecodePageDataRead | USB_MassStorage/CM7/NandController/driver/nand_dri_Read.c:33-45 | the 13h frame of a page address below 2^24 parses back to that page |
| Frames.DecodeCacheRead | USB_MassStorage/CM7/NandController/driver/nand_dri_Read.c:73-86 | every cache-read frame (opcode, two column bytes, one dummy byte) parses back to its read and column |
| Frames.DecodeLoad | USB_MassStorage/CM7/NandController/driver/nand_dri_Program.c:35-47 | every load frame (opcode, two column bytes, data) parses back to its load, column and data |
| Frames.DecodeProgramExecute | USB_MassStorage/CM7/NandController/driver/nand_dri_Program.c:133-145 | the 10h frame of a page address below 2^24 parses back to that page |
| Frames.DecodeBlockErase | USB_MassStorage_CM7/NandController/driver/nand_dri_BlockErase.c:38-50 | the D8h frame of an address below 2^24 parses back to that address, passed unchanged |
| Frames.DecodeEncode | USB_MassStorage/CM7/NandController/driver/nand_dri_Read.c:33-345 | every command whose address fits 24 bits is recovered from its frame |
| Frames.EncodeInjective | USB_MassStorage_CM7/NandController/driver/nand_dri_Read.h:30-41 | two framable commands with the same frame are the same command |
| Bus.ReadRegister | USB_MassStorage_CM7/NandController/driver/nand_dri_StatusRegister.c:37-48 | a status read sends 05h and the register address and receives exactly one byte |
| Bus.CacheReadFrame | USB_MassStorage/CM7/NandController/driver/nand_dri_Read.c:73-86 | a cache read sends the frame of its read and column and receives exactly `len` bytes |
| Bus.Deposit | USB_MassStorage/CM7/NandController/driver/nand_dri_Read.c:73-86 | the received bytes land at the front of the buffer and the rest of the buffer is unchanged |
| Geometry.PageAddrSplits | USB_MassStorage_CM7/NandController/driver/W25N02KV_Config.h:82-83 | for an in-range block and page, `BLOCK_ADDR` gives back the block, the page address modulo 64 gives back the page, and the address is below `TOTAL_PAGES` and 2^24 |
| Geometry.PageAddrInjective | USB_MassStorage_CM7/NandController/driver/W25N02KV_Config.h:82 | distinct in-range (block, page) pairs have distinct page addresses |
| Geometry.PageAddrOnto | USB_MassStorage_CM7/NandController/driver/W25N02KV_Config.h:82-83 | every page address below `TOTAL_PAGES` is reached from its block and page offset |
| Poll.IsBusyWithTimeout | USB_MassStorage/CM7/NandController/service/Protect_service.c:543-558 | the events are a start tick and rounds of a tick within the timeout (32-bit wrapping difference) followed by an SR3 read; ready exactly when the last SR3 read saw BUSY clear; a zero timeout reads two ticks and reports not ready |
| Poll.ReadyWithinTimeout | USB_MassStorage/CM7/NandController/service/Protect_service.c:547-552 | ready is reported only after an SR3 read preceded by a tick still within the timeout |
| Poll.NotReadyEnding | USB_MassStorage/CM7/NandController/service/Protect_service.c:547-557 | a wait that is not ready ended on a tick past the timeout or on a busy read |
| Poll.RoundsOnlyReadStatus | USB_MassStorage/CM7/NandController/service/Protect_service.c:545-554 | a wait sends no command: every event is a tick or an SR3 read |
| Poll.RoundsPrefixFree | USB_MassStorage/CM7/NandController/service/Protect_service.c:547-554 | no complete set of rounds is a proper prefix of another |
| Poll.WaitLengthUnique | USB_MassStorage/CM7/NandController/service/Protect_service.c:543-558 | where a wait ends is determined by the events: two complete waits at the front of the same events have equal length |
| Poll.PollPrefixFree | USB_MassStorage/CM7/NandController/service/Protect_service.c:543-558 | a complete wait that is a prefix of another has the same length |
| RegisterUpdate.ApplyChangesOnlyTouched | USB_MassStorage/CM7/NandController/service/Protect_service.c:83-520 | every setter's computed byte keeps each bit outside its target field as read |
| RegisterUpdate.ApplyKeepsLocks | USB_MassStorage/CM7/NandController/service/Protect_service.c:218-309 | no SR2 update clears OTP-L or SR1-L; the two lock operations only OR their bit in |
| RegisterUpdate.ChecksMatchTouched | USB_MassStorage/CM7/NandController/service/Protect_service.c:98-111 | a setter's verification accepts a read-back exactly when it agrees with the written byte on the target field |
| RegisterUpdate.OversizedBlockProtectFails | USB_MassStorage/CM7/NandController/service/Protect_service.c:88-98 | a BP value above 15 never passes the read-back comparison |
| Protect.WriteEnableService | USB_MassStorage/CM7/NandController/service/Protect_service.c:26-40 | sends 06h, then one SR3 read; true exactly when WEL is set in it |
| Protect.WriteDisableService | USB_MassStorage/CM7/NandController/service/Protect_service.c:52-60 | sends 04h, then one SR3 read that only feeds the log |
| Protect.SetRegister | USB_MassStorage/CM7/NandController/service/Protect_service.c:83-112 | read, write enable, give up without writing if WEL is clear, write the computed byte, then the read-backs that decide success |
| Protect.SucceededSetter | USB_MassStorage/CM7/NandController/service/Protect_service.c:98-103 | a successful setter made every comparison on its own read-back, and each passed |
| Protect.StableRegisterDecides | USB_MassStorage/CM7/NandController/service/Protect_service.c:96-111 | with a register that reads back one byte, success is decided by the read-back agreeing with the written byte on the target field, never by the write |
| Protect.SetterWritesOnlyTouched | USB_MassStorage/CM7/NandController/service/Protect_service.c:85-96 | the write frame carries the register and a byte equal to the read on every bit outside the target field |
| Protect.SetterKeepsLocks | USB_MassStorage/CM7/NandController/service/Protect_service.c:218-520 | no SR2 setter writes OTP-L or SR1-L clear when it read them set |
| Protect.SetterNeedsLatch | USB_MassStorage/CM7/NandController/service/Protect_service.c:93-94 | the register is written only after WEL read set; success needs the write |
| Protect.SetBlockProtectService | USB_MassStorage/CM7/NandController/service/Protect_service.c:83-112 | BP above 15 fails; success means BP read back equal to the argument and TB equal to `top_bottom` |
| Protect.SetWriteProtectEnableService | USB_MassStorage/CM7/NandController/service/Protect_service.c:126-151 | success means WP-E read back equal to `enable` |
| Protect.SetStatusRegisterProtectService | USB_MassStorage/CM7/NandController/service/Protect_service.c:170-200 | success means SRP0 and SRP1 read back equal to the arguments |
| Protect.OtpLockService | USB_MassStorage/CM7/NandController/service/Protect_service.c:218-238 | success means OTP-L read back set |
| Protect.OtpEnableService | USB_MassStorage/CM7/NandController/service/Protect_service.c:252-277 | success means OTP-E read back equal to `enable` |
| Protect.Sr1LockService | USB_MassStorage/CM7/NandController/service/Protect_service.c:289-309 | success means SR1-L read back set |
| Protect.SetEccEnableService | USB_MassStorage/CM7/NandController/service/Protect_service.c:323-348 | success means ECC-E read back equal to `enable` |
| Protect.SetBufferModeService | USB_MassStorage/CM7/NandController/service/Protect_service.c:362-387 | success means BUF read back equal to `enable` |
| Protect.SetOutputDriverStrengthService | USB_MassStorage/CM7/NandController/service/Protect_service.c:401-428 | a level above 3 fails with no bus traffic; success means ODS read back equal to the level |
| Protect.SetHoldDisableService | USB_MassStorage/CM7/NandController/service/Protect_service.c:442-470 | success means H-DIS read back equal to `disable` |
| Protect.SetReadModeService | USB_MassStorage/CM7/NandController/service/Protect_service.c:485-520 | success means BUF and ECC-E read back equal to the arguments |
| Erase.FinishErase | USB_MassStorage_CM7/NandController/service/BlockErase_service.c:59-80 | after a timeout nothing more is read and the erase fails; otherwise SR1, SR2, SR3 are read for the log and then E-FAIL; E-FAIL set fails, clear reads WEL once more and succeeds |
| Erase.BlockErase128K | USB_MassStorage_CM7/NandController/service/BlockErase_service.c:44-81 | the events are one unprotect setter run, whatever its result, then write enable, the D8h frame of `block_addr` unchanged and the wait |
| Erase.EraseSplit | USB_MassStorage_CM7/NandController/service/BlockErase_service.c:46-49 | every erase run splits into one unprotect run and the erase proper |
| Erase.EraseSucceeded | USB_MassStorage_CM7/NandController/service/BlockErase_service.c:51-80 | a successful erase read WEL set, sent the erase of the block, saw the device ready within the timeout and read E-FAIL clear |
| Erase.EraseNeedsLatchAndReady | USB_MassStorage_CM7/NandController/service/BlockErase_service.c:51-63 | WEL clear fails with nothing sent after it; success implies the wait saw the device ready |
| Program.LoadAndExecute | USB_MassStorage_CM7/NandController/service/Program_service.c:44-70 | write enable, then the load and Program Execute frames, the wait and the P-FAIL read, with the failure paths |
| Program.StandardProgram | USB_MassStorage_CM7/NandController/service/Program_service.c:44-70 | a 02h load of `buf[..len]` at column 0, then execute of the page; a timeout fails without reading P-FAIL |
| Program.RandomProgram | USB_MassStorage_CM7/NandController/service/Program_service.c:106-131 | an 84h load at the caller's column, then execute; the wait's result does not stop the P-FAIL read |
| Program.ProgramSucceeded | USB_MassStorage_CM7/NandController/service/Program_service.c:47-69 | a successful program read WEL set, sent load then execute, and read P-FAIL clear last |
| Program.ProgramResultIsPFail | USB_MassStorage_CM7/NandController/service/Program_service.c:118-130 | past the latch the random program's result is exactly P-FAIL clear, whatever the wait saw |
| Read.PageToBuffer | USB_MassStorage/CM7/NandController/service/Read_service.c:41-51 | 13h of the page, the wait, and only when ready the cache read of `len` bytes at the column and the SR3 read; the buffer gets the received bytes in front |
| Read.StandardRead | USB_MassStorage/CM7/NandController/service/Read_service.c:39-90 | succeeds exactly when the data frame went out, for every ECC status |
| Read.RandomRead | USB_MassStorage/CM7/NandController/service/Read_service.c:118-168 | fails on timeout with the buffer unchanged; otherwise fills the buffer and fails only when the last SR3 read decodes to UNCORRECTABLE |
| Read.IssuedIffReady | USB_MassStorage/CM7/NandController/service/Read_service.c:43-49 | the data frame goes out exactly when the wait saw the device ready |
| Read.IssuedReadEnds | USB_MassStorage/CM7/NandController/service/Read_service.c:49-51 | an issued read ends with the ReadData frame of the caller's column and length, then the SR3 read |
| Read.RandomReadRejects | USB_MassStorage/CM7/NandController/service/Read_service.c:136-167 | the random read rejects exactly ECC field 2; threshold and reserved codes pass |
| Otp.OtpReadPage | USB_MassStorage_CM7/NandController/service/OTP_service.c:46-65 | index above 0x0B sends nothing; a failed enable sends no page read; otherwise 13h of the index, the wait, the read at column 0 and the disable |
| Otp.OtpProgramPage | USB_MassStorage_CM7/NandController/service/OTP_service.c:100-121 | index below 0x02 or above 0x0B sends nothing; otherwise enable, load at column 0, execute of the index, wait, disable |
| Otp.SwitchedOnConfirmed | USB_MassStorage_CM7/NandController/service/OTP_service.c:51-52 | the enable step that let the operation proceed read OTP-E back set |
| Otp.OtpReadSplit | USB_MassStorage_CM7/NandController/service/OTP_service.c:48-52 | a successful OTP read had an in-range index and a successful enable before the page read |
| Otp.OtpReadSucceeded | USB_MassStorage_CM7/NandController/service/OTP_service.c:54-64 | after the enable: 13h of the index, a ready wait, the read at column 0 into the buffer's front, then the disable setter, whatever it reports |
| Otp.OtpReadTimedOut | USB_MassStorage_CM7/NandController/service/OTP_service.c:58-59 | a read that timed out leaves the buffer unchanged and OTP mode on: the trace ends with the not-ready wait |
| Otp.OtpProgramSplit | USB_MassStorage_CM7/NandController/service/OTP_service.c:102-107 | a successful OTP program had an index in 2..11 and a successful enable |
| Otp.OtpProgramSucceeded | USB_MassStorage_CM7/NandController/service/OTP_service.c:109-120 | after the enable: load at column 0 of the data, execute of the index, a ready wait, then the disable, with no P-FAIL read |
| Otp.OtpProgramResultIsWait | USB_MassStorage_CM7/NandController/service/OTP_service.c:112-120 | after the enable the result is exactly the wait's ready; on timeout OTP mode is left on |
| Bbt.BadBelowMembers | USB_MassStorage/CM7/NandController/service/BBT_service.c:330-338 | the reference list of bad indices below k holds exactly the true entries below k |
| Bbt.BadBelowAscending | USB_MassStorage/CM7/NandController/service/BBT_service.c:330-338 | that list is strictly ascending |
| Bbt.IsBad | USB_MassStorage/CM7/NandController/service/BBT_service.c:250-256 | bad exactly when the index is past the table or in the bad list |
| Bbt.Mark | USB_MassStorage/CM7/NandController/service/BBT_service.c:220-228 | the table keeps its size; an entry is true after marking exactly when it was true or is the marked block |
| Bbt.MarkIdempotent | USB_MassStorage/CM7/NandController/service/BBT_service.c:225-226 | marking twice is marking once |
| Bbt.MarkIsFailSafe | USB_MassStorage/CM7/NandController/service/BBT_service.c:228-231 | a marked block reads bad afterwards, and no bad block turns good |
| Bbt.MarkAddsOne | USB_MassStorage/CM7/NandController/service/BBT_service.c:228 | marking an in-range block adds exactly that block to the bad list |
| Bbt.CountBad | USB_MassStorage/CM7/NandController/service/BBT_service.c:271-283 | the bad count is the length of the bad list and the good count is the rest of 2048 |
| Bbt.GetBadBlocks | USB_MassStorage/CM7/NandController/service/BBT_service.c:326-340 | returns the number of bad blocks regardless of `maxlen`, writes the first min(count, maxlen) bad indices in ascending order, and leaves the rest of `list` alone |
| Bbt.FindFirstValidBlock | USB_MassStorage/CM7/NandController/service/BBT_service.c:359-370 | the least block in [8, 2043) that is not bad, or -1 exactly when all are bad |
| Bbt.Lookup | USB_MassStorage/CM7/NandController/service/BBT_service.c:301 | a lookup yields an entry exactly for an index inside the table |
| Bbt.ShowBadBlockAsWritten | USB_MassStorage/CM7/NandController/service/BBT_service.c:297-307 | the loop as written makes 2049 lookups and the last is past the table |
| Bbt.ShowBadBlock | USB_MassStorage/CM7/NandController/service/BBT_service.c:297-307 | with the bound corrected, the blocks shown are exactly the bad list, ascending |
| Bbt.ReservedMatchesGeometry | USB_MassStorage/CM7/NandController/service/BBT_service.c:176 | the skipped blocks are those below `FACTORY_INFO_BLOCK_END` or above `FACTORY_INFO_BLOCK2_START` |
| Bbt.ReadMarkerBytes | USB_MassStorage/CM7/NandController/service/BBT_service.c:47-58 | a 1-byte read of page 0 at column 0, and only if it succeeds a 1-byte read at column 2048; bytes not read stay 0xFF |
| Bbt.MarkersGiveVerdict | USB_MassStorage/CM7/NandController/service/BBT_service.c:91-94 | the verdict follows from the marker reads: bad exactly when both succeeded and a byte is not 0xFF |
| Bbt.IsFactoryBad | USB_MassStorage/CM7/NandController/service/BBT_service.c:86-95 | a failed marker read gives good; otherwise bad exactly when a marker byte is not 0xFF |
| Bbt.FactoryBadRead | USB_MassStorage/CM7/NandController/service/BBT_service.c:49-57 | a block found bad had both one-byte ReadData frames from page 0 (columns 0 and 2048) go out, and one received byte is not 0xFF |
| Bbt.ScanStep | USB_MassStorage/CM7/NandController/service/BBT_service.c:174-194 | one more block's events and verdict extend a scan of the blocks before it |
| Bbt.ScanFactoryBlocks | USB_MassStorage/CM7/NandController/service/BBT_service.c:170-195 | the table has 2048 entries, every reserved entry is good, and every other entry is that block's factory verdict from its own events, in block order |
| Bbt.ConcatEmptyTail | USB_MassStorage/CM7/NandController/service/BBT_service.c:176-179 | the skipped blocks at the end add no events |
| Bbt.ConcatEmptyHead | USB_MassStorage/CM7/NandController/service/BBT_service.c:176-179 | the skipped blocks at the start add no events |
| Bbt.ScanReadsOnlyUnreserved | USB_MassStorage/CM7/NandController/service/BBT_service.c:174-193 | the scan's events are those of blocks 8..2043 only, block 2043 included |
| Bbt.WriteBadMarker | USB_MassStorage/CM7/NandController/service/BBT_service.c:122-146 | a 02h load of one 0x00 at column 2048 with no write enable, execute of page 0 of the block, the wait, and an SR3 read only when ready |
| Bbt.MarkRuntimeBad | USB_MassStorage/CM7/NandController/service/BBT_service.c:220-232 | out of range or already bad sends nothing; otherwise the entry is set and the marker write follows; the table after is the marked table whatever the write reports |
| Pattern.StepIsGalois | USB_MassStorage_CM7/NandController/application/Pattern.c:61 | the negate-and-mask step equals the Galois update: shift, and XOR 0xB400 exactly when the bit shifted out was 1 |
| Pattern.StepKeepsState | USB_MassStorage_CM7/NandController/application/Pattern.c:61 | a nonzero state below 2^16 steps to a nonzero state below 2^16 |
| Pattern.LfsrInvariant | USB_MassStorage_CM7/NandController/application/Pattern.c:57-63 | every state from the seed 0xACE1 is below 2^16 and nonzero |
| Pattern.StepInverse | USB_MassStorage_CM7/NandController/application/Pattern.c:61 | on 16-bit states the step has an inverse, so no two states merge |
| Pattern.Fill | USB_MassStorage_CM7/NandController/application/Pattern.c:26-40 | the first `len` bytes hold the fill value and the rest are unchanged |
| Pattern.PreparePattern | USB_MassStorage_CM7/NandController/application/Pattern.c:22-71 | byte i below `len` is the pattern byte of the type at i: constants, AA/55 alternation, AA 55 FF 00 repeated, the low byte of the LFSR after i+1 steps, 0x00 for an unknown type; bytes from `len` on are unchanged |
| Pattern.AlternatingPeriod | USB_MassStorage_CM7/NandController/application/Pattern.c:42-53 | the alternating pattern is the first two bytes of the four-byte sequence, repeated |

## Left out

- The HAL SPI transfer, the chip-select GPIO and `HAL_GetTick` are oracles (`Spi.Env`). The device's array
  contents, ECC computation and timing are not modelled.
- All `printf` output. Status reads made only to feed a log message are modelled as bus events; their values never
  change a result.
- `Poll.IsBusyWithTimeout`: the number of busy SR3 reads in one wait is bounded by `env.pollBudget`. Once that
  many have been seen, the next busy read ends the wait as a timeout. The firmware keeps polling while the tick is
  within the timeout. A tick that never advances would make it poll forever, which the bound leaves unmodelled.
- `BlockErase128K_service` reads SR1, SR2 and SR3 as arguments of one `printf`. C leaves the evaluation order
  unspecified; the model takes them left to right.
- `BBT_BadBlock` in `BBT_service.h` is the same expression as `BBT_IsBad` and is modelled by `Bbt.IsBad`.
- The BBT lives in a global array in the firmware. The model passes the table in and returns the new table.
- Block indices, counts and the list entries are `nat`. Callers may pass any 32-bit `block` or `maxlen`; the model
  takes these values as they are. Only the loop counters and `count` are stepped, and they stay at or below 2049.
  No arithmetic is done on a caller's `block` or `maxlen` (`PAGE_ADDR` runs only for `block < 2048`), so no
  wrap-around is lost.
- `BBT_ShowBadBlock` and `BBT_PrintSummary` print only. The model keeps the lookups and the counts they make.
- The 06h and 04h drivers of `nand_dri_Protect.c` are the `WriteEnable` and `WriteDisable` commands of `Frames`.
- `Reset_service`, `ReadID_service`, the test applications
  (`SinglePage_Test`, `Endurance_Test`, `FactoryInvalidBlockScan_Test`) and `sai.c` are not part of this model.
  They only print, always succeed, or do not touch the NAND.
- The quad and dual transfer modes differ on the wire only in how many data lines carry the bytes. The model
  records the same bytes for every mode.

## Findings

| source | as written | input that shows it | evidently intended | confidence | as-written member | corrected member |
|---|---|---|---|---|---|---|
| USB_MassStorage/CM7/NandController/service/BBT_service.c:299 | the loop of `BBT_ShowBadBlock` runs while `blk <= TOTAL_BLOCKS` and reads `BBT_Table[blk]` | any table: the last iteration reads index 2048 of a 2048-entry array | `blk < TOTAL_BLOCKS`, showing exactly the bad blocks | not executed | Bbt.ShowBadBlockAsWritten | Bbt.ShowBadBlock |
