/** The three status registers of the W25N02KV and the pure decoders the controller applies to a byte read
    from them: protection (SR1), configuration (SR2) and status (SR3).
 */
module StatusBits {
  import opened Spi

  // Register addresses carried by the read/write status-register frames.
  const Sr1Addr: byte := 0xA0
  const Sr2Addr: byte := 0xB0
  const Sr3Addr: byte := 0xC0

  // SR1: protection register.
  const Sr1Srp0: byte := 0x80
  const Sr1Bp3: byte := 0x40
  const Sr1Bp2: byte := 0x20
  const Sr1Bp1: byte := 0x10
  const Sr1Bp0: byte := 0x08
  const Sr1Tb: byte := 0x04
  const Sr1Wpe: byte := 0x02
  const Sr1Srp1: byte := 0x01
  const Sr1BpMask: byte := Sr1Bp3 | Sr1Bp2 | Sr1Bp1 | Sr1Bp0

  // SR2: configuration register.
  const Sr2OtpL: byte := 0x80
  const Sr2OtpE: byte := 0x40
  const Sr2Sr1L: byte := 0x20
  const Sr2EccE: byte := 0x10
  const Sr2Buf: byte := 0x08
  const Sr2Ods1: byte := 0x04
  const Sr2Ods0: byte := 0x02
  const Sr2HDis: byte := 0x01
  const Sr2OdsMask: byte := Sr2Ods1 | Sr2Ods0

  // SR3: status register.
  const Sr3Ecc2: byte := 0x40
  const Sr3Ecc1: byte := 0x20
  const Sr3Ecc0: byte := 0x10
  const Sr3PFail: byte := 0x08
  const Sr3EFail: byte := 0x04
  const Sr3Wel: byte := 0x02
  const Sr3Busy: byte := 0x01
  const Sr3EccMask: byte := Sr3Ecc2 | Sr3Ecc1 | Sr3Ecc0

  /** Bit `i` of `x`, counting from the least significant bit. */
  predicate Bit(x: byte, i: bv8)
    requires i < 8
  {
    (x >> i) & 1 == 1
  }

  /** The single-bit fields the controller reads or writes on its own. */
  datatype Flag =
    | Srp0 | Tb | Wpe | Srp1
    | OtpL | OtpE | Sr1L | EccE | Buf | HDis
    | PFail | EFail | Wel | Busy

  /** The register holding a flag. */
  function RegisterOf(f: Flag): byte
  {
    match f
    case Srp0 | Tb | Wpe | Srp1 => Sr1Addr
    case OtpL | OtpE | Sr1L | EccE | Buf | HDis => Sr2Addr
    case PFail | EFail | Wel | Busy => Sr3Addr
  }

  function Mask(f: Flag): byte
  {
    match f
    case Srp0 => Sr1Srp0
    case Tb => Sr1Tb
    case Wpe => Sr1Wpe
    case Srp1 => Sr1Srp1
    case OtpL => Sr2OtpL
    case OtpE => Sr2OtpE
    case Sr1L => Sr2Sr1L
    case EccE => Sr2EccE
    case Buf => Sr2Buf
    case HDis => Sr2HDis
    case PFail => Sr3PFail
    case EFail => Sr3EFail
    case Wel => Sr3Wel
    case Busy => Sr3Busy
  }

  /** The bit position of a flag as the datasheet numbers it (S7 .. S0). */
  function Position(f: Flag): (i: bv8)
    ensures i < 8
  {
    match f
    case Srp0 => 7
    case Tb => 2
    case Wpe => 1
    case Srp1 => 0
    case OtpL => 7
    case OtpE => 6
    case Sr1L => 5
    case EccE => 4
    case Buf => 3
    case HDis => 0
    case PFail => 3
    case EFail => 2
    case Wel => 1
    case Busy => 0
  }

  /** A boolean accessor: whether the flag's mask bit is set in one read of its register. */
  predicate IsSet(f: Flag, value: byte)
  {
    value & Mask(f) != 0
  }

  /** Each accessor tests exactly the datasheet bit of its flag. */
  lemma IsSetIsBit(f: Flag, value: byte)
    ensures IsSet(f, value) <==> Bit(value, Position(f))
  {
  }

  /** The masks of two different flags of one register never overlap. */
  lemma MasksDisjoint(f: Flag, g: Flag)
    requires f != g && RegisterOf(f) == RegisterOf(g)
    ensures Mask(f) & Mask(g) == 0
  {
  }

  /** The eight SR1 fields and the eight SR2 fields each cover their register exactly once. */
  lemma RegisterLayout()
    ensures Sr1Srp0 | Sr1BpMask | Sr1Tb | Sr1Wpe | Sr1Srp1 == 0xFF
    ensures Sr1BpMask == 0x78
    ensures Sr2OtpL | Sr2OtpE | Sr2Sr1L | Sr2EccE | Sr2Buf | Sr2OdsMask | Sr2HDis == 0xFF
    ensures Sr2OdsMask == 0x06
    ensures Sr3EccMask == 0x70
  {
  }

  /** BP[3:0] of SR1. */
  function BlockProtectBits(sr1: byte): (bp: byte)
    ensures bp < 16
    ensures forall i: bv8 :: i < 4 ==> (Bit(bp, i) <==> Bit(sr1, i + 3))
  {
    (sr1 & Sr1BpMask) >> 3
  }

  /** ODS[1:0] of SR2. */
  function OutputDriverStrength(sr2: byte): (level: byte)
    ensures level < 4
    ensures Bit(level, 0) <==> Bit(sr2, 1)
    ensures Bit(level, 1) <==> Bit(sr2, 2)
  {
    (sr2 & Sr2OdsMask) >> 1
  }

  /** `ECC_Status_t`. */
  datatype EccStatus = EccSuccess | EccCorrected | EccUncorrectable | EccThreshold

  /** The enumeration value of each status. */
  function EccCode(s: EccStatus): byte
  {
    match s
    case EccSuccess => 0
    case EccCorrected => 1
    case EccUncorrectable => 2
    case EccThreshold => 3
  }

  /** The ECC field, bits 6..4 of SR3. */
  function EccField(sr3: byte): (e: byte)
    ensures e < 8
    ensures forall i: bv8 :: i < 3 ==> (Bit(e, i) <==> Bit(sr3, i + 4))
  {
    (sr3 & Sr3EccMask) >> 4
  }

  /** `GetECCStatus_service` on the byte it read: field values 0..3 are the enumeration values, and the
      reserved values 4..7 fall back to success. */
  function EccStatusOf(sr3: byte): (s: EccStatus)
    ensures EccField(sr3) < 4 ==> EccCode(s) == EccField(sr3)
    ensures EccField(sr3) >= 4 ==> s == EccSuccess
  {
    match EccField(sr3)
    case 0 => EccSuccess
    case 1 => EccCorrected
    case 2 => EccUncorrectable
    case 3 => EccThreshold
    case _ => EccSuccess
  }

  /** `IsECCError_service` on the status it decoded. */
  predicate IsEccError(s: EccStatus)
  {
    s == EccUncorrectable || s == EccThreshold
  }

  /** The ECC decode depends on SR3 bits 6..4 only. */
  lemma EccStatusOnlyEccBits(a: byte, b: byte)
    requires a & 0x70 == b & 0x70
    ensures EccStatusOf(a) == EccStatusOf(b)
  {
  }

  /** Writing a status's enumeration value into the ECC field of any SR3 byte decodes back to it. */
  lemma EccStatusRoundTrip(s: EccStatus, other: byte)
    ensures EccStatusOf((other & !0x70) | (EccCode(s) << 4)) == s
  {
  }

  /** An ECC error is reported exactly when bit 6 is clear and bit 5 is set: field 2 or 3. Reserved codes
      (bit 6 set) are never errors. */
  lemma IsEccErrorBits(sr3: byte)
    ensures IsEccError(EccStatusOf(sr3)) <==> !Bit(sr3, 6) && Bit(sr3, 5)
  {
  }
}
