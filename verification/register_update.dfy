/** The protection and configuration setters as pure read-modify-write updates of one status register.

    Each setter reads its register, computes a new byte with `Apply`, writes it, and then decides success by
    reading the register back and checking the fields it meant to set (`Checks`). `Touched` is the set of
    bits an update may change; every other bit of the register is written back as it was read.
 */
module RegisterUpdate {
  import opened Spi
  import opened StatusBits

  datatype Update =
    | BlockProtect(bp: byte, topBottom: bool)
    | WriteProtect(enable: bool)
    | RegisterProtect(srp0: bool, srp1: bool)
    | OtpLock
    | OtpEnable(enable: bool)
    | Sr1Lock
    | EccEnable(enable: bool)
    | BufferMode(enable: bool)
    | DriveStrength(level: byte)
    | HoldDisable(disable: bool)
    | ReadMode(buffer: bool, ecc: bool)

  /** The register an update reads and writes. */
  function Target(u: Update): byte
  {
    match u
    case BlockProtect(_, _) | WriteProtect(_) | RegisterProtect(_, _) => Sr1Addr
    case _ => Sr2Addr
  }

  /** Whether the setter touches the device at all: a drive strength above 3 is refused up front. */
  predicate Admissible(u: Update)
  {
    !(u.DriveStrength? && u.level > 3)
  }

  /** Whether the setter can succeed: the read-back compares against the full argument, so a block-protect
      value above 15, whose upper bits are dropped when written, can never be confirmed. */
  predicate Confirmable(u: Update)
  {
    Admissible(u) && !(u.BlockProtect? && u.bp > 15)
  }

  /** The bits of the target register an update may change. */
  function Touched(u: Update): byte
  {
    match u
    case BlockProtect(_, _) => Sr1BpMask | Sr1Tb
    case WriteProtect(_) => Sr1Wpe
    case RegisterProtect(_, _) => Sr1Srp0 | Sr1Srp1
    case OtpLock => Sr2OtpL
    case OtpEnable(_) => Sr2OtpE
    case Sr1Lock => Sr2Sr1L
    case EccEnable(_) => Sr2EccE
    case BufferMode(_) => Sr2Buf
    case DriveStrength(_) => Sr2OdsMask
    case HoldDisable(_) => Sr2HDis
    case ReadMode(_, _) => Sr2Buf | Sr2EccE
  }

  /** `value` with flag `f` set or cleared. */
  function Assign(f: Flag, value: byte, on: bool): byte
  {
    if on then value | Mask(f) else value & !Mask(f)
  }

  /** The byte a setter writes, given the byte it read (`prior`). */
  function Apply(u: Update, prior: byte): byte
  {
    match u
    case BlockProtect(bp, topBottom) =>
      (prior & !(Sr1BpMask | Sr1Tb)) | ((bp & 0x0F) << 3) | (if topBottom then Sr1Tb else 0)
    case WriteProtect(enable) => Assign(Wpe, prior, enable)
    case RegisterProtect(srp0, srp1) =>
      (prior & !(Sr1Srp0 | Sr1Srp1)) | (if srp0 then Sr1Srp0 else 0) | (if srp1 then Sr1Srp1 else 0)
    case OtpLock => prior | Sr2OtpL
    case OtpEnable(enable) => Assign(OtpE, prior, enable)
    case Sr1Lock => prior | Sr2Sr1L
    case EccEnable(enable) => Assign(EccE, prior, enable)
    case BufferMode(enable) => Assign(Buf, prior, enable)
    case DriveStrength(level) => (prior & !Sr2OdsMask) | (level << 1)
    case HoldDisable(disable) => Assign(HDis, prior, disable)
    case ReadMode(buffer, ecc) =>
      (prior & !(Sr2Buf | Sr2EccE)) | (if buffer then Sr2Buf else 0) | (if ecc then Sr2EccE else 0)
  }

  /** One comparison a setter makes on one read-back of its register. */
  datatype Check =
    | FlagIs(flag: Flag, want: bool)
    | BlockProtectIs(bp: byte)
    | DriveStrengthIs(level: byte)

  predicate Passes(c: Check, value: byte)
  {
    match c
    case FlagIs(f, want) => IsSet(f, value) == want
    case BlockProtectIs(bp) => BlockProtectBits(value) == bp
    case DriveStrengthIs(level) => OutputDriverStrength(value) == level
  }

  /** The comparisons of a setter's verification, in the order the source evaluates them; each reads the
      register afresh. */
  function Checks(u: Update): (cs: seq<Check>)
    ensures 1 <= |cs| <= 2
  {
    match u
    case BlockProtect(bp, topBottom) => [BlockProtectIs(bp), FlagIs(Tb, topBottom)]
    case WriteProtect(enable) => [FlagIs(Wpe, enable)]
    case RegisterProtect(srp0, srp1) => [FlagIs(Srp0, srp0), FlagIs(Srp1, srp1)]
    case OtpLock => [FlagIs(OtpL, true)]
    case OtpEnable(enable) => [FlagIs(OtpE, enable)]
    case Sr1Lock => [FlagIs(Sr1L, true)]
    case EccEnable(enable) => [FlagIs(EccE, enable)]
    case BufferMode(enable) => [FlagIs(Buf, enable)]
    case DriveStrength(level) => [DriveStrengthIs(level)]
    case HoldDisable(disable) => [FlagIs(HDis, disable)]
    case ReadMode(buffer, ecc) => [FlagIs(Buf, buffer), FlagIs(EccE, ecc)]
  }

  /** Whether the second comparison is skipped once the first fails (`&&` in the condition); the read-mode
      setter reads both fields into locals before comparing. */
  predicate ShortCircuit(u: Update)
  {
    u.BlockProtect? || u.RegisterProtect?
  }

  /** How many further reads of the register the setter's log message makes after the verification. */
  function DiagnosticReads(u: Update): nat
  {
    match u
    case BlockProtect(_, _) => 2
    case RegisterProtect(_, _) => 2
    case OtpLock | Sr1Lock | ReadMode(_, _) => 0
    case _ => 1
  }

  predicate AllPass(cs: seq<Check>, value: byte)
  {
    forall i :: 0 <= i < |cs| ==> Passes(cs[i], value)
  }

  /** An update leaves every untouched bit of the register as it was read. */
  lemma ApplyChangesOnlyTouched(u: Update, prior: byte)
    requires Admissible(u)
    ensures Apply(u, prior) & !Touched(u) == prior & !Touched(u)
  {
    if u.BlockProtect? || u.WriteProtect? || u.RegisterProtect? {
      Sr1UpdateKeepsOthers(u, prior);
    } else if u.DriveStrength? || u.ReadMode? {
      Sr2FieldUpdateKeepsOthers(u, prior);
    } else {
      Sr2FlagUpdateKeepsOthers(u, prior);
    }
  }

  lemma Sr1UpdateKeepsOthers(u: Update, prior: byte)
    requires u.BlockProtect? || u.WriteProtect? || u.RegisterProtect?
    ensures Apply(u, prior) & !Touched(u) == prior & !Touched(u)
  {
  }

  lemma Sr2FieldUpdateKeepsOthers(u: Update, prior: byte)
    requires u.ReadMode? || (u.DriveStrength? && u.level <= 3)
    ensures Apply(u, prior) & !Touched(u) == prior & !Touched(u)
  {
  }

  lemma Sr2FlagUpdateKeepsOthers(u: Update, prior: byte)
    requires u.OtpLock? || u.OtpEnable? || u.Sr1Lock? || u.EccEnable? || u.BufferMode? || u.HoldDisable?
    ensures Apply(u, prior) & !Touched(u) == prior & !Touched(u)
  {
    match u
    case OtpLock | Sr1Lock =>
      var m := Touched(u);
      assert Apply(u, prior) == prior | m;
    case OtpEnable(on) => SetOrClearKeepsOthers(prior, Mask(OtpE), on);
    case EccEnable(on) => SetOrClearKeepsOthers(prior, Mask(EccE), on);
    case BufferMode(on) => SetOrClearKeepsOthers(prior, Mask(Buf), on);
    case HoldDisable(on) => SetOrClearKeepsOthers(prior, Mask(HDis), on);
  }

  /** Setting or clearing the bits of `m` leaves every other bit alone. */
  lemma SetOrClearKeepsOthers(prior: byte, m: byte, on: bool)
    ensures (if on then prior | m else prior & !m) & !m == prior & !m
  {
  }

  /** No update ever clears OTP-L or SR1-L: once set, both stay set through every SR2 write. */
  lemma ApplyKeepsLocks(u: Update, prior: byte)
    requires Admissible(u) && Target(u) == Sr2Addr
    ensures IsSet(OtpL, prior) ==> IsSet(OtpL, Apply(u, prior))
    ensures IsSet(Sr1L, prior) ==> IsSet(Sr1L, Apply(u, prior))
    ensures u.OtpLock? ==> Apply(u, prior) == prior | Mask(OtpL)
    ensures u.Sr1Lock? ==> Apply(u, prior) == prior | Mask(Sr1L)
  {
    ApplyChangesOnlyTouched(u, prior);
  }

  /** The verification accepts exactly the read-back bytes that agree with the written byte on the touched
      bits: a device that stores what it was sent confirms the setter, and nothing else does. */
  lemma ChecksMatchTouched(u: Update, prior: byte, value: byte)
    requires Confirmable(u)
    ensures AllPass(Checks(u), value) <==> value & Touched(u) == Apply(u, prior) & Touched(u)
  {
    var cs := Checks(u);
    if |cs| == 2 {
      assert AllPass(cs, value) <==> Passes(cs[0], value) && Passes(cs[1], value);
      if u.BlockProtect? {
        BlockProtectChecks(u, prior, value);
      } else if u.ReadMode? {
        ReadModeChecks(u.buffer, u.ecc, prior, value);
      } else {
        RegisterProtectChecks(u.srp0, u.srp1, prior, value);
      }
    } else {
      assert AllPass(cs, value) <==> Passes(cs[0], value);
      if u.DriveStrength? {
        DriveStrengthCheck(u, prior, value);
      } else if u.OtpLock? || u.Sr1Lock? {
        LockCheck(u, prior, value);
      } else {
        FlagCheck(u, prior, value);
      }
    }
  }

  lemma BlockProtectChecks(u: Update, prior: byte, value: byte)
    requires u.BlockProtect? && u.bp <= 15
    ensures Passes(Checks(u)[0], value) && Passes(Checks(u)[1], value)
        <==> value & Touched(u) == Apply(u, prior) & Touched(u)
  {
  }

  lemma ReadModeChecks(buffer: bool, ecc: bool, prior: byte, value: byte)
    ensures var u := ReadMode(buffer, ecc);
      (Passes(Checks(u)[0], value) && Passes(Checks(u)[1], value))
        <==> value & Touched(u) == Apply(u, prior) & Touched(u)
  {
    PairChecks(Sr2Buf, Sr2EccE, buffer, ecc, prior, value);
  }

  lemma RegisterProtectChecks(srp0: bool, srp1: bool, prior: byte, value: byte)
    ensures var u := RegisterProtect(srp0, srp1);
      (Passes(Checks(u)[0], value) && Passes(Checks(u)[1], value))
        <==> value & Touched(u) == Apply(u, prior) & Touched(u)
  {
    PairChecks(Sr1Srp0, Sr1Srp1, srp0, srp1, prior, value);
  }

  /** Two single-bit fields written together and compared one after the other. */
  lemma PairChecks(m0: byte, m1: byte, want0: bool, want1: bool, prior: byte, value: byte)
    requires (m0 == Sr2Buf && m1 == Sr2EccE) || (m0 == Sr1Srp0 && m1 == Sr1Srp1)
    ensures var written := (prior & !(m0 | m1)) | (if want0 then m0 else 0) | (if want1 then m1 else 0);
      ((value & m0 != 0) == want0 && (value & m1 != 0) == want1) <==> value & (m0 | m1) == written & (m0 | m1)
  {
  }

  lemma DriveStrengthCheck(u: Update, prior: byte, value: byte)
    requires u.DriveStrength? && u.level <= 3
    ensures Passes(Checks(u)[0], value) <==> value & Touched(u) == Apply(u, prior) & Touched(u)
  {
  }

  lemma LockCheck(u: Update, prior: byte, value: byte)
    requires u.OtpLock? || u.Sr1Lock?
    ensures Passes(Checks(u)[0], value) <==> value & Touched(u) == Apply(u, prior) & Touched(u)
  {
    var m := Touched(u);
    assert Apply(u, prior) & m == m;
    assert Passes(Checks(u)[0], value) <==> value & m != 0;
  }

  lemma FlagCheck(u: Update, prior: byte, value: byte)
    requires u.WriteProtect? || u.OtpEnable? || u.EccEnable? || u.BufferMode? || u.HoldDisable?
    ensures Passes(Checks(u)[0], value) <==> value & Touched(u) == Apply(u, prior) & Touched(u)
  {
    var m := Touched(u);
    var want := if u.HoldDisable? then u.disable else u.enable;
    assert Apply(u, prior) & m == (if want then m else 0);
    assert Passes(Checks(u)[0], value) <==> (value & m != 0) == want;
  }

  /** A block-protect value above 15 never passes the first comparison. */
  lemma OversizedBlockProtectFails(bp: byte, topBottom: bool, value: byte)
    requires bp > 15
    ensures !Passes(Checks(BlockProtect(bp, topBottom))[0], value)
  {
  }
}
