/** The status-register accessors: each makes exactly one status-register read and decodes the byte it got.
    None of them writes a register or sends any other command.
 */
module StatusService {
  import opened Spi
  import opened StatusBits
  import opened Bus

  /** `GetSR1`, `GetSR2`, `GetSR3`: the raw byte of one read. */
  method GetRegister(env: Env, history: Trace, register: byte) returns (d: Trace, value: byte)
    ensures |d| == 1 && IsStatusRead(d[0], register)
    ensures value == d[0].rx[0]
  {
    var e := ReadRegister(env, history, register);
    d, value := [e], Reply(e);
  }

  /** The boolean accessors (`IsTopBottomProtect`, `IsOTPEnabled_service`, `IsBusy_service`,
      `CheckProgramFail_service` and the rest): one read of the flag's register, true exactly when the
      flag's datasheet bit is set. */
  method GetFlag(env: Env, history: Trace, f: Flag) returns (d: Trace, isSet: bool)
    ensures |d| == 1 && IsStatusRead(d[0], RegisterOf(f))
    ensures isSet <==> Bit(d[0].rx[0], Position(f))
  {
    var value;
    d, value := GetRegister(env, history, RegisterOf(f));
    isSet := value & Mask(f) != 0;
    IsSetIsBit(f, value);
  }

  /** `GetBlockProtectBits`: BP[3:0] of one SR1 read, bit for bit. */
  method GetBlockProtect(env: Env, history: Trace) returns (d: Trace, bp: byte)
    ensures |d| == 1 && IsStatusRead(d[0], Sr1Addr)
    ensures bp < 16
    ensures forall i: bv8 :: i < 4 ==> (Bit(bp, i) <==> Bit(d[0].rx[0], i + 3))
  {
    var sr1;
    d, sr1 := GetRegister(env, history, Sr1Addr);
    bp := BlockProtectBits(sr1);
  }

  /** `GetOutputDriverStrength_service`: ODS[1:0] of one SR2 read. */
  method GetDriveStrength(env: Env, history: Trace) returns (d: Trace, level: byte)
    ensures |d| == 1 && IsStatusRead(d[0], Sr2Addr)
    ensures level < 4
    ensures Bit(level, 0) <==> Bit(d[0].rx[0], 1)
    ensures Bit(level, 1) <==> Bit(d[0].rx[0], 2)
  {
    var sr2;
    d, sr2 := GetRegister(env, history, Sr2Addr);
    level := OutputDriverStrength(sr2);
  }

  /** `GetECCStatus_service`: the ECC field of one SR3 read, with the reserved values read as success. */
  method GetEccStatus(env: Env, history: Trace) returns (d: Trace, s: EccStatus)
    ensures |d| == 1 && IsStatusRead(d[0], Sr3Addr)
    ensures EccField(d[0].rx[0]) < 4 ==> EccCode(s) == EccField(d[0].rx[0])
    ensures EccField(d[0].rx[0]) >= 4 ==> s == EccSuccess
  {
    var sr3;
    d, sr3 := GetRegister(env, history, Sr3Addr);
    s := EccStatusOf(sr3);
  }

  /** `IsECCError_service`: one SR3 read; an error exactly when bits 6..4 read 010 or 011. */
  method IsEccErrorService(env: Env, history: Trace) returns (d: Trace, error: bool)
    ensures |d| == 1 && IsStatusRead(d[0], Sr3Addr)
    ensures error <==> !Bit(d[0].rx[0], 6) && Bit(d[0].rx[0], 5)
  {
    var s;
    d, s := GetEccStatus(env, history);
    error := IsEccError(s);
    IsEccErrorBits(d[0].rx[0]);
  }
}
