/** The write-latch services and the eleven protection and configuration setters.

    Every setter runs the same sequence: read its register, compute the new byte (`RegisterUpdate.Apply`),
    run `WriteEnable_Service` and give up if the write-enable latch did not come up, write the register, then
    read it back once per comparison of its verification and finally once or twice more for its log message.
    `SetterTrace` is that sequence as a grammar over the bus events of one call.
 */
module Protect {
  import opened Spi
  import opened Frames
  import opened StatusBits
  import opened Bus
  import opened RegisterUpdate

  /** The events of `WriteEnable_Service`: the 06h frame, then one SR3 read whose WEL bit is the result. */
  predicate WriteEnableTrace(d: Trace, wel: bool)
  {
    |d| == 2 && Sent(d[0], WriteEnable) && IsStatusRead(d[1], Sr3Addr) && (wel <==> IsSet(Wel, Reply(d[1])))
  }

  method WriteEnableService(env: Env, history: Trace) returns (d: Trace, wel: bool)
    ensures WriteEnableTrace(d, wel)
  {
    var sent := Send(Encode(WriteEnable));
    var sr3 := ReadRegister(env, history + [sent], Sr3Addr);
    d := [sent, sr3];
    wel := IsSet(Wel, Reply(sr3));
  }

  /** `WriteDisable_Service`: the 04h frame, then one SR3 read that only feeds the log message. */
  method WriteDisableService(env: Env, history: Trace) returns (d: Trace)
    ensures |d| == 2 && Sent(d[0], WriteDisable) && IsStatusRead(d[1], Sr3Addr)
  {
    var sent := Send(Encode(WriteDisable));
    var sr3 := ReadRegister(env, history + [sent], Sr3Addr);
    d := [sent, sr3];
  }

  /** `n` consecutive reads of one status register. */
  predicate StatusReads(d: Trace, register: byte)
  {
    forall i :: 0 <= i < |d| ==> IsStatusRead(d[i], register)
  }

  method ReadRepeatedly(env: Env, history: Trace, register: byte, n: nat) returns (d: Trace)
    ensures |d| == n && StatusReads(d, register)
  {
    d := [];
    while |d| < n
      invariant |d| <= n && StatusReads(d, register)
    {
      var e := ReadRegister(env, history + d, register);
      d := d + [e];
    }
  }

  /** How many verification reads a setter makes, given the first one: a short-circuited condition stops
      after a failed first comparison. */
  function VerifyReads(u: Update, first: byte): (k: nat)
    ensures 1 <= k <= |Checks(u)|
  {
    if ShortCircuit(u) && !Passes(Checks(u)[0], first) then 1 else |Checks(u)|
  }

  /** The byte a setter computes from its first read `d[0]`; the status-register write `d[3]` carries it. */
  function Written(u: Update, d: Trace): byte
    requires |d| >= 1
  {
    Apply(u, Reply(d[0]))
  }

  /** The verification and log reads that follow the status-register write: one read per comparison made,
      then the diagnostic reads; the setter succeeds when every comparison was made and passed. */
  predicate Confirmation(u: Update, r: Trace, ok: bool)
  {
    |r| >= 1 &&
    var k := VerifyReads(u, Reply(r[0]));
    |r| == k + DiagnosticReads(u) && StatusReads(r, Target(u)) &&
    (ok <==> k == |Checks(u)| && forall i :: 0 <= i < k ==> Passes(Checks(u)[i], Reply(r[i])))
  }

  /** The events and the result of one call of the setter for `u`. */
  predicate SetterTrace(u: Update, d: Trace, ok: bool)
  {
    if !Admissible(u) then d == [] && !ok
    else
      |d| >= 3 && IsStatusRead(d[0], Target(u)) && WriteEnableTrace(d[1..3], IsSet(Wel, Reply(d[2]))) &&
      if !IsSet(Wel, Reply(d[2])) then |d| == 3 && !ok
      else |d| >= 4 && Sent(d[3], WriteStatusRegister(Target(u), Written(u, d))) && Confirmation(u, d[4..], ok)
  }

  /** The read-backs after the write: the verification comparisons in source order, then the log reads. */
  method Confirm(env: Env, history: Trace, u: Update) returns (r: Trace, ok: bool)
    ensures Confirmation(u, r, ok)
  {
    var cs := Checks(u);
    var first := ReadRegister(env, history, Target(u));
    var verify := [first];
    ok := Passes(cs[0], Reply(first));
    if |cs| == 2 && (ok || !ShortCircuit(u)) {
      var second := ReadRegister(env, history + verify, Target(u));
      verify := [first, second];
      ok := ok && Passes(cs[1], Reply(second));
      assert ok <==> forall i :: 0 <= i < 2 ==> Passes(cs[i], Reply(verify[i]));
    } else {
      assert |verify| == 1;
    }
    assert |verify| == VerifyReads(u, Reply(first));
    var diagnostic := ReadRepeatedly(env, history + verify, Target(u), DiagnosticReads(u));
    r := verify + diagnostic;
    assert r[..|verify|] == verify;
  }

  /** The setter of any update. */
  method SetRegister(env: Env, history: Trace, u: Update) returns (d: Trace, ok: bool)
    ensures SetterTrace(u, d, ok)
  {
    if !Admissible(u) {
      return [], false;
    }
    var r := ReadRegister(env, history, Target(u));
    var we, wel := WriteEnableService(env, history + [r]);
    d := [r] + we;
    assert d[1..3] == we;
    if !wel {
      return d, false;
    }
    var w := Send(Encode(WriteStatusRegister(Target(u), Apply(u, Reply(r)))));
    var confirmation;
    confirmation, ok := Confirm(env, history + d + [w], u);
    assert (d + [w] + confirmation)[4..] == confirmation;
    d := d + [w] + confirmation;
  }

  /** A setter that succeeded wrote the register, made every comparison on its own read-back, and every
      comparison passed. */
  lemma SucceededSetter(u: Update, d: Trace, ok: bool)
    requires SetterTrace(u, d, ok) && ok
    ensures |d| == 4 + |Checks(u)| + DiagnosticReads(u)
    ensures forall i :: 0 <= i < |Checks(u)| ==> Passes(Checks(u)[i], Reply(d[4 + i]))
  {
    var r := d[4..];
    forall i | 0 <= i < |Checks(u)|
      ensures Passes(Checks(u)[i], Reply(d[4 + i]))
    {
      assert r[i] == d[4 + i];
    }
  }

  /** A setter whose register holds one byte `v` at every verification read succeeds exactly when `v`
      agrees with the written byte on the bits the update touches. */
  lemma StableRegisterDecides(u: Update, d: Trace, ok: bool, v: byte)
    requires SetterTrace(u, d, ok) && Confirmable(u)
    requires |d| > 3
    requires forall i :: 4 <= i < |d| ==> Reply(d[i]) == v
    ensures ok <==> v & Touched(u) == Written(u, d) & Touched(u)
  {
    ChecksMatchTouched(u, Reply(d[0]), v);
    var r := d[4..];
    assert forall i :: 0 <= i < |r| ==> Reply(r[i]) == v;
    var k := VerifyReads(u, Reply(r[0]));
    if k == |Checks(u)| {
      assert (forall i :: 0 <= i < k ==> Passes(Checks(u)[i], Reply(r[i]))) <==> AllPass(Checks(u), v);
    } else {
      assert !Passes(Checks(u)[0], v);
    }
  }

  /** The write keeps every bit of the register the update does not touch, as it was read. */
  lemma SetterWritesOnlyTouched(u: Update, d: Trace, ok: bool)
    requires SetterTrace(u, d, ok) && |d| > 3
    ensures Decode(d[3].tx) == Some(WriteStatusRegister(Target(u), Written(u, d)))
    ensures Written(u, d) & !Touched(u) == Reply(d[0]) & !Touched(u)
  {
    DecodeEncode(WriteStatusRegister(Target(u), Written(u, d)));
    ApplyChangesOnlyTouched(u, Reply(d[0]));
  }

  /** No setter clears an OTP or SR1 lock it read as set. */
  lemma SetterKeepsLocks(u: Update, d: Trace, ok: bool)
    requires SetterTrace(u, d, ok) && |d| > 3 && Target(u) == Sr2Addr
    ensures IsSet(OtpL, Reply(d[0])) ==> IsSet(OtpL, Written(u, d))
    ensures IsSet(Sr1L, Reply(d[0])) ==> IsSet(Sr1L, Written(u, d))
  {
    ApplyKeepsLocks(u, Reply(d[0]));
  }

  /** The register is written only after WEL was read set, and a setter succeeds only after writing it. */
  lemma SetterNeedsLatch(u: Update, d: Trace, ok: bool)
    requires SetterTrace(u, d, ok)
    ensures |d| > 3 ==> IsSet(Wel, Reply(d[2]))
    ensures ok ==> |d| > 3 && Admissible(u)
  {
  }

  method SetBlockProtectService(env: Env, history: Trace, bp: byte, topBottom: bool) returns (d: Trace, ok: bool)
    ensures SetterTrace(BlockProtect(bp, topBottom), d, ok)
    ensures bp > 15 ==> !ok
    ensures ok ==> |d| == 8 && BlockProtectBits(Reply(d[4])) == bp && IsSet(Tb, Reply(d[5])) == topBottom
  {
    d, ok := SetRegister(env, history, BlockProtect(bp, topBottom));
    if ok {
      SucceededSetter(BlockProtect(bp, topBottom), d, ok);
    }
    if bp > 15 && |d| > 3 {
      OversizedBlockProtectFails(bp, topBottom, Reply(d[4]));
    }
  }

  method SetWriteProtectEnableService(env: Env, history: Trace, enable: bool) returns (d: Trace, ok: bool)
    ensures SetterTrace(WriteProtect(enable), d, ok)
    ensures ok ==> |d| == 6 && IsSet(Wpe, Reply(d[4])) == enable
  {
    d, ok := SetRegister(env, history, WriteProtect(enable));
    if ok {
      SucceededSetter(WriteProtect(enable), d, ok);
    }
  }

  method SetStatusRegisterProtectService(env: Env, history: Trace, srp0: bool, srp1: bool)
    returns (d: Trace, ok: bool)
    ensures SetterTrace(RegisterProtect(srp0, srp1), d, ok)
    ensures ok ==> |d| == 8 && IsSet(Srp0, Reply(d[4])) == srp0 && IsSet(Srp1, Reply(d[5])) == srp1
  {
    d, ok := SetRegister(env, history, RegisterProtect(srp0, srp1));
    if ok {
      SucceededSetter(RegisterProtect(srp0, srp1), d, ok);
    }
  }

  method OtpLockService(env: Env, history: Trace) returns (d: Trace, ok: bool)
    ensures SetterTrace(OtpLock, d, ok)
    ensures ok ==> |d| == 5 && IsSet(OtpL, Reply(d[4]))
  {
    d, ok := SetRegister(env, history, OtpLock);
    if ok {
      SucceededSetter(OtpLock, d, ok);
    }
  }

  method OtpEnableService(env: Env, history: Trace, enable: bool) returns (d: Trace, ok: bool)
    ensures SetterTrace(OtpEnable(enable), d, ok)
    ensures ok ==> |d| == 6 && IsSet(OtpE, Reply(d[4])) == enable
  {
    d, ok := SetRegister(env, history, OtpEnable(enable));
    if ok {
      SucceededSetter(OtpEnable(enable), d, ok);
    }
  }

  method Sr1LockService(env: Env, history: Trace) returns (d: Trace, ok: bool)
    ensures SetterTrace(Sr1Lock, d, ok)
    ensures ok ==> |d| == 5 && IsSet(Sr1L, Reply(d[4]))
  {
    d, ok := SetRegister(env, history, Sr1Lock);
    if ok {
      SucceededSetter(Sr1Lock, d, ok);
    }
  }

  method SetEccEnableService(env: Env, history: Trace, enable: bool) returns (d: Trace, ok: bool)
    ensures SetterTrace(EccEnable(enable), d, ok)
    ensures ok ==> |d| == 6 && IsSet(EccE, Reply(d[4])) == enable
  {
    d, ok := SetRegister(env, history, EccEnable(enable));
    if ok {
      SucceededSetter(EccEnable(enable), d, ok);
    }
  }

  method SetBufferModeService(env: Env, history: Trace, enable: bool) returns (d: Trace, ok: bool)
    ensures SetterTrace(BufferMode(enable), d, ok)
    ensures ok ==> |d| == 6 && IsSet(Buf, Reply(d[4])) == enable
  {
    d, ok := SetRegister(env, history, BufferMode(enable));
    if ok {
      SucceededSetter(BufferMode(enable), d, ok);
    }
  }

  method SetOutputDriverStrengthService(env: Env, history: Trace, level: byte) returns (d: Trace, ok: bool)
    ensures SetterTrace(DriveStrength(level), d, ok)
    ensures level > 3 ==> d == [] && !ok
    ensures ok ==> |d| == 6 && OutputDriverStrength(Reply(d[4])) == level
  {
    d, ok := SetRegister(env, history, DriveStrength(level));
    if ok {
      SucceededSetter(DriveStrength(level), d, ok);
    }
  }

  method SetHoldDisableService(env: Env, history: Trace, disable: bool) returns (d: Trace, ok: bool)
    ensures SetterTrace(HoldDisable(disable), d, ok)
    ensures ok ==> |d| == 6 && IsSet(HDis, Reply(d[4])) == disable
  {
    d, ok := SetRegister(env, history, HoldDisable(disable));
    if ok {
      SucceededSetter(HoldDisable(disable), d, ok);
    }
  }

  method SetReadModeService(env: Env, history: Trace, buffer: bool, ecc: bool) returns (d: Trace, ok: bool)
    ensures SetterTrace(ReadMode(buffer, ecc), d, ok)
    ensures ok ==> |d| == 6 && IsSet(Buf, Reply(d[4])) == buffer && IsSet(EccE, Reply(d[5])) == ecc
  {
    d, ok := SetRegister(env, history, ReadMode(buffer, ecc));
    if ok {
      SucceededSetter(ReadMode(buffer, ecc), d, ok);
    }
  }
}
