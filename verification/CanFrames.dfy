/** CAN frames and the transport's frame classes. */
module CanFrames {
  import opened Common

  /** The eight data bytes every frame record carries. */
  type Payload = s: seq<byte> | |s| == 8 witness [0, 0, 0, 0, 0, 0, 0, 0]

  datatype Frame = Frame(canId: nat, dlc: nat, data: Payload)

  datatype FrameClass = RegisterQuery | StatusQuery | Disable | Enable | Motion | RegisterWrite | SetZero
                      | ClearError | SaveParameters | Unknown

  datatype Classification = BadFrame | Class(value: FrameClass)

  /** Reads of drive state; the only frames that need no authority. */
  predicate QueryClass(c: FrameClass) {
    c.RegisterQuery? || c.StatusQuery?
  }

  predicate DangerousClass(c: FrameClass) {
    c.Disable? || c.Enable? || c.RegisterWrite? || c.SetZero? || c.ClearError? || c.SaveParameters?
  }

  predicate AllBytes(f: Frame, first: nat, last: nat, value: byte)
    requires first <= last <= 8
  {
    forall i :: first <= i < last ==> f.data[i] == value
  }

  function TargetId(f: Frame): nat {
    (f.data[0] as nat) + 256 * (f.data[1] as nat)
  }

  predicate ValidMotorTarget(target: nat) {
    0 < target < SFF_MASK
  }

  function ReadU32(f: Frame): nat {
    (f.data[4] as nat) + 256 * (f.data[5] as nat) + 65536 * (f.data[6] as nat) + 16777216 * (f.data[7] as nat)
  }

  // Register metadata of the drive.

  predicate KnownRegister(id: nat) {
    id <= 36 || 50 <= id <= 55 || 80 <= id <= 81
  }

  predicate IntegerRegister(id: nat) {
    7 <= id <= 10 || 13 <= id <= 16 || id == 35 || id == 36
  }

  predicate WritableRegister(id: nat) {
    KnownRegister(id) && (id <= 10 || 21 <= id <= 35)
  }

  /** Range rules of the integer registers. */
  predicate IntegerInRange(id: nat, value: nat) {
    && (id == 7 || id == 8 ==> value <= SFF_MASK)
    && (id == 10 ==> 1 <= value <= 4)
    && (id == 35 ==> value <= 9)
  }

  /** Which binary32 bit patterns a floating-point register accepts is a parameter. */
  type FloatRule = (nat, nat) -> bool

  predicate ValidRegisterWrite(f: Frame, accepts: FloatRule) {
    && ValidMotorTarget(TargetId(f))
    && WritableRegister(f.data[3])
    && if IntegerRegister(f.data[3]) then IntegerInRange(f.data[3], ReadU32(f)) else accepts(f.data[3], ReadU32(f))
  }

  function Classify(f: Frame, accepts: FloatRule): Classification {
    if f.dlc != 8 || f.canId > SFF_MASK then BadFrame
    else if f.canId == 0 then Class(Unknown)
    else if f.canId == SFF_MASK then
      if f.data[2] == 0x33 && ValidMotorTarget(TargetId(f)) && KnownRegister(f.data[3]) && AllBytes(f, 4, 8, 0)
      then Class(RegisterQuery)
      else if f.data[2] == 0xcc && ValidMotorTarget(TargetId(f)) && AllBytes(f, 3, 8, 0) then Class(StatusQuery)
      else if f.data[2] == 0x55 && ValidRegisterWrite(f, accepts) then Class(RegisterWrite)
      else if f.data[2] == 0xaa && ValidMotorTarget(TargetId(f)) && AllBytes(f, 3, 8, 0) then Class(SaveParameters)
      else Class(Unknown)
    else if AllBytes(f, 0, 7, 0xff) then
      if f.data[7] == 0xfc then Class(Enable)
      else if f.data[7] == 0xfd then Class(Disable)
      else if f.data[7] == 0xfe then Class(SetZero)
      else if f.data[7] == 0xfb then Class(ClearError)
      else Class(Unknown)
    else Class(Unknown)
  }
}
