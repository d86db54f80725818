/**
 * The packed packets that cross the serial line (impl/include/rcplane/common/Packet.hpp).
 * Both ends copy the struct's memory, little-endian and without padding. The IMU floats are kept
 * as their 32-bit words: what a word means as a number is a parameter of the autopilot.
 */
module Packet {
  import opened Common

  datatype RcRxPacket = RcRxPacket(
    timestamp: uint32, state: byte, motorStick: byte,
    aileronStick: int8, elevatorStick: int8, rudderStick: int8)

  datatype ControlSurfacePacket = ControlSurfacePacket(
    motorSpeed: byte, aileron: int8, elevator: int8, rudder: int8)

  datatype ImuPacket = ImuPacket(
    gyroX: uint32, gyroY: uint32, gyroZ: uint32,
    accX: uint32, accY: uint32, accZ: uint32, temperature: uint32)

  const HANDSHAKE_SIZE: nat := 1
  const RC_SIZE: nat := 9
  const CS_SIZE: nat := 4
  const IMU_SIZE: nat := 28
  const FRAME_SIZE: nat := 37  // one RcRxPacket followed by one ImuPacket

  /** The value-initialised packets that a timed-out read returns. */
  const DEFAULT_RC := RcRxPacket(0, 0, 0, 0, 0, 0)
  const DEFAULT_IMU := ImuPacket(0, 0, 0, 0, 0, 0, 0)

  function EncodeWord(w: uint32): (b: seq<byte>)
    ensures |b| == 4
  {
    [w % 0x100, w / 0x100 % 0x100, w / 0x100 / 0x100 % 0x100, w / 0x100 / 0x100 / 0x100]
  }

  function DecodeWord(b: seq<byte>): uint32
    requires |b| == 4
  {
    var b1: int, b2: int, b3: int := b[1], b[2], b[3];
    b[0] + 0x100 * b1 + 0x1_0000 * b2 + 0x100_0000 * b3
  }

  function EncodeInt8(x: int8): byte {
    if x < 0 then x + 0x100 else x
  }

  function DecodeInt8(b: byte): int8 {
    if b < 0x80 then b else b - 0x100
  }

  function EncodeRc(p: RcRxPacket): (b: seq<byte>)
    ensures |b| == RC_SIZE
  {
    EncodeWord(p.timestamp)
    + [p.state, p.motorStick, EncodeInt8(p.aileronStick), EncodeInt8(p.elevatorStick), EncodeInt8(p.rudderStick)]
  }

  function DecodeRc(b: seq<byte>): RcRxPacket
    requires |b| == RC_SIZE
  {
    RcRxPacket(DecodeWord(b[..4]), b[4], b[5], DecodeInt8(b[6]), DecodeInt8(b[7]), DecodeInt8(b[8]))
  }

  function EncodeCs(p: ControlSurfacePacket): (b: seq<byte>)
    ensures |b| == CS_SIZE
  {
    [p.motorSpeed, EncodeInt8(p.aileron), EncodeInt8(p.elevator), EncodeInt8(p.rudder)]
  }

  function DecodeCs(b: seq<byte>): ControlSurfacePacket
    requires |b| == CS_SIZE
  {
    ControlSurfacePacket(b[0], DecodeInt8(b[1]), DecodeInt8(b[2]), DecodeInt8(b[3]))
  }

  function EncodeImu(p: ImuPacket): (b: seq<byte>)
    ensures |b| == IMU_SIZE
  {
    EncodeWord(p.gyroX) + EncodeWord(p.gyroY) + EncodeWord(p.gyroZ)
    + EncodeWord(p.accX) + EncodeWord(p.accY) + EncodeWord(p.accZ) + EncodeWord(p.temperature)
  }

  function DecodeImu(b: seq<byte>): ImuPacket
    requires |b| == IMU_SIZE
  {
    ImuPacket(DecodeWord(b[0..4]), DecodeWord(b[4..8]), DecodeWord(b[8..12]),
              DecodeWord(b[12..16]), DecodeWord(b[16..20]), DecodeWord(b[20..24]), DecodeWord(b[24..28]))
  }

  lemma DecodedDigits(b0: byte, b1: byte, b2: byte, b3: byte)
    ensures var v := DecodeWord([b0, b1, b2, b3]);
      v % 0x100 == b0 && v / 0x100 % 0x100 == b1 && v / 0x100 / 0x100 % 0x100 == b2 && v / 0x100 / 0x100 / 0x100 == b3
  {
    var c1: int, c2: int, c3: int := b1, b2, b3;
    var v := DecodeWord([b0, b1, b2, b3]);
    assert v / 0x100 == c1 + 0x100 * c2 + 0x1_0000 * c3;
    assert v / 0x100 / 0x100 == c2 + 0x100 * c3;
    assert v / 0x100 / 0x100 / 0x100 == c3;
  }

  /** Words cross the line least significant byte first. */
  lemma WordRoundTrip(w: uint32, b: seq<byte>)
    requires |b| == 4
    ensures DecodeWord(EncodeWord(w)) == w
    ensures EncodeWord(DecodeWord(b)) == b
    ensures EncodeWord(w)[0] == w % 0x100 && EncodeWord(w)[1] == w / 0x100 % 0x100
    ensures EncodeWord(w)[2] == w / 0x1_0000 % 0x100 && EncodeWord(w)[3] == w / 0x100_0000
  {
    assert b == [b[0], b[1], b[2], b[3]];
    DecodedDigits(b[0], b[1], b[2], b[3]);
  }

  /** An RcRxPacket and its nine bytes determine each other, field by field at fixed offsets. */
  lemma RcRoundTrip(p: RcRxPacket, b: seq<byte>)
    requires |b| == RC_SIZE
    ensures DecodeRc(EncodeRc(p)) == p
    ensures EncodeRc(DecodeRc(b)) == b
    ensures DecodeWord(EncodeRc(p)[..4]) == p.timestamp
    ensures EncodeRc(p)[4] == p.state && EncodeRc(p)[5] == p.motorStick
    ensures (EncodeRc(p)[6] - p.aileronStick) % 0x100 == 0
    ensures (EncodeRc(p)[7] - p.elevatorStick) % 0x100 == 0
    ensures (EncodeRc(p)[8] - p.rudderStick) % 0x100 == 0
  {
    WordRoundTrip(p.timestamp, b[..4]);
    assert EncodeRc(p)[..4] == EncodeWord(p.timestamp);
    assert b == b[..4] + [b[4], b[5], b[6], b[7], b[8]];
  }

  /** A ControlSurfacePacket and its four bytes determine each other, field by field at fixed offsets. */
  lemma CsRoundTrip(p: ControlSurfacePacket, b: seq<byte>)
    requires |b| == CS_SIZE
    ensures DecodeCs(EncodeCs(p)) == p
    ensures EncodeCs(DecodeCs(b)) == b
    ensures EncodeCs(p)[0] == p.motorSpeed && (EncodeCs(p)[1] - p.aileron) % 0x100 == 0
    ensures (EncodeCs(p)[2] - p.elevator) % 0x100 == 0 && (EncodeCs(p)[3] - p.rudder) % 0x100 == 0
  {
    assert b == [b[0], b[1], b[2], b[3]];
  }

  /** An ImuPacket and its 28 bytes determine each other; field i is the word at offset 4*i. */
  lemma ImuRoundTrip(p: ImuPacket, b: seq<byte>)
    requires |b| == IMU_SIZE
    ensures DecodeImu(EncodeImu(p)) == p
    ensures EncodeImu(DecodeImu(b)) == b
    ensures EncodeImu(p)[0..4] == EncodeWord(p.gyroX)
    ensures EncodeImu(p)[4..8] == EncodeWord(p.gyroY)
    ensures EncodeImu(p)[8..12] == EncodeWord(p.gyroZ)
    ensures EncodeImu(p)[12..16] == EncodeWord(p.accX)
    ensures EncodeImu(p)[16..20] == EncodeWord(p.accY)
    ensures EncodeImu(p)[20..24] == EncodeWord(p.accZ)
    ensures EncodeImu(p)[24..28] == EncodeWord(p.temperature)
  {
    WordRoundTrip(p.gyroX, b[0..4]);
    WordRoundTrip(p.gyroY, b[4..8]);
    WordRoundTrip(p.gyroZ, b[8..12]);
    WordRoundTrip(p.accX, b[12..16]);
    WordRoundTrip(p.accY, b[16..20]);
    WordRoundTrip(p.accZ, b[20..24]);
    WordRoundTrip(p.temperature, b[24..28]);
    assert b == b[0..4] + b[4..8] + b[8..12] + b[12..16] + b[16..20] + b[20..24] + b[24..28];
  }

  function Zeros(n: nat): (r: seq<byte>)
    ensures |r| == n && forall i :: 0 <= i < n ==> r[i] == 0
  {
    if n == 0 then [] else Zeros(n - 1) + [0]
  }

  /** The value-initialised packets are those whose bytes are all zero, and no others. */
  lemma {:induction false} DefaultsAreZeros(rc: RcRxPacket, imu: ImuPacket)
    ensures rc == DEFAULT_RC <==> EncodeRc(rc) == Zeros(9)
    ensures imu == DEFAULT_IMU <==> EncodeImu(imu) == Zeros(28)
  {
    RcRoundTrip(rc, EncodeRc(rc));
    ImuRoundTrip(imu, EncodeImu(imu));
    assert EncodeWord(0) == [0, 0, 0, 0];
    assert EncodeRc(DEFAULT_RC) == Zeros(9);
    assert EncodeImu(DEFAULT_IMU) == Zeros(28);
  }
}
