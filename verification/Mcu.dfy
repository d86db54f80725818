/**
 * The microcontroller's sketch (impl/src/mcu/mcu.ino): the packets it keeps between calls of loop, the
 * state byte it composes and its blocking reads. Stick positions, the switch's pulse, the clock and the
 * IMU readings are inputs.
 */
module Mcu {
  import opened Common
  import opened Packet
  import opened AutopilotManager
  import opened SerialController

  /** A pulse longer than this on the assistance channel means that the switch is on. */
  const SWITCH_THRESHOLD: nat := 1600

  predicate HasUserInput(stick: int8) {
    stick >= 3 || stick <= -3
  }

  /** The three flags are distinct bits, so `|=` adds them. */
  function StateByte(switchPulse: nat, aileron: int8, elevator: int8): byte {
    (if switchPulse > SWITCH_THRESHOLD then ASSISTANCE_FLAG else 0)
    + (if HasUserInput(aileron) then 0x01 else 0)
    + (if HasUserInput(elevator) then 0x02 else 0)
  }

  /** What one call of loop samples. */
  datatype Sample = Sample(
    timestamp: uint32, switchPulse: nat, motor: byte, aileron: int8, elevator: int8, rudder: int8, imu: ImuPacket)

  function RcPacketOf(x: Sample): RcRxPacket {
    RcRxPacket(x.timestamp, StateByte(x.switchPulse, x.aileron, x.elevator), x.motor, x.aileron, x.elevator, x.rudder)
  }

  /**
   * The state byte tells the three conditions apart: a long pulse of the switch, and 3 percent or more of roll
   * or pitch stick in either direction. Only the switch is visible through the autopilot's mask.
   */
  lemma StateByteDecodes(x: Sample)
    ensures var state := RcPacketOf(x).state;
      && (state >= 0x80 <==> x.switchPulse > 1600)
      && (state % 2 == 1 <==> x.aileron >= 3 || x.aileron <= -3)
      && (state / 2 % 2 == 1 <==> x.elevator >= 3 || x.elevator <= -3)
      && state % 0x80 < 4
      && Masked(state) == if x.switchPulse > 1600 then 0x80 else 0
  {
  }

  // ----- Reading into the memory of a packet -----

  /** What `Serial.readBytes` gets before its timeout, of what is available by then, and what it leaves. */
  function ReadUpTo(available: seq<byte>, size: nat): (r: seq<byte>)
    ensures |r| <= size
  {
    available[..Min(size, |available|)]
  }

  function LeftAfter(available: seq<byte>, size: nat): seq<byte> {
    available[Min(size, |available|)..]
  }

  /** On a timeout the bytes that did arrive have already replaced the first ones of the packet before. */
  function Overlay(memory: seq<byte>, received: seq<byte>): (r: seq<byte>)
    requires |received| <= |memory|
    ensures |r| == |memory|
  {
    received + memory[|received|..]
  }

  /**
   * A read of surfaces cut short after k bytes mixes two answers: field i comes from the new one if and
   * only if i < k. With no byte the surfaces stay as they were, with four all of them are replaced.
   */
  lemma PartialReadMixes(before: ControlSurfacePacket, answer: ControlSurfacePacket, k: nat)
    requires k <= CS_SIZE
    ensures var mixed := DecodeCs(Overlay(EncodeCs(before), EncodeCs(answer)[..k]));
      && mixed.motorSpeed == (if 0 < k then answer else before).motorSpeed
      && mixed.aileron == (if 1 < k then answer else before).aileron
      && mixed.elevator == (if 2 < k then answer else before).elevator
      && mixed.rudder == (if 3 < k then answer else before).rudder
  {
    var bytes := Overlay(EncodeCs(before), EncodeCs(answer)[..k]);
    assert forall i :: 0 <= i < CS_SIZE ==> bytes[i] == if i < k then EncodeCs(answer)[i] else EncodeCs(before)[i];
  }

  // ----- The board -----

  /** The memory of handshakePacket and csPacket, the unread bytes and everything written to the line. */
  datatype BoardState = BoardState(handshake: byte, surfaces: seq<byte>, arrived: seq<byte>, sent: seq<byte>)

  const BOARD_INIT := BoardState(0, [0, 0, 0, 0], [], [])

  predicate ValidBoard(b: BoardState) {
    |b.surfaces| == CS_SIZE
  }

  /** setup: a handshake read that times out echoes the packet's initial value. */
  function AfterSetup(b: BoardState, arriving: seq<byte>): BoardState {
    var available := b.arrived + arriving;
    var handshake := if available == [] then b.handshake else available[0];
    b.(handshake := handshake, arrived := LeftAfter(available, HANDSHAKE_SIZE), sent := b.sent + FLUSH + [handshake])
  }

  function AfterLoop(b: BoardState, rc: RcRxPacket, imu: ImuPacket, arriving: seq<byte>): (r: BoardState)
    requires ValidBoard(b)
    ensures ValidBoard(r)
  {
    var available := b.arrived + arriving;
    b.(surfaces := Overlay(b.surfaces, ReadUpTo(available, CS_SIZE)), arrived := LeftAfter(available, CS_SIZE),
       sent := b.sent + EncodeRc(rc) + EncodeImu(imu))
  }

  /** Setup prints "flush" with its line end and echoes the byte it reads, or zero when none comes. */
  lemma SetupSends(arriving: seq<byte>)
    ensures var after := AfterSetup(BOARD_INIT, arriving);
      && after.sent == [102, 108, 117, 115, 104, 13, 10] + [if arriving == [] then 0 else arriving[0]]
      && after.arrived == (if arriving == [] then [] else arriving[1..])
      && after.surfaces == [0, 0, 0, 0]
  {
    assert [] + arriving == arriving;
  }

  /** Each sampled value is at its own place of the 37 bytes that one call of loop sends. */
  lemma LoopSendsSample(b: BoardState, x: Sample, arriving: seq<byte>, bytes: seq<byte>)
    requires ValidBoard(b) && AfterLoop(b, RcPacketOf(x), x.imu, arriving).sent == b.sent + bytes
    ensures |bytes| == 37 && DecodeWord(bytes[0..4]) == x.timestamp
    ensures bytes[4] == StateByte(x.switchPulse, x.aileron, x.elevator) && bytes[5] == x.motor
    ensures (bytes[6] - x.aileron) % 0x100 == 0 && (bytes[7] - x.elevator) % 0x100 == 0
    ensures (bytes[8] - x.rudder) % 0x100 == 0
    ensures DecodeWord(bytes[9..13]) == x.imu.gyroX && DecodeWord(bytes[13..17]) == x.imu.gyroY
    ensures DecodeWord(bytes[17..21]) == x.imu.gyroZ && DecodeWord(bytes[21..25]) == x.imu.accX
    ensures DecodeWord(bytes[25..29]) == x.imu.accY && DecodeWord(bytes[29..33]) == x.imu.accZ
    ensures DecodeWord(bytes[33..37]) == x.imu.temperature
  {
    var rc, imu := EncodeRc(RcPacketOf(x)), EncodeImu(x.imu);
    SameRest(b.sent, rc + imu, bytes);
    RcRoundTrip(RcPacketOf(x), rc);
    assert bytes[0..4] == rc[..4];
    ImuWords(x.imu);
    WordsBehind(rc, imu, bytes);
  }

  lemma SameRest(before: seq<byte>, more: seq<byte>, bytes: seq<byte>)
    requires before + more == before + bytes
    ensures more == bytes
  {
    assert more == (before + more)[|before|..];
    assert bytes == (before + bytes)[|before|..];
  }

  lemma ImuWords(imu: ImuPacket)
    ensures var b := EncodeImu(imu);
      && DecodeWord(b[0..4]) == imu.gyroX && DecodeWord(b[4..8]) == imu.gyroY && DecodeWord(b[8..12]) == imu.gyroZ
      && DecodeWord(b[12..16]) == imu.accX && DecodeWord(b[16..20]) == imu.accY && DecodeWord(b[20..24]) == imu.accZ
      && DecodeWord(b[24..28]) == imu.temperature
  {
    ImuRoundTrip(imu, EncodeImu(imu));
  }

  lemma WordsBehind(rc: seq<byte>, imu: seq<byte>, bytes: seq<byte>)
    requires |rc| == RC_SIZE && |imu| == IMU_SIZE && bytes == rc + imu
    ensures bytes[9..13] == imu[0..4] && bytes[13..17] == imu[4..8] && bytes[17..21] == imu[8..12]
    ensures bytes[21..25] == imu[12..16] && bytes[25..29] == imu[16..20] && bytes[29..33] == imu[20..24]
    ensures bytes[33..37] == imu[24..28]
  {
  }

  class Board {
    var handshake: byte
    var surfaces: seq<byte>
    var arrived: seq<byte>
    var sent: seq<byte>

    function State(): BoardState
      reads this
    {
      BoardState(handshake, surfaces, arrived, sent)
    }

    constructor ()
      ensures State() == BOARD_INIT
    {
      handshake, surfaces, arrived, sent := 0, [0, 0, 0, 0], [], [];
    }

    /** Waits for `size` bytes; `arriving` is what the line delivers before the timeout. */
    method ReadBytes(size: nat, arriving: seq<byte>) returns (received: seq<byte>)
      modifies this`arrived
      ensures received == ReadUpTo(old(arrived) + arriving, size) && arrived == LeftAfter(old(arrived) + arriving, size)
    {
      arrived := arrived + arriving;
      var n := Min(size, |arrived|);
      received, arrived := arrived[..n], arrived[n..];
    }

    method Setup(arriving: seq<byte>)
      modifies this
      ensures State() == AfterSetup(old(State()), arriving)
    {
      sent := sent + FLUSH;
      var received := ReadBytes(HANDSHAKE_SIZE, arriving);
      if |received| == 1 { handshake := received[0]; }
      sent := sent + [handshake];
    }

    /** The second half of loop, once its packets are composed. */
    method SendAndRead(rc: RcRxPacket, imu: ImuPacket, arriving: seq<byte>)
      requires ValidBoard(State())
      modifies this
      ensures State() == AfterLoop(old(State()), rc, imu, arriving)
    {
      sent := sent + EncodeRc(rc);
      sent := sent + EncodeImu(imu);
      var received := ReadBytes(CS_SIZE, arriving);
      surfaces := Overlay(surfaces, received);
    }

    method Loop(x: Sample, arriving: seq<byte>)
      requires ValidBoard(State())
      modifies this
      ensures State() == AfterLoop(old(State()), RcPacketOf(x), x.imu, arriving)
    {
      var state: byte := 0;
      if x.switchPulse > SWITCH_THRESHOLD { state := state + ASSISTANCE_FLAG; }
      if HasUserInput(x.aileron) { state := state + 0x01; }
      if HasUserInput(x.elevator) { state := state + 0x02; }
      assert state == StateByte(x.switchPulse, x.aileron, x.elevator);
      var rc := RcRxPacket(x.timestamp, state, x.motor, x.aileron, x.elevator, x.rudder);
      assert rc == RcPacketOf(x);
      SendAndRead(rc, x.imu, arriving);
    }
  }
}
