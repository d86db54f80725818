/**
 * Mode switching between the manual map and the PID controller (impl/src/autopilot/AutopilotManager.cpp,
 * impl/src/autopilot/ManualAutopilot.cpp).
 */
module AutopilotManager {
  import opened Common
  import opened AutopilotUtility
  import opened Packet
  import opened StabilizeAutopilot

  datatype Mode = Manual | Stabilize
  datatype Input = Input(rc: RcRxPacket, imu: ImuPacket)
  datatype ManagerState = ManagerState(mode: Mode, prevState: byte, pid: PidState)

  const MANAGER_INIT := ManagerState(Manual, 0, PID_INIT)

  const ASSISTANCE_FLAG: byte := 0x80
  const DEFAULT_CS := ControlSurfacePacket(0, 0, 0, 0)

  /** The assistance flag is the top bit of the state byte. */
  predicate HasAssistance(state: byte) {
    state >= ASSISTANCE_FLAG
  }

  /** `state & kAUTOPILOT_MASK`; the mask is the assistance flag alone. */
  function Masked(state: byte): byte {
    if HasAssistance(state) then ASSISTANCE_FLAG else 0
  }

  function ManualPacket(c: Config, rc: RcRxPacket): ControlSurfacePacket {
    ControlSurfacePacket(BindRcThrottle(c, rc.motorStick),
                         BindRcDeflection(c.maxAileron, rc.aileronStick),
                         BindRcDeflection(c.maxElevator, rc.elevatorStick),
                         BindRcDeflection(c.maxRudder, rc.rudderStick))
  }

  /** handleState: nothing happens unless the masked state differs from the cached one. */
  function Handled(s: ManagerState, state: byte): ManagerState {
    if state == s.prevState then s
    else s.(mode := if HasAssistance(state) then Stabilize else Manual, prevState := state)
  }

  function ManagerNext(c: Config, s: ManagerState, input: Input): ManagerState {
    var h := Handled(s, Masked(input.rc.state));
    match h.mode
    case Manual => h
    case Stabilize => h.(pid := PidNext(c, h.pid, AttitudeOf(c, input.imu)))
  }

  function ManagerOutput(c: Config, s: ManagerState, input: Input): ControlSurfacePacket {
    match Handled(s, Masked(input.rc.state)).mode
    case Manual => ManualPacket(c, input.rc)
    case Stabilize => StabilizedPacket(c, s.pid, input.rc, AttitudeOf(c, input.imu))
  }

  /** The state of a manager after a history of packets, oldest first. */
  function ManagerRun(c: Config, inputs: seq<Input>): ManagerState {
    if inputs == [] then MANAGER_INIT
    else ManagerNext(c, ManagerRun(c, inputs[..|inputs| - 1]), inputs[|inputs| - 1])
  }

  /** The manager's answer to the i-th packet. */
  function OutputAt(c: Config, inputs: seq<Input>, i: nat): ControlSurfacePacket
    requires i < |inputs|
  {
    ManagerOutput(c, ManagerRun(c, inputs[..i]), inputs[i])
  }

  // ----- The memoryless specification -----

  function Flagged(inputs: seq<Input>): seq<Input> {
    if inputs == [] then []
    else
      var last := inputs[|inputs| - 1];
      Flagged(inputs[..|inputs| - 1]) + if HasAssistance(last.rc.state) then [last] else []
  }

  function Attitudes(c: Config, inputs: seq<Input>): seq<Attitude> {
    seq(|inputs|, i requires 0 <= i < |inputs| => AttitudeOf(c, inputs[i].imu))
  }

  /** The k-th output of a fresh controller fed nothing but these packets. */
  function FreshOutput(c: Config, fed: seq<Input>, k: nat): ControlSurfacePacket
    requires k < |fed|
  {
    StabilizedPacket(c, PidRun(c, Attitudes(c, fed[..k])), fed[k].rc, AttitudeOf(c, fed[k].imu))
  }

  /**
   * What the i-th packet alone decides: without the flag the manual map of its own sticks, with it the
   * answer of a fresh controller that was only ever given the flagged packets.
   */
  function SpecOutput(c: Config, inputs: seq<Input>, i: nat): ControlSurfacePacket
    requires i < |inputs|
  {
    if HasAssistance(inputs[i].rc.state) then
      assert inputs[..i + 1][..i] == inputs[..i];
      FreshOutput(c, Flagged(inputs[..i + 1]), |Flagged(inputs[..i])|)
    else ManualPacket(c, inputs[i].rc)
  }

  /** The cached state and mode mirror the last packet's flag, and the controller saw exactly the flagged packets. */
  predicate ManagerMirrors(c: Config, s: ManagerState, inputs: seq<Input>) {
    && s.pid == PidRun(c, Attitudes(c, Flagged(inputs)))
    && s.prevState == Masked(if inputs == [] then 0 else inputs[|inputs| - 1].rc.state)
    && (s.mode == Stabilize <==> HasAssistance(s.prevState))
  }

  lemma FlaggedGrows(c: Config, inputs: seq<Input>)
    requires inputs != []
    ensures var n := |inputs| - 1;
      PidRun(c, Attitudes(c, Flagged(inputs)))
      == if HasAssistance(inputs[n].rc.state)
         then PidNext(c, PidRun(c, Attitudes(c, Flagged(inputs[..n]))), AttitudeOf(c, inputs[n].imu))
         else PidRun(c, Attitudes(c, Flagged(inputs[..n])))
  {
    var n := |inputs| - 1;
    if HasAssistance(inputs[n].rc.state) {
      var before, after := Attitudes(c, Flagged(inputs[..n])), Attitudes(c, Flagged(inputs));
      assert after[..|after| - 1] == before;
    } else {
      assert Flagged(inputs) == Flagged(inputs[..n]);
    }
  }

  lemma {:induction false} ManagerInvariant(c: Config, inputs: seq<Input>)
    ensures ManagerMirrors(c, ManagerRun(c, inputs), inputs)
  {
    if inputs == [] {
      assert Attitudes(c, Flagged([])) == [];
    } else {
      ManagerInvariant(c, inputs[..|inputs| - 1]);
      FlaggedGrows(c, inputs);
    }
  }

  /**
   * The manager refines the memoryless specification over every packet sequence: neither the cached
   * state, nor the early return it allows, nor intervening manual periods ever change an answer. The
   * mode it reports is the last packet's flag.
   */
  lemma {:induction false} ManagerRefinesFlags(c: Config, inputs: seq<Input>, i: nat)
    requires i < |inputs|
    ensures OutputAt(c, inputs, i) == SpecOutput(c, inputs, i)
    ensures ManagerRun(c, inputs[..i + 1]).mode == if HasAssistance(inputs[i].rc.state) then Stabilize else Manual
  {
    ManagerInvariant(c, inputs[..i]);
    ManagerInvariant(c, inputs[..i + 1]);
    assert inputs[..i + 1][..i] == inputs[..i];
    if HasAssistance(inputs[i].rc.state) {
      assert Flagged(inputs[..i + 1])[..|Flagged(inputs[..i])|] == Flagged(inputs[..i]);
    }
  }

  /** The answers to the flagged packets of a history, in order. */
  function FlaggedOutputs(c: Config, inputs: seq<Input>): seq<ControlSurfacePacket> {
    if inputs == [] then []
    else
      var n := |inputs| - 1;
      FlaggedOutputs(c, inputs[..n]) + if HasAssistance(inputs[n].rc.state) then [OutputAt(c, inputs, n)] else []
  }

  /** The k-th flagged answer is the k-th answer of a fresh controller fed only the flagged packets. */
  lemma {:induction false} FlaggedAnswersAreFresh(c: Config, inputs: seq<Input>)
    ensures |FlaggedOutputs(c, inputs)| == |Flagged(inputs)|
    ensures forall k :: 0 <= k < |Flagged(inputs)| ==> FlaggedOutputs(c, inputs)[k] == FreshOutput(c, Flagged(inputs), k)
  {
    if inputs == [] {
    } else {
      var n := |inputs| - 1;
      FlaggedAnswersAreFresh(c, inputs[..n]);
      ManagerInvariant(c, inputs[..n]);
      var f, g := Flagged(inputs[..n]), Flagged(inputs);
      forall k | 0 <= k < |g|
        ensures FlaggedOutputs(c, inputs)[k] == FreshOutput(c, g, k)
      {
        assert g[..k] == if k < |f| then f[..k] else f;
      }
    }
  }

  // ----- Limits -----

  predicate SticksInRange(rc: RcRxPacket) {
    && rc.motorStick <= 100 && -100 <= rc.aileronStick <= 100
    && -100 <= rc.elevatorStick <= 100 && -100 <= rc.rudderStick <= 100
  }

  predicate InLimits(c: Config, p: ControlSurfacePacket) {
    && p.motorSpeed <= c.maxThrottle
    && -c.maxAileron <= p.aileron <= c.maxAileron
    && -c.maxElevator <= p.elevator <= c.maxElevator
    && -c.maxRudder <= p.rudder <= c.maxRudder
  }

  /** In either mode and any state, sticks in their range give an answer within every configured limit. */
  lemma OutputsInLimits(c: Config, s: ManagerState, input: Input)
    requires SticksInRange(input.rc)
    ensures InLimits(c, ManagerOutput(c, s, input))
  {
    ThrottleIsFloor(c, input.rc.motorStick, input.rc.motorStick);
    DeflectionIsFloor(c.maxAileron, input.rc.aileronStick);
    DeflectionIsFloor(c.maxElevator, input.rc.elevatorStick);
    DeflectionIsFloor(c.maxRudder, input.rc.rudderStick);
    CommandsInLimits(c, s.pid, AttitudeOf(c, input.imu));
  }

  /** Unflagged packets are answered stick by stick: each surface is its own stick scaled to its own limit. */
  lemma ManualIsProportional(c: Config, s: ManagerState, input: Input)
    requires SticksInRange(input.rc) && Handled(s, Masked(input.rc.state)).mode == Manual
    ensures var p, rc := ManagerOutput(c, s, input), input.rc;
      && p.motorSpeed == rc.motorStick * c.maxThrottle / 100
      && p.aileron == rc.aileronStick * c.maxAileron / 100
      && p.elevator == rc.elevatorStick * c.maxElevator / 100
      && p.rudder == rc.rudderStick * c.maxRudder / 100
    ensures ManagerNext(c, s, input).pid == s.pid
  {
    ThrottleIsFloor(c, input.rc.motorStick, input.rc.motorStick);
    DeflectionIsFloor(c.maxAileron, input.rc.aileronStick);
    DeflectionIsFloor(c.maxElevator, input.rc.elevatorStick);
    DeflectionIsFloor(c.maxRudder, input.rc.rudderStick);
  }

  /**
   * The packet that stands for a timed-out RC read closes the throttle and centres every surface,
   * whatever the state before and whatever the IMU says, and leaves the controller untouched.
   */
  lemma DefaultPacketIsSafe(c: Config, s: ManagerState, imu: ImuPacket)
    requires s.mode == Stabilize <==> HasAssistance(s.prevState)
    ensures ManagerOutput(c, s, Input(DEFAULT_RC, imu)) == DEFAULT_CS
    ensures ManagerNext(c, s, Input(DEFAULT_RC, imu)) == ManagerState(Manual, 0, s.pid)
  {
    ThrottleIsFloor(c, 0, 0);
    DeflectionIsFloor(c.maxAileron, 0);
    DeflectionIsFloor(c.maxElevator, 0);
    DeflectionIsFloor(c.maxRudder, 0);
  }

  // ----- The manager itself -----

  class Manager {
    const config: Config
    const controller: PidController
    var mode: Mode
    var prevState: byte

    function State(): ManagerState
      reads this, controller
    {
      ManagerState(mode, prevState, controller.State())
    }

    constructor (config: Config)
      ensures this.config == config && fresh(controller) && controller.config == config
      ensures State() == MANAGER_INIT
    {
      this.config := config;
      controller := new PidController(config);
      mode, prevState := Manual, 0;
    }

    predicate IsInManualMode()
      reads this
    {
      mode == Manual
    }

    method HandleState(state: byte)
      modifies this
      ensures State() == Handled(old(State()), state)
    {
      if state == prevState { return; }
      if HasAssistance(state) {
        mode := Stabilize;
      } else {
        mode := Manual;
      }
      prevState := state;
    }

    method Trigger(rc: RcRxPacket, imu: ImuPacket) returns (packet: ControlSurfacePacket)
      requires controller.config == config
      modifies this, controller
      ensures State() == ManagerNext(config, old(State()), Input(rc, imu))
      ensures packet == ManagerOutput(config, old(State()), Input(rc, imu))
    {
      HandleState(Masked(rc.state));
      match mode {
        case Manual => packet := ManualPacket(config, rc);
        case Stabilize => packet := controller.Trigger(rc, imu);
      }
    }
  }
}
