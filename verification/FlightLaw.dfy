/**
 * What the surfaces are, from end to end: a function of the sticks, the switch and the words of the IMU
 * alone, first of the packets the manager is given, then of the samples the MCU takes.
 */
module FlightLaw {
  import opened Common
  import opened Packet
  import opened AutopilotUtility
  import opened StabilizeAutopilot
  import opened AutopilotManager
  import opened WireFormat
  import opened SerialProtocol
  import opened EndToEnd
  import opened ControlLaw
  import opened Mcu

  // ----- From packets -----

  function GyroXs(c: Config, inputs: seq<Input>): seq<real> {
    seq(|inputs|, i requires 0 <= i < |inputs| => c.platform.floatValue(inputs[i].imu.gyroX))
  }

  function GyroYs(c: Config, inputs: seq<Input>): seq<real> {
    seq(|inputs|, i requires 0 <= i < |inputs| => c.platform.floatValue(inputs[i].imu.gyroY))
  }

  /** Throttle and rudder follow their own sticks in either mode. */
  predicate SticksFollowed(c: Config, rc: RcRxPacket, p: ControlSurfacePacket) {
    && (rc.motorStick <= 100 ==> p.motorSpeed == rc.motorStick * c.maxThrottle / 100)
    && (-100 <= rc.rudderStick <= 100 ==> p.rudder == rc.rudderStick * c.maxRudder / 100)
  }

  /** Aileron and elevator, too, follow their sticks. */
  predicate ManualLaw(c: Config, rc: RcRxPacket, p: ControlSurfacePacket) {
    && SticksFollowed(c, rc, p)
    && (-100 <= rc.aileronStick <= 100 ==> p.aileron == rc.aileronStick * c.maxAileron / 100)
    && (-100 <= rc.elevatorStick <= 100 ==> p.elevator == rc.elevatorStick * c.maxElevator / 100)
  }

  /** Aileron and elevator follow the PID laws of the first two words of all these packets' IMU readings. */
  predicate StabilizedLaw(c: Config, flagged: seq<Input>, rc: RcRxPacket, p: ControlSurfacePacket)
    requires flagged != []
  {
    && SticksFollowed(c, rc, p)
    && AileronLaw(c, GyroXs(c, flagged), p.aileron)
    && ElevatorLaw(c, GyroYs(c, flagged), p.elevator)
  }

  lemma SticksAreFollowed(c: Config, rc: RcRxPacket, p: ControlSurfacePacket)
    requires p.motorSpeed == BindRcThrottle(c, rc.motorStick) && p.rudder == BindRcDeflection(c.maxRudder, rc.rudderStick)
    ensures SticksFollowed(c, rc, p)
  {
    if rc.motorStick <= 100 { ThrottleExact(c, rc.motorStick); }
    if -100 <= rc.rudderStick <= 100 { DeflectionIsFloor(c.maxRudder, rc.rudderStick); }
  }

  lemma ManualFollowsLaw(c: Config, rc: RcRxPacket)
    ensures ManualLaw(c, rc, ManualPacket(c, rc))
  {
    SticksAreFollowed(c, rc, ManualPacket(c, rc));
    if -100 <= rc.aileronStick <= 100 { DeflectionIsFloor(c.maxAileron, rc.aileronStick); }
    if -100 <= rc.elevatorStick <= 100 { DeflectionIsFloor(c.maxElevator, rc.elevatorStick); }
  }

  lemma AnglesAreWords(c: Config, inputs: seq<Input>)
    ensures Rolls(Attitudes(c, inputs)) == GyroXs(c, inputs) && Pitches(Attitudes(c, inputs)) == GyroYs(c, inputs)
  {
  }

  /** The last answer of a fresh controller. */
  lemma {:induction false} FreshFollowsLaw(c: Config, fed: seq<Input>)
    requires fed != []
    ensures StabilizedLaw(c, fed, fed[|fed| - 1].rc, FreshOutput(c, fed, |fed| - 1))
  {
    var n, history := |fed| - 1, Attitudes(c, fed);
    assert history[..n] == Attitudes(c, fed[..n]) && history[n] == AttitudeOf(c, fed[n].imu);
    AnglesAreWords(c, fed);
    AileronFollowsLaw(c, history);
    ElevatorFollowsLaw(c, history);
    SticksAreFollowed(c, fed[n].rc, FreshOutput(c, fed, n));
  }

  /**
   * For every sequence of packets: an answer to an unflagged one is each stick's share of its surface's
   * limit; an answer to a flagged one is the PID law of the gyroX words of the flagged packets so far on the
   * aileron, that of their gyroY words on the elevator, and the sticks' shares on throttle and rudder.
   */
  lemma {:induction false} AnswersFollowLaw(c: Config, inputs: seq<Input>, i: nat)
    requires i < |inputs|
    ensures inputs[i].rc.state < 0x80 ==> ManualLaw(c, inputs[i].rc, OutputAt(c, inputs, i))
    ensures inputs[i].rc.state >= 0x80 ==>
      var flagged := Flagged(inputs[..i + 1]);
      flagged != [] && StabilizedLaw(c, flagged, inputs[i].rc, OutputAt(c, inputs, i))
  {
    ManagerRefinesFlags(c, inputs, i);
    if inputs[i].rc.state < 0x80 {
      ManualFollowsLaw(c, inputs[i].rc);
    } else {
      var flagged := Flagged(inputs[..i + 1]);
      assert inputs[..i + 1][..i] == inputs[..i];
      assert flagged == Flagged(inputs[..i]) + [inputs[i]];
      FreshFollowsLaw(c, flagged);
    }
  }

  // ----- From the MCU's samples -----

  /** What the MCU writes of its samples. */
  function PacketsOf(samples: seq<Sample>): seq<Input> {
    seq(|samples|, i requires 0 <= i < |samples| => Input(RcPacketOf(samples[i]), samples[i].imu))
  }

  /** The samples taken while the assistance switch was on: its pulse longer than 1600 microseconds. */
  function SwitchedOn(samples: seq<Sample>): seq<Sample> {
    if samples == [] then []
    else
      var last := samples[|samples| - 1];
      SwitchedOn(samples[..|samples| - 1]) + if last.switchPulse > 1600 then [last] else []
  }

  function RollReadings(c: Config, samples: seq<Sample>): seq<real> {
    seq(|samples|, i requires 0 <= i < |samples| => c.platform.floatValue(samples[i].imu.gyroX))
  }

  function PitchReadings(c: Config, samples: seq<Sample>): seq<real> {
    seq(|samples|, i requires 0 <= i < |samples| => c.platform.floatValue(samples[i].imu.gyroY))
  }

  predicate SampleInRange(x: Sample) {
    x.motor <= 100 && -100 <= x.aileron <= 100 && -100 <= x.elevator <= 100 && -100 <= x.rudder <= 100
  }

  lemma {:induction false} FlaggedAreSwitchedOn(samples: seq<Sample>)
    ensures Flagged(PacketsOf(samples)) == PacketsOf(SwitchedOn(samples))
  {
    if samples == [] {
    } else {
      var n := |samples| - 1;
      FlaggedAreSwitchedOn(samples[..n]);
      StateByteDecodes(samples[n]);
      assert PacketsOf(samples)[..n] == PacketsOf(samples[..n]);
    }
  }

  lemma ReadingsAreWords(c: Config, samples: seq<Sample>)
    ensures GyroXs(c, PacketsOf(samples)) == RollReadings(c, samples)
    ensures GyroYs(c, PacketsOf(samples)) == PitchReadings(c, samples)
  {
  }

  /**
   * From the samples to the surfaces, in every run of the protocol: if the packets the MCU wrote were
   * composed of these samples, the n-th surfaces it gets have, with the sticks in range, throttle and rudder
   * at their sticks' shares of the limits; with the switch off so are aileron and elevator, and with it on
   * these follow the PID laws of the roll and pitch readings taken so far while the switch was on.
   */
  lemma {:induction false} SurfacesFollowSamples(c: Config, attempts: nat, stale: seq<byte>, steps: seq<Step>, s: Sys,
                                                 samples: seq<Sample>, n: nat)
    requires Skippable(stale, attempts) && Run(Autopilot(c), attempts, stale, steps) == Reached(s)
    requires n < |s.obtained| && Pairs(s.written) == PacketsOf(samples)
    ensures n < |samples|
    ensures SampleInRange(samples[n]) ==>
      s.obtained[n].motorSpeed == samples[n].motor * c.maxThrottle / 100
      && s.obtained[n].rudder == samples[n].rudder * c.maxRudder / 100
    ensures samples[n].switchPulse <= 1600 && SampleInRange(samples[n]) ==>
      s.obtained[n].aileron == samples[n].aileron * c.maxAileron / 100
      && s.obtained[n].elevator == samples[n].elevator * c.maxElevator / 100
    ensures samples[n].switchPulse > 1600 ==>
      var on := SwitchedOn(samples[..n + 1]);
      on != []
      && AileronLaw(c, RollReadings(c, on), s.obtained[n].aileron)
      && ElevatorLaw(c, PitchReadings(c, on), s.obtained[n].elevator)
  {
    SurfacesMeetSpecification(c, attempts, stale, steps, s, n);
    var inputs := PacketsOf(samples);
    ManagerRefinesFlags(c, inputs, n);
    AnswersFollowLaw(c, inputs, n);
    StateByteDecodes(samples[n]);
    if samples[n].switchPulse > 1600 {
      assert inputs[..n + 1] == PacketsOf(samples[..n + 1]);
      FlaggedAreSwitchedOn(samples[..n + 1]);
      ReadingsAreWords(c, SwitchedOn(samples[..n + 1]));
    }
  }
}
