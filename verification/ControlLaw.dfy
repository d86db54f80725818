/**
 * The control laws of the stabilized mode as equations in the configured numbers and the measured angles
 * alone, with no controller state: what every command of every run is.
 */
module ControlLaw {
  import opened Common
  import opened AutopilotUtility
  import opened StabilizeAutopilot

  function Clamped(x: real, limit: real): real {
    if x > limit then limit else if x < -limit then -limit else x
  }

  function ClampedInt(x: int, limit: int): int {
    if x > limit then limit else if x < -limit then -limit else x
  }

  /** The proportional, integral and derivative terms. */
  function Pid(c: Config, error: real, integral: real, derivative: real): real {
    c.kp * error + c.ki * integral + c.kd * derivative
  }

  // ----- Roll -----

  function Rolls(history: seq<Attitude>): seq<real> {
    seq(|history|, i requires 0 <= i < |history| => history[i].roll)
  }

  /** The desired angle is level flight, so an error is minus the angle. Before the first call it counts as 0. */
  function ErrorAt(angles: seq<real>, i: int): real
    requires i < |angles|
  {
    if i < 0 then 0.0 else -angles[i]
  }

  function ErrorSum(angles: seq<real>): real {
    if angles == [] then 0.0 else ErrorSum(angles[..|angles| - 1]) + ErrorAt(angles, |angles| - 1)
  }

  /** The change of the error at the k-th call, decayed by (2tau - dt)/(2tau + dt) once for every call since. */
  function DecayedChange(c: Config, angles: seq<real>, k: nat): real
    requires 0 < k <= |angles|
  {
    Power((2.0 * c.tau - 0.04) / (2.0 * c.tau + 0.04), |angles| - k) * (ErrorAt(angles, k - 1) - ErrorAt(angles, k - 2))
  }

  function DecayedChanges(c: Config, angles: seq<real>, k: nat): real
    requires k <= |angles|
  {
    if k == 0 then 0.0 else DecayedChanges(c, angles, k - 1) + DecayedChange(c, angles, k)
  }

  /** The filtered derivative at the last call. */
  function Derivative(c: Config, angles: seq<real>): real {
    2.0 / (2.0 * c.tau + 0.04) * DecayedChanges(c, angles, |angles|)
  }

  /** The trapezoid integral of the errors, and dt/ki times what saturation took off all commands before. */
  function Integral(c: Config, angles: seq<real>): real
    requires angles != []
    decreases |angles|, 0
  {
    var n := |angles| - 1;
    0.04 * ErrorSum(angles) - 0.02 * ErrorAt(angles, n) + 0.04 / c.ki * Excess(c, angles[..n])
  }

  /** The PID law of the roll channel, before saturation. */
  function RollLaw(c: Config, angles: seq<real>): real
    requires angles != []
    decreases |angles|, 1
  {
    Pid(c, ErrorAt(angles, |angles| - 1), Integral(c, angles), Derivative(c, angles))
  }

  /** By how much saturation changed the commands, in all. */
  function Excess(c: Config, angles: seq<real>): real
    decreases |angles|, 2
  {
    if angles == [] then 0.0
    else
      var u := RollLaw(c, angles);
      Excess(c, angles[..|angles| - 1]) + (Clamped(u, c.maxAileron as real) - u)
  }

  /** The aileron command of the last call: the law, saturated, and its fraction discarded. */
  predicate AileronLaw(c: Config, angles: seq<real>, command: int)
    requires angles != []
  {
    TruncatesTo(Clamped(RollLaw(c, angles), c.maxAileron as real), command)
  }

  predicate IsDecayed(r: real, x: real, decayed: real) {
    decayed == r * x
  }

  lemma {:induction false} ChangesDecay(c: Config, angles: seq<real>, angle: real, k: nat)
    requires k <= |angles|
    ensures IsDecayed(Decay(c), DecayedChanges(c, angles, k), DecayedChanges(c, angles + [angle], k))
  {
    if k == 0 {
    } else {
      var after := angles + [angle];
      var x, y := DecayedChanges(c, angles, k - 1), DecayedChange(c, angles, k);
      var x', y' := DecayedChanges(c, after, k - 1), DecayedChange(c, after, k);
      ChangesDecay(c, angles, angle, k - 1);
      ChangeDecays(c, angles, angle, k);
      DecayTogether(Decay(c), x, y, x', y');
    }
  }

  lemma DecayTogether(r: real, x: real, y: real, x': real, y': real)
    requires IsDecayed(r, x, x') && IsDecayed(r, y, y')
    ensures IsDecayed(r, x + y, x' + y')
  {
  }

  lemma {:induction false} ChangeDecays(c: Config, angles: seq<real>, angle: real, k: nat)
    requires 0 < k <= |angles|
    ensures IsDecayed(Decay(c), DecayedChange(c, angles, k), DecayedChange(c, angles + [angle], k))
  {
    var p, x := Power(Decay(c), |angles| - k), ErrorAt(angles, k - 1) - ErrorAt(angles, k - 2);
    assert ErrorAt(angles + [angle], k - 1) == ErrorAt(angles, k - 1);
    assert ErrorAt(angles + [angle], k - 2) == ErrorAt(angles, k - 2);
    assert Power(Decay(c), |angles| + 1 - k) == Decay(c) * p;
    Regroup(Decay(c), p, x);
  }

  lemma Regroup(r: real, p: real, x: real)
    ensures r * p * x == r * (p * x)
  {
  }

  lemma DistributeSum(r: real, x: real, y: real)
    ensures r * x + r * y == r * (x + y)
  {
  }

  lemma {:induction false} DerivativeGrows(c: Config, angles: seq<real>, angle: real)
    ensures Derivative(c, angles + [angle])
         == Decay(c) * Derivative(c, angles) + Gain(c) * (-angle - ErrorAt(angles, |angles| - 1))
  {
    var after, n, x := angles + [angle], |angles|, -angle - ErrorAt(angles, |angles| - 1);
    ChangesDecay(c, angles, angle, n);
    assert ErrorAt(after, n) == -angle && ErrorAt(after, n - 1) == ErrorAt(angles, n - 1);
    assert Power(Decay(c), 0) == 1.0;
    assert DecayedChanges(c, after, n + 1) == Decay(c) * DecayedChanges(c, angles, n) + x;
    DistributeSum(Gain(c), Decay(c) * DecayedChanges(c, angles, n), x);
    Regroup(Gain(c), Decay(c), DecayedChanges(c, angles, n));
    Regroup(Decay(c), Gain(c), DecayedChanges(c, angles, n));
  }

  lemma RollsGrow(history: seq<Attitude>)
    requires history != []
    ensures var n := |history| - 1; Rolls(history) == Rolls(history[..n]) + [history[n].roll]
  {
  }

  /** The controller's fields after a history are the law's quantities. */
  predicate RollFieldsAre(c: Config, s: RollState, history: seq<Attitude>) {
    && s.derivative == Derivative(c, Rolls(history))
    && s.prevError == ErrorAt(Rolls(history), |history| - 1)
    && RollErrorSum(history) == ErrorSum(Rolls(history))
    && SaturationSum(c, history) == Excess(c, Rolls(history))
  }

  lemma {:induction false} ErrorSumGrows(angles: seq<real>, angle: real)
    ensures ErrorSum(angles + [angle]) == ErrorSum(angles) - angle
  {
    assert (angles + [angle])[..|angles|] == angles;
  }

  /** One more trapezoid on a ledger. */
  lemma TrapezoidStep(errors: real, previous: real, error: real, fedBack: real)
    ensures 0.04 * errors - 0.02 * previous + fedBack + 0.04 / 2.0 * (error + previous)
         == 0.04 * (errors + error) - 0.02 * error + fedBack
  {
  }

  lemma {:induction false} IntegralFollows(c: Config, s: RollState, angles: seq<real>, angle: real)
    requires IntegralBooked(c, s, ErrorSum(angles), Excess(c, angles)) && s.prevError == ErrorAt(angles, |angles| - 1)
    ensures RollIntegrated(s, -angle) == Integral(c, angles + [angle])
  {
    var after := angles + [angle];
    assert after[..|angles|] == angles && ErrorAt(after, |angles|) == -angle;
    ErrorSumGrows(angles, angle);
    TrapezoidStep(ErrorSum(angles), s.prevError, -angle, 0.04 / c.ki * Excess(c, angles));
  }

  /** The output of one more call is the law's. */
  lemma {:induction false} OutputIsRollLaw(c: Config, s: RollState, angles: seq<real>, angle: real)
    requires IntegralBooked(c, s, ErrorSum(angles), Excess(c, angles)) && s.prevError == ErrorAt(angles, |angles| - 1)
    requires s.derivative == Derivative(c, angles)
    ensures RollOutput(c, s, angle) == RollLaw(c, angles + [angle])
    ensures RollDerivative(c, s, -angle) == Derivative(c, angles + [angle])
  {
    var after := angles + [angle];
    IntegralFollows(c, s, angles, angle);
    DerivativeGrows(c, angles, angle);
    assert ErrorAt(after, |angles|) == -angle && ErrorAt(angles, |angles| - 1) == s.prevError;
    SameOutput(c, -angle, RollIntegrated(s, -angle), RollDerivative(c, s, -angle), ErrorAt(after, |after| - 1),
               Integral(c, after), Derivative(c, after));
  }

  /** The controller's output is the sum of the law's three terms. */
  lemma SameOutput(c: Config, error: real, integral: real, derivative: real, error': real, integral': real, derivative': real)
    requires error == error' && integral == integral' && derivative == derivative'
    ensures Output(c, error, integral, derivative) == Pid(c, error', integral', derivative')
  {
  }

  lemma {:induction false} ExcessGrows(c: Config, angles: seq<real>, angle: real)
    ensures var u := RollLaw(c, angles + [angle]);
      Excess(c, angles + [angle]) == Excess(c, angles) + (BindPidAileron(c, u) - u)
  {
    assert (angles + [angle])[..|angles|] == angles;
  }

  /** One more call: how the fields and the law's quantities grow together. */
  lemma {:induction false} FieldsStep(c: Config, history: seq<Attitude>)
    requires history != []
    requires RollFieldsAre(c, PidRun(c, history[..|history| - 1]).roll, history[..|history| - 1])
    ensures RollFieldsAre(c, PidRun(c, history).roll, history)
    ensures var n := |history| - 1;
      RollOutput(c, PidRun(c, history[..n]).roll, history[n].roll) == RollLaw(c, Rolls(history))
  {
    var n := |history| - 1;
    var s, angles, angle := PidRun(c, history[..n]).roll, Rolls(history[..n]), history[n].roll;
    RollsGrow(history);
    RollLedger(c, history[..n]);
    OutputIsRollLaw(c, s, angles, angle);
    ErrorSumGrows(angles, angle);
    ExcessGrows(c, angles, angle);
  }

  lemma {:induction false} RollFieldsFollow(c: Config, history: seq<Attitude>)
    ensures RollFieldsAre(c, PidRun(c, history).roll, history)
  {
    if history == [] {
    } else {
      RollFieldsFollow(c, history[..|history| - 1]);
      FieldsStep(c, history);
    }
  }

  /**
   * Every aileron command of every run is the PID law of the roll angles measured so far: the gains times
   * the last error, its saturation-corrected trapezoid integral and its filtered derivative, clamped to the
   * limit and truncated.
   */
  lemma {:induction false} AileronFollowsLaw(c: Config, history: seq<Attitude>)
    requires history != []
    ensures AileronLaw(c, Rolls(history), LastCommands(c, history).aileron)
  {
    var n := |history| - 1;
    RollFieldsFollow(c, history[..n]);
    FieldsStep(c, history);
    var y := BindPidAileron(c, RollLaw(c, Rolls(history)));
    AileronCommandInLimits(c, RollLaw(c, Rolls(history)));
    TruncateDiscardsFraction(y);
  }

  // ----- Pitch -----

  function Pitches(history: seq<Attitude>): seq<real> {
    seq(|history|, i requires 0 <= i < |history| => history[i].pitch)
  }

  /** The running sum of the errors, converted to int8_t and clamped to the limit's integral part at each call. */
  function Degrees(c: Config, angles: seq<real>): real {
    if angles == [] then 0.0
    else
      var n := |angles| - 1;
      ClampedInt(CastInt8(c, Degrees(c, angles[..n]) + ErrorAt(angles, n)), Truncate(c.maxIntegral)) as real
  }

  /** The PID law of the pitch channel, before its conversion. */
  function PitchLaw(c: Config, angles: seq<real>): real
    requires angles != []
  {
    var n := |angles| - 1;
    var error, previous := ErrorAt(angles, n), ErrorAt(angles, n - 1);
    Pid(c, error, Degrees(c, angles), error - previous)
  }

  /** The elevator command of the last call: the law, converted to int8_t, and clamped. */
  predicate ElevatorLaw(c: Config, angles: seq<real>, command: int)
    requires angles != []
  {
    command == ClampedInt(CastInt8(c, PitchLaw(c, angles)), c.maxElevator)
  }

  lemma PitchesGrow(history: seq<Attitude>)
    requires history != []
    ensures var n := |history| - 1; Pitches(history) == Pitches(history[..n]) + [history[n].pitch]
  {
  }

  predicate PitchFieldsAre(c: Config, s: PitchState, angles: seq<real>) {
    s.integral == Degrees(c, angles) && s.prevError == ErrorAt(angles, |angles| - 1)
  }

  lemma BoundIsClamp(c: Config, x: int8)
    ensures BindIntegral(c, x) == ClampedInt(x, Truncate(c.maxIntegral))
  {
    BoundIntegralInRange(c, x);
  }

  lemma {:induction false} NextDegrees(c: Config, angles: seq<real>, angle: real, sum: real)
    requires sum == Degrees(c, angles) + -angle
    ensures Degrees(c, angles + [angle]) == ClampedInt(CastInt8(c, sum), Truncate(c.maxIntegral)) as real
  {
    var after := angles + [angle];
    assert after[..|angles|] == angles && ErrorAt(after, |angles|) == -angle;
  }

  lemma {:induction false} DegreesGrow(c: Config, s: PitchState, angles: seq<real>, angle: real)
    requires s.integral == Degrees(c, angles)
    ensures PitchIntegral(c, s, angle) == Degrees(c, angles + [angle])
  {
    var sum := PitchSum(s, angle);
    NextDegrees(c, angles, angle, sum);
    BoundIsClamp(c, CastInt8(c, sum));
  }

  /** One more call: its integral, its error and its output are the law's. */
  lemma {:induction false} PitchStepFollows(c: Config, s: PitchState, angles: seq<real>, angle: real)
    requires PitchFieldsAre(c, s, angles)
    ensures PitchFieldsAre(c, PitchNext(c, s, angle), angles + [angle])
    ensures PitchOutput(c, s, angle) == PitchLaw(c, angles + [angle])
  {
    var after := angles + [angle];
    DegreesGrow(c, s, angles, angle);
    assert ErrorAt(after, |angles|) == -angle && ErrorAt(after, |angles| - 1) == s.prevError;
    PitchLawOfFields(c, s, angle, after);
  }

  lemma {:induction false} PitchLawOfFields(c: Config, s: PitchState, angle: real, angles: seq<real>)
    requires angles != [] && ErrorAt(angles, |angles| - 1) == -angle && ErrorAt(angles, |angles| - 2) == s.prevError
    requires PitchIntegral(c, s, angle) == Degrees(c, angles)
    ensures PitchOutput(c, s, angle) == PitchLaw(c, angles)
  {
    var n := |angles| - 1;
    SameOutput(c, -angle, PitchIntegral(c, s, angle), -angle - s.prevError, ErrorAt(angles, n), Degrees(c, angles),
               ErrorAt(angles, n) - ErrorAt(angles, n - 1));
  }

  lemma {:induction false} PitchFieldsFollow(c: Config, history: seq<Attitude>)
    ensures PitchFieldsAre(c, PidRun(c, history).pitch, Pitches(history))
  {
    if history == [] {
    } else {
      var n := |history| - 1;
      PitchFieldsFollow(c, history[..n]);
      PitchesGrow(history);
      PitchStepFollows(c, PidRun(c, history[..n]).pitch, Pitches(history[..n]), history[n].pitch);
    }
  }

  /**
   * Every elevator command of every run is the PID law of the pitch angles measured so far: the gains times
   * the last error, the clamped sum of whole degrees and the change of the error since the call before,
   * truncated to int8_t and clamped to the limit.
   */
  lemma {:induction false} ElevatorFollowsLaw(c: Config, history: seq<Attitude>)
    requires history != []
    ensures ElevatorLaw(c, Pitches(history), LastCommands(c, history).elevator)
  {
    var n := |history| - 1;
    PitchFieldsFollow(c, history[..n]);
    PitchesGrow(history);
    PitchStepFollows(c, PidRun(c, history[..n]).pitch, Pitches(history[..n]), history[n].pitch);
  }

  /** The conversion to int8_t: it discards the fraction exactly while the integral part is -128..127. */
  lemma CastDiscardsFraction(c: Config, x: real)
    ensures FitsInt8(x) <==> exists n :: -128 <= n <= 127 && TruncatesTo(x, n)
    ensures FitsInt8(x) ==> TruncatesTo(x, CastInt8(c, x))
    ensures !FitsInt8(x) ==> CastInt8(c, x) == c.platform.wildInt8(x)
  {
    TruncateDiscardsFraction(x);
    if FitsInt8(x) {
      assert -128 <= CastInt8(c, x) <= 127;
    }
  }

  // ----- An example -----

  predicate ShippedGains(c: Config) {
    && c.kp == SHIPPED.kp && c.ki == SHIPPED.ki && c.kd == SHIPPED.kd && c.tau == SHIPPED.tau
    && c.maxIntegral == SHIPPED.maxIntegral
    && c.maxAileron == SHIPPED.maxAileron && c.maxElevator == SHIPPED.maxElevator
  }

  lemma {:induction false} RollOfTwenty(c: Config)
    requires ShippedGains(c)
    ensures RollLaw(c, [20.0]) == -10.0 + 0.05 * -0.4 + 0.08 * (2.0 / 0.14 * -20.0)
  {
    var angles := [20.0];
    assert angles[..0] == [];
    assert Power((2.0 * c.tau - 0.04) / (2.0 * c.tau + 0.04), 0) == 1.0;
    assert DecayedChanges(c, angles, 1) == -20.0;
    assert Derivative(c, angles) == 2.0 / 0.14 * -20.0;
    assert ErrorSum(angles) == -20.0 && Excess(c, []) == 0.0;
    assert Integral(c, angles) == -0.4;
  }

  lemma {:induction false} PitchOfTwenty(c: Config)
    requires ShippedGains(c)
    ensures PitchLaw(c, [20.0]) == -10.0 + 0.05 * -4.0 + 0.08 * -20.0
  {
    var angles := [20.0];
    assert angles[..0] == [];
    assert CastInt8(c, -20.0) == -20;
    assert Degrees(c, angles) == -4.0;
  }

  /** The shipped gains: 20 degrees of roll and pitch against a fresh controller. */
  lemma TwentyDegrees(c: Config)
    requires ShippedGains(c)
    ensures LastCommands(c, [Attitude(20.0, 20.0)]) == Commands(-32, -11)
  {
    var history := [Attitude(20.0, 20.0)];
    RollOfTwenty(c);
    PitchOfTwenty(c);
    AileronFollowsLaw(c, history);
    ElevatorFollowsLaw(c, history);
    assert Rolls(history) == [20.0] && Pitches(history) == [20.0];
  }
}
