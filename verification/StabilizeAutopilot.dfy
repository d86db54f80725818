/**
 * The PID controller (impl/src/autopilot/StabilizeAutopilot.cpp). The class at the end updates its
 * fields as the source does; its methods are specified by the step functions below, and the theorems
 * about whole runs are proved of those functions.
 */
module StabilizeAutopilot {
  import opened Common
  import opened AutopilotUtility
  import opened Packet

  datatype RollState = RollState(integral: real, derivative: real, prevError: real)
  datatype PitchState = PitchState(integral: real, prevError: real)
  datatype PidState = PidState(roll: RollState, pitch: PitchState)

  /** What one call hands to the surfaces. */
  datatype Commands = Commands(aileron: int8, elevator: int8)

  const ROLL_INIT := RollState(0.0, 0.0, 0.0)
  const PITCH_INIT := PitchState(0.0, 0.0)
  const PID_INIT := PidState(ROLL_INIT, PITCH_INIT)

  // The loop period dt is 0.04 s, so dt / 2 is 0.02 and 1 - dt is 0.96.

  /** The two coefficients of the filtered derivative. */
  function Gain(c: Config): real { 2.0 / (2.0 * c.tau + 0.04) }
  function Decay(c: Config): real { (2.0 * c.tau - 0.04) / (2.0 * c.tau + 0.04) }

  function RollIntegrated(s: RollState, error: real): real {
    s.integral + 0.04 / 2.0 * (error + s.prevError)
  }

  function RollDerivative(c: Config, s: RollState, error: real): real {
    Decay(c) * s.derivative + Gain(c) * (error - s.prevError)
  }

  function ProportionalTerm(c: Config, error: real): real { c.kp * error }
  function IntegralTerm(c: Config, integral: real): real { c.ki * integral }
  function DerivativeTerm(c: Config, derivative: real): real { c.kd * derivative }

  /** The controller's output before saturation. */
  function Output(c: Config, error: real, integral: real, derivative: real): real {
    ProportionalTerm(c, error) + IntegralTerm(c, integral) + DerivativeTerm(c, derivative)
  }

  function RollOutput(c: Config, s: RollState, angle: real): real {
    Output(c, -angle, RollIntegrated(s, -angle), RollDerivative(c, s, -angle))
  }

  function RollCommand(c: Config, s: RollState, angle: real): int8 {
    CastInt8(c, BindPidAileron(c, RollOutput(c, s, angle)))
  }

  /** Back-calculation: the saturation error is fed back into the integral. */
  function BackCalculated(c: Config, integral: real, output: real): real {
    integral + 0.04 / c.ki * (BindPidAileron(c, output) - output)
  }

  function RollNext(c: Config, s: RollState, angle: real): RollState {
    RollState(BackCalculated(c, RollIntegrated(s, -angle), RollOutput(c, s, angle)),
              RollDerivative(c, s, -angle), -angle)
  }

  /** bindIntegralError: an int8_t clamped to the configured limit, which is itself converted back to int8_t. */
  function BindIntegral(c: Config, integral: int8): int8 {
    if integral as real > c.maxIntegral then CastInt8(c, c.maxIntegral)
    else if (integral as real) < -c.maxIntegral then CastInt8(c, -c.maxIntegral)
    else integral
  }

  /** The operand of the implicit int8_t conversion on the pitch integral. */
  function PitchSum(s: PitchState, angle: real): real {
    s.integral + -angle
  }

  function PitchIntegral(c: Config, s: PitchState, angle: real): real {
    BindIntegral(c, CastInt8(c, PitchSum(s, angle))) as real
  }

  function PitchOutput(c: Config, s: PitchState, angle: real): real {
    Output(c, -angle, PitchIntegral(c, s, angle), -angle - s.prevError)
  }

  function PitchCommand(c: Config, s: PitchState, angle: real): int8 {
    BindPidElevator(c, CastInt8(c, PitchOutput(c, s, angle)))
  }

  function PitchNext(c: Config, s: PitchState, angle: real): PitchState {
    PitchState(PitchIntegral(c, s, angle), -angle)
  }

  datatype Attitude = Attitude(roll: real, pitch: real)

  /** The two angles that the autopilot takes from an IMU packet. */
  function AttitudeOf(c: Config, imu: ImuPacket): Attitude {
    Attitude(c.platform.floatValue(imu.gyroX), c.platform.floatValue(imu.gyroY))
  }

  function PidNext(c: Config, s: PidState, a: Attitude): PidState {
    PidState(RollNext(c, s.roll, a.roll), PitchNext(c, s.pitch, a.pitch))
  }

  function PidCommands(c: Config, s: PidState, a: Attitude): Commands {
    Commands(RollCommand(c, s.roll, a.roll), PitchCommand(c, s.pitch, a.pitch))
  }

  /** The state after a history of calls to a fresh controller, oldest first. */
  function PidRun(c: Config, history: seq<Attitude>): PidState {
    if history == [] then PID_INIT
    else PidNext(c, PidRun(c, history[..|history| - 1]), history[|history| - 1])
  }

  /** The commands of the last call of a history. */
  function LastCommands(c: Config, history: seq<Attitude>): Commands
    requires history != []
  {
    PidCommands(c, PidRun(c, history[..|history| - 1]), history[|history| - 1])
  }

  // ----- The roll channel stays bounded over every run -----

  predicate RollWithin(history: seq<Attitude>, e: real) {
    forall i :: 0 <= i < |history| ==> Within(history[i].roll, e)
  }

  function DerivativeBound(c: Config, e: real): real {
    4.0 * e / (2.0 * c.tau + 0.04)
  }

  function IntegralBound(c: Config, e: real): real {
    (c.maxAileron as real + c.kp * e + c.kd * DerivativeBound(c, e)) / c.ki + 0.96 * e
  }

  /** The auxiliary fact behind the bounds: the derivative stays close to the scaled previous error. */
  predicate DerivativeNear(c: Config, derivative: real, error: real, e: real) {
    -(Gain(c) * e) <= derivative - Gain(c) * error <= Gain(c) * e
  }

  predicate RollInvariant(c: Config, s: RollState, e: real) {
    && Within(s.prevError, e)
    && DerivativeNear(c, s.derivative, s.prevError, e)
    && Within(s.integral, IntegralBound(c, e))
  }

  lemma FilterCoefficients(c: Config)
    ensures Gain(c) > 0.0 && 0.0 <= Decay(c) <= 1.0 && Decay(c) == 1.0 - 0.04 * Gain(c)
  {
    var g := 2.0 * c.tau + 0.04;
    assert Gain(c) * g == 2.0 && Decay(c) * g == 2.0 * c.tau - 0.04;
    assert (1.0 - 0.04 * Gain(c)) * g == g - 0.04 * (Gain(c) * g);
    assert (Decay(c) - (1.0 - 0.04 * Gain(c))) * g == 0.0;
  }

  lemma DerivativeBoundIsTwoGains(c: Config, e: real)
    ensures DerivativeBound(c, e) == 2.0 * (Gain(c) * e)
  {
    var g := 2.0 * c.tau + 0.04;
    assert DerivativeBound(c, e) * g == 4.0 * e;
    assert (2.0 * (Gain(c) * e)) * g == 2.0 * e * (Gain(c) * g);
    assert Gain(c) * g == 2.0;
    assert (DerivativeBound(c, e) - 2.0 * (Gain(c) * e)) * g == 0.0;
  }

  lemma SumOfWithin(x: real, y: real, a: real, b: real)
    requires Within(x, a) && Within(y, b)
    ensures Within(x + y, a + b)
  {
  }

  lemma ConvexCombination(k: real, x: real, y: real, b: real)
    requires 0.0 <= k <= 1.0 && Within(x, b) && Within(y, b)
    ensures Within(k * x - (1.0 - k) * y, b)
  {
    var l := 1.0 - k;
    ScaleBound(k, x, b);
    ScaleBound(l, y, b);
    Opposite(l * y, l * b);
    SumOfWithin(k * x, -(l * y), k * b, l * b);
    Shares(k, b);
  }

  lemma Opposite(x: real, b: real)
    requires Within(x, b)
    ensures Within(-x, b)
  {
  }

  /** The two parts of a split quantity add up to it. */
  lemma Shares(k: real, b: real)
    ensures k * b + (1.0 - k) * b == b
  {
    assert (k + (1.0 - k)) * b == b;
  }

  /** One filter step, with the coefficients abstracted: d - g*error is a convex combination of old quantities. */
  lemma FilterStep(k: real, g: real, old_d: real, p: real, error: real, e: real)
    requires 0.0 <= k <= 1.0 && g > 0.0
    requires Within(p, e) && Within(old_d - g * p, g * e)
    ensures Within(k * old_d + g * (error - p) - g * error, g * e)
  {
    var x, y := old_d - g * p, g * p;
    ScaleBound(g, p, e);
    ConvexCombination(k, x, y, g * e);
    assert g * (error - p) == g * error - y;
    assert k * old_d == k * x + k * y;
    assert (1.0 - k) * y == y - k * y;
  }

  lemma DerivativeStaysNear(c: Config, s: RollState, error: real, e: real)
    requires Within(s.prevError, e) && DerivativeNear(c, s.derivative, s.prevError, e)
    ensures DerivativeNear(c, RollDerivative(c, s, error), error, e)
  {
    FilterCoefficients(c);
    FilterStep(Decay(c), Gain(c), s.derivative, s.prevError, error, e);
  }

  lemma NearIsBounded(c: Config, derivative: real, error: real, e: real)
    requires Within(error, e) && DerivativeNear(c, derivative, error, e)
    ensures Within(derivative, DerivativeBound(c, e))
  {
    FilterCoefficients(c);
    DerivativeBoundIsTwoGains(c, e);
    ScaleBound(Gain(c), error, e);
  }

  /** Back-calculation, multiplied out: 0.04 of the saturation error is fed back into the integral's term. */
  lemma ScaledBackCalculation(c: Config, integral: real, output: real)
    ensures IntegralTerm(c, BackCalculated(c, integral, output))
         == IntegralTerm(c, integral) + 0.04 * (BindPidAileron(c, output) - output)
  {
    FeedBack(c.ki, integral, BindPidAileron(c, output) - output);
  }

  lemma FeedBack(k: real, i: real, x: real)
    requires k > 0.0
    ensures k * (i + 0.04 / k * x) == k * i + 0.04 * x
  {
    assert k * (0.04 / k) == 0.04;
    assert k * (0.04 / k * x) == k * (0.04 / k) * x;
    assert k * (i + 0.04 / k * x) == k * i + k * (0.04 / k * x);
  }

  lemma ScaledIntegralBound(c: Config, e: real)
    ensures IntegralTerm(c, IntegralBound(c, e))
         == c.maxAileron as real + ProportionalTerm(c, e) + DerivativeTerm(c, DerivativeBound(c, e))
            + 0.96 * IntegralTerm(c, e)
  {
    DistributeBound(c.ki, c.maxAileron as real + c.kp * e + c.kd * DerivativeBound(c, e), e);
  }

  lemma DistributeBound(k: real, n: real, e: real)
    requires k > 0.0
    ensures k * (n / k + 0.96 * e) == n + 0.96 * (k * e)
  {
    assert k * (n / k) == n;
    assert k * (n / k + 0.96 * e) == k * (n / k) + k * (0.96 * e);
    assert k * (0.96 * e) == 0.96 * (k * e);
  }

  lemma SignOfProduct(k: real, x: real)
    requires k > 0.0
    ensures x >= 0.0 <==> k * x >= 0.0
    ensures x == 0.0 <==> k * x == 0.0
  {
  }

  lemma Unscale(c: Config, x: real, b: real)
    requires Within(IntegralTerm(c, x), IntegralTerm(c, b))
    ensures Within(x, b)
  {
    SignOfProduct(c.ki, b - x);
    SignOfProduct(c.ki, b + x);
    assert c.ki * (b - x) == c.ki * b - c.ki * x && c.ki * (b + x) == c.ki * b + c.ki * x;
  }

  /** The terms of the output keep the bounds of their arguments. */
  lemma TermsWithin(c: Config, error: real, e: real, i: real, ib: real, d: real, db: real)
    requires Within(error, e) && Within(i, ib) && Within(d, db)
    ensures Within(ProportionalTerm(c, error), ProportionalTerm(c, e))
    ensures Within(IntegralTerm(c, i), IntegralTerm(c, ib))
    ensures Within(DerivativeTerm(c, d), DerivativeTerm(c, db))
  {
    ScaleBound(c.kp, error, e);
    ScaleBound(c.ki, i, ib);
    ScaleBound(c.kd, d, db);
  }

  /** The trapezoid adds a fiftieth of the sum of two errors. */
  lemma TrapezoidTerm(c: Config, i: real, sum: real, e: real)
    requires Within(sum, 2.0 * e)
    ensures IntegralTerm(c, i + 0.04 / 2.0 * sum) == IntegralTerm(c, i) + 0.02 * IntegralTerm(c, sum)
    ensures Within(IntegralTerm(c, sum), 2.0 * IntegralTerm(c, e))
  {
    assert c.ki * (i + 0.02 * sum) == c.ki * i + c.ki * (0.02 * sum);
    assert c.ki * (0.02 * sum) == 0.02 * (c.ki * sum);
    ScaleBound(c.ki, sum, 2.0 * e);
    assert c.ki * (2.0 * e) == 2.0 * (c.ki * e);
  }

  /**
   * The case split on saturation, on the terms of the output: i1 is the integral before back-calculation
   * and ib any bound whose term exceeds the limit and the other two terms' bounds by 0.96 of one error.
   */
  lemma SaturatedStep(c: Config, i: real, sum: real, i1: real, error: real, d: real, e: real, db: real, ib: real)
    requires Within(ProportionalTerm(c, error), ProportionalTerm(c, e))
    requires Within(DerivativeTerm(c, d), DerivativeTerm(c, db))
    requires Within(IntegralTerm(c, i), IntegralTerm(c, ib))
    requires Within(IntegralTerm(c, sum), 2.0 * IntegralTerm(c, e)) && IntegralTerm(c, e) >= 0.0
    requires IntegralTerm(c, i1) == IntegralTerm(c, i) + 0.02 * IntegralTerm(c, sum)
    requires IntegralTerm(c, ib)
          == c.maxAileron as real + ProportionalTerm(c, e) + DerivativeTerm(c, db) + 0.96 * IntegralTerm(c, e)
    ensures var u := Output(c, error, i1, d);
      Within(IntegralTerm(c, i1) + 0.04 * (BindPidAileron(c, u) - u), IntegralTerm(c, ib))
  {
  }

  lemma BackCalculatedBounded(c: Config, i: real, sum: real, error: real, d: real, e: real, db: real, ib: real)
    requires e >= 0.0 && Within(error, e) && Within(sum, 2.0 * e) && Within(d, db) && Within(i, ib)
    requires IntegralTerm(c, ib)
          == c.maxAileron as real + ProportionalTerm(c, e) + DerivativeTerm(c, db) + 0.96 * IntegralTerm(c, e)
    ensures var i1 := i + 0.04 / 2.0 * sum;
      Within(BackCalculated(c, i1, Output(c, error, i1, d)), ib)
  {
    var i1 := i + 0.04 / 2.0 * sum;
    TermsWithin(c, error, e, i, ib, d, db);
    TrapezoidTerm(c, i, sum, e);
    SignOfProduct(c.ki, e);
    SaturatedStep(c, i, sum, i1, error, d, e, db, ib);
    ScaledBackCalculation(c, i1, Output(c, error, i1, d));
    Unscale(c, BackCalculated(c, i1, Output(c, error, i1, d)), ib);
  }

  lemma IntegralStaysBounded(c: Config, s: RollState, angle: real, e: real)
    requires Within(angle, e) && RollInvariant(c, s, e)
    ensures Within(RollNext(c, s, angle).integral, IntegralBound(c, e))
  {
    var d := RollDerivative(c, s, -angle);
    assert Within(d, DerivativeBound(c, e)) by {
      DerivativeStaysNear(c, s, -angle, e);
      NearIsBounded(c, d, -angle, e);
    }
    ScaledIntegralBound(c, e);
    BackCalculatedBounded(c, s.integral, -angle + s.prevError, -angle, d, e, DerivativeBound(c, e), IntegralBound(c, e));
  }

  lemma RollInvariantStep(c: Config, s: RollState, angle: real, e: real)
    requires Within(angle, e) && RollInvariant(c, s, e)
    ensures RollInvariant(c, RollNext(c, s, angle), e)
  {
    DerivativeStaysNear(c, s, -angle, e);
    IntegralStaysBounded(c, s, angle, e);
  }

  lemma RollInvariantInit(c: Config, e: real)
    requires e >= 0.0
    ensures RollInvariant(c, ROLL_INIT, e)
  {
    FilterCoefficients(c);
    SignOfProduct(Gain(c), e);
    DerivativeBoundIsTwoGains(c, e);
    ScaledIntegralBound(c, e);
    ScaleBound(c.kp, 0.0, e);
    ScaleBound(c.kd, 0.0, DerivativeBound(c, e));
    ScaleBound(c.ki, 0.0, e);
    Unscale(c, 0.0, IntegralBound(c, e));
  }

  lemma {:induction false} RollInvariantHolds(c: Config, history: seq<Attitude>, e: real)
    requires e >= 0.0 && RollWithin(history, e)
    ensures RollInvariant(c, PidRun(c, history).roll, e)
  {
    if history == [] {
      RollInvariantInit(c, e);
    } else {
      var n := |history| - 1;
      RollInvariantHolds(c, history[..n], e);
      RollInvariantStep(c, PidRun(c, history[..n]).roll, history[n].roll, e);
    }
  }

  /**
   * Anti-windup keeps the roll controller bounded over every run: after any history whose roll
   * angles stay within e, so do the derivative and the integral, within bounds that do not depend
   * on the length of the history, and every command is within the aileron limit.
   */
  lemma {:induction false} RollStaysBounded(c: Config, history: seq<Attitude>, e: real)
    requires RollWithin(history, e) && e >= 0.0
    ensures Within(PidRun(c, history).roll.derivative, DerivativeBound(c, e))
    ensures Within(PidRun(c, history).roll.integral, IntegralBound(c, e))
    ensures history != [] ==> -c.maxAileron <= LastCommands(c, history).aileron <= c.maxAileron
  {
    RollInvariantHolds(c, history, e);
    var s := PidRun(c, history).roll;
    NearIsBounded(c, s.derivative, s.prevError, e);
    if history != [] {
      var n := |history| - 1;
      AileronCommandInLimits(c, RollOutput(c, PidRun(c, history[..n]).roll, history[n].roll));
    }
  }

  // ----- Anti-windup contracts geometrically -----

  /** The output recomputed with the corrected integral. */
  function RecomputedOutput(c: Config, s: RollState, angle: real): real {
    var s' := RollNext(c, s, angle);
    Output(c, s'.prevError, s'.integral, s'.derivative)
  }

  /**
   * What exceeds the limit shrinks by the factor 0.96 on every call, on either side of the range,
   * and an unsaturated call leaves the integral alone.
   */
  lemma AntiWindupContracts(c: Config, s: RollState, angle: real)
    ensures var u := RollOutput(c, s, angle);
      RecomputedOutput(c, s, angle) - BindPidAileron(c, u) == 0.96 * (u - BindPidAileron(c, u))
    ensures var u := RollOutput(c, s, angle);
      BindPidAileron(c, u) == u <==> RollNext(c, s, angle).integral == RollIntegrated(s, -angle)
  {
    var u := RollOutput(c, s, angle);
    ScaledBackCalculation(c, RollIntegrated(s, -angle), u);
    if RollNext(c, s, angle).integral == RollIntegrated(s, -angle) {
      assert 0.04 * (BindPidAileron(c, u) - u) == 0.0;
    }
  }

  function Power(x: real, n: nat): real {
    if n == 0 then 1.0 else x * Power(x, n - 1)
  }

  /** n calls with level wings. */
  function LevelRun(c: Config, s: RollState, n: nat): RollState {
    if n == 0 then s else RollNext(c, LevelRun(c, s, n - 1), 0.0)
  }

  /** The integral's term after one level call: beyond the limit, its excess is multiplied by 0.96. */
  function Unwound(c: Config, j: real): real {
    j + 0.04 * (BindPidAileron(c, j) - j)
  }

  predicate AtRest(s: RollState) {
    s.derivative == 0.0 && s.prevError == 0.0
  }

  /** One call with level wings and no previous error or derivative. */
  lemma LevelStep(c: Config, p: RollState)
    requires AtRest(p)
    ensures AtRest(RollNext(c, p, 0.0))
    ensures RollOutput(c, p, 0.0) == IntegralTerm(c, p.integral)
    ensures IntegralTerm(c, RollNext(c, p, 0.0).integral) == Unwound(c, IntegralTerm(c, p.integral))
  {
    assert RollDerivative(c, p, 0.0) == 0.0;
    assert RollIntegrated(p, 0.0) == p.integral;
    ScaledBackCalculation(c, p.integral, IntegralTerm(c, p.integral));
  }

  /** j lies beyond the limit on the side of j0, with r times its excess. */
  predicate ExcessRatio(m: real, r: real, j0: real, j: real) {
    && (j0 >= m ==> j - m == r * (j0 - m) && j >= m)
    && (j0 <= -m ==> j + m == r * (j0 + m) && j <= -m)
  }

  lemma {:induction false} ExcessIsGeometric(c: Config, s: RollState, n: nat)
    requires AtRest(s)
    ensures AtRest(LevelRun(c, s, n))
    ensures ExcessRatio(c.maxAileron as real, Power(0.96, n), IntegralTerm(c, s.integral), IntegralTerm(c, LevelRun(c, s, n).integral))
  {
    if n == 0 {
    } else {
      var p := LevelRun(c, s, n - 1);
      ExcessIsGeometric(c, s, n - 1);
      LevelStep(c, p);
      UnwoundExcess(c, Power(0.96, n - 1), IntegralTerm(c, s.integral), IntegralTerm(c, p.integral));
    }
  }

  lemma UnwoundExcess(c: Config, r: real, j0: real, j: real)
    requires ExcessRatio(c.maxAileron as real, r, j0, j)
    ensures ExcessRatio(c.maxAileron as real, 0.96 * r, j0, Unwound(c, j))
  {
    var m := c.maxAileron as real;
    assert 0.96 * r * (j0 - m) == 0.96 * (r * (j0 - m));
    assert 0.96 * r * (j0 + m) == 0.96 * (r * (j0 + m));
  }

  /** An output at or beyond the limit commands exactly the limit. */
  lemma LimitCommand(c: Config, u: real)
    ensures u >= c.maxAileron as real ==> CastInt8(c, BindPidAileron(c, u)) == c.maxAileron
    ensures u <= -(c.maxAileron as real) ==> CastInt8(c, BindPidAileron(c, u)) == -c.maxAileron
  {
    TruncateFacts(c.maxAileron as real, c.maxAileron);
    TruncateFacts(-(c.maxAileron as real), -c.maxAileron);
  }

  lemma LevelCommand(c: Config, s: RollState)
    requires AtRest(s)
    ensures IntegralTerm(c, s.integral) >= c.maxAileron as real ==> RollCommand(c, s, 0.0) == c.maxAileron
    ensures IntegralTerm(c, s.integral) <= -(c.maxAileron as real) ==> RollCommand(c, s, 0.0) == -c.maxAileron
  {
    LevelStep(c, s);
    LimitCommand(c, RollOutput(c, s, 0.0));
  }

  /**
   * A wound-up integral with nothing else in the controller unwinds geometrically: after n calls the
   * excess of the integral's term over the limit is 0.96^n times what it was, on the side where it
   * started, and the next call commands exactly the limit.
   */
  lemma {:induction false} WindupDecaysGeometrically(c: Config, start: RollState, n: nat)
    requires AtRest(start)
    ensures ExcessRatio(c.maxAileron as real, Power(0.96, n), IntegralTerm(c, start.integral), IntegralTerm(c, LevelRun(c, start, n).integral))
    ensures var j0, command := IntegralTerm(c, start.integral), RollCommand(c, LevelRun(c, start, n), 0.0);
      && (j0 >= c.maxAileron as real ==> command == c.maxAileron)
      && (j0 <= -(c.maxAileron as real) ==> command == -c.maxAileron)
  {
    ExcessIsGeometric(c, start, n);
    LevelCommand(c, LevelRun(c, start, n));
  }

  // ----- Pitch-channel conversions and integral -----

  predicate PitchWithin(history: seq<Attitude>, e: real) {
    forall i :: 0 <= i < |history| ==> Within(history[i].pitch, e)
  }

  /** The configured integral limit as an int8_t. */
  function IntegralLimit(c: Config): int {
    Truncate(c.maxIntegral)
  }

  /** Whatever the int8_t conversion of the sum produced, the bound integral is a whole number within the limit. */
  lemma BoundIntegralInRange(c: Config, x: int8)
    ensures Within(BindIntegral(c, x) as real, c.maxIntegral)
    ensures BindIntegral(c, x) == if x > IntegralLimit(c) then IntegralLimit(c)
                                  else if x < -IntegralLimit(c) then -IntegralLimit(c) else x
  {
    var f := c.maxIntegral.Floor;
    TruncateFacts(c.maxIntegral, 0);
    assert IntegralLimit(c) == f && f as real <= c.maxIntegral < (f + 1) as real;
    if x as real > c.maxIntegral {
      assert x >= f + 1;
    } else if (x as real) < -c.maxIntegral {
      var negated: int := -(x as int);
      assert negated >= f + 1;
    } else {
      assert -f <= x as int <= f;
    }
  }

  /** Both operands that this call converts to int8_t, clear of the range's ends on either side. */
  predicate CastsDefined(c: Config, s: PitchState, angle: real) {
    && -128.0 < PitchSum(s, angle) < 128.0
    && -128.0 < PitchOutput(c, s, angle) < 128.0
  }

  predicate RunCastsDefined(c: Config, history: seq<Attitude>) {
    forall i :: 0 <= i < |history| ==> CastsDefined(c, PidRun(c, history[..i]).pitch, history[i].pitch)
  }

  predicate IsWhole(x: real) {
    x == x.Floor as real
  }

  lemma OutputWithin(c: Config, error: real, integral: real, derivative: real, e: real, im: real, dm: real)
    requires Within(error, e) && Within(integral, im) && Within(derivative, dm)
    ensures Within(Output(c, error, integral, derivative), Output(c, e, im, dm))
  {
    TermsWithin(c, error, e, integral, im, derivative, dm);
  }

  predicate PitchInvariant(c: Config, s: PitchState, e: real) {
    Within(s.integral, c.maxIntegral) && IsWhole(s.integral) && Within(s.prevError, e)
  }

  lemma PitchStepSafe(c: Config, s: PitchState, angle: real, e: real)
    requires Within(angle, e) && PitchInvariant(c, s, e)
    requires e + c.maxIntegral < 128.0 && Output(c, e, c.maxIntegral, 2.0 * e) < 128.0
    ensures CastsDefined(c, s, angle) && PitchInvariant(c, PitchNext(c, s, angle), e)
  {
    BoundIntegralInRange(c, CastInt8(c, PitchSum(s, angle)));
    OutputWithin(c, -angle, PitchIntegral(c, s, angle), -angle - s.prevError, e, c.maxIntegral, 2.0 * e);
  }

  /** The pitch integral is a whole number within the limit after every call, defined conversions or not. */
  lemma {:induction false} PitchIntegralAlwaysBounded(c: Config, history: seq<Attitude>)
    ensures var i := PidRun(c, history).pitch.integral; Within(i, c.maxIntegral) && IsWhole(i)
  {
    if history != [] {
      var n := |history| - 1;
      BoundIntegralInRange(c, CastInt8(c, PitchSum(PidRun(c, history[..n]).pitch, history[n].pitch)));
    }
  }

  lemma {:induction false} PitchRunInvariant(c: Config, history: seq<Attitude>, e: real)
    requires PitchWithin(history, e) && e >= 0.0
    requires e + c.maxIntegral < 128.0 && Output(c, e, c.maxIntegral, 2.0 * e) < 128.0
    ensures PitchInvariant(c, PidRun(c, history).pitch, e)
  {
    if history == [] {
    } else {
      var n := |history| - 1;
      PitchRunInvariant(c, history[..n], e);
      PitchStepSafe(c, PidRun(c, history[..n]).pitch, history[n].pitch, e);
    }
  }

  /**
   * Pitch conversions are safe over every run: with pitch angles within e and gains small enough for
   * e, no conversion to int8_t is ever out of range.
   */
  lemma PitchCastsSafe(c: Config, history: seq<Attitude>, e: real)
    requires PitchWithin(history, e) && e >= 0.0
    requires e + c.maxIntegral < 128.0 && Output(c, e, c.maxIntegral, 2.0 * e) < 128.0
    ensures RunCastsDefined(c, history)
  {
    forall i | 0 <= i < |history|
      ensures CastsDefined(c, PidRun(c, history[..i]).pitch, history[i].pitch)
    {
      PitchRunInvariant(c, history[..i], e);
      PitchStepSafe(c, PidRun(c, history[..i]).pitch, history[i].pitch, e);
    }
  }

  /** Every command of every run is within the configured limits. */
  lemma CommandsInLimits(c: Config, s: PidState, a: Attitude)
    ensures -c.maxAileron <= PidCommands(c, s, a).aileron <= c.maxAileron
    ensures -c.maxElevator <= PidCommands(c, s, a).elevator <= c.maxElevator
  {
    AileronCommandInLimits(c, RollOutput(c, s.roll, a.roll));
  }

  /** The pitch integral is one of the values an int8_t has, after every history. */
  lemma {:induction false} PitchIntegralIsInt8(c: Config, history: seq<Attitude>)
    ensures var i := PidRun(c, history).pitch.integral; IsWhole(i) && -128.0 <= i <= 127.0 && Within(i, c.maxIntegral)
  {
    PitchIntegralAlwaysBounded(c, history);
    if history != [] {
      var n := |history| - 1;
      var s := PidRun(c, history[..n]).pitch;
      assert PidRun(c, history).pitch.integral == BindIntegral(c, CastInt8(c, PitchSum(s, history[n].pitch))) as real;
    }
  }

  /**
   * What the int8_t in the pitch integral does to errors below one degree, after any history: they never
   * add to the integral, however many there are, but one of the opposite sign takes a whole degree off it.
   */
  lemma {:induction false} SmallPitchErrorsOnlyBleed(c: Config, history: seq<Attitude>, angle: real)
    requires -1.0 < angle < 1.0 && angle != 0.0
    ensures var s := PidRun(c, history).pitch;
      PitchIntegral(c, s, angle)
      == if s.integral > 0.0 && angle > 0.0 then s.integral - 1.0
         else if s.integral < 0.0 && angle < 0.0 then s.integral + 1.0
         else s.integral
  {
    PitchIntegralIsInt8(c, history);
    SmallErrorBleeds(c, PidRun(c, history).pitch, angle);
  }

  lemma SmallErrorBleeds(c: Config, s: PitchState, angle: real)
    requires IsWhole(s.integral) && -128.0 <= s.integral <= 127.0 && Within(s.integral, c.maxIntegral)
    requires -1.0 < angle < 1.0 && angle != 0.0
    ensures PitchIntegral(c, s, angle)
         == if s.integral > 0.0 && angle > 0.0 then s.integral - 1.0
            else if s.integral < 0.0 && angle < 0.0 then s.integral + 1.0
            else s.integral
  {
    var i := s.integral.Floor;
    BoundIntegralInRange(c, CastInt8(c, PitchSum(s, angle)));
    TruncateFacts(c.maxIntegral, 0);
    assert i as real == s.integral && -IntegralLimit(c) <= i <= IntegralLimit(c);
    assert i > 0 ==> s.integral >= 1.0;
    assert i < 0 ==> s.integral <= -1.0;
    TruncateBetween(PitchSum(s, angle), if angle > 0.0 then i - 1 else i);
  }

  lemma TruncateBetween(x: real, n: int)
    requires n as real < x < (n + 1) as real
    ensures Truncate(x) == if n >= 0 then n else n + 1
  {
  }

  // ----- What the fields accumulate -----

  function RollErrorSum(history: seq<Attitude>): real {
    if history == [] then 0.0
    else RollErrorSum(history[..|history| - 1]) - history[|history| - 1].roll
  }

  function DerivativeSum(c: Config, history: seq<Attitude>): real {
    if history == [] then 0.0
    else DerivativeSum(c, history[..|history| - 1]) + PidRun(c, history).roll.derivative
  }

  /** By how much the saturated outputs of a history differed from the computed ones, in all. */
  function SaturationSum(c: Config, history: seq<Attitude>): real {
    if history == [] then 0.0
    else
      var n := |history| - 1;
      var u := RollOutput(c, PidRun(c, history[..n]).roll, history[n].roll);
      SaturationSum(c, history[..n]) + (BindPidAileron(c, u) - u)
  }

  /** The trapezoid rule over all errors, and every saturation error divided by ki. */
  predicate IntegralBooked(c: Config, s: RollState, errors: real, saturation: real) {
    s.integral == 0.04 * errors - 0.02 * s.prevError + 0.04 / c.ki * saturation
  }

  /** The filter's defining equation: tau times the derivative plus its trapezoid integral is the error. */
  predicate DerivativeBooked(c: Config, s: RollState, derivatives: real) {
    c.tau * s.derivative + 0.04 * derivatives - 0.02 * s.derivative == s.prevError
  }

  lemma IntegralStep(c: Config, s: RollState, angle: real, errors: real, saturation: real)
    requires IntegralBooked(c, s, errors, saturation)
    ensures var u := RollOutput(c, s, angle);
      IntegralBooked(c, RollNext(c, s, angle), errors - angle, saturation + (BindPidAileron(c, u) - u))
  {
    var u, k := RollOutput(c, s, angle), 0.04 / c.ki;
    var x := BindPidAileron(c, u) - u;
    assert k * (saturation + x) == k * saturation + k * x;
  }

  /** The filter step, multiplied out. */
  lemma FilterEquation(c: Config, s: RollState, error: real)
    ensures var d := RollDerivative(c, s, error);
      c.tau * d + 0.02 * d == c.tau * s.derivative - 0.02 * s.derivative + (error - s.prevError)
  {
    var g := 2.0 * c.tau + 0.04;
    var d := RollDerivative(c, s, error);
    assert Gain(c) * g == 2.0 && Decay(c) * g == 2.0 * c.tau - 0.04;
    assert d * g == (Decay(c) * g) * s.derivative + (Gain(c) * g) * (error - s.prevError);
  }

  lemma DerivativeStep(c: Config, s: RollState, angle: real, derivatives: real)
    requires DerivativeBooked(c, s, derivatives)
    ensures DerivativeBooked(c, RollNext(c, s, angle), derivatives + RollNext(c, s, angle).derivative)
  {
    FilterEquation(c, s, -angle);
  }

  /**
   * What the roll fields mean after any history, saturated or not: the integral is the trapezoid
   * integral of all errors plus the saturation errors fed back, dt/ki each; and the filtered derivative
   * satisfies tau * D + integral of D = error exactly, the sum again taken by the trapezoid rule.
   */
  lemma {:induction false} RollLedger(c: Config, history: seq<Attitude>)
    ensures IntegralBooked(c, PidRun(c, history).roll, RollErrorSum(history), SaturationSum(c, history))
    ensures DerivativeBooked(c, PidRun(c, history).roll, DerivativeSum(c, history))
  {
    if history == [] {
    } else {
      var n := |history| - 1;
      RollLedger(c, history[..n]);
      var s := PidRun(c, history[..n]).roll;
      IntegralStep(c, s, history[n].roll, RollErrorSum(history[..n]), SaturationSum(c, history[..n]));
      DerivativeStep(c, s, history[n].roll, DerivativeSum(c, history[..n]));
    }
  }

  // ----- Commands oppose the angle -----

  lemma ScaleMonotone(k: real, x: real, y: real)
    requires k >= 0.0 && x <= y
    ensures k * x <= k * y
  {
    assert k * (y - x) >= 0.0;
    assert k * (y - x) == k * y - k * x;
  }

  lemma TermsMonotone(c: Config, e: real, i: real, d: real, e': real, i': real, d': real)
    requires e <= e' && i <= i' && d <= d'
    ensures ProportionalTerm(c, e) <= ProportionalTerm(c, e')
    ensures IntegralTerm(c, i) <= IntegralTerm(c, i')
    ensures DerivativeTerm(c, d) <= DerivativeTerm(c, d')
  {
    ScaleMonotone(c.kp, e, e');
    ScaleMonotone(c.ki, i, i');
    ScaleMonotone(c.kd, d, d');
  }

  lemma SumMonotone(x: real, y: real, z: real, x': real, y': real, z': real)
    requires x <= x' && y <= y' && z <= z'
    ensures x + y + z <= x' + y' + z'
  {
  }

  lemma OutputMonotone(c: Config, e: real, i: real, d: real, e': real, i': real, d': real)
    requires e <= e' && i <= i' && d <= d'
    ensures Output(c, e, i, d) <= Output(c, e', i', d')
  {
    TermsMonotone(c, e, i, d, e', i', d');
    SumMonotone(ProportionalTerm(c, e), IntegralTerm(c, i), DerivativeTerm(c, d),
                ProportionalTerm(c, e'), IntegralTerm(c, i'), DerivativeTerm(c, d'));
  }

  lemma CastMonotone(c: Config, x: real, y: real)
    requires FitsInt8(x) && FitsInt8(y) && x <= y
    ensures CastInt8(c, x) <= CastInt8(c, y)
  {
  }

  /** From the same state, a larger roll angle never gives a larger aileron command. */
  lemma AileronOpposesRoll(c: Config, s: RollState, a: real, b: real)
    requires a <= b
    ensures RollOutput(c, s, b) <= RollOutput(c, s, a)
    ensures RollCommand(c, s, b) <= RollCommand(c, s, a)
  {
    FilterCoefficients(c);
    ScaleMonotone(Gain(c), -b - s.prevError, -a - s.prevError);
    OutputMonotone(c, -b, RollIntegrated(s, -b), RollDerivative(c, s, -b), -a, RollIntegrated(s, -a), RollDerivative(c, s, -a));
    AileronCommandInLimits(c, RollOutput(c, s, a));
    AileronCommandInLimits(c, RollOutput(c, s, b));
    CastMonotone(c, BindPidAileron(c, RollOutput(c, s, b)), BindPidAileron(c, RollOutput(c, s, a)));
  }

  /** Both operands that this call converts to int8_t have a defined result. */
  predicate CastsFit(c: Config, s: PitchState, angle: real) {
    FitsInt8(PitchSum(s, angle)) && FitsInt8(PitchOutput(c, s, angle))
  }

  /** From the same state, a larger pitch angle never gives a larger elevator command, while conversions are defined. */
  lemma ElevatorOpposesPitch(c: Config, s: PitchState, a: real, b: real)
    requires a <= b && CastsFit(c, s, a) && CastsFit(c, s, b)
    ensures PitchOutput(c, s, b) <= PitchOutput(c, s, a)
    ensures PitchCommand(c, s, b) <= PitchCommand(c, s, a)
  {
    CastMonotone(c, PitchSum(s, b), PitchSum(s, a));
    BoundIntegralInRange(c, CastInt8(c, PitchSum(s, a)));
    BoundIntegralInRange(c, CastInt8(c, PitchSum(s, b)));
    OutputMonotone(c, -b, PitchIntegral(c, s, b), -b - s.prevError, -a, PitchIntegral(c, s, a), -a - s.prevError);
    CastMonotone(c, PitchOutput(c, s, b), PitchOutput(c, s, a));
  }

  // ----- Whole runs are odd -----

  function MirroredState(s: PidState): PidState {
    PidState(RollState(-s.roll.integral, -s.roll.derivative, -s.roll.prevError),
             PitchState(-s.pitch.integral, -s.pitch.prevError))
  }

  function Mirrored(history: seq<Attitude>): seq<Attitude> {
    seq(|history|, i requires 0 <= i < |history| => MirroredAttitude(history[i]))
  }

  function MirroredAttitude(a: Attitude): Attitude {
    Attitude(-a.roll, -a.pitch)
  }

  predicate OppositeCommands(p: Commands, q: Commands) {
    p.aileron == -(q.aileron as int) && p.elevator == -(q.elevator as int)
  }

  lemma OutputOdd(c: Config, error: real, integral: real, derivative: real)
    ensures Output(c, -error, -integral, -derivative) == -Output(c, error, integral, derivative)
  {
    assert c.kp * -error == -(c.kp * error);
    assert c.ki * -integral == -(c.ki * integral);
    assert c.kd * -derivative == -(c.kd * derivative);
  }

  lemma WeightedOdd(k: real, x: real, g: real, y: real)
    ensures k * -x + g * -y == -(k * x + g * y)
  {
    assert k * -x == -(k * x) && g * -y == -(g * y);
  }

  lemma DerivativeOdd(c: Config, s: RollState, t: RollState, error: real)
    requires t.derivative == -s.derivative && t.prevError == -s.prevError
    ensures RollDerivative(c, t, -error) == -RollDerivative(c, s, error)
  {
    WeightedOdd(Decay(c), s.derivative, Gain(c), error - s.prevError);
    assert -error - t.prevError == -(error - s.prevError);
  }

  lemma BackCalculatedOdd(c: Config, integral: real, output: real)
    ensures BackCalculated(c, -integral, -output) == -BackCalculated(c, integral, output)
  {
    var k, x := 0.04 / c.ki, BindPidAileron(c, output) - output;
    assert BindPidAileron(c, -output) - (-output) == -x;
    assert k * -x == -(k * x);
  }

  lemma RollOdd(c: Config, s: PidState, angle: real)
    ensures RollNext(c, MirroredState(s).roll, -angle) == MirroredState(PidState(RollNext(c, s.roll, angle), s.pitch)).roll
    ensures RollCommand(c, MirroredState(s).roll, -angle) == -RollCommand(c, s.roll, angle)
  {
    var r, t := s.roll, MirroredState(s).roll;
    var i, d := RollIntegrated(r, -angle), RollDerivative(c, r, -angle);
    DerivativeOdd(c, r, t, -angle);
    assert RollIntegrated(t, -(-angle)) == -i;
    OutputOdd(c, -angle, i, d);
    var u := RollOutput(c, r, angle);
    assert RollOutput(c, t, -angle) == -u;
    BackCalculatedOdd(c, i, u);
    TruncateFacts(BindPidAileron(c, u), 0);
    AileronCommandInLimits(c, u);
    AileronCommandInLimits(c, -u);
  }

  lemma CastOdd(c: Config, x: real)
    requires -128.0 < x < 128.0
    ensures CastInt8(c, -x) == -CastInt8(c, x) && CastInt8(c, x) > -128
  {
    TruncateFacts(x, 128);
  }

  lemma PitchOdd(c: Config, s: PidState, angle: real)
    requires CastsDefined(c, s.pitch, angle)
    ensures PitchNext(c, MirroredState(s).pitch, -angle) == MirroredState(PidState(s.roll, PitchNext(c, s.pitch, angle))).pitch
    ensures PitchCommand(c, MirroredState(s).pitch, -angle) == -PitchCommand(c, s.pitch, angle)
  {
    var p, q := s.pitch, MirroredState(s).pitch;
    var sum := CastInt8(c, PitchSum(p, angle));
    assert PitchSum(q, -angle) == -PitchSum(p, angle);
    CastOdd(c, PitchSum(p, angle));
    BoundIntegralInRange(c, sum);
    BoundIntegralInRange(c, -sum);
    assert PitchIntegral(c, q, -angle) == -PitchIntegral(c, p, angle);
    OutputOdd(c, -angle, PitchIntegral(c, p, angle), -angle - p.prevError);
    assert -(-angle) - q.prevError == -(-angle - p.prevError);
    assert PitchOutput(c, q, -angle) == -PitchOutput(c, p, angle);
    CastOdd(c, PitchOutput(c, p, angle));
  }

  lemma StepIsOdd(c: Config, s: PidState, a: Attitude)
    requires CastsDefined(c, s.pitch, a.pitch)
    ensures PidNext(c, MirroredState(s), MirroredAttitude(a)) == MirroredState(PidNext(c, s, a))
    ensures OppositeCommands(PidCommands(c, MirroredState(s), MirroredAttitude(a)), PidCommands(c, s, a))
  {
    RollOdd(c, s, a.roll);
    PitchOdd(c, s, a.pitch);
  }

  lemma PrefixCastsDefined(c: Config, history: seq<Attitude>, n: nat)
    requires n <= |history| && RunCastsDefined(c, history)
    ensures RunCastsDefined(c, history[..n])
  {
    forall i | 0 <= i < n
      ensures CastsDefined(c, PidRun(c, history[..n][..i]).pitch, history[..n][i].pitch)
    {
      assert history[..n][..i] == history[..i];
    }
  }

  lemma {:induction false} RunStateIsOdd(c: Config, history: seq<Attitude>)
    requires RunCastsDefined(c, history)
    ensures PidRun(c, Mirrored(history)) == MirroredState(PidRun(c, history))
  {
    if history == [] {
    } else {
      var n := |history| - 1;
      PrefixCastsDefined(c, history, n);
      RunStateIsOdd(c, history[..n]);
      assert Mirrored(history)[..n] == Mirrored(history[..n]);
      StepIsOdd(c, PidRun(c, history[..n]), history[n]);
    }
  }

  /** The last call of a prefix of a history. */
  lemma {:induction false} LastOfPrefix(c: Config, history: seq<Attitude>, n: nat)
    requires n < |history|
    ensures LastCommands(c, history[..n + 1]) == PidCommands(c, PidRun(c, history[..n]), history[n])
  {
    assert history[..n + 1][..n] == history[..n];
  }

  lemma MirroredPrefix(history: seq<Attitude>, n: nat)
    requires n <= |history|
    ensures Mirrored(history)[..n] == Mirrored(history[..n])
  {
  }

  /**
   * Whole runs are odd: while the conversions are defined, negating every angle of a history negates
   * the complete controller state and both commands of every call.
   */
  lemma {:induction false} RunsAreOdd(c: Config, history: seq<Attitude>, n: nat)
    requires n < |history| && RunCastsDefined(c, history)
    ensures PidRun(c, Mirrored(history)) == MirroredState(PidRun(c, history))
    ensures OppositeCommands(LastCommands(c, Mirrored(history)[..n + 1]), LastCommands(c, history[..n + 1]))
  {
    RunStateIsOdd(c, history);
    PrefixCastsDefined(c, history, n);
    RunStateIsOdd(c, history[..n]);
    MirroredPrefix(history, n);
    LastOfPrefix(c, history, n);
    LastOfPrefix(c, Mirrored(history), n);
    StepIsOdd(c, PidRun(c, history[..n]), history[n]);
  }

  // ----- The controller itself -----

  /** The autopilot with the fields its methods update in place. Angles are in degrees, as the IMU reports them. */
  class PidController {
    const config: Config
    var rollIntegralError: real
    var rollDerivativeError: real
    var prevRollError: real
    var pitchIntegralError: real
    var prevPitchError: real

    function State(): PidState
      reads this
    {
      PidState(RollState(rollIntegralError, rollDerivativeError, prevRollError),
               PitchState(pitchIntegralError, prevPitchError))
    }

    constructor (config: Config)
      ensures this.config == config && State() == PID_INIT
    {
      this.config := config;
      rollIntegralError, rollDerivativeError, prevRollError := 0.0, 0.0, 0.0;
      pitchIntegralError, prevPitchError := 0.0, 0.0;
    }

    method ComputeRollToAileronDeflection(rollAngle: real) returns (command: int8)
      modifies this`rollIntegralError, this`rollDerivativeError, this`prevRollError
      ensures State().roll == RollNext(config, old(State().roll), rollAngle)
      ensures command == RollCommand(config, old(State().roll), rollAngle)
    {
      ghost var s := State().roll;
      var error := -rollAngle;
      rollIntegralError := rollIntegralError + 0.04 / 2.0 * (error + prevRollError);
      rollDerivativeError := (2.0 * config.tau - 0.04) / (2.0 * config.tau + 0.04) * rollDerivativeError
                             + 2.0 / (2.0 * config.tau + 0.04) * (error - prevRollError);
      prevRollError := error;
      assert rollIntegralError == RollIntegrated(s, error) && rollDerivativeError == RollDerivative(config, s, error);
      var output := config.kp * error + config.ki * rollIntegralError + config.kd * rollDerivativeError;
      var unsaturatedOutput := output;
      assert unsaturatedOutput == RollOutput(config, s, rollAngle);
      output := BindPidAileron(config, output);
      rollIntegralError := rollIntegralError + 0.04 / config.ki * (output - unsaturatedOutput);
      assert rollIntegralError == BackCalculated(config, RollIntegrated(s, error), unsaturatedOutput);
      command := CastInt8(config, output);
    }

    method ComputePitchToElevatorDeflection(pitchAngle: real) returns (command: int8)
      modifies this`pitchIntegralError, this`prevPitchError
      ensures State().pitch == PitchNext(config, old(State().pitch), pitchAngle)
      ensures command == CastInt8(config, PitchOutput(config, old(State().pitch), pitchAngle))
    {
      ghost var s := State().pitch;
      var error := -pitchAngle;
      var derivative := error - prevPitchError;
      pitchIntegralError := pitchIntegralError + error;
      assert pitchIntegralError == PitchSum(s, pitchAngle);
      pitchIntegralError := BindIntegral(config, CastInt8(config, pitchIntegralError)) as real;
      var output := config.kp * error + config.ki * pitchIntegralError + config.kd * derivative;
      assert output == PitchOutput(config, s, pitchAngle);
      prevPitchError := error;
      command := CastInt8(config, output);
    }

    method Trigger(rc: RcRxPacket, imu: ImuPacket) returns (packet: ControlSurfacePacket)
      modifies this
      ensures State() == PidNext(config, old(State()), AttitudeOf(config, imu))
      ensures packet == StabilizedPacket(config, old(State()), rc, AttitudeOf(config, imu))
    {
      var motorSpeed := BindRcThrottle(config, rc.motorStick);
      var aileron := ComputeRollToAileronDeflection(config.platform.floatValue(imu.gyroX));
      var elevator := ComputePitchToElevatorDeflection(config.platform.floatValue(imu.gyroY));
      packet := ControlSurfacePacket(motorSpeed, aileron, BindPidElevator(config, elevator),
                                     BindRcDeflection(config.maxRudder, rc.rudderStick));
    }
  }

  function StabilizedPacket(c: Config, s: PidState, rc: RcRxPacket, attitude: Attitude): ControlSurfacePacket {
    var commands := PidCommands(c, s, attitude);
    ControlSurfacePacket(BindRcThrottle(c, rc.motorStick), commands.aileron, commands.elevator,
                         BindRcDeflection(c.maxRudder, rc.rudderStick))
  }
}
