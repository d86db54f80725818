/**
 * Configured limits and the scaling and saturation helpers
 * (impl/src/autopilot/AutopilotUtility.cpp, impl/include/rcplane/autopilot/AutopilotUtility.hpp).
 */
module AutopilotUtility {
  import opened Common

  /**
   * What the C++ language leaves to the platform: the number an IMU word stands for, and the results of
   * the floating-point to integer conversions whose operand is out of range (undefined in C++).
   * Every theorem holds for every choice of these.
   */
  datatype Platform = Platform(floatValue: uint32 -> real, wildInt8: real -> int8, wildByte: real -> byte)

  datatype ConfigData = ConfigData(
    maxThrottle: byte, maxAileron: int, maxElevator: int, maxRudder: int,
    kp: real, ki: real, kd: real, tau: real, maxIntegral: real, platform: Platform)

  const SHIPPED := ConfigData(255, 35, 40, 20, 0.5, 0.05, 0.08, 0.05, 4.0, Platform(_ => 0.0, _ => 0, _ => 0))

  /** Deflection limits are non-negative and fit an int8_t. */
  predicate IsLimit(limit: int) {
    0 <= limit < 0x80
  }

  predicate ValidConfig(c: ConfigData) {
    && IsLimit(c.maxAileron) && IsLimit(c.maxElevator) && IsLimit(c.maxRudder)
    && c.kp >= 0.0 && c.ki > 0.0 && c.kd >= 0.0 && c.maxIntegral >= 0.0
    && 2.0 * c.tau >= 0.04
  }

  type Config = c: ConfigData | ValidConfig(c) witness SHIPPED

  /** `bindToRange<T>` before its result is narrowed to T: the operands are promoted to int. */
  function BindToRange(value: int, inputMin: int, inputMax: int, outputMin: int, outputMax: int): int
    requires inputMin < inputMax
  {
    TruncDiv((value - inputMin) * (outputMax - outputMin), inputMax - inputMin) + outputMin
  }

  function BindRcThrottle(c: Config, stick: byte): byte {
    NarrowToByte(BindToRange(stick, 0, 100, 0, c.maxThrottle))
  }

  /** The common body of bindRcAileronDeflection, bindRcElevatorDeflection and bindRcRudderDeflection. */
  function BindRcDeflection(limit: int, stick: int8): int8 {
    NarrowToInt8(BindToRange(stick, -100, 100, -limit, limit))
  }

  function BindPidAileron(c: Config, value: real): real {
    if value > c.maxAileron as real then c.maxAileron as real
    else if value < -(c.maxAileron as real) then -(c.maxAileron as real)
    else value
  }

  function BindPidElevator(c: Config, value: int8): int8 {
    if value > c.maxElevator then c.maxElevator
    else if value < -c.maxElevator then -c.maxElevator
    else value
  }

  /** A double converts to int8_t with a defined result exactly when its integral part fits. */
  predicate FitsInt8(x: real) {
    -129.0 < x < 128.0
  }

  function CastInt8(c: Config, x: real): int8
  {
    if FitsInt8(x) then
      TruncateFacts(x, 128); TruncateFacts(x, 129);
      Truncate(x)
    else c.platform.wildInt8(x)
  }

  function CastByte(c: Config, x: real): byte
  {
    if -1.0 < x < 256.0 then
      TruncateFacts(x, 1); TruncateFacts(x, 256);
      Truncate(x)
    else c.platform.wildByte(x)
  }

  /** Products with a limit keep the order of the stick positions. */
  lemma ProductMonotone(v: int, w: int, limit: int)
    requires v <= w && 0 <= limit
    ensures v * limit <= w * limit
  {
    assert (w - v) * limit >= 0;
  }

  /** The expression bindToRange evaluates for a deflection, as one floor division. */
  lemma ScaledQuotient(stick: int, limit: int)
    requires -100 <= stick <= 100 && 0 <= limit
    ensures BindToRange(stick, -100, 100, -limit, limit) == stick * limit / 100
    ensures -limit <= stick * limit / 100 <= limit
  {
    var p := stick * limit;
    ProductMonotone(stick, 100, limit);
    ProductMonotone(-100, stick, limit);
    assert (stick + 100) * (limit + limit) == 2 * p + 200 * limit;
    assert (2 * p + 200 * limit) / 200 == p / 100 + limit;
  }

  /**
   * On the stick's range the map to a deflection is floor(stick * limit / 100): nothing is lost in
   * the narrowing, the ends and the centre are exact, and it never leaves the configured limits.
   */
  lemma DeflectionIsFloor(limit: int, stick: int8)
    requires IsLimit(limit) && -100 <= stick <= 100
    ensures BindRcDeflection(limit, stick) == stick * limit / 100
    ensures BindRcDeflection(limit, stick) == BindToRange(stick, -100, 100, -limit, limit)
    ensures -limit <= BindRcDeflection(limit, stick) <= limit
    ensures BindRcDeflection(limit, 100) == limit && BindRcDeflection(limit, -100) == -limit
    ensures BindRcDeflection(limit, 0) == 0
  {
    ScaledQuotient(stick, limit);
    ScaledQuotient(100, limit);
    ScaledQuotient(-100, limit);
    ScaledQuotient(0, limit);
  }

  /**
   * On any stick, inside its range or not, the deflection is stick * limit / 100 rounded down, or rounded up
   * for a stick below -100, and wrapped around into an int8_t.
   */
  lemma DeflectionOnAnyStick(limit: int, stick: int8)
    requires IsLimit(limit)
    ensures stick >= -100 ==> (BindRcDeflection(limit, stick) - stick * limit / 100) % 0x100 == 0
    ensures stick < -100 ==> (BindRcDeflection(limit, stick) + (0 - stick) * limit / 100) % 0x100 == 0
  {
    var p := stick * limit;
    OppositeProducts(stick, limit);
    ScaledOnAnyStick(stick, limit, p);
    Narrowed(BindToRange(stick, -100, 100, -limit, limit));
  }

  lemma ScaledOnAnyStick(stick: int, limit: int, p: int)
    requires p == stick * limit && 0 <= limit
    ensures BindToRange(stick, -100, 100, -limit, limit) == if stick >= -100 then p / 100 else -((-p) / 100)
  {
    assert (stick + 100) * (limit + limit) == 2 * p + 200 * limit;
    if stick >= -100 {
      ProductMonotone(0, stick + 100, limit + limit);
      assert (2 * p + 200 * limit) / 200 == p / 100 + limit;
    } else {
      ProductMonotone(stick + 100, 0, limit + limit);
      assert (-(2 * p + 200 * limit)) / 200 == (-p) / 100 - limit;
    }
  }

  lemma Narrowed(x: int)
    ensures (NarrowToInt8(x) - x) % 0x100 == 0 && (NarrowToByte(x) - x) % 0x100 == 0
  {
    assert NarrowToInt8(x) - x == -0x100 * ((x + 0x80) / 0x100);
    assert NarrowToByte(x) - x == -0x100 * (x / 0x100);
  }

  lemma ThrottleOnAnyStick(c: Config, stick: byte)
    ensures (BindRcThrottle(c, stick) - stick * c.maxThrottle / 100) % 0x100 == 0
  {
    ProductMonotone(0, stick, c.maxThrottle);
    Narrowed(BindToRange(stick, 0, 100, 0, c.maxThrottle));
  }

  /** The map keeps the order of stick positions. */
  lemma DeflectionMonotone(limit: int, v: int8, w: int8)
    requires IsLimit(limit) && -100 <= v <= w <= 100
    ensures BindRcDeflection(limit, v) <= BindRcDeflection(limit, w)
  {
    DeflectionIsFloor(limit, v);
    DeflectionIsFloor(limit, w);
    ProductMonotone(v, w, limit);
  }

  /** Floors of opposite quotients. */
  lemma OppositeFloors(p: int)
    ensures p / 100 + (-p) / 100 == if p % 100 == 0 then 0 else -1
  {
    var q, r := p / 100, p % 100;
    assert p == 100 * q + r && 0 <= r < 100;
    if r == 0 {
      assert -p == 100 * (-q);
    } else {
      assert -p == 100 * (-q - 1) + (100 - r);
    }
  }

  lemma DeflectionOfProduct(limit: int, stick: int8, p: int)
    requires IsLimit(limit) && -100 <= stick <= 100 && p == stick * limit
    ensures BindRcDeflection(limit, stick) == p / 100
  {
    DeflectionIsFloor(limit, stick);
  }

  lemma OppositeProducts(v: int, limit: int)
    ensures (-v) * limit == -(v * limit)
  {
  }

  /** Opposite stick positions give opposite deflections exactly when the division leaves no remainder. */
  lemma DeflectionSymmetry(limit: int, stick: int8)
    requires IsLimit(limit) && -100 <= stick <= 100
    ensures BindRcDeflection(limit, stick) + BindRcDeflection(limit, -stick)
         == if stick * limit % 100 == 0 then 0 else -1
  {
    var p := stick * limit;
    OppositeProducts(stick, limit);
    DeflectionOfProduct(limit, stick, p);
    DeflectionOfProduct(limit, -stick, -p);
    OppositeFloors(p);
  }

  lemma ThrottleQuotient(stick: int, limit: int)
    requires 0 <= stick <= 100 && 0 <= limit
    ensures BindToRange(stick, 0, 100, 0, limit) == stick * limit / 100
    ensures 0 <= stick * limit / 100 <= limit
  {
    ProductMonotone(stick, 100, limit);
    ProductMonotone(0, stick, limit);
  }

  /** The throttle map is the analogous floor on [0, 100], monotone and within [0, maxThrottle]. */
  lemma ThrottleIsFloor(c: Config, v: byte, w: byte)
    requires v <= w <= 100
    ensures BindRcThrottle(c, v) == v * c.maxThrottle / 100
    ensures BindRcThrottle(c, v) <= BindRcThrottle(c, w) <= c.maxThrottle
    ensures BindRcThrottle(c, 0) == 0 && BindRcThrottle(c, 100) == c.maxThrottle
  {
    ThrottleExact(c, v);
    ThrottleExact(c, w);
    ThrottleExact(c, 0);
    ThrottleExact(c, 100);
    ProductMonotone(v, w, c.maxThrottle);
  }

  lemma ThrottleExact(c: Config, v: byte)
    requires v <= 100
    ensures BindRcThrottle(c, v) == v * c.maxThrottle / 100 <= c.maxThrottle
  {
    ThrottleQuotient(v, c.maxThrottle);
  }

  /**
   * The aileron is saturated and then truncated, the elevator truncated and then saturated. With
   * equal limits both orders give the same command for every output an int8_t can hold.
   */
  lemma SaturationOrdersAgree(c: Config, x: real)
    requires FitsInt8(x) && c.maxAileron == c.maxElevator
    ensures CastInt8(c, BindPidAileron(c, x)) == BindPidElevator(c, CastInt8(c, x))
    ensures -c.maxAileron <= CastInt8(c, BindPidAileron(c, x)) <= c.maxAileron
  {
    var m: int := c.maxAileron;
    TruncateFacts(x, m);
    TruncateFacts(m as real, m);
    TruncateFacts(-(m as real), -m);
    AileronCommandInLimits(c, x);
  }

  /** The saturated aileron output always fits an int8_t and stays within the limit, whatever the input. */
  lemma AileronCommandInLimits(c: Config, x: real)
    ensures FitsInt8(BindPidAileron(c, x))
    ensures -c.maxAileron <= CastInt8(c, BindPidAileron(c, x)) <= c.maxAileron
  {
    var y := BindPidAileron(c, x);
    TruncateFacts(y, c.maxAileron);
  }
}
