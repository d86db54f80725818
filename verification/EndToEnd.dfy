/**
 * The whole path from the RC and IMU packets the MCU writes to the surfaces it gets back: the serial
 * protocol with the autopilot on the SoM's side.
 */
module EndToEnd {
  import opened Common
  import opened Packet
  import opened AutopilotUtility
  import opened AutopilotManager
  import opened WireFormat
  import opened SerialProtocol
  import opened ProtocolTheorems

  /** The manager's answer to the latest of the pairs it was given. */
  function Autopilot(c: Config): Brain {
    (inputs: seq<Input>) => if inputs == [] then DEFAULT_CS else OutputAt(c, inputs, |inputs| - 1)
  }

  lemma PairsOfPrefix(items: seq<Item>, k: nat)
    requires 2 * k <= |items|
    ensures Pairs(items[..2 * k]) == Pairs(items)[..k]
  {
  }

  lemma OutputOfPrefix(c: Config, inputs: seq<Input>, k: nat)
    requires k < |inputs|
    ensures Autopilot(c)(inputs[..k + 1]) == OutputAt(c, inputs, k)
  {
    assert inputs[..k + 1][..k] == inputs[..k];
  }

  /** Given the first n + 1 pairs, the autopilot answers what the specification says of the n-th. */
  lemma AutopilotMeetsSpecification(c: Config, written: seq<Item>, n: nat)
    requires 2 * n + 2 <= |written|
    ensures Autopilot(c)(Pairs(written[..2 * n + 2])) == SpecOutput(c, Pairs(written), n)
  {
    PairsOfPrefix(written, n + 1);
    OutputOfPrefix(c, Pairs(written), n);
    ManagerRefinesFlags(c, Pairs(written), n);
  }

  lemma SpecificationInLimits(c: Config, inputs: seq<Input>, n: nat)
    requires n < |inputs| && SticksInRange(inputs[n].rc)
    ensures InLimits(c, SpecOutput(c, inputs, n))
  {
    ManagerRefinesFlags(c, inputs, n);
    OutputsInLimits(c, ManagerRun(c, inputs[..n]), inputs[n]);
  }

  /**
   * End to end: in every run, whatever the interleaving and however often the MCU gave up waiting, the
   * n-th surfaces the MCU gets are what the memoryless specification says of the n-th pair it wrote:
   * the manual map of its own sticks when it is not flagged, and otherwise the answer of a fresh
   * controller that was only ever fed the flagged packets. Sticks in their range get surfaces in theirs.
   */
  lemma {:induction false} SurfacesMeetSpecification(c: Config, attempts: nat, stale: seq<byte>,
                                                     steps: seq<Step>, s: Sys, n: nat)
    requires Skippable(stale, attempts) && Run(Autopilot(c), attempts, stale, steps) == Reached(s)
    requires n < |s.obtained|
    ensures n < |Pairs(s.written)|
    ensures s.obtained[n] == SpecOutput(c, Pairs(s.written), n)
    ensures SticksInRange(Pairs(s.written)[n].rc) ==> InLimits(c, s.obtained[n])
  {
    LockStep(Autopilot(c), attempts, stale, steps, s);
    AutopilotMeetsSpecification(c, s.written, n);
    if SticksInRange(Pairs(s.written)[n].rc) {
      SpecificationInLimits(c, Pairs(s.written), n);
    }
  }
}
