/**
 * The two-mode flow controller of ReliableUDP.cpp (class FlowControl).
 *
 * Round-trip-time samples (in milliseconds) drive a Good/Bad hysteresis state
 * machine; the mode decides the send rate. Times are modelled as exact reals
 * (seconds), not as IEEE single-precision floats.
 */
module Flow {

  datatype Mode = Good | Bad

  /** The four member fields of FlowControl, as one value. */
  datatype FlowState = FlowState(
    mode: Mode,
    penaltyTime: real,
    goodConditionsTime: real,
    penaltyReductionAccumulator: real)

  /** Samples above this round-trip time (ms) count as bad conditions. */
  const RttThreshold: real := 250.0
  /** Bounds of the penalty time, in seconds. */
  const MinPenalty: real := 1.0
  const MaxPenalty: real := 60.0
  /** Good time below which a drop to Bad doubles the penalty. */
  const ShortGoodSpell: real := 10.0
  /** Good time after which the penalty is halved while staying Good. */
  const ReductionPeriod: real := 10.0
  /** The fixed tick of the main loop, in seconds. */
  const DeltaTime: real := 1.0 / 30.0

  /** The state Reset establishes: Bad, four seconds of penalty, timers at zero. */
  function Initial(): FlowState
  {
    FlowState(Bad, 4.0, 0.0, 0.0)
  }

  /** Packets per second for a mode. */
  function SendRate(m: Mode): (r: real)
    ensures 10.0 <= r <= 30.0
    ensures r == 30.0 <==> m == Good
    ensures r == 10.0 <==> m == Bad
  {
    match m
    case Good => 30.0
    case Bad => 10.0
  }

  function Min(a: real, b: real): real { if a < b then a else b }
  function Max(a: real, b: real): real { if a < b then b else a }

  /**
   * Reference definition of one Update(deltaTime, rtt) call: the value the
   * four fields hold afterwards, given their value before.
   */
  function Step(s: FlowState, deltaTime: real, rtt: real): FlowState
  {
    if s.mode == Good && rtt > RttThreshold then
      // drop to Bad; a short good spell doubles the penalty (capped)
      var p := if s.goodConditionsTime < ShortGoodSpell && s.penaltyTime < MaxPenalty
               then Min(s.penaltyTime * 2.0, MaxPenalty) else s.penaltyTime;
      FlowState(Bad, p, 0.0, 0.0)
    else if s.mode == Good then
      var good := s.goodConditionsTime + deltaTime;
      var acc := s.penaltyReductionAccumulator + deltaTime;
      if acc > ReductionPeriod && s.penaltyTime > MinPenalty then
        FlowState(Good, Max(s.penaltyTime / 2.0, MinPenalty), good, 0.0)
      else
        FlowState(Good, s.penaltyTime, good, acc)
    else
      var good := if rtt <= RttThreshold then s.goodConditionsTime + deltaTime else 0.0;
      if good > s.penaltyTime then FlowState(Good, s.penaltyTime, 0.0, 0.0)
      else FlowState(Bad, s.penaltyTime, good, s.penaltyReductionAccumulator)
  }

  /** The penalty stays within its clamps. */
  predicate PenaltyInRange(s: FlowState)
  {
    MinPenalty <= s.penaltyTime <= MaxPenalty
  }

  /**
   * What every reachable state satisfies: the penalty within its clamps, both
   * timers non-negative, the reduction accumulator idle (zero) in Bad mode and
   * never ahead of the good timer in Good mode, and a Bad controller has not
   * yet served its penalty.
   */
  predicate Inv(s: FlowState)
  {
    PenaltyInRange(s) &&
    s.goodConditionsTime >= 0.0 && s.penaltyReductionAccumulator >= 0.0 &&
    (s.mode == Bad ==> s.penaltyReductionAccumulator == 0.0 && s.goodConditionsTime <= s.penaltyTime) &&
    (s.mode == Good ==> s.penaltyReductionAccumulator <= s.goodConditionsTime)
  }

  /** The controller after construction or Reset reports the Bad rate. */
  lemma InitialState()
    ensures Inv(Initial())
    ensures Initial().mode == Bad && Initial().penaltyTime == 4.0
    ensures Initial().goodConditionsTime == 0.0 && Initial().penaltyReductionAccumulator == 0.0
    ensures SendRate(Initial().mode) == 10.0
  {
  }

  /** Good mode, latency spike: drop to Bad, zero both timers, maybe double the penalty. */
  lemma LatencySpikeInGood(s: FlowState, deltaTime: real, rtt: real)
    requires s.mode == Good && rtt > RttThreshold
    ensures Step(s, deltaTime, rtt).mode == Bad
    ensures Step(s, deltaTime, rtt).goodConditionsTime == 0.0
    ensures Step(s, deltaTime, rtt).penaltyReductionAccumulator == 0.0
    ensures s.goodConditionsTime < ShortGoodSpell && s.penaltyTime < MaxPenalty ==>
      Step(s, deltaTime, rtt).penaltyTime == Min(2.0 * s.penaltyTime, MaxPenalty)
    ensures !(s.goodConditionsTime < ShortGoodSpell && s.penaltyTime < MaxPenalty) ==>
      Step(s, deltaTime, rtt).penaltyTime == s.penaltyTime
  {
  }

  /** Good mode, good sample: stay Good, both timers advance, maybe halve the penalty. */
  lemma GoodSampleInGood(s: FlowState, deltaTime: real, rtt: real)
    requires s.mode == Good && rtt <= RttThreshold
    ensures Step(s, deltaTime, rtt).mode == Good
    ensures Step(s, deltaTime, rtt).goodConditionsTime == s.goodConditionsTime + deltaTime
    ensures var acc := s.penaltyReductionAccumulator + deltaTime;
      if acc > ReductionPeriod && s.penaltyTime > MinPenalty then
        Step(s, deltaTime, rtt).penaltyTime == Max(s.penaltyTime / 2.0, MinPenalty) &&
        Step(s, deltaTime, rtt).penaltyReductionAccumulator == 0.0
      else
        Step(s, deltaTime, rtt).penaltyTime == s.penaltyTime &&
        Step(s, deltaTime, rtt).penaltyReductionAccumulator == acc
  {
  }

  /**
   * Bad mode: the good timer advances on a good sample and restarts on a bad
   * one; once it exceeds the penalty the controller upgrades with fresh timers.
   * The penalty is never changed in Bad mode.
   */
  lemma SampleInBad(s: FlowState, deltaTime: real, rtt: real)
    requires s.mode == Bad
    ensures var good := if rtt <= RttThreshold then s.goodConditionsTime + deltaTime else 0.0;
      Step(s, deltaTime, rtt) ==
        if good > s.penaltyTime then FlowState(Good, s.penaltyTime, 0.0, 0.0)
        else s.(goodConditionsTime := good)
  {
  }

  /**
   * One Update changes the mode at most once: a Good controller leaves Good only
   * on a spike and then does not re-upgrade in the same call; a Bad controller
   * leaves Bad only once its good timer passes the penalty.
   */
  lemma ModeChangesAtMostOnce(s: FlowState, deltaTime: real, rtt: real)
    requires PenaltyInRange(s)
    ensures s.mode == Good ==> (Step(s, deltaTime, rtt).mode == Bad <==> rtt > RttThreshold)
    ensures s.mode == Good && rtt > RttThreshold ==>
      Step(s, deltaTime, rtt).goodConditionsTime <= Step(s, deltaTime, rtt).penaltyTime
    ensures s.mode == Bad ==> (Step(s, deltaTime, rtt).mode == Good <==>
      rtt <= RttThreshold && s.goodConditionsTime + deltaTime > s.penaltyTime)
  {
  }

  /** Update keeps the penalty clamped, for any time step and sample. */
  lemma StepKeepsPenaltyInRange(s: FlowState, deltaTime: real, rtt: real)
    requires PenaltyInRange(s)
    ensures PenaltyInRange(Step(s, deltaTime, rtt))
  {
  }

  /** Update keeps the whole invariant for non-negative time steps. */
  lemma StepKeepsInv(s: FlowState, deltaTime: real, rtt: real)
    requires Inv(s) && deltaTime >= 0.0
    ensures Inv(Step(s, deltaTime, rtt))
  {
  }

  /** The state after feeding the samples one per main-loop tick, oldest first. */
  function Run(s: FlowState, rtts: seq<real>): FlowState
  {
    if rtts == [] then s else Step(Run(s, rtts[..|rtts| - 1]), DeltaTime, rtts[|rtts| - 1])
  }

  /** Any run of ticks from a reachable state ends in a reachable state. */
  lemma {:induction false} RunKeepsInv(s: FlowState, rtts: seq<real>)
    requires Inv(s)
    ensures Inv(Run(s, rtts))
  {
    if rtts != [] {
      RunKeepsInv(s, rtts[..|rtts| - 1]);
      StepKeepsInv(Run(s, rtts[..|rtts| - 1]), DeltaTime, rtts[|rtts| - 1]);
    }
  }

  /**
   * A Bad controller fed only good samples just accumulates good time, as long
   * as the accumulated time has not passed the penalty.
   */
  lemma {:induction false} BadRunAccumulates(s: FlowState, rtts: seq<real>)
    requires s.mode == Bad
    requires forall i :: 0 <= i < |rtts| ==> rtts[i] <= RttThreshold
    requires s.goodConditionsTime + |rtts| as real * DeltaTime <= s.penaltyTime
    ensures Run(s, rtts) == s.(goodConditionsTime := s.goodConditionsTime + |rtts| as real * DeltaTime)
  {
    if rtts != [] {
      var n := |rtts| - 1;
      BadRunAccumulates(s, rtts[..n]);
      assert Run(s, rtts) == Step(Run(s, rtts[..n]), DeltaTime, rtts[n]);
    }
  }

  /**
   * The recovery scenario: a fresh controller fed 50 ms samples stays Bad for
   * 120 ticks (four seconds, its penalty), upgrades to Good on tick 121, when
   * its good time first exceeds four seconds, and then reports the Good rate.
   */
  lemma FreshControllerRecovers(k: nat)
    requires k <= 120
    ensures Run(Initial(), seq(k, i => 50.0)).mode == Bad
    ensures Run(Initial(), seq(k, i => 50.0)).goodConditionsTime == k as real / 30.0
    ensures Run(Initial(), seq(121, i => 50.0)) == FlowState(Good, 4.0, 0.0, 0.0)
    ensures SendRate(Run(Initial(), seq(121, i => 50.0)).mode) == 30.0
  {
    BadRunAccumulates(Initial(), seq(k, i => 50.0));
    var all := seq(121, i => 50.0);
    BadRunAccumulates(Initial(), all[..120]);
    assert all[..120] == seq(120, i => 50.0);
  }

  /** The anti-flap example: a Good controller with penalty 4 and three seconds of good time drops and doubles it. */
  lemma SpikeDoublesPenalty()
    ensures Step(FlowState(Good, 4.0, 3.0, 3.0), DeltaTime, 300.0) == FlowState(Bad, 8.0, 0.0, 0.0)
  {
  }

  /** The flow controller object: its four fields, updated in place. */
  class FlowControl {
    var mode: Mode
    var penaltyTime: real
    var goodConditionsTime: real
    var penaltyReductionAccumulator: real

    /** The fields as one value. */
    function State(): FlowState
      reads this
    {
      FlowState(mode, penaltyTime, goodConditionsTime, penaltyReductionAccumulator)
    }

    constructor ()
      ensures State() == Initial()
    {
      new;
      Reset();
    }

    method Reset()
      modifies this
      ensures State() == Initial()
      ensures Inv(State())
    {
      mode := Bad;
      penaltyTime := 4.0;
      goodConditionsTime := 0.0;
      penaltyReductionAccumulator := 0.0;
    }

    method Update(deltaTime: real, rtt: real)
      modifies this
      ensures State() == Step(old(State()), deltaTime, rtt)
      ensures PenaltyInRange(old(State())) ==> PenaltyInRange(State())
      ensures Inv(old(State())) && deltaTime >= 0.0 ==> Inv(State())
    {
      if PenaltyInRange(State()) {
        StepKeepsPenaltyInRange(State(), deltaTime, rtt);
      }
      if deltaTime >= 0.0 && Inv(State()) {
        StepKeepsInv(State(), deltaTime, rtt);
      }
      if mode == Good {
        if rtt > RttThreshold {
          mode := Bad;
          if goodConditionsTime < ShortGoodSpell && penaltyTime < MaxPenalty {
            penaltyTime := penaltyTime * 2.0;
            if penaltyTime > MaxPenalty {
              penaltyTime := MaxPenalty;
            }
          }
          goodConditionsTime := 0.0;
          penaltyReductionAccumulator := 0.0;
          return;
        }

        goodConditionsTime := goodConditionsTime + deltaTime;
        penaltyReductionAccumulator := penaltyReductionAccumulator + deltaTime;

        if penaltyReductionAccumulator > ReductionPeriod && penaltyTime > MinPenalty {
          penaltyTime := penaltyTime / 2.0;
          if penaltyTime < MinPenalty {
            penaltyTime := MinPenalty;
          }
          penaltyReductionAccumulator := 0.0;
        }
      }

      if mode == Bad {
        if rtt <= RttThreshold {
          goodConditionsTime := goodConditionsTime + deltaTime;
        } else {
          goodConditionsTime := 0.0;
        }

        if goodConditionsTime > penaltyTime {
          goodConditionsTime := 0.0;
          penaltyReductionAccumulator := 0.0;
          mode := Good;
          return;
        }
      }
    }

    /** Packets per second for the current mode. */
    function GetSendRate(): (r: real)
      reads this
      ensures r == 30.0 <==> mode == Good
      ensures r == 10.0 <==> mode == Bad
    {
      SendRate(mode)
    }
  }
}
