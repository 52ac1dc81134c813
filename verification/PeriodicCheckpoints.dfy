/** Periodic checkpoints, taken while a simulator runs that may stop for reasons of its own. */
module PeriodicCheckpoints {

  /** Why the simulator stops: the limit it was given, a checkpoint that the guest asks for, or
      something else. The last two come after at most so many ticks. */
  datatype Stop = Limit | Guest(after: nat) | Other(after: nat)
  datatype Cause = LimitReached | CheckpointAsked | SomethingElse

  class Simulator {
    var tick: int
    var script: seq<Stop>  // the stops to come
    var taken: seq<int>    // the ticks of the checkpoints taken

    constructor (tick: int, script: seq<Stop>)
      ensures this.tick == tick && this.script == script && taken == []
    {
      this.tick, this.script, taken := tick, script, [];
    }

    /** Time advances exactly as asked when the limit is reached. */
    method Simulate(n: int) returns (cause: Cause)
      modifies this
      ensures taken == old(taken)
      ensures old(script) == [] ==> cause == SomethingElse && script == []
      ensures old(script) != [] ==> script == old(script)[1..] && cause == CauseOf(old(script)[0])
      ensures cause == LimitReached ==> tick == old(tick) + n
    {
      if script == [] {
        return SomethingElse;
      }
      cause := CauseOf(script[0]);
      var after := if script[0].Limit? then n else script[0].after;
      tick := tick + (if after < n then after else n);
      script := script[1..];
    }

    method Checkpoint()
      modifies this`taken
      ensures taken == old(taken) + [tick]
    {
      taken := taken + [tick];
    }
  }

  function CauseOf(s: Stop): Cause {
    match s
    case Limit => LimitReached
    case Guest(_) => CheckpointAsked
    case Other(_) => SomethingElse
  }

  /** The stops left after the checkpoints that the guest asks for. */
  function SkipGuests(script: seq<Stop>): seq<Stop> {
    if script != [] && script[0].Guest? then SkipGuests(script[1..]) else script
  }

  predicate EndsAtLimit(script: seq<Stop>) {
    var rest := SkipGuests(script);
    rest != [] && rest[0].Limit?
  }

  /** How many checkpoints the loop adds to the first k. After a period in which the guest asked
      for a checkpoint, the loop ends: the cause it tests is still the first one. */
  function Added(script: seq<Stop>, k: nat, o: Plan): nat {
    if k >= o.max || o.when + k * o.period > o.maxTick || script == [] then 0
    else
      match script[0]
      case Limit => 1 + Added(script[1..], k + 1, o)
      case Guest(_) => if EndsAtLimit(script) then 1 else 0
      case Other(_) => 0
  }

  datatype Plan = Plan(when: int, period: int, max: int, maxTick: int)

  /** All checkpoints of a run. */
  function Total(script: seq<Stop>, o: Plan): nat {
    if EndsAtLimit(script) then 1 + Added(SkipGuests(script)[1..], 1, o) else 0
  }

  function Times(o: Plan, n: nat): seq<int> {
    seq(n, k requires 0 <= k => o.when + k * o.period)
  }

  /** Runs on to a tick, past the checkpoints that the guest asks for. */
  method RunTo(sim: Simulator, tick: int, first: Cause) returns (cause: Cause)
    modifies sim
    ensures sim.taken == old(sim.taken)
    ensures var all := if first == CheckpointAsked then SkipGuests(old(sim.script)) else old(sim.script);
            if first != CheckpointAsked then cause == first && sim.script == all && sim.tick == old(sim.tick)
            else cause == LimitReached <==> (all != [] && all[0].Limit?)
    ensures first == CheckpointAsked && cause == LimitReached ==>
              sim.tick == tick && sim.script == SkipGuests(old(sim.script))[1..]
    ensures cause != CheckpointAsked
  {
    cause := first;
    while cause == CheckpointAsked
      invariant sim.taken == old(sim.taken)
      invariant cause == CheckpointAsked ==> SkipGuests(sim.script) == SkipGuests(old(sim.script))
      invariant first != CheckpointAsked ==> cause == first && sim.script == old(sim.script) && sim.tick == old(sim.tick)
      invariant first == CheckpointAsked && cause != CheckpointAsked ==>
                  (cause == LimitReached <==> (SkipGuests(old(sim.script)) != [] && SkipGuests(old(sim.script))[0].Limit?))
      invariant first == CheckpointAsked && cause == LimitReached ==>
                  sim.tick == tick && sim.script == SkipGuests(old(sim.script))[1..]
      decreases cause == CheckpointAsked, |sim.script|
    {
      cause := sim.Simulate(tick - sim.tick);
    }
  }

  /** The k-th checkpoint is taken at when + k * period, and there are as many as the stops of
      the simulator allow. */
  method ScriptCheckpoints(sim: Simulator, o: Plan)
    modifies sim
    ensures sim.taken == old(sim.taken) + Times(o, Total(old(sim.script), o))
  {
    var cause := sim.Simulate(o.when - sim.tick);
    cause := RunTo(sim, o.when, cause);
    var num := 0;
    if cause == LimitReached {
      sim.Checkpoint();
      num := num + 1;
    }
    assert num == 1 ==> sim.taken == old(sim.taken) + Times(o, 1);
    var simTicks := o.when;
    while num < o.max && cause == LimitReached
      invariant cause == LimitReached ==> num >= 1 && sim.tick == simTicks == o.when + (num - 1) * o.period
      invariant sim.taken == old(sim.taken) + Times(o, num)
      invariant Total(old(sim.script), o) == if cause == LimitReached then num + Added(sim.script, num, o) else num
      decreases cause == LimitReached, |sim.script|
    {
      if simTicks + o.period > o.maxTick {
        cause := sim.Simulate(o.maxTick - simTicks);
        break;
      }
      cause := sim.Simulate(o.period);
      simTicks := simTicks + o.period;
      var last := RunTo(sim, simTicks, cause);
      if last == LimitReached {
        sim.Checkpoint();
        num := num + 1;
      }
    }
  }

  // ---------- limits ----------

  lemma {:induction false} AddedWithinLimits(script: seq<Stop>, k: nat, o: Plan, j: nat)
    requires k <= j < k + Added(script, k, o)
    ensures j < o.max && o.when + j * o.period <= o.maxTick
  {
    if script[0].Limit? && j > k {
      AddedWithinLimits(script[1..], k + 1, o, j);
    }
  }

  /** All checkpoints but the first are at or before the last tick, and there are at most as
      many as wanted, or one. */
  lemma WithinLimits(script: seq<Stop>, o: Plan, j: nat)
    requires 1 <= j < Total(script, o)
    ensures j < o.max && o.when + j * o.period <= o.maxTick
  {
    AddedWithinLimits(SkipGuests(script)[1..], 1, o, j);
  }

  // ---------- checkpoints that the guest asks for ----------

  /** The series if such stops did not end it. */
  function Undisturbed(script: seq<Stop>, k: nat, o: Plan): nat
    decreases |script|
  {
    if k >= o.max || o.when + k * o.period > o.maxTick || !EndsAtLimit(script) then 0
    else
      SkippedIsShorter(script);
      1 + Undisturbed(SkipGuests(script)[1..], k + 1, o)
  }

  lemma SkippedIsShorter(script: seq<Stop>)
    ensures |SkipGuests(script)| <= |script|
  {
  }

  /** Some period, before the last one that could be completed, holds such a stop. */
  predicate Disturbed(script: seq<Stop>, k: nat, o: Plan) {
    && k < o.max && o.when + k * o.period <= o.maxTick && script != []
    && match script[0]
       case Limit => Disturbed(script[1..], k + 1, o)
       case Guest(_) => EndsAtLimit(script) && Undisturbed(SkipGuests(script)[1..], k + 1, o) > 0
       case Other(_) => false
  }

  /** The loop takes all checkpoints of the undisturbed series exactly when no period before
      the last holds a stop for the guest; otherwise it takes fewer. */
  lemma {:induction false} CompleteIff(script: seq<Stop>, k: nat, o: Plan)
    ensures Added(script, k, o) <= Undisturbed(script, k, o)
    ensures Added(script, k, o) == Undisturbed(script, k, o) <==> !Disturbed(script, k, o)
  {
    if script != [] && script[0].Limit? {
      CompleteIff(script[1..], k + 1, o);
    }
  }

  /** The failing case: the guest asks for a checkpoint in the second period. The third one is
      then not taken, although it is wanted, in time, and its limit would be reached. */
  lemma GuestEndsSeries(script: seq<Stop>, after: nat, o: Plan)
    requires script == [Limit, Guest(after), Limit, Limit]
    requires o.max >= 3 && o.period >= 0 && o.when + 2 * o.period <= o.maxTick
    ensures Total(script, o) == 2 && 1 + Undisturbed(script[1..], 1, o) >= 3 && Disturbed(script[1..], 1, o)
  {
    var second := script[1..];
    assert SkipGuests(second) == SkipGuests(second[1..]) == second[1..] == [Limit, Limit];
    assert second[1..][1..] == [Limit];
    assert EndsAtLimit([Limit]);
  }
}
