/** A simulated sensor: a clipped random walk, an edge filter and injected faults, for every outcome of its draws. */
module SensorSimulator {
  import opened Wrappers

  datatype Parameter = WaterLevel | FlowVelocity | Rainfall | SoilSaturation | WindSpeed | WindDirection

  /** Every range starts at 0; this is its end. */
  function Top(p: Parameter): real {
    match p
    case WaterLevel => 50.0
    case FlowVelocity => 20.0
    case Rainfall => 500.0
    case SoilSaturation => 100.0
    case WindSpeed => 100.0
    case WindDirection => 359.99
  }

  const FAULT_MIN_CYCLES: nat := 3
  const FAULT_MAX_CYCLES: nat := 10

  datatype Config = Config(active: seq<Parameter>, faultProbability: real, deltaFilter: real)

  /** The random outcomes of one cycle, and whether the publish, if one is made, goes through. */
  datatype Draw = Draw(steps: seq<real>, faultRoll: real, faultCycles: nat, publishOk: bool)

  type Readings = map<Parameter, real>

  datatype State = State(current: Readings, lastPublished: Readings, faultCyclesRemaining: nat)

  ghost predicate Possible(c: Config, d: Draw) {
    && |d.steps| == |c.active| && FAULT_MIN_CYCLES <= d.faultCycles <= FAULT_MAX_CYCLES
    && 0.0 <= d.faultRoll < 1.0
  }

  function Clip(p: Parameter, value: real): real {
    if value < 0.0 then 0.0 else if Top(p) < value then Top(p) else value
  }

  /** The readings after the first `n` active parameters have taken their step. */
  function Walk(current: Readings, active: seq<Parameter>, steps: seq<real>, n: nat): (walked: Readings)
    requires n <= |active| == |steps| && forall p <- active :: p in current
    ensures walked.Keys == current.Keys
  {
    if n == 0 then current else
      var before := Walk(current, active, steps, n - 1);
      assert active[n - 1] in current;
      before[active[n - 1] := Clip(active[n - 1], before[active[n - 1]] + steps[n - 1])]
  }

  function Distance(x: real, y: real): real {
    if x < y then y - x else x - y
  }

  /** The edge filter: something was published before, and no value has moved by delta times its maximum. */
  predicate Suppresses(c: Config, lastPublished: Readings, measured: Readings) {
    && lastPublished != map[]
    && forall p <- measured :: p in lastPublished && Distance(measured[p], lastPublished[p]) < c.deltaFilter * Top(p)
  }

  /** Fault injection: is this cycle faulty, and how many more will be. */
  function FaultStep(c: Config, remaining: nat, d: Draw): (bool, nat) {
    if remaining > 0 then (true, remaining - 1)
    else if d.faultRoll < c.faultProbability then (true, d.faultCycles)
    else (false, 0)
  }

  /** The state holds a value in range for exactly the active parameters. */
  ghost predicate Valid(c: Config, s: State) {
    && (forall p :: p in s.current <==> p in c.active)
    && forall p <- s.current :: 0.0 <= s.current[p] <= Top(p)
  }

  datatype Outcome = Suppressed | Published | Failed

  datatype CycleResult = CycleResult(state: State, faulty: bool, outcome: Outcome)

  function Cycle(c: Config, s: State, d: Draw): CycleResult
    requires |d.steps| == |c.active| && forall p <- c.active :: p in s.current
  {
    var measured := Walk(s.current, c.active, d.steps, |c.active|);
    var (faulty, remaining) := FaultStep(c, s.faultCyclesRemaining, d);
    if !faulty && Suppresses(c, s.lastPublished, measured) then
      CycleResult(State(measured, s.lastPublished, remaining), faulty, Suppressed)
    else if d.publishOk then
      CycleResult(State(measured, measured, remaining), faulty, Published)
    else
      CycleResult(State(measured, s.lastPublished, remaining), faulty, Failed)
  }

  class Sensor {
    const config: Config
    var current: Readings
    var lastPublished: Readings
    var faultCyclesRemaining: nat

    ghost function View(): State
      reads this
    {
      State(current, lastPublished, faultCyclesRemaining)
    }

    /** An empty parameter list raises; the initial values are drawn uniformly from their ranges. */
    constructor (config: Config, initial: Readings)
      requires config.active != [] && Valid(config, State(initial, map[], 0))
      ensures this.config == config && View() == State(initial, map[], 0)
    {
      this.config := config;
      current, lastPublished, faultCyclesRemaining := initial, map[], 0;
    }

    /** The new readings are returned; they are a copy of `current`, whose keys are the active parameters. */
    method GenerateMeasurements(steps: seq<real>) returns (updated: Readings)
      requires Valid(config, View()) && |steps| == |config.active|
      modifies this`current
      ensures current == Walk(old(current), config.active, steps, |config.active|) && updated == current
    {
      for i := 0 to |config.active|
        invariant current == Walk(old(current), config.active, steps, i)
      {
        var p := config.active[i];
        assert p in old(current);
        current := current[p := Clip(p, current[p] + steps[i])];
      }
      updated := current;
    }

    method ShouldSuppress(measured: Readings) returns (suppress: bool)
      ensures suppress == Suppresses(config, lastPublished, measured)
    {
      if lastPublished == map[] {
        return false;
      }
      var todo := measured.Keys;
      while todo != {}
        invariant todo <= measured.Keys
        invariant forall p <- measured.Keys - todo ::
                    p in lastPublished && Distance(measured[p], lastPublished[p]) < config.deltaFilter * Top(p)
      {
        var p :| p in todo;
        if p !in lastPublished || !(Distance(measured[p], lastPublished[p]) < config.deltaFilter * Top(p)) {
          return false;
        }
        todo := todo - {p};
      }
      suppress := true;
    }

    /** One turn of the main loop. */
    method RunCycle(d: Draw) returns (faulty: bool, outcome: Outcome)
      requires Valid(config, View()) && Possible(config, d)
      modifies this
      ensures CycleResult(View(), faulty, outcome) == Cycle(config, old(View()), d)
      ensures Valid(config, View())
    {
      StaysValid(config, View(), d);
      var measured := GenerateMeasurements(d.steps);
      if faultCyclesRemaining > 0 {
        faultCyclesRemaining := faultCyclesRemaining - 1;
        faulty := true;
      } else if d.faultRoll < config.faultProbability {
        faultCyclesRemaining := d.faultCycles;
        faulty := true;
      } else {
        faulty := false;
      }
      if !faulty {
        var suppress := ShouldSuppress(measured);
        if suppress {
          return faulty, Suppressed;
        }
      }
      outcome := Failed;
      if d.publishOk {
        lastPublished := measured;
        outcome := Published;
      }
    }
  }

  /// ## Values

  lemma {:induction false} WalkStaysInRange(current: Readings, active: seq<Parameter>, steps: seq<real>, n: nat)
    requires n <= |active| == |steps| && forall p <- active :: p in current
    requires forall p <- current :: 0.0 <= current[p] <= Top(p)
    ensures forall p <- Walk(current, active, steps, n) :: 0.0 <= Walk(current, active, steps, n)[p] <= Top(p)
  {
    if n > 0 {
      WalkStaysInRange(current, active, steps, n - 1);
    }
  }

  /** The value in the parameter's range that is nearest to `x`. */
  ghost predicate NearestInRange(p: Parameter, x: real, value: real) {
    && 0.0 <= value <= Top(p)
    && forall y: real | 0.0 <= y <= Top(p) :: Distance(value, x) <= Distance(y, x)
  }

  lemma ClipIsNearest(p: Parameter, x: real)
    ensures NearestInRange(p, x, Clip(p, x))
  {
  }

  /** The readings after the first `n` active parameters have taken their steps. */
  ghost predicate Stepped(current: Readings, walked: Readings, active: seq<Parameter>, steps: seq<real>, n: nat)
    requires n <= |active| == |steps| && forall p <- active :: p in current
  {
    && walked.Keys == current.Keys
    && (forall i | 0 <= i < n :: active[i] in current && active[i] in walked
                                 && NearestInRange(active[i], current[active[i]] + steps[i], walked[active[i]]))
    && (forall p <- current | p !in active[..n] :: walked[p] == current[p])
  }

  lemma OneMoreStep(
    current: Readings, before: Readings, active: seq<Parameter>, steps: seq<real>, n: nat, value: real)
    requires 0 < n <= |active| == |steps| && Distinct(active) && forall p <- active :: p in current
    requires Stepped(current, before, active, steps, n - 1)
    requires active[n - 1] in current && NearestInRange(active[n - 1], current[active[n - 1]] + steps[n - 1], value)
    ensures Stepped(current, before[active[n - 1] := value], active, steps, n)
  {
    var p := active[n - 1];
    var after := before[p := value];
    assert active[..n] == active[..n - 1] + [p];
    forall i | 0 <= i < n
      ensures active[i] in current && active[i] in after
              && NearestInRange(active[i], current[active[i]] + steps[i], after[active[i]])
    {
      if i < n - 1 {
        assert active[i] != p && after[active[i]] == before[active[i]];
      }
    }
  }

  /** Each active parameter takes its own step once and is kept in range; no other reading changes. */
  lemma {:induction false} WalkTakesEachStep(current: Readings, active: seq<Parameter>, steps: seq<real>, n: nat)
    requires n <= |active| == |steps| && Distinct(active) && forall p <- active :: p in current
    ensures Stepped(current, Walk(current, active, steps, n), active, steps, n)
  {
    if n > 0 {
      WalkTakesEachStep(current, active, steps, n - 1);
      var before, p := Walk(current, active, steps, n - 1), active[n - 1];
      assert p in active && p !in active[..n - 1];
      ClipIsNearest(p, before[p] + steps[n - 1]);
      OneMoreStep(current, before, active, steps, n, Clip(p, before[p] + steps[n - 1]));
    }
  }

  /**
   What one cycle does: a faulty one is never suppressed; a healthy one is exactly if something was published and no
   value has moved by delta times its maximum. What is not suppressed is published, unless that fails.
   */
  lemma CycleDecides(c: Config, s: State, d: Draw)
    requires Valid(c, s) && Possible(c, d)
    ensures var cycle := Cycle(c, s, d);
            && (cycle.outcome == Suppressed <==>
                  && !cycle.faulty && s.lastPublished != map[]
                  && forall p <- c.active :: p in s.lastPublished &&
                       Distance(cycle.state.current[p], s.lastPublished[p]) < c.deltaFilter * Top(p))
            && (cycle.outcome == Published ==> d.publishOk) && (cycle.outcome == Failed ==> !d.publishOk)
            && (cycle.faulty <==> s.faultCyclesRemaining > 0 || d.faultRoll < c.faultProbability)
  {
    var measured := Walk(s.current, c.active, d.steps, |c.active|);
    assert forall p :: p in measured <==> p in c.active;
  }

  lemma StaysValid(c: Config, s: State, d: Draw)
    requires Valid(c, s) && |d.steps| == |c.active|
    ensures Valid(c, Cycle(c, s, d).state)
  {
    WalkStaysInRange(s.current, c.active, d.steps, |c.active|);
  }

  ghost predicate AllPossible(c: Config, draws: seq<Draw>) {
    forall d <- draws :: Possible(c, d)
  }

  function Run(c: Config, s: State, draws: seq<Draw>): (t: State)
    requires Valid(c, s) && AllPossible(c, draws)
    ensures Valid(c, t)
    decreases |draws|
  {
    if draws == [] then s else
      var before := Run(c, s, draws[..|draws| - 1]);
      assert Possible(c, draws[|draws| - 1]);
      StaysValid(c, before, draws[|draws| - 1]);
      Cycle(c, before, draws[|draws| - 1]).state
  }

  /** The last cycle of a run, with its outcome. */
  function LastCycle(c: Config, s: State, draws: seq<Draw>): CycleResult
    requires Valid(c, s) && AllPossible(c, draws) && draws != []
  {
    assert Possible(c, draws[|draws| - 1]);
    Cycle(c, Run(c, s, draws[..|draws| - 1]), draws[|draws| - 1])
  }

  /** The cycles of a run. */
  function Cycles(c: Config, s: State, draws: seq<Draw>): (cycles: seq<CycleResult>)
    requires Valid(c, s) && AllPossible(c, draws)
    ensures |cycles| == |draws|
    ensures draws != [] ==> cycles[|draws| - 1] == LastCycle(c, s, draws)
    decreases |draws|
  {
    if draws == [] then [] else
      Cycles(c, s, draws[..|draws| - 1]) + [LastCycle(c, s, draws)]
  }

  /** Cycle `m` is the last that published. */
  ghost predicate LastPublication(cycles: seq<CycleResult>, m: nat) {
    m < |cycles| && cycles[m].outcome == Published && forall n | m < n < |cycles| :: cycles[n].outcome != Published
  }

  /** What the filter compares with before cycle `n`. */
  function ComparedWith(first: Readings, cycles: seq<CycleResult>, n: nat): Readings
    requires n <= |cycles|
  {
    if n == 0 then first else cycles[n - 1].state.lastPublished
  }

  /** Only a cycle that publishes changes what the filter compares with. */
  ghost predicate OnlyPublishingCounts(first: Readings, cycles: seq<CycleResult>) {
    forall n | 0 <= n < |cycles| ::
      ComparedWith(first, cycles, n + 1)
      == if cycles[n].outcome == Published then cycles[n].state.current else ComparedWith(first, cycles, n)
  }

  lemma CycleEffect(c: Config, s: State, d: Draw)
    requires Valid(c, s) && Possible(c, d)
    ensures var after := Cycle(c, s, d);
            after.state.lastPublished == if after.outcome == Published then after.state.current else s.lastPublished
  {
  }

  lemma {:induction false} CyclesCount(c: Config, s: State, draws: seq<Draw>)
    requires Valid(c, s) && AllPossible(c, draws)
    ensures OnlyPublishingCounts(s.lastPublished, Cycles(c, s, draws))
    ensures ComparedWith(s.lastPublished, Cycles(c, s, draws), |draws|) == Run(c, s, draws).lastPublished
    decreases |draws|
  {
    if draws != [] {
      var front := draws[..|draws| - 1];
      CyclesCount(c, s, front);
      assert Possible(c, draws[|draws| - 1]);
      CycleEffect(c, Run(c, s, front), draws[|draws| - 1]);
      OneCycleMore(s.lastPublished, Cycles(c, s, front), LastCycle(c, s, draws));
    }
  }

  lemma OneCycleMore(first: Readings, cycles: seq<CycleResult>, next: CycleResult)
    requires OnlyPublishingCounts(first, cycles)
    requires next.state.lastPublished
          == if next.outcome == Published then next.state.current else ComparedWith(first, cycles, |cycles|)
    ensures OnlyPublishingCounts(first, cycles + [next])
  {
    var all := cycles + [next];
    forall n | 0 <= n < |all|
      ensures ComparedWith(first, all, n + 1)
           == if all[n].outcome == Published then all[n].state.current else ComparedWith(first, all, n)
    {
      if n < |cycles| {
        assert ComparedWith(first, cycles, n + 1)
            == if cycles[n].outcome == Published then cycles[n].state.current else ComparedWith(first, cycles, n);
      }
    }
  }

  /** Once something was published, the filter compares with what was measured in the last cycle that published. */
  lemma {:induction false} ComparesWithLastPublication(cycles: seq<CycleResult>) returns (m: nat)
    requires OnlyPublishingCounts(map[], cycles) && ComparedWith(map[], cycles, |cycles|) != map[]
    ensures LastPublication(cycles, m) && ComparedWith(map[], cycles, |cycles|) == cycles[m].state.current
    decreases |cycles|
  {
    m := |cycles| - 1;
    assert ComparedWith(map[], cycles, m + 1)
        == if cycles[m].outcome == Published then cycles[m].state.current else ComparedWith(map[], cycles, m);
    if cycles[m].outcome != Published {
      var front := cycles[..m];
      forall n | 0 <= n <= m ensures ComparedWith(map[], front, n) == ComparedWith(map[], cycles, n) {}
      m := ComparesWithLastPublication(front);
    }
  }

  /**
   Whatever failed before, a run from a fresh sensor whose last cycle did not fail to publish has published, and
   every active value is in range and within delta times its maximum of the one last published.
   */
  lemma EdgeFilterBoundsError(c: Config, s: State, draws: seq<Draw>, p: Parameter)
    requires Valid(c, s) && s.lastPublished == map[] && AllPossible(c, draws) && draws != []
    requires 0.0 < c.deltaFilter && p in c.active
    requires LastCycle(c, s, draws).outcome != Failed
    ensures exists m: nat ::
              && LastPublication(Cycles(c, s, draws), m)
              && var now, published := Run(c, s, draws).current, Cycles(c, s, draws)[m].state.current;
                 && p in now && p in published
                 && 0.0 <= now[p] <= Top(p) && Distance(now[p], published[p]) < c.deltaFilter * Top(p)
  {
    var front, d := draws[..|draws| - 1], draws[|draws| - 1];
    assert Possible(c, d);
    FilterKeepsNear(c, Run(c, s, front), d, p);
    CyclesCount(c, s, draws);
    var m := ComparesWithLastPublication(Cycles(c, s, draws));
  }

  /** After a cycle that did not fail to publish, every active value is near the one it is compared with. */
  lemma FilterKeepsNear(c: Config, s: State, d: Draw, p: Parameter)
    requires Valid(c, s) && Possible(c, d) && 0.0 < c.deltaFilter && p in c.active
    requires Cycle(c, s, d).outcome != Failed
    ensures var t := Cycle(c, s, d).state;
            p in t.current && p in t.lastPublished && Distance(t.current[p], t.lastPublished[p]) < c.deltaFilter * Top(p)
  {
    assert 0.0 < c.deltaFilter * Top(p);
  }

  /** A filter that is not positive never suppresses anything. */
  lemma SuppressionNeedsPositiveDelta(c: Config, lastPublished: Readings, measured: Readings)
    requires c.deltaFilter <= 0.0 && measured != map[]
    ensures !Suppresses(c, lastPublished, measured)
  {
    assert measured.Keys != {};
    var p :| p in measured;
    assert c.deltaFilter * Top(p) <= 0.0;
  }

  /// ## Fault runs

  /** The fault counter before cycle `n`. */
  function Remaining(c: Config, draws: seq<Draw>, n: nat): nat
    requires n <= |draws|
  {
    if n == 0 then 0 else FaultStep(c, Remaining(c, draws, n - 1), draws[n - 1]).1
  }

  predicate Faulty(c: Config, draws: seq<Draw>, n: nat)
    requires n < |draws|
  {
    FaultStep(c, Remaining(c, draws, n), draws[n]).0
  }

  function Sum(blocks: seq<nat>): nat {
    if blocks == [] then 0 else blocks[0] + Sum(blocks[1..])
  }

  /** The counter of whole sensor runs is this one: faults do not depend on the measurements. */
  lemma {:induction false} RunCountsFaults(c: Config, s: State, draws: seq<Draw>)
    requires Valid(c, s) && AllPossible(c, draws) && s.faultCyclesRemaining == 0
    ensures Run(c, s, draws).faultCyclesRemaining == Remaining(c, draws, |draws|)
    decreases |draws|
  {
    if draws != [] {
      var front := draws[..|draws| - 1];
      RunCountsFaults(c, s, front);
      RemainingOfPrefix(c, draws, front, |front|);
    }
  }

  lemma {:induction false} RemainingOfPrefix(c: Config, draws: seq<Draw>, front: seq<Draw>, n: nat)
    requires n <= |front| && front <= draws
    ensures Remaining(c, front, n) == Remaining(c, draws, n)
  {
    if n > 0 {
      RemainingOfPrefix(c, draws, front, n - 1);
    }
  }

  /** After a fault starts at cycle `from`, the counter runs down over the following cycles. */
  lemma {:induction false} CounterRunsDown(c: Config, draws: seq<Draw>, from: nat, k: nat)
    requires from < |draws| && Remaining(c, draws, from) == 0 && Faulty(c, draws, from)
    requires k <= draws[from].faultCycles && from + 1 + k <= |draws|
    ensures Remaining(c, draws, from + 1 + k) == draws[from].faultCycles - k
  {
    if k > 0 {
      CounterRunsDown(c, draws, from, k - 1);
    }
  }

  /** Block `i` of a stretch from cycle `from` is one drawn fault: the cycle that draws its length, and that many more. */
  ghost predicate IsDrawnBlock(c: Config, draws: seq<Draw>, from: nat, blocks: seq<nat>, i: nat)
    requires i < |blocks|
  {
    var start := from + Sum(blocks[..i]);
    start < |draws| && Remaining(c, draws, start) == 0 && blocks[i] == draws[start].faultCycles + 1
  }

  /**
   Every completed stretch of faulty cycles is a sequence of drawn faults, each one cycle longer than the length
   drawn for it, because the cycle that draws the length is faulty as well.
   */
  lemma {:induction false} FaultyStretchIsBlocks(c: Config, draws: seq<Draw>, from: nat, end: nat) returns (blocks: seq<nat>)
    requires AllPossible(c, draws) && from <= end < |draws|
    requires Remaining(c, draws, from) == 0
    requires forall n | from <= n < end :: Faulty(c, draws, n)
    requires !Faulty(c, draws, end)
    ensures Sum(blocks) == end - from
    ensures forall i | 0 <= i < |blocks| :: IsDrawnBlock(c, draws, from, blocks, i)
    ensures forall b <- blocks :: FAULT_MIN_CYCLES + 1 <= b <= FAULT_MAX_CYCLES + 1
    decreases end - from
  {
    if from == end {
      return [];
    }
    assert Faulty(c, draws, from);
    assert draws[from] in draws && Possible(c, draws[from]);
    var block := draws[from].faultCycles + 1;
    if end < from + block {
      CounterRunsDown(c, draws, from, end - from - 1);
      assert false;
    }
    CounterRunsDown(c, draws, from, block - 1);
    var rest := FaultyStretchIsBlocks(c, draws, from + block, end);
    blocks := [block] + rest;
    forall i | 0 <= i < |blocks| ensures IsDrawnBlock(c, draws, from, blocks, i) {
      if i > 0 {
        assert IsDrawnBlock(c, draws, from + block, rest, i - 1);
        assert blocks[..i] == [block] + rest[..i - 1];
      }
    }
  }

  /** A fault is longer than announced exactly if the greatest length was drawn for it. */
  lemma LongerThanAnnouncedIff(c: Config, draws: seq<Draw>, from: nat, blocks: seq<nat>, i: nat)
    requires AllPossible(c, draws) && i < |blocks| && IsDrawnBlock(c, draws, from, blocks, i)
    ensures FAULT_MAX_CYCLES < blocks[i] <==> draws[from + Sum(blocks[..i])].faultCycles == FAULT_MAX_CYCLES
  {
    assert Possible(c, draws[from + Sum(blocks[..i])]);
  }

  /** Cycle 0 draws a fault that lasts exactly through the run. */
  ghost predicate OneFault(c: Config, draws: seq<Draw>) {
    && AllPossible(c, draws) && draws != [] && Faulty(c, draws, 0)
    && (forall n | 0 < n < |draws| :: Remaining(c, draws, n) > 0)
    && Remaining(c, draws, |draws|) == 0
  }

  /** The lengths a single fault can have are exactly 4 to 11: also 11, beyond the 10 the program announces, but never 3. */
  lemma FaultLengthsAre(c: Config, length: nat)
    requires 0.0 < c.faultProbability
    ensures (exists draws: seq<Draw> :: |draws| == length && OneFault(c, draws))
            <==> FAULT_MIN_CYCLES + 1 <= length <= FAULT_MAX_CYCLES + 1
  {
    forall draws: seq<Draw> | |draws| == length && OneFault(c, draws)
      ensures FAULT_MIN_CYCLES + 1 <= length <= FAULT_MAX_CYCLES + 1
    {
      OneFaultLasts(c, draws);
    }
    if FAULT_MIN_CYCLES + 1 <= length <= FAULT_MAX_CYCLES + 1 {
      var draws := seq(length, _ => Draw(seq(|c.active|, _ => 0.0), 0.0, length - 1, true));
      assert AllPossible(c, draws);
      forall n: nat | 0 < n <= length ensures Remaining(c, draws, n) == length - n {
        CounterRunsDown(c, draws, 0, n - 1);
      }
      assert OneFault(c, draws);
    }
  }

  lemma OneFaultLasts(c: Config, draws: seq<Draw>)
    requires OneFault(c, draws)
    ensures |draws| == draws[0].faultCycles + 1
    ensures FAULT_MIN_CYCLES + 1 <= |draws| <= FAULT_MAX_CYCLES + 1
  {
    assert Possible(c, draws[0]);
    var length := draws[0].faultCycles + 1;
    if |draws| < length {
      CounterRunsDown(c, draws, 0, |draws| - 1);
    } else {
      CounterRunsDown(c, draws, 0, length - 1);
    }
  }

  /** In particular no completed stretch that follows a healthy cycle, or the start, lasts 1, 2 or 3 cycles. */
  lemma NoShortFault(c: Config, draws: seq<Draw>, from: nat, end: nat)
    requires AllPossible(c, draws) && from < end < |draws|
    requires from > 0 ==> !Faulty(c, draws, from - 1)
    requires forall n | from <= n < end :: Faulty(c, draws, n)
    requires !Faulty(c, draws, end)
    ensures end - from >= FAULT_MIN_CYCLES + 1
  {
    var blocks := FaultyStretchIsBlocks(c, draws, from, end);
    assert blocks[0] in blocks;
  }
}
