/** The compile driver: a loop over stages with two ways back, the placer retry and the recompile. */
module CompileStages {

  /* Compile depths, numbered as in the configuration. */
  const INIT_COMPILE: nat := 0
  const POST_INITIAL_GRAPH_PASS: nat := 2
  const CONSTEVAL_GRAPH: nat := 3
  const POST_PATTERN_MATCHER: nat := 4
  const OPTIMIZED_GRAPH: nat := 5
  const AUTOGRAD: nat := 6
  const POST_AUTOGRAD_PASS: nat := 7
  const BUDA_GRAPH_PRE_PLACER: nat := 9
  const BALANCER_PASS: nat := 10
  const PRE_NETLIST_PASS: nat := 11
  const GENERATE_NETLIST: nat := 12
  const BACKEND_GOLDEN_VERIFY: nat := 13
  const FULL: nat := 14

  const PLACER_LOOPS: nat := 20

  datatype Instruction = Nop(count: int) | Queue

  type Instructions = map<int, Instruction>

  datatype Config = Config(
    depth: nat, forceFull: bool, consteval: bool, patterns: bool, training: bool, checkNetlist: bool,
    recompile: bool, recompileLimit: int, adjustCycles: bool)

  /** What the passes and tools called by one stage come back with. */
  datatype Tools = Tools(crash: bool, unsupportedOps: bool, instructions: Instructions, netlistOk: bool, adjustablePolicy: bool)

  datatype Context = Context(
    stage: nat, depth: nat, placerRetries: nat, recompiles: nat, inRecompile: bool, instructions: Instructions)

  datatype Outcome =
    | Finished(context: Context, steps: nat)
    | EarlyStop(context: Context, steps: nat)
    | Aborted(steps: nat)

  function Fresh(cfg: Config): Context {
    Context(INIT_COMPILE, cfg.depth, 0, 0, false, map[])
  }

  /** Every new instruction was there before; of two NOP insertions the counts must agree as well. */
  predicate IsSubset(now: Instructions, before: Instructions) {
    forall k :: k in now ==> k in before && !(before[k].Nop? && now[k].Nop? && before[k] != now[k])
  }

  /** Recompiles that are allowed at all. */
  function Limit(cfg: Config): nat {
    if cfg.recompile && cfg.recompileLimit > 0 then cfg.recompileLimit else 0
  }

  /** Back to the pre-placer stage, if a recompile is allowed and something can be changed. */
  function HandleBackendError(cfg: Config, c: Context, overlayGrew: bool, adjustablePolicy: bool): (r: (bool, Context)) {
    if !cfg.recompile || c.recompiles >= cfg.recompileLimit then (false, c)
    else if overlayGrew || (cfg.adjustCycles && adjustablePolicy) then
      (true, c.(stage := BUDA_GRAPH_PRE_PLACER, inRecompile := true, recompiles := c.recompiles + 1))
    else (false, c)
  }

  datatype StageResult = Stop | Go(context: Context, next: nat)

  /** One stage: the changed context and the stage to run next. */
  function RunStage(cfg: Config, c: Context, t: Tools): StageResult
    requires c.stage < FULL
  {
    if t.crash then Stop
    else if c.stage == INIT_COMPILE then
      Go(if cfg.forceFull then c.(depth := FULL) else c, 1)
    else if c.stage == POST_INITIAL_GRAPH_PASS then
      Go(c, if cfg.consteval then CONSTEVAL_GRAPH else if cfg.patterns then POST_PATTERN_MATCHER else OPTIMIZED_GRAPH)
    else if c.stage == CONSTEVAL_GRAPH then
      Go(c, if cfg.patterns then POST_PATTERN_MATCHER else OPTIMIZED_GRAPH)
    else if c.stage == OPTIMIZED_GRAPH then
      Go(c, if cfg.training then AUTOGRAD else POST_AUTOGRAD_PASS)
    else if c.stage == BALANCER_PASS then
      if t.unsupportedOps then Go(c, FULL)
      else
        var placed := c.(instructions := t.instructions);
        if IsSubset(t.instructions, c.instructions) then Go(placed, PRE_NETLIST_PASS)
        else if c.placerRetries + 1 < PLACER_LOOPS then
          Go(placed.(placerRetries := c.placerRetries + 1), BUDA_GRAPH_PRE_PLACER)
        else Stop
    else if c.stage == GENERATE_NETLIST then
      if cfg.checkNetlist && !t.netlistOk then
        var (handled, again) := HandleBackendError(cfg, c, false, t.adjustablePolicy);
        if handled then Go(again, again.stage) else Stop
      else Go(c, BACKEND_GOLDEN_VERIFY)
    else Go(c, c.stage + 1)
  }

  ghost predicate Sane(cfg: Config, c: Context) {
    c.stage <= FULL && c.placerRetries < PLACER_LOOPS && c.recompiles <= Limit(cfg)
  }

  ghost function Measure(cfg: Config, c: Context): nat
    requires Sane(cfg, c)
  {
    (FULL - c.stage) + 2 * (PLACER_LOOPS - 1 - c.placerRetries) + 4 * (Limit(cfg) - c.recompiles)
  }

  /** Every transition, the two back edges included, makes the measure smaller. */
  lemma StageDescends(cfg: Config, c: Context, t: Tools)
    requires Sane(cfg, c) && c.stage < FULL && RunStage(cfg, c, t).Go?
    ensures var r := RunStage(cfg, c, t); var n := r.context.(stage := r.next);
      Sane(cfg, n) && Measure(cfg, n) < Measure(cfg, c)
      && c.placerRetries <= n.placerRetries && c.recompiles <= n.recompiles && r.context.stage <= FULL
  {
    hide RunStage, HandleBackendError, IsSubset;
    if c.stage == BALANCER_PASS {
      BalancerLeads(cfg, c, t);
    } else if c.stage == GENERATE_NETLIST {
      NetlistLeads(cfg, c, t);
    } else {
      StraightLeads(cfg, c, t);
    }
  }

  lemma StraightLeads(cfg: Config, c: Context, t: Tools)
    requires c.stage < FULL && c.stage != BALANCER_PASS && c.stage != GENERATE_NETLIST && RunStage(cfg, c, t).Go?
    ensures var r := RunStage(cfg, c, t);
      c.stage < r.next <= FULL && r.context.stage == c.stage
      && r.context.placerRetries == c.placerRetries && r.context.recompiles == c.recompiles
  {
  }

  lemma BalancerLeads(cfg: Config, c: Context, t: Tools)
    requires c.stage == BALANCER_PASS && RunStage(cfg, c, t).Go?
    ensures var r := RunStage(cfg, c, t);
      r.context.stage == c.stage && r.context.recompiles == c.recompiles
      && if r.next == BUDA_GRAPH_PRE_PLACER then r.context.placerRetries == c.placerRetries + 1 < PLACER_LOOPS
         else (r.next == PRE_NETLIST_PASS || r.next == FULL) && r.context.placerRetries == c.placerRetries
  {
    hide IsSubset;
  }

  lemma NetlistLeads(cfg: Config, c: Context, t: Tools)
    requires c.stage == GENERATE_NETLIST && c.recompiles <= Limit(cfg) && RunStage(cfg, c, t).Go?
    ensures var r := RunStage(cfg, c, t);
      r.context.placerRetries == c.placerRetries
      && if r.next == BUDA_GRAPH_PRE_PLACER
         then r.context.stage == r.next && r.context.recompiles == c.recompiles + 1 <= Limit(cfg)
         else r.next == BACKEND_GOLDEN_VERIFY && r.context.stage == c.stage && r.context.recompiles == c.recompiles
  {
  }

  /** The driver loop, from step `clock` on. */
  function Drive(cfg: Config, c: Context, tools: nat -> Tools, clock: nat): Outcome
    requires Sane(cfg, c)
    decreases Measure(cfg, c)
  {
    if c.stage == FULL then Finished(c, clock) else
      match RunStage(cfg, c, tools(clock))
      case Stop => Aborted(clock + 1)
      case Go(c', next) =>
        if c'.depth == c.stage then EarlyStop(c', clock + 1) else
          StageDescends(cfg, c, tools(clock));
          Drive(cfg, c'.(stage := next), tools, clock + 1)
  }

  /* ---- how long a run can be ---- */

  /** Each back edge pays for the stages it repeats: two for a placer retry, four for a recompile. */
  lemma {:induction false} StepsByBackEdges(cfg: Config, c: Context, tools: nat -> Tools, clock: nat)
    requires Sane(cfg, c)
    ensures match Drive(cfg, c, tools, clock)
      case Finished(e, n) =>
        n - clock <= FULL - c.stage + 2 * (e.placerRetries - c.placerRetries) + 4 * (e.recompiles - c.recompiles)
        && e.stage == FULL && Sane(cfg, e) && c.placerRetries <= e.placerRetries && c.recompiles <= e.recompiles
      case EarlyStop(e, n) =>
        n - clock <= FULL - c.stage + 2 * (e.placerRetries - c.placerRetries) + 4 * (e.recompiles - c.recompiles)
        && Sane(cfg, e) && c.placerRetries <= e.placerRetries && c.recompiles <= e.recompiles
      case Aborted(n) =>
        n - clock <= FULL - c.stage + 2 * (PLACER_LOOPS - 1 - c.placerRetries) + 4 * (Limit(cfg) - c.recompiles)
    decreases Measure(cfg, c)
  {
    hide RunStage, Drive;
    DriveUnfolds(cfg, c, tools, clock);
    if c.stage == FULL {
      DriveEnd(cfg, c, tools, clock);
    } else if RunStage(cfg, c, tools(clock)).Go? {
      var r := RunStage(cfg, c, tools(clock));
      StageDescends(cfg, c, tools(clock));
      if r.context.depth != c.stage {
        StepsByBackEdges(cfg, r.context.(stage := r.next), tools, clock + 1);
      }
    }
  }

  /** From a fresh context every run ends within 14 + 2 * 19 + 4 * L stages. */
  lemma RunIsBounded(cfg: Config, tools: nat -> Tools)
    ensures var limit := if cfg.recompile && cfg.recompileLimit > 0 then cfg.recompileLimit else 0;
      Drive(cfg, Fresh(cfg), tools, 0).steps <= 14 + 2 * 19 + 4 * limit
  {
    StepsByBackEdges(cfg, Fresh(cfg), tools, 0);
  }

  /* ---- the bound is attained ---- */

  function LongestConfig(limit: nat): Config {
    Config(FULL, false, true, true, true, true, true, limit, true)
  }

  /** Nothing goes wrong, except that the placer asks for a new queue up to step 48. */
  ghost predicate Busy(tools: nat -> Tools) {
    forall clock: nat :: tools(clock) ==
      Tools(false, false, if clock < 48 then map[clock := Queue] else map[], tools(clock).netlistOk, true)
  }

  /** The placer asks for new queues 19 times, then the netlist check fails until recompiles run out. */
  function LongestTools(limit: nat): nat -> Tools {
    (clock: nat) => Tools(false, false, if clock < 48 then map[clock := Queue] else map[], clock >= 50 + 4 * limit, true)
  }

  ghost function At(stage: nat, retries: nat, recompiles: nat, ins: Instructions): Context {
    Context(stage, FULL, retries, recompiles, recompiles > 0, ins)
  }

  lemma DriveStep(cfg: Config, c: Context, tools: nat -> Tools, clock: nat, c': Context, next: nat)
    requires Sane(cfg, c) && c.stage < FULL && RunStage(cfg, c, tools(clock)) == Go(c', next) && c'.depth == FULL
    ensures Sane(cfg, c'.(stage := next))
    ensures Drive(cfg, c, tools, clock) == Drive(cfg, c'.(stage := next), tools, clock + 1)
  {
    StageDescends(cfg, c, tools(clock));
  }

  /** Stages that simply lead to the next one. */
  lemma {:induction false} StraightOn(limit: nat, tools: nat -> Tools, first: nat, last: nat, retries: nat, recompiles: nat,
                                      ins: Instructions, clock: nat)
    requires Busy(tools) && first <= last <= FULL && retries < PLACER_LOOPS && recompiles <= limit
    requires !(first <= BALANCER_PASS < last) && !(first <= GENERATE_NETLIST < last)
    ensures Drive(LongestConfig(limit), At(first, retries, recompiles, ins), tools, clock)
         == Drive(LongestConfig(limit), At(last, retries, recompiles, ins), tools, clock + (last - first))
    decreases FULL + last - first
  {
    if first < last {
      hide Drive;
      var c := At(first, retries, recompiles, ins);
      assert tools(clock).crash == false;
      DriveStep(LongestConfig(limit), c, tools, clock, c, first + 1);
      StraightOn(limit, tools, first + 1, last, retries, recompiles, ins, clock + 1);
    }
  }

  lemma {:induction false} PlacerRounds(limit: nat, tools: nat -> Tools, retries: nat, ins: Instructions)
    requires Busy(tools) && retries < PLACER_LOOPS && forall k :: k in ins ==> k < 10 + 2 * retries
    ensures Drive(LongestConfig(limit), At(BALANCER_PASS, retries, 0, ins), tools, 10 + 2 * retries)
         == Drive(LongestConfig(limit), At(PRE_NETLIST_PASS, PLACER_LOOPS - 1, 0, map[]), tools, 49)
    decreases PLACER_LOOPS - retries
  {
    hide Drive;
    var cfg := LongestConfig(limit);
    var c := At(BALANCER_PASS, retries, 0, ins);
    var clock := 10 + 2 * retries;
    assert tools(clock).crash == false;
    if retries == PLACER_LOOPS - 1 {
      var c' := c.(instructions := map[]);
      DriveStep(cfg, c, tools, clock, c', PRE_NETLIST_PASS);
    } else {
      var asked := map[clock := Queue];
      assert clock in asked && clock !in ins;
      assert !IsSubset(asked, ins);
      var c' := c.(instructions := asked, placerRetries := retries + 1);
      DriveStep(cfg, c, tools, clock, c', BUDA_GRAPH_PRE_PLACER);
      StraightOn(limit, tools, BUDA_GRAPH_PRE_PLACER, BALANCER_PASS, retries + 1, 0, asked, clock + 1);
      PlacerRounds(limit, tools, retries + 1, asked);
    }
  }

  /** From the pre-placer stage straight to the netlist, once the placer is content. */
  lemma ToNetlist(limit: nat, tools: nat -> Tools, recompiles: nat, clock: nat)
    requires Busy(tools) && recompiles <= limit && clock >= 48
    ensures Drive(LongestConfig(limit), At(BUDA_GRAPH_PRE_PLACER, PLACER_LOOPS - 1, recompiles, map[]), tools, clock)
         == Drive(LongestConfig(limit), At(GENERATE_NETLIST, PLACER_LOOPS - 1, recompiles, map[]), tools, clock + 3)
  {
    hide Drive;
    StraightOn(limit, tools, BUDA_GRAPH_PRE_PLACER, BALANCER_PASS, PLACER_LOOPS - 1, recompiles, map[], clock);
    var b := At(BALANCER_PASS, PLACER_LOOPS - 1, recompiles, map[]);
    assert tools(clock + 1).crash == false;
    DriveStep(LongestConfig(limit), b, tools, clock + 1, b, PRE_NETLIST_PASS);
    StraightOn(limit, tools, PRE_NETLIST_PASS, GENERATE_NETLIST, PLACER_LOOPS - 1, recompiles, map[], clock + 2);
  }

  /** From the netlist to the end, when the check passes. */
  lemma ToEnd(limit: nat, tools: nat -> Tools, recompiles: nat, clock: nat)
    requires Busy(tools) && recompiles <= limit && tools(clock).netlistOk
    ensures Drive(LongestConfig(limit), At(GENERATE_NETLIST, PLACER_LOOPS - 1, recompiles, map[]), tools, clock)
         == Finished(At(FULL, PLACER_LOOPS - 1, recompiles, map[]), clock + 2)
  {
    hide Drive;
    var cfg, c := LongestConfig(limit), At(GENERATE_NETLIST, PLACER_LOOPS - 1, recompiles, map[]);
    assert tools(clock).crash == false;
    DriveStep(cfg, c, tools, clock, c, BACKEND_GOLDEN_VERIFY);
    StraightOn(limit, tools, BACKEND_GOLDEN_VERIFY, FULL, PLACER_LOOPS - 1, recompiles, map[], clock + 1);
    DriveEnd(cfg, At(FULL, PLACER_LOOPS - 1, recompiles, map[]), tools, clock + 2);
  }

  /** From the start to the first netlist: every placer retry is used up. */
  lemma ToFirstNetlist(limit: nat, tools: nat -> Tools)
    requires Busy(tools)
    ensures Drive(LongestConfig(limit), Fresh(LongestConfig(limit)), tools, 0)
         == Drive(LongestConfig(limit), At(GENERATE_NETLIST, PLACER_LOOPS - 1, 0, map[]), tools, 50)
  {
    hide Drive;
    assert Fresh(LongestConfig(limit)) == At(INIT_COMPILE, 0, 0, map[]);
    StraightOn(limit, tools, INIT_COMPILE, BALANCER_PASS, 0, 0, map[], 0);
    PlacerRounds(limit, tools, 0, map[]);
    StraightOn(limit, tools, PRE_NETLIST_PASS, GENERATE_NETLIST, PLACER_LOOPS - 1, 0, map[], 49);
  }

  lemma {:induction false} Recompiles(limit: nat, done: nat)
    requires done <= limit
    ensures Drive(LongestConfig(limit), At(GENERATE_NETLIST, PLACER_LOOPS - 1, done, map[]), LongestTools(limit), 50 + 4 * done)
         == Finished(At(FULL, PLACER_LOOPS - 1, limit, map[]), 52 + 4 * limit)
    decreases limit - done
  {
    hide Drive;
    var cfg, tools := LongestConfig(limit), LongestTools(limit);
    var clock := 50 + 4 * done;
    if done == limit {
      ToEnd(limit, tools, limit, clock);
    } else {
      var c := At(GENERATE_NETLIST, PLACER_LOOPS - 1, done, map[]);
      var again := At(BUDA_GRAPH_PRE_PLACER, PLACER_LOOPS - 1, done + 1, map[]);
      DriveStep(cfg, c, tools, clock, again, BUDA_GRAPH_PRE_PLACER);
      ToNetlist(limit, tools, done + 1, clock + 1);
      Recompiles(limit, done + 1);
    }
  }

  lemma DriveEnd(cfg: Config, c: Context, tools: nat -> Tools, clock: nat)
    requires Sane(cfg, c) && c.stage == FULL
    ensures Drive(cfg, c, tools, clock) == Finished(c, clock)
  {
  }

  /** No smaller bound holds: some run finishes after exactly that many stages. */
  lemma BoundIsAttained(limit: nat)
    ensures var cfg := LongestConfig(limit);
      Limit(cfg) == limit
      && Drive(cfg, Fresh(cfg), LongestTools(limit), 0)
         == Finished(At(FULL, PLACER_LOOPS - 1, limit, map[]), FULL + 2 * (PLACER_LOOPS - 1) + 4 * limit)
  {
    hide Drive;
    ToFirstNetlist(limit, LongestTools(limit));
    Recompiles(limit, 0);
  }

  /* ---- the device loop around it ---- */

  /** Building the backend from what was compiled: it loads, is rejected by the backend compiler, or fails otherwise,
      for example because an early stop has left no netlist. */
  datatype Backend = Loaded | Rejected(overlayGrew: bool, adjustablePolicy: bool) | Broken

  /** Compile, early stop or not, then load, and compile again from the pre-placer stage while the backend rejects the
      netlist and a recompile is allowed. Counts compile stages. */
  function CompileAndLoad(cfg: Config, c: Context, tools: nat -> Tools, backend: nat -> Backend, clock: nat): Outcome
    requires Sane(cfg, c)
    decreases Limit(cfg) - c.recompiles
  {
    var r := Drive(cfg, c, tools, clock);
    StepsByBackEdges(cfg, c, tools, clock);
    if r.Aborted? then r else
      match backend(r.context.recompiles)
      case Loaded => r
      case Broken => Aborted(r.steps)
      case Rejected(overlay, policy) =>
        var (handled, again) := HandleBackendError(cfg, r.context, overlay, policy);
        if handled then CompileAndLoad(cfg, again, tools, backend, r.steps) else Aborted(r.steps)
  }

  /** A backend rejection repeats five stages, one more than a failed netlist check. */
  lemma {:induction false} LoadingIsBounded(cfg: Config, c: Context, tools: nat -> Tools, backend: nat -> Backend, clock: nat)
    requires Sane(cfg, c)
    ensures CompileAndLoad(cfg, c, tools, backend, clock).steps - clock
         <= FULL - c.stage + 2 * (PLACER_LOOPS - 1 - c.placerRetries) + 5 * (Limit(cfg) - c.recompiles)
    decreases Limit(cfg) - c.recompiles
  {
    hide Drive;
    var r := Drive(cfg, c, tools, clock);
    StepsByBackEdges(cfg, c, tools, clock);
    if !r.Aborted? && backend(r.context.recompiles).Rejected? {
      var b := backend(r.context.recompiles);
      var (handled, again) := HandleBackendError(cfg, r.context, b.overlayGrew, b.adjustablePolicy);
      if handled {
        LoadingIsBounded(cfg, again, tools, backend, r.steps);
      }
    }
  }

  /** The same placer, and a netlist check that always passes. */
  function LoadingTools(): nat -> Tools {
    (clock: nat) => Tools(false, false, if clock < 48 then map[clock := Queue] else map[], true, true)
  }

  /** A backend whose overlay grows until recompiles run out. */
  function GrowingBackend(limit: nat): nat -> Backend {
    (recompiles: nat) => if recompiles < limit then Rejected(true, false) else Loaded
  }

  lemma {:induction false} Reloads(limit: nat, done: nat)
    requires done < limit
    ensures CompileAndLoad(LongestConfig(limit), At(BUDA_GRAPH_PRE_PLACER, PLACER_LOOPS - 1, done + 1, map[]),
                           LoadingTools(), GrowingBackend(limit), 52 + 5 * done)
         == Finished(At(FULL, PLACER_LOOPS - 1, limit, map[]), 52 + 5 * limit)
    decreases limit - done
  {
    hide Drive;
    ToNetlist(limit, LoadingTools(), done + 1, 52 + 5 * done);
    ToEnd(limit, LoadingTools(), done + 1, 55 + 5 * done);
    if done + 1 < limit {
      Reloads(limit, done + 1);
    }
  }

  /** No smaller bound holds for the loading loop either: each recompile can cost five stages. */
  lemma LoadingBoundIsAttained(limit: nat)
    ensures var cfg := LongestConfig(limit);
      Limit(cfg) == limit
      && CompileAndLoad(cfg, Fresh(cfg), LoadingTools(), GrowingBackend(limit), 0)
         == Finished(At(FULL, PLACER_LOOPS - 1, limit, map[]), FULL + 2 * (PLACER_LOOPS - 1) + 5 * limit)
  {
    hide Drive;
    ToFirstNetlist(limit, LoadingTools());
    ToEnd(limit, LoadingTools(), 0, 50);
    if limit > 0 {
      Reloads(limit, 0);
    }
  }

  /* ---- the program ---- */

  class CompileContext {
    var stage: nat
    var depth: nat
    var placerRetryCount: nat
    var recompileCount: nat
    var inRecompile: bool
    var instructions: Instructions

    function View(): Context
      reads this
    {
      Context(stage, depth, placerRetryCount, recompileCount, inRecompile, instructions)
    }

    constructor (cfg: Config)
      ensures View() == Fresh(cfg)
    {
      stage, depth, placerRetryCount, recompileCount := INIT_COMPILE, cfg.depth, 0, 0;
      inRecompile, instructions := false, map[];
    }

    method RunBalancerAndPlacer(t: Tools) returns (next: nat, ok: bool)
      requires stage == BALANCER_PASS
      modifies this`instructions, this`placerRetryCount
      ensures forall cfg: Config :: !t.crash ==>
        RunStage(cfg, old(View()), t) == if ok then Go(View(), next) else Stop
    {
      if t.unsupportedOps {
        return FULL, true;
      }
      var previous := instructions;
      instructions := t.instructions;
      if !IsSubset(instructions, previous) {
        placerRetryCount := placerRetryCount + 1;
        return BUDA_GRAPH_PRE_PLACER, placerRetryCount < PLACER_LOOPS;
      }
      return PRE_NETLIST_PASS, true;
    }

    method HandleError(cfg: Config, overlayGrew: bool, adjustablePolicy: bool) returns (handled: bool)
      modifies this`stage, this`inRecompile, this`recompileCount
      ensures (handled, View()) == HandleBackendError(cfg, old(View()), overlayGrew, adjustablePolicy)
    {
      if !cfg.recompile || recompileCount >= cfg.recompileLimit {
        return false;
      }
      handled := overlayGrew;
      if !handled && cfg.adjustCycles {
        if !adjustablePolicy {
          return false;
        }
        handled := true;
      }
      if handled {
        stage := BUDA_GRAPH_PRE_PLACER;
        inRecompile := true;
        recompileCount := recompileCount + 1;
      }
    }

    method ExecuteStage(cfg: Config, t: Tools) returns (next: nat, ok: bool)
      requires stage < FULL
      modifies this
      ensures RunStage(cfg, old(View()), t) == if ok then Go(View(), next) else Stop
    {
      if t.crash {
        return stage, false;
      }
      if stage == INIT_COMPILE {
        if cfg.forceFull {
          depth := FULL;
        }
        return 1, true;
      } else if stage == POST_INITIAL_GRAPH_PASS {
        next := OPTIMIZED_GRAPH;
        if cfg.consteval {
          next := CONSTEVAL_GRAPH;
        } else if cfg.patterns {
          next := POST_PATTERN_MATCHER;
        }
        return next, true;
      } else if stage == CONSTEVAL_GRAPH {
        next := if cfg.patterns then POST_PATTERN_MATCHER else OPTIMIZED_GRAPH;
        return next, true;
      } else if stage == OPTIMIZED_GRAPH {
        next := if cfg.training then AUTOGRAD else POST_AUTOGRAD_PASS;
        return next, true;
      } else if stage == BALANCER_PASS {
        next, ok := RunBalancerAndPlacer(t);
      } else if stage == GENERATE_NETLIST {
        if cfg.checkNetlist && !t.netlistOk {
          ok := HandleError(cfg, false, t.adjustablePolicy);
          return stage, ok;
        }
        return BACKEND_GOLDEN_VERIFY, true;
      } else {
        return stage + 1, true;
      }
    }

    /** The driver. A run ends in its final stage, early, or in a failure. */
    method CompileFromContext(cfg: Config, tools: nat -> Tools) returns (r: Outcome)
      requires Sane(cfg, View())
      modifies this
      ensures r == Drive(cfg, old(View()), tools, 0)
      ensures r.Finished? ==> View() == r.context
    {
      hide RunStage, Drive, Sane;
      var clock := 0;
      DriveUnfolds(cfg, View(), tools, 0);
      while stage != FULL
        invariant Sane(cfg, View())
        invariant Drive(cfg, View(), tools, clock) == Drive(cfg, old(View()), tools, 0)
        decreases Measure(cfg, View())
      {
        var current := stage;
        ghost var before := View();
        DriveUnfolds(cfg, before, tools, clock);
        var next, ok := ExecuteStage(cfg, tools(clock));
        if !ok {
          return Aborted(clock + 1);
        }
        if depth == current {
          return EarlyStop(View(), clock + 1);
        }
        StageDescends(cfg, before, tools(clock));
        stage := next;
        clock := clock + 1;
      }
      DriveEnd(cfg, View(), tools, clock);
      return Finished(View(), clock);
    }
  }

  lemma DriveUnfolds(cfg: Config, c: Context, tools: nat -> Tools, clock: nat)
    requires Sane(cfg, c)
    ensures c.stage <= FULL
    ensures c.stage < FULL && RunStage(cfg, c, tools(clock)).Stop? ==> Drive(cfg, c, tools, clock) == Aborted(clock + 1)
    ensures c.stage < FULL && RunStage(cfg, c, tools(clock)).Go? ==>
      var r := RunStage(cfg, c, tools(clock));
      if r.context.depth == c.stage then Drive(cfg, c, tools, clock) == EarlyStop(r.context, clock + 1)
      else (Sane(cfg, r.context.(stage := r.next))
            && Drive(cfg, c, tools, clock) == Drive(cfg, r.context.(stage := r.next), tools, clock + 1))
  {
    if c.stage < FULL && RunStage(cfg, c, tools(clock)).Go? {
      StageDescends(cfg, c, tools(clock));
    }
  }
}
