/** Which stages a compile runs through, by number, and when the balancer sends it back. */
module CompileRuns {
  import opened CompileStages

  /* ---- when nothing goes wrong ---- */

  /** Passes that succeed and insert nothing. */
  ghost predicate Quiet(tools: nat -> Tools) {
    forall clock: nat :: tools(clock).instructions == map[] && tools(clock).netlistOk
                         && !tools(clock).crash && !tools(clock).unsupportedOps
  }

  /** The numbers of the stages of a compile that meets no difficulty. */
  function Visited(cfg: Config): seq<nat> {
    [0, 1, 2] + (if cfg.consteval then [3] else []) + (if cfg.patterns then [4] else []) + [5]
    + (if cfg.training then [6] else []) + [7, 8, 9, 10, 11, 12, 13]
  }

  lemma VisitedNext(cfg: Config, c: Context, t: Tools, i: nat)
    requires i < |Visited(cfg)| && c.stage == Visited(cfg)[i] && c.instructions == map[]
    requires t.instructions == map[] && t.netlistOk && !t.crash && !t.unsupportedOps
    ensures c.stage < 14
    ensures RunStage(cfg, c, t) ==
      Go(if i == 0 && cfg.forceFull then c.(depth := 14) else c, if i + 1 < |Visited(cfg)| then Visited(cfg)[i + 1] else 14)
  {
  }

  lemma VisitedStart(cfg: Config)
    ensures |Visited(cfg)| ==
      11 + (if cfg.consteval then 1 else 0) + (if cfg.patterns then 1 else 0) + (if cfg.training then 1 else 0)
    ensures Visited(cfg)[0] == 0 && 14 !in Visited(cfg)
  {
  }

  /** From the stage at place `i` on: the run stops at the place of the configured depth, or else runs to the end. */
  lemma {:induction false} QuietFrom(cfg: Config, c: Context, tools: nat -> Tools, i: nat)
    requires Quiet(tools) && i < |Visited(cfg)| && c.stage == Visited(cfg)[i] && c.instructions == map[]
    requires Sane(cfg, c) && (i > 0 || !cfg.forceFull)
    ensures match Drive(cfg, c, tools, i)
      case Finished(e, n) => n == |Visited(cfg)| && c.depth !in Visited(cfg)[i..]
      case EarlyStop(e, n) => i < n <= |Visited(cfg)| && c.depth == Visited(cfg)[n - 1] && c.depth !in Visited(cfg)[i..n - 1]
      case Aborted(_) => false
    decreases |Visited(cfg)| - i
  {
    hide RunStage, Drive, Visited, Sane;
    VisitedNext(cfg, c, tools(i), i);
    DriveUnfolds(cfg, c, tools, i);
    if c.depth != c.stage {
      var next := c.(stage := if i + 1 < |Visited(cfg)| then Visited(cfg)[i + 1] else 14);
      if i + 1 < |Visited(cfg)| {
        QuietFrom(cfg, next, tools, i + 1);
        assert Visited(cfg)[i..] == [Visited(cfg)[i]] + Visited(cfg)[i + 1..];
        var r := Drive(cfg, next, tools, i + 1);
        if r.EarlyStop? {
          assert Visited(cfg)[i..r.steps - 1] == [Visited(cfg)[i]] + Visited(cfg)[i + 1..r.steps - 1];
        }
      } else {
        DriveEnd(cfg, next, tools, i + 1);
        assert Visited(cfg)[i..] == [Visited(cfg)[i]];
      }
    }
  }

  /** A compile that meets no difficulty takes eleven stages and one more for each of constant evaluation, patterns and
      training. It stops behind the stage that the configuration names, unless that one is skipped or stopping is overruled. */
  lemma QuietRun(cfg: Config, tools: nat -> Tools)
    requires Quiet(tools)
    ensures |Visited(cfg)| ==
      11 + (if cfg.consteval then 1 else 0) + (if cfg.patterns then 1 else 0) + (if cfg.training then 1 else 0)
    ensures var r := Drive(cfg, Fresh(cfg), tools, 0);
      if !cfg.forceFull && cfg.depth in Visited(cfg)
      then r.EarlyStop? && 0 < r.steps <= |Visited(cfg)| && Visited(cfg)[r.steps - 1] == cfg.depth
      else r.Finished? && r.steps == |Visited(cfg)|
  {
    var c := Fresh(cfg);
    VisitedStart(cfg);
    hide Visited, RunStage, Drive;
    if cfg.forceFull {
      VisitedNext(cfg, c, tools(0), 0);
      DriveUnfolds(cfg, c, tools, 0);
      QuietFrom(cfg, c.(depth := 14, stage := Visited(cfg)[1]), tools, 1);
      assert 14 !in Visited(cfg)[1..];
    } else {
      QuietFrom(cfg, c, tools, 0);
      assert Visited(cfg)[0..] == Visited(cfg);
    }
  }

  /* ---- when the balancer sends it back ---- */

  /** Nothing was inserted that was not there before, and no NOP insertion has another count than before. */
  ghost predicate Settled(before: Instructions, now: Instructions) {
    && (forall k :: k in now ==> k in before)
    && forall k, m, n :: k in now && k in before && before[k] == Nop(m) && now[k] == Nop(n) ==> m == n
  }

  /** Stage 10 leads on to stage 11 if and only if the insertions are settled, back to stage 9 for the first nineteen times
      that they are not, and to a failure the twentieth time. Either way the new insertions are kept. */
  lemma BalancerDecides(cfg: Config, c: Context, t: Tools)
    requires c.stage == 10 && !t.crash
    ensures var r := RunStage(cfg, c, t);
      && (t.unsupportedOps ==> r == Go(c, 14))
      && (!t.unsupportedOps ==>
          && (r == Go(c.(instructions := t.instructions), 11) <==> Settled(c.instructions, t.instructions))
          && (r == Go(c.(instructions := t.instructions, placerRetries := c.placerRetries + 1), 9)
              <==> !Settled(c.instructions, t.instructions) && c.placerRetries < 19)
          && (r == Stop <==> !Settled(c.instructions, t.instructions) && c.placerRetries >= 19))
  {
    hide Settled;
    SettledIsSubset(c.instructions, t.instructions);
    hide IsSubset;
  }

  lemma SettledIsSubset(before: Instructions, now: Instructions)
    ensures Settled(before, now) <==> IsSubset(now, before)
  {
  }

  /* ---- when the backend sends it back ---- */

  /** Something can be changed for another try: the overlay has grown, or cycles may be adjusted under a policy that allows it. */
  ghost predicate Changeable(cfg: Config, overlayGrew: bool, adjustablePolicy: bool) {
    overlayGrew || (cfg.adjustCycles && adjustablePolicy)
  }

  /** An error of the backend leads back to stage 9, and counts as a recompile, if and only if recompiling is switched on, fewer
      recompiles have been made than allowed, and something can be changed. Otherwise nothing changes. */
  lemma RecompileDecides(cfg: Config, c: Context, overlayGrew: bool, adjustablePolicy: bool)
    ensures var (handled, again) := HandleBackendError(cfg, c, overlayGrew, adjustablePolicy);
      && (handled <==> cfg.recompile && c.recompiles < cfg.recompileLimit && Changeable(cfg, overlayGrew, adjustablePolicy))
      && again == if handled then Context(9, c.depth, c.placerRetries, c.recompiles + 1, true, c.instructions) else c
  {
  }

  /** Stage 12 goes on to stage 13 when the netlist is not checked or passes; a bad netlist counts as an error of the backend
      with the overlay as it was. */
  lemma NetlistDecides(cfg: Config, c: Context, t: Tools)
    requires c.stage == 12 && !t.crash
    ensures var r := RunStage(cfg, c, t);
      if !cfg.checkNetlist || t.netlistOk then r == Go(c, 13)
      else if cfg.recompile && c.recompiles < cfg.recompileLimit && Changeable(cfg, false, t.adjustablePolicy)
      then r == Go(Context(9, c.depth, c.placerRetries, c.recompiles + 1, true, c.instructions), 9)
      else r == Stop
  {
    RecompileDecides(cfg, c, false, t.adjustablePolicy);
    hide HandleBackendError;
  }

  /** Compiling and loading end well only with a backend that loaded what was compiled last; a backend that loads it at once
      leaves the outcome of the compile; one that is broken, or rejects it for good, is a failure. */
  lemma {:induction false} LoadsAtTheEnd(cfg: Config, c: Context, tools: nat -> Tools, backend: nat -> Backend, clock: nat)
    requires Sane(cfg, c)
    ensures var r, first := CompileAndLoad(cfg, c, tools, backend, clock), Drive(cfg, c, tools, clock);
      && (!r.Aborted? ==> backend(r.context.recompiles).Loaded? && c.recompiles <= r.context.recompiles <= Limit(cfg))
      && (first.Aborted? ==> r == first)
      && (!first.Aborted? && backend(first.context.recompiles).Loaded? ==> r == first)
      && (!first.Aborted? && backend(first.context.recompiles).Broken? ==> r.Aborted?)
      && (!first.Aborted? && backend(first.context.recompiles).Rejected? ==>
          (cfg.recompile && first.context.recompiles < cfg.recompileLimit) || r.Aborted?)
    decreases Limit(cfg) - c.recompiles
  {
    hide Drive;
    var first := Drive(cfg, c, tools, clock);
    StepsByBackEdges(cfg, c, tools, clock);
    if !first.Aborted? && backend(first.context.recompiles).Rejected? {
      var b := backend(first.context.recompiles);
      var (handled, again) := HandleBackendError(cfg, first.context, b.overlayGrew, b.adjustablePolicy);
      if handled {
        LoadsAtTheEnd(cfg, again, tools, backend, first.steps);
      }
    }
  }

  /* ---- a run that pays for a changed count ---- */

  /** One NOP insertion, whose count is `first` in the first placement and `later` in the others. */
  function Nops(first: int, later: int): nat -> Tools {
    (clock: nat) => Tools(false, false, map[7 := Nop(if clock < 12 then first else later)], true, true)
  }

  /** The insertion itself costs one retry, and a change of its count another one. */
  lemma ChangedCountCostsARetry(first: int, later: int)
    ensures var cfg := LongestConfig(0); var again := if first == later then 1 else 2;
      Drive(cfg, Fresh(cfg), Nops(first, later), 0)
        == Finished(Context(14, 14, again, 0, false, map[7 := Nop(later)]), 14 + 2 * again)
  {
    hide Drive;
    var cfg, tools := LongestConfig(0), Nops(first, later);
    NopsAlong(cfg, tools, 0, 10, Fresh(cfg), 0);
    var was := map[7 := Nop(first)];
    assert 7 in was && 7 !in Fresh(cfg).instructions;
    NopRound(cfg, tools, At(10, 0, 0, map[]), 10, was);
    if first == later {
      NopEnd(cfg, tools, At(10, 1, 0, was), 12, was);
    } else {
      NopRound(cfg, tools, At(10, 1, 0, was), 12, map[7 := Nop(later)]);
      NopEnd(cfg, tools, At(10, 2, 0, map[7 := Nop(later)]), 14, map[7 := Nop(later)]);
    }
  }

  ghost predicate Fine(tools: nat -> Tools) {
    forall clock: nat :: !tools(clock).crash && !tools(clock).unsupportedOps && tools(clock).netlistOk
  }

  lemma {:induction false} NopsAlong(cfg: Config, tools: nat -> Tools, from: nat, to: nat, c: Context, clock: nat)
    requires cfg == LongestConfig(0) && Fine(tools) && from <= to <= 14 && c.stage == from && c.depth == 14
    requires !(from <= 10 < to) && Sane(cfg, c)
    ensures Sane(cfg, c.(stage := to))
    ensures Drive(cfg, c, tools, clock) == Drive(cfg, c.(stage := to), tools, clock + (to - from))
    decreases 14 - from
  {
    hide Drive;
    if from < to {
      assert !tools(clock).crash;
      DriveStep(cfg, c, tools, clock, c, from + 1);
      NopsAlong(cfg, tools, from + 1, to, c.(stage := from + 1), clock + 1);
    }
  }

  lemma NopRound(cfg: Config, tools: nat -> Tools, c: Context, clock: nat, now: Instructions)
    requires cfg == LongestConfig(0) && Fine(tools) && c.stage == 10 && c.depth == 14 && Sane(cfg, c) && c.placerRetries < 19
    requires tools(clock).instructions == now && !Settled(c.instructions, now)
    ensures var next := c.(instructions := now, placerRetries := c.placerRetries + 1);
      Sane(cfg, next) && Drive(cfg, c, tools, clock) == Drive(cfg, next, tools, clock + 2)
  {
    hide Drive, Settled;
    BalancerDecides(cfg, c, tools(clock));
    var next := c.(instructions := now, placerRetries := c.placerRetries + 1);
    DriveStep(cfg, c, tools, clock, next, 9);
    NopsAlong(cfg, tools, 9, 10, next.(stage := 9), clock + 1);
  }

  lemma NopEnd(cfg: Config, tools: nat -> Tools, c: Context, clock: nat, now: Instructions)
    requires cfg == LongestConfig(0) && Fine(tools) && c.stage == 10 && c.depth == 14 && Sane(cfg, c)
    requires tools(clock).instructions == now && Settled(c.instructions, now)
    ensures Drive(cfg, c, tools, clock) == Finished(c.(instructions := now, stage := 14), clock + 4)
  {
    hide Drive, Settled;
    BalancerDecides(cfg, c, tools(clock));
    DriveStep(cfg, c, tools, clock, c.(instructions := now), 11);
    NopsAlong(cfg, tools, 11, 14, c.(instructions := now, stage := 11), clock + 1);
    DriveEnd(cfg, c.(instructions := now, stage := 14), tools, clock + 4);
  }
}
