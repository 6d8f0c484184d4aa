/** The Adam optimizer twice: as an expression graph with looped-back state, and as the in-place reference.
    Numbers are reals, one per tensor element; the square root is any function. */
module Adam {

  /** `sqrt` is opaque and `inverseOfZero` stands for whatever a division by zero yields. */
  datatype Arithmetic = Arithmetic(sqrt: real -> real, inverseOfZero: real)

  function Reciprocal(a: Arithmetic, x: real): real {
    if x == 0.0 then a.inverseOfZero else 1.0 / x
  }

  function Divide(a: Arithmetic, x: real, y: real): real {
    x * Reciprocal(a, y)
  }

  datatype Options = Options(
    beta1: real, beta2: real, epsilon: real, weightDecay: real, learningRate: real, biasCorrection: bool, adamW: bool)

  /* ---- expression graphs ---- */

  datatype Slot = Mean | Variance | Beta1Pow | Beta2Pow

  datatype Expr =
    | Constant(value: real)
    | Parameter
    | Gradient
    | LearningRate
    | State(slot: Slot)
    | Buffer(of: Expr)
    | Sum(left: Expr, right: Expr)
    | Difference(left: Expr, right: Expr)
    | Product(left: Expr, right: Expr)
    | Inverse(of: Expr)
    | Root(of: Expr)

  datatype Loopback = Loopback(source: Expr, slot: Slot)

  datatype OpTrace = OpTrace(parameter: Expr, loopbacks: seq<Loopback>)

  type Slots = map<Slot, real>

  datatype Inputs = Inputs(parameter: real, gradient: real, learningRate: real, slots: Slots)

  function Slot0(s: Slots, k: Slot): real {
    if k in s then s[k] else 0.0
  }

  function Evaluate(a: Arithmetic, e: Expr, i: Inputs): real {
    match e
    case Constant(v) => v
    case Parameter => i.parameter
    case Gradient => i.gradient
    case LearningRate => i.learningRate
    case State(k) => Slot0(i.slots, k)
    case Buffer(x) => Evaluate(a, x, i)
    case Sum(x, y) => Evaluate(a, x, i) + Evaluate(a, y, i)
    case Difference(x, y) => Evaluate(a, x, i) - Evaluate(a, y, i)
    case Product(x, y) => Evaluate(a, x, i) * Evaluate(a, y, i)
    case Inverse(x) => Reciprocal(a, Evaluate(a, x, i))
    case Root(x) => a.sqrt(Evaluate(a, x, i))
  }

  /** All loopbacks read the state of before the step. */
  function LoopBack(a: Arithmetic, ls: seq<Loopback>, i: Inputs): Slots {
    if ls == [] then i.slots else
      var l := ls[|ls| - 1];
      LoopBack(a, ls[..|ls| - 1], i)[l.slot := Evaluate(a, l.source, i)]
  }

  /* ---- the graph the program builds ---- */

  /** Weight decay enters the graph only when it is positive. */
  predicate Decays(o: Options) {
    o.weightDecay > 0.0
  }

  function EffectiveGradient(o: Options): Expr {
    var copy := Buffer(Gradient);
    if Decays(o) && !o.adamW then Sum(copy, Product(Constant(o.weightDecay), Parameter)) else copy
  }

  function UpdatedMean(o: Options): Expr {
    Sum(Product(State(Mean), Constant(o.beta1)), Product(EffectiveGradient(o), Constant(1.0 - o.beta1)))
  }

  function UpdatedVariance(o: Options): Expr {
    var g := EffectiveGradient(o);
    Sum(Product(State(Variance), Constant(o.beta2)), Product(Product(g, g), Constant(1.0 - o.beta2)))
  }

  function UpdatedBeta1Pow(o: Options): Expr {
    Product(State(Beta1Pow), Constant(o.beta1))
  }

  function UpdatedBeta2Pow(o: Options): Expr {
    Product(State(Beta2Pow), Constant(o.beta2))
  }

  function BiasCorrection1(o: Options): Expr {
    Difference(Constant(1.0), UpdatedBeta1Pow(o))
  }

  function CorrectedMean(o: Options): Expr {
    if o.biasCorrection then Product(UpdatedMean(o), Inverse(BiasCorrection1(o))) else UpdatedMean(o)
  }

  function Deviation(o: Options): Expr {
    if o.biasCorrection then
      Product(Root(UpdatedVariance(o)), Inverse(Root(Difference(Constant(1.0), UpdatedBeta2Pow(o)))))
    else Root(UpdatedVariance(o))
  }

  function GenerateOpTrace(o: Options): OpTrace {
    var scaled := Product(CorrectedMean(o), Inverse(Sum(Deviation(o), Constant(o.epsilon))));
    var direction :=
      if Decays(o) && o.adamW then Sum(scaled, Product(Constant(o.weightDecay), Parameter)) else scaled;
    var updated := Difference(Parameter, Product(direction, LearningRate));
    var moments := [Loopback(UpdatedMean(o), Mean), Loopback(UpdatedVariance(o), Variance)];
    OpTrace(updated,
            if o.biasCorrection
            then moments + [Loopback(UpdatedBeta1Pow(o), Beta1Pow), Loopback(UpdatedBeta2Pow(o), Beta2Pow)]
            else moments)
  }

  datatype Point = Point(parameter: real, slots: Slots)

  /** Optimizer state before the first step. */
  function StartSlots(o: Options): Slots {
    if o.biasCorrection then map[Mean := 0.0, Variance := 0.0, Beta1Pow := 1.0, Beta2Pow := 1.0]
    else map[Mean := 0.0, Variance := 0.0]
  }

  function InputsAt(o: Options, p: Point, g: real): Inputs {
    Inputs(p.parameter, g, o.learningRate, p.slots)
  }

  function TraceStep(a: Arithmetic, o: Options, p: Point, g: real): Point {
    var t := GenerateOpTrace(o);
    Point(Evaluate(a, t.parameter, InputsAt(o, p, g)), LoopBack(a, t.loopbacks, InputsAt(o, p, g)))
  }

  function RunTrace(a: Arithmetic, o: Options, start: real, gs: seq<real>): Point {
    if gs == [] then Point(start, StartSlots(o)) else TraceStep(a, o, RunTrace(a, o, start, gs[..|gs| - 1]), gs[|gs| - 1])
  }

  /* ---- the reference ---- */

  datatype Moments = Moments(parameter: real, mean: real, variance: real)

  /** One element after one reference step without bias correction. */
  function ReferenceStep(a: Arithmetic, o: Options, m: Moments, gradient: real): Moments {
    var decayed := if o.weightDecay != 0.0 && o.adamW then m.parameter * (1.0 - o.learningRate * o.weightDecay) else m.parameter;
    var g := if o.weightDecay != 0.0 && !o.adamW then gradient + o.weightDecay * m.parameter else gradient;
    var mean := m.mean * o.beta1 + (1.0 - o.beta1) * g;
    var variance := m.variance * o.beta2 + (1.0 - o.beta2) * (g * g);
    var denominator := a.sqrt(variance) + o.epsilon;
    Moments(decayed + (-o.learningRate) * Divide(a, mean, denominator), mean, variance)
  }

  function RunReference(a: Arithmetic, o: Options, start: real, gs: seq<real>): Moments {
    if gs == [] then Moments(start, 0.0, 0.0)
    else ReferenceStep(a, o, RunReference(a, o, start, gs[..|gs| - 1]), gs[|gs| - 1])
  }

  ghost predicate Agree(p: Point, m: Moments) {
    p.parameter == m.parameter && Mean in p.slots && p.slots[Mean] == m.mean
    && Variance in p.slots && p.slots[Variance] == m.variance
  }

  lemma LoopBackTwo(a: Arithmetic, x: Loopback, y: Loopback, i: Inputs)
    ensures LoopBack(a, [x, y], i) == i.slots[x.slot := Evaluate(a, x.source, i)][y.slot := Evaluate(a, y.source, i)]
  {
    hide Evaluate;
    assert [x, y][..1] == [x] && [x][..0] == [];
    assert LoopBack(a, [], i) == i.slots;
    assert LoopBack(a, [x], i) == i.slots[x.slot := Evaluate(a, x.source, i)];
  }

  /** Scaling the parameter first or adding its share to the direction is the same. */
  lemma DecoupledDecay(p: real, q: real, wd: real, lr: real)
    ensures p - (q + wd * p) * lr == p * (1.0 - lr * wd) + (-lr) * q
  {
    assert (q + wd * p) * lr == q * lr + (wd * p) * lr;
    assert p * (1.0 - lr * wd) == p - p * (lr * wd);
    assert (wd * p) * lr == p * (lr * wd);
  }

  lemma PlainStep(p: real, q: real, lr: real)
    ensures p - q * lr == p + (-lr) * q
  {
  }

  /** The gradient that enters the moments, as a number. */
  function DecayedGradient(o: Options, p: real, g: real): real {
    if Decays(o) && !o.adamW then g + o.weightDecay * p else g
  }

  lemma EvaluateGradient(a: Arithmetic, o: Options, i: Inputs)
    ensures Evaluate(a, EffectiveGradient(o), i) == DecayedGradient(o, i.parameter, i.gradient)
  {
    var copy, decay := Buffer(Gradient), Product(Constant(o.weightDecay), Parameter);
    assert Evaluate(a, copy, i) == Evaluate(a, Gradient, i) == i.gradient;
    assert Evaluate(a, decay, i) == Evaluate(a, Constant(o.weightDecay), i) * Evaluate(a, Parameter, i);
    assert Evaluate(a, Sum(copy, decay), i) == Evaluate(a, copy, i) + Evaluate(a, decay, i);
  }

  lemma EvaluateMean(a: Arithmetic, o: Options, i: Inputs)
    ensures Evaluate(a, UpdatedMean(o), i) ==
      Slot0(i.slots, Mean) * o.beta1 + DecayedGradient(o, i.parameter, i.gradient) * (1.0 - o.beta1)
  {
    EvaluateGradient(a, o, i);
    hide EffectiveGradient, DecayedGradient;
    var e := EffectiveGradient(o);
    assert Evaluate(a, Product(State(Mean), Constant(o.beta1)), i) == Slot0(i.slots, Mean) * o.beta1;
    assert Evaluate(a, Product(e, Constant(1.0 - o.beta1)), i) == Evaluate(a, e, i) * (1.0 - o.beta1);
  }

  lemma EvaluateVariance(a: Arithmetic, o: Options, i: Inputs)
    ensures var g := DecayedGradient(o, i.parameter, i.gradient);
      Evaluate(a, UpdatedVariance(o), i) == Slot0(i.slots, Variance) * o.beta2 + (g * g) * (1.0 - o.beta2)
  {
    EvaluateGradient(a, o, i);
    hide EffectiveGradient, DecayedGradient;
    var e := EffectiveGradient(o);
    assert Evaluate(a, Product(State(Variance), Constant(o.beta2)), i) == Slot0(i.slots, Variance) * o.beta2;
    assert Evaluate(a, Product(e, e), i) == Evaluate(a, e, i) * Evaluate(a, e, i);
    assert Evaluate(a, Product(Product(e, e), Constant(1.0 - o.beta2)), i)
        == (Evaluate(a, e, i) * Evaluate(a, e, i)) * (1.0 - o.beta2);
  }

  lemma MomentsAgree(a: Arithmetic, o: Options, p: Point, m: Moments, g: real)
    requires Agree(p, m) && o.weightDecay >= 0.0
    ensures Evaluate(a, UpdatedMean(o), InputsAt(o, p, g)) == ReferenceStep(a, o, m, g).mean
    ensures Evaluate(a, UpdatedVariance(o), InputsAt(o, p, g)) == ReferenceStep(a, o, m, g).variance
  {
    hide Evaluate;
    var i := InputsAt(o, p, g);
    EvaluateMean(a, o, i);
    EvaluateVariance(a, o, i);
    var e := DecayedGradient(o, p.parameter, g);
    Commute(e, 1.0 - o.beta1);
    Commute(e * e, 1.0 - o.beta2);
  }

  lemma Commute(x: real, y: real)
    ensures x * y == y * x
  {
  }

  /** The parameter after a step, with or without bias correction. */
  lemma EvaluateStep(a: Arithmetic, o: Options, i: Inputs)
    ensures var q := Divide(a, Evaluate(a, CorrectedMean(o), i), Evaluate(a, Deviation(o), i) + o.epsilon);
      Evaluate(a, GenerateOpTrace(o).parameter, i) ==
        if Decays(o) && o.adamW then i.parameter - (q + o.weightDecay * i.parameter) * i.learningRate
        else i.parameter - q * i.learningRate
  {
    hide CorrectedMean, Deviation, Reciprocal;
    var under := Sum(Deviation(o), Constant(o.epsilon));
    var scaled := Product(CorrectedMean(o), Inverse(under));
    var decay := Product(Constant(o.weightDecay), Parameter);
    assert Evaluate(a, under, i) == Evaluate(a, Deviation(o), i) + o.epsilon;
    assert Evaluate(a, Inverse(under), i) == Reciprocal(a, Evaluate(a, under, i));
    assert Evaluate(a, scaled, i) == Evaluate(a, CorrectedMean(o), i) * Evaluate(a, Inverse(under), i);
    assert Evaluate(a, decay, i) == o.weightDecay * i.parameter;
    assert Evaluate(a, Sum(scaled, decay), i) == Evaluate(a, scaled, i) + Evaluate(a, decay, i);
    assert Evaluate(a, Product(Sum(scaled, decay), LearningRate), i) == Evaluate(a, Sum(scaled, decay), i) * i.learningRate;
    assert Evaluate(a, Product(scaled, LearningRate), i) == Evaluate(a, scaled, i) * i.learningRate;
  }

  lemma EvaluateParameter(a: Arithmetic, o: Options, i: Inputs)
    requires !o.biasCorrection
    ensures var q := Divide(a, Evaluate(a, UpdatedMean(o), i), a.sqrt(Evaluate(a, UpdatedVariance(o), i)) + o.epsilon);
      Evaluate(a, GenerateOpTrace(o).parameter, i) ==
        if Decays(o) && o.adamW then i.parameter - (q + o.weightDecay * i.parameter) * i.learningRate
        else i.parameter - q * i.learningRate
  {
    EvaluateStep(a, o, i);
    hide GenerateOpTrace, UpdatedMean, UpdatedVariance, Divide, Decays;
  }

  lemma StepSlots(a: Arithmetic, o: Options, p: Point, g: real)
    requires !o.biasCorrection
    ensures var s := TraceStep(a, o, p, g).slots; var i := InputsAt(o, p, g);
      && Mean in s && s[Mean] == Evaluate(a, UpdatedMean(o), i)
      && Variance in s && s[Variance] == Evaluate(a, UpdatedVariance(o), i)
  {
    hide Evaluate, LoopBack, UpdatedMean, UpdatedVariance;
    LoopBackTwo(a, Loopback(UpdatedMean(o), Mean), Loopback(UpdatedVariance(o), Variance), InputsAt(o, p, g));
  }

  lemma StepAgrees(a: Arithmetic, o: Options, p: Point, m: Moments, g: real)
    requires Agree(p, m) && o.weightDecay >= 0.0 && !o.biasCorrection
    ensures Agree(TraceStep(a, o, p, g), ReferenceStep(a, o, m, g))
  {
    hide Evaluate, GenerateOpTrace, LoopBack, UpdatedMean, UpdatedVariance, Divide;
    MomentsAgree(a, o, p, m, g);
    StepSlots(a, o, p, g);
    EvaluateParameter(a, o, InputsAt(o, p, g));
    var r := ReferenceStep(a, o, m, g);
    var q := Divide(a, r.mean, a.sqrt(r.variance) + o.epsilon);
    DecoupledDecay(p.parameter, q, o.weightDecay, o.learningRate);
    PlainStep(p.parameter, q, o.learningRate);
  }

  /** For every gradient sequence the graph without bias correction and the reference agree on the parameter
      and both moments after every step, plain and with decoupled weight decay. */
  lemma {:induction false} TraceMatchesReference(a: Arithmetic, o: Options, start: real, gs: seq<real>)
    requires o.weightDecay >= 0.0 && !o.biasCorrection
    ensures Agree(RunTrace(a, o, start, gs), RunReference(a, o, start, gs))
    decreases |gs|
  {
    hide TraceStep, ReferenceStep;
    if gs != [] {
      var n := |gs| - 1;
      TraceMatchesReference(a, o, start, gs[..n]);
      StepAgrees(a, o, RunTrace(a, o, start, gs[..n]), RunReference(a, o, start, gs[..n]), gs[n]);
    }
  }

  /* ---- bias correction ---- */

  function Power(b: real, n: nat): real {
    if n == 0 then 1.0 else Power(b, n - 1) * b
  }

  lemma NextPower(b: real, n: nat)
    requires n > 0
    ensures Power(b, n) == Power(b, n - 1) * b
  {
  }

  lemma NonNegative(x: real, y: real)
    requires x >= 0.0 && y >= 0.0
    ensures x * y >= 0.0
  {
  }

  lemma {:induction false} PowerBelowOne(b: real, n: nat)
    requires 0.0 <= b < 1.0
    ensures 0.0 <= Power(b, n) <= 1.0
    ensures n > 0 ==> Power(b, n) <= b
  {
    if n > 0 {
      PowerBelowOne(b, n - 1);
      var p := Power(b, n - 1);
      NonNegative(p, b);
      NonNegative(1.0 - p, b);
      assert (1.0 - p) * b == b - p * b;
    }
  }

  lemma LoopBackFour(a: Arithmetic, w: Loopback, x: Loopback, y: Loopback, z: Loopback, i: Inputs)
    ensures LoopBack(a, [w, x, y, z], i) ==
      i.slots[w.slot := Evaluate(a, w.source, i)][x.slot := Evaluate(a, x.source, i)]
             [y.slot := Evaluate(a, y.source, i)][z.slot := Evaluate(a, z.source, i)]
  {
    assert [w, x, y, z][..3] == [w, x, y] && [w, x, y][..2] == [w, x];
    hide Evaluate;
    LoopBackTwo(a, w, x, i);
  }

  lemma CorrectedStepSlots(a: Arithmetic, o: Options, p: Point, g: real)
    requires o.biasCorrection
    ensures var s := TraceStep(a, o, p, g).slots; var i := InputsAt(o, p, g);
      && Mean in s && s[Mean] == Evaluate(a, UpdatedMean(o), i)
      && Variance in s && s[Variance] == Evaluate(a, UpdatedVariance(o), i)
      && Beta1Pow in s && s[Beta1Pow] == Evaluate(a, UpdatedBeta1Pow(o), i)
      && Beta2Pow in s && s[Beta2Pow] == Evaluate(a, UpdatedBeta2Pow(o), i)
  {
    hide Evaluate, LoopBack, UpdatedMean, UpdatedVariance, UpdatedBeta1Pow, UpdatedBeta2Pow;
    var i := InputsAt(o, p, g);
    var w, x := Loopback(UpdatedMean(o), Mean), Loopback(UpdatedVariance(o), Variance);
    var y, z := Loopback(UpdatedBeta1Pow(o), Beta1Pow), Loopback(UpdatedBeta2Pow(o), Beta2Pow);
    LoopBackFour(a, w, x, y, z, i);
    assert [w, x] + [y, z] == [w, x, y, z];
  }

  /** The looped-back powers are the powers of the coefficients, whatever the gradients. */
  lemma {:induction false} PowersLoopBack(a: Arithmetic, o: Options, start: real, gs: seq<real>)
    requires o.biasCorrection
    ensures var s := RunTrace(a, o, start, gs).slots;
      Beta1Pow in s && s[Beta1Pow] == Power(o.beta1, |gs|) && Beta2Pow in s && s[Beta2Pow] == Power(o.beta2, |gs|)
    decreases |gs|
  {
    if gs != [] {
      hide TraceStep;
      var n := |gs| - 1;
      PowersLoopBack(a, o, start, gs[..n]);
      CorrectedStepSlots(a, o, RunTrace(a, o, start, gs[..n]), gs[n]);
    }
  }

  /** A mean over weights that sum to `1 - p`. */
  ghost predicate Weighted(mean: real, p: real, lo: real, hi: real) {
    lo * (1.0 - p) <= mean <= hi * (1.0 - p)
  }

  /** One step of the average stays between the scaled bounds. */
  lemma AverageBounds(mean: real, g: real, b: real, p: real, lo: real, hi: real, next: real, q: real)
    requires 0.0 <= b < 1.0 && lo <= g <= hi && Weighted(mean, p, lo, hi)
    requires next == mean * b + g * (1.0 - b) && q == p * b
    ensures Weighted(next, q, lo, hi)
  {
    UpperAverage(mean, g, b, p, hi);
    UpperAverage(-mean, -g, b, p, -lo);
    assert (-mean) * b == -(mean * b) && (-g) * (1.0 - b) == -(g * (1.0 - b));
    assert (-lo) * (1.0 - p * b) == -(lo * (1.0 - p * b));
  }

  lemma UpperAverage(mean: real, g: real, b: real, p: real, hi: real)
    requires 0.0 <= b < 1.0 && g <= hi && mean <= hi * (1.0 - p)
    ensures mean * b + g * (1.0 - b) <= hi * (1.0 - p * b)
  {
    var top, rest := hi * (1.0 - p), 1.0 - b;
    Monotone(mean, top, b);
    Monotone(g, hi, rest);
    AddInequalities(mean * b, top * b, g * rest, hi * rest);
    Blend(hi, p, b);
  }

  lemma AddInequalities(u: real, w: real, v: real, z: real)
    requires u <= w && v <= z
    ensures u + v <= w + z
  {
  }

  lemma Monotone(x: real, y: real, c: real)
    requires x <= y && c >= 0.0
    ensures x * c <= y * c
  {
    NonNegative(y - x, c);
    assert (y - x) * c == y * c - x * c;
  }

  lemma Blend(c: real, p: real, b: real)
    ensures (c * (1.0 - p)) * b + c * (1.0 - b) == c * (1.0 - p * b)
  {
    assert (c * (1.0 - p)) * b == c * b - c * p * b;
    assert c * (1.0 - b) == c - c * b;
    assert c * (1.0 - p * b) == c - c * p * b;
  }

  ghost predicate Between(gs: seq<real>, lo: real, hi: real) {
    forall i :: 0 <= i < |gs| ==> lo <= gs[i] <= hi
  }

  /** The looped-back mean after one step. */
  lemma MeanStep(a: Arithmetic, o: Options, p: Point, g: real)
    requires o.biasCorrection && !(Decays(o) && !o.adamW) && Mean in p.slots
    ensures var s := TraceStep(a, o, p, g).slots; Mean in s && s[Mean] == p.slots[Mean] * o.beta1 + g * (1.0 - o.beta1)
  {
    hide TraceStep, Evaluate, UpdatedMean;
    CorrectedStepSlots(a, o, p, g);
    EvaluateMean(a, o, InputsAt(o, p, g));
  }

  lemma {:induction false} MeanBounds(a: Arithmetic, o: Options, start: real, gs: seq<real>, lo: real, hi: real)
    requires o.biasCorrection && 0.0 <= o.beta1 < 1.0 && !(Decays(o) && !o.adamW) && Between(gs, lo, hi)
    ensures var s := RunTrace(a, o, start, gs).slots; Mean in s && Weighted(s[Mean], Power(o.beta1, |gs|), lo, hi)
    decreases |gs|
  {
    hide TraceStep, Decays, Weighted;
    if gs == [] {
      assert Weighted(0.0, Power(o.beta1, 0), lo, hi) by { NothingWeighted(lo, hi); }
    } else {
      var n := |gs| - 1;
      var before := RunTrace(a, o, start, gs[..n]);
      MeanBounds(a, o, start, gs[..n], lo, hi);
      MeanStep(a, o, before, gs[n]);
      AverageBounds(before.slots[Mean], gs[n], o.beta1, Power(o.beta1, n), lo, hi,
                    RunTrace(a, o, start, gs).slots[Mean], Power(o.beta1, n + 1));
    }
  }

  lemma NothingWeighted(lo: real, hi: real)
    ensures Weighted(0.0, 1.0, lo, hi)
  {
  }

  /** With bias correction, 0 <= beta1 < 1 and no decay of the gradient, the corrected mean used in each step
      lies between the smallest and the largest gradient seen, and its divisor is positive. */
  lemma CorrectedMeanBetweenGradients(a: Arithmetic, o: Options, start: real, gs: seq<real>, lo: real, hi: real)
    requires o.biasCorrection && 0.0 <= o.beta1 < 1.0 && !(Decays(o) && !o.adamW) && gs != [] && Between(gs, lo, hi)
    ensures var n := |gs| - 1; var i := InputsAt(o, RunTrace(a, o, start, gs[..n]), gs[n]);
      Evaluate(a, BiasCorrection1(o), i) == 1.0 - Power(o.beta1, |gs|) > 0.0
      && lo <= Evaluate(a, CorrectedMean(o), i) <= hi
  {
    hide TraceStep, Evaluate, UpdatedMean, Power, Reciprocal, LoopBack;
    var n := |gs| - 1;
    var before := RunTrace(a, o, start, gs[..n]);
    var i := InputsAt(o, before, gs[n]);
    var power := Power(o.beta1, |gs|);
    PowersLoopBack(a, o, start, gs[..n]);
    NextPower(o.beta1, |gs|);
    PowerBelowOne(o.beta1, |gs|);
    MeanBounds(a, o, start, gs, lo, hi);
    CorrectedStepSlots(a, o, before, gs[n]);
    EvaluateCorrection(a, o, i, power);
    QuotientBetween(a, Evaluate(a, UpdatedMean(o), i), 1.0 - power, lo, hi);
  }

  lemma EvaluateCorrection(a: Arithmetic, o: Options, i: Inputs, power: real)
    requires o.biasCorrection && power == Slot0(i.slots, Beta1Pow) * o.beta1
    ensures Evaluate(a, BiasCorrection1(o), i) == 1.0 - power
    ensures Evaluate(a, CorrectedMean(o), i) == Evaluate(a, UpdatedMean(o), i) * Reciprocal(a, 1.0 - power)
  {
    hide UpdatedMean, Reciprocal;
    assert Evaluate(a, UpdatedBeta1Pow(o), i) == power;
    assert Evaluate(a, Inverse(BiasCorrection1(o)), i) == Reciprocal(a, Evaluate(a, BiasCorrection1(o), i));
  }

  lemma QuotientBetween(a: Arithmetic, m: real, d: real, lo: real, hi: real)
    requires d > 0.0 && lo * d <= m <= hi * d
    ensures lo <= m * Reciprocal(a, d) <= hi
  {
    var inverse := 1.0 / d;
    assert d * inverse == 1.0;
    Monotone(lo * d, m, inverse);
    Monotone(m, hi * d, inverse);
    assert (lo * d) * inverse == lo * (d * inverse);
    assert (hi * d) * inverse == hi * (d * inverse);
  }
}
