/** The Adam operation graph with bias correction, which is the default, against the recursion on numbers. */
module AdamCorrection {
  import opened Adam

  /** Where the divisor is not zero, dividing is dividing. */
  lemma DivideIsQuotient(a: Arithmetic, x: real, y: real)
    requires y != 0.0
    ensures Divide(a, x, y) == x / y && Divide(a, x, y) * y == x
  {
    assert x * (1.0 / y) == x / y;
  }

  /** One element after one more gradient: the moments are averages. Each is divided by what its coefficient's power leaves
      of one, the second one under the root. Weight decay is added to the gradient or taken off the parameter. */
  function CorrectedStep(a: Arithmetic, o: Options, m: Moments, gradient: real, power1: real, power2: real): Moments {
    var g := if o.adamW then gradient else gradient + o.weightDecay * m.parameter;
    var mean := o.beta1 * m.mean + (1.0 - o.beta1) * g;
    var variance := o.beta2 * m.variance + (1.0 - o.beta2) * (g * g);
    var unbiased := Divide(a, mean, 1.0 - power1);
    var deviation := Divide(a, a.sqrt(variance), a.sqrt(1.0 - power2));
    var kept := if o.adamW then m.parameter * (1.0 - o.learningRate * o.weightDecay) else m.parameter;
    Moments(kept - o.learningRate * Divide(a, unbiased, deviation + o.epsilon), mean, variance)
  }

  /** After n gradients the powers are the n-th ones. */
  function RunCorrected(a: Arithmetic, o: Options, start: real, gs: seq<real>): Moments {
    if gs == [] then Moments(start, 0.0, 0.0) else
      var n := |gs|;
      CorrectedStep(a, o, RunCorrected(a, o, start, gs[..n - 1]), gs[n - 1], Power(o.beta1, n), Power(o.beta2, n))
  }

  /* ---- what the graph computes in one step ---- */

  lemma EvaluateUnbiased(a: Arithmetic, o: Options, i: Inputs, power1: real)
    requires o.biasCorrection && power1 == Slot0(i.slots, Beta1Pow) * o.beta1
    ensures Evaluate(a, CorrectedMean(o), i) == Divide(a, Evaluate(a, UpdatedMean(o), i), 1.0 - power1)
  {
    hide UpdatedMean, Reciprocal;
    assert Evaluate(a, UpdatedBeta1Pow(o), i) == power1;
    assert Evaluate(a, BiasCorrection1(o), i) == 1.0 - power1;
    assert Evaluate(a, Inverse(BiasCorrection1(o)), i) == Reciprocal(a, Evaluate(a, BiasCorrection1(o), i));
  }

  lemma EvaluateDeviation(a: Arithmetic, o: Options, i: Inputs, power2: real)
    requires o.biasCorrection && power2 == Slot0(i.slots, Beta2Pow) * o.beta2
    ensures Evaluate(a, Deviation(o), i) == Divide(a, a.sqrt(Evaluate(a, UpdatedVariance(o), i)), a.sqrt(1.0 - power2))
  {
    hide UpdatedVariance, Reciprocal;
    var rest := Difference(Constant(1.0), UpdatedBeta2Pow(o));
    assert Evaluate(a, UpdatedBeta2Pow(o), i) == power2;
    assert Evaluate(a, rest, i) == 1.0 - power2;
    assert Evaluate(a, Root(rest), i) == a.sqrt(Evaluate(a, rest, i));
    assert Evaluate(a, Inverse(Root(rest)), i) == Reciprocal(a, Evaluate(a, Root(rest), i));
    assert Evaluate(a, Root(UpdatedVariance(o)), i) == a.sqrt(Evaluate(a, UpdatedVariance(o), i));
  }

  /* ---- whole runs ---- */

  /** The moments in the order in which the graph multiplies. */
  lemma SameMoments(a: Arithmetic, o: Options, m: Moments, gradient: real, power1: real, power2: real)
    requires o.weightDecay >= 0.0
    ensures var r := CorrectedStep(a, o, m, gradient, power1, power2); var g := DecayedGradient(o, m.parameter, gradient);
      && r.mean == m.mean * o.beta1 + g * (1.0 - o.beta1)
      && r.variance == m.variance * o.beta2 + (g * g) * (1.0 - o.beta2)
  {
    hide Divide;
    var g := DecayedGradient(o, m.parameter, gradient);
    NoDecay(m.parameter);
    assert g == if o.adamW then gradient else gradient + o.weightDecay * m.parameter;
    Commute(o.beta1, m.mean);
    Commute(o.beta2, m.variance);
    Commute(g, 1.0 - o.beta1);
    Commute(g * g, 1.0 - o.beta2);
  }

  lemma SameParameter(a: Arithmetic, o: Options, m: Moments, gradient: real, power1: real, power2: real)
    requires o.weightDecay >= 0.0
    ensures var r := CorrectedStep(a, o, m, gradient, power1, power2);
      var q := Divide(a, Divide(a, r.mean, 1.0 - power1), Divide(a, a.sqrt(r.variance), a.sqrt(1.0 - power2)) + o.epsilon);
      r.parameter ==
        if Decays(o) && o.adamW then m.parameter - (q + o.weightDecay * m.parameter) * o.learningRate
        else m.parameter - q * o.learningRate
  {
    hide Divide;
    var r := CorrectedStep(a, o, m, gradient, power1, power2);
    var q := Divide(a, Divide(a, r.mean, 1.0 - power1), Divide(a, a.sqrt(r.variance), a.sqrt(1.0 - power2)) + o.epsilon);
    var kept := if o.adamW then m.parameter * (1.0 - o.learningRate * o.weightDecay) else m.parameter;
    assert r.parameter == kept - o.learningRate * q;
    Commute(q, o.learningRate);
    KeptParameter(o, m.parameter, q);
  }

  lemma KeptParameter(o: Options, p: real, q: real)
    requires o.weightDecay >= 0.0
    ensures (if o.adamW then p * (1.0 - o.learningRate * o.weightDecay) else p) - q * o.learningRate ==
      if Decays(o) && o.adamW then p - (q + o.weightDecay * p) * o.learningRate else p - q * o.learningRate
  {
    DecoupledDecay(p, q, o.weightDecay, o.learningRate);
    PlainStep(p * (1.0 - o.learningRate * o.weightDecay), q, o.learningRate);
    if o.weightDecay == 0.0 {
      assert o.learningRate * o.weightDecay == 0.0;
    }
  }

  lemma NoDecay(p: real)
    ensures 0.0 * p == 0.0
  {
  }

  /** One step of the graph, whose slots hold the powers of the step before. */
  lemma CorrectedStepAgrees(a: Arithmetic, o: Options, p: Point, m: Moments, gradient: real, power1: real, power2: real)
    requires Agree(p, m) && o.biasCorrection && o.weightDecay >= 0.0
    requires Beta1Pow in p.slots && power1 == p.slots[Beta1Pow] * o.beta1
    requires Beta2Pow in p.slots && power2 == p.slots[Beta2Pow] * o.beta2
    ensures Agree(TraceStep(a, o, p, gradient), CorrectedStep(a, o, m, gradient, power1, power2))
  {
    hide Evaluate, GenerateOpTrace, LoopBack, UpdatedMean, UpdatedVariance, CorrectedMean, Deviation, Divide, DecayedGradient,
      CorrectedStep, TraceStep;
    var i := InputsAt(o, p, gradient);
    SameMoments(a, o, m, gradient, power1, power2);
    SameParameter(a, o, m, gradient, power1, power2);
    EvaluateMean(a, o, i);
    EvaluateVariance(a, o, i);
    EvaluateUnbiased(a, o, i, power1);
    EvaluateDeviation(a, o, i, power2);
    EvaluateStep(a, o, i);
    CorrectedStepSlots(a, o, p, gradient);
    StepParameter(a, o, p, gradient);
    var r := CorrectedStep(a, o, m, gradient, power1, power2);
    assert Evaluate(a, UpdatedMean(o), i) == r.mean && Evaluate(a, UpdatedVariance(o), i) == r.variance;
    assert TraceStep(a, o, p, gradient).parameter == r.parameter;
  }

  lemma StepParameter(a: Arithmetic, o: Options, p: Point, gradient: real)
    ensures TraceStep(a, o, p, gradient).parameter == Evaluate(a, GenerateOpTrace(o).parameter, InputsAt(o, p, gradient))
  {
    hide Evaluate, GenerateOpTrace, LoopBack;
  }

  /** For every gradient sequence the graph with bias correction and the recursion agree on the parameter and both moments
      after every step, plain and with decoupled weight decay. */
  lemma {:induction false} TraceMatchesCorrected(a: Arithmetic, o: Options, start: real, gs: seq<real>)
    requires o.weightDecay >= 0.0 && o.biasCorrection
    ensures Agree(RunTrace(a, o, start, gs), RunCorrected(a, o, start, gs))
    decreases |gs|
  {
    hide TraceStep, CorrectedStep;
    if gs != [] {
      var n := |gs|;
      TraceMatchesCorrected(a, o, start, gs[..n - 1]);
      PowersLoopBack(a, o, start, gs[..n - 1]);
      NextPower(o.beta1, n);
      NextPower(o.beta2, n);
      CorrectedStepAgrees(a, o, RunTrace(a, o, start, gs[..n - 1]), RunCorrected(a, o, start, gs[..n - 1]), gs[n - 1],
                          Power(o.beta1, n), Power(o.beta2, n));
    }
  }

  /** The state that is kept from step to step: both moments, and the powers with bias correction only. */
  lemma {:induction false} SlotsKept(a: Arithmetic, o: Options, start: real, gs: seq<real>)
    ensures RunTrace(a, o, start, gs).slots.Keys == {Mean, Variance} + (if o.biasCorrection then {Beta1Pow, Beta2Pow} else {})
  {
    if gs != [] {
      hide Evaluate;
      SlotsKept(a, o, start, gs[..|gs| - 1]);
      var i := InputsAt(o, RunTrace(a, o, start, gs[..|gs| - 1]), gs[|gs| - 1]);
      var w, x := Loopback(UpdatedMean(o), Mean), Loopback(UpdatedVariance(o), Variance);
      var y, z := Loopback(UpdatedBeta1Pow(o), Beta1Pow), Loopback(UpdatedBeta2Pow(o), Beta2Pow);
      LoopBackTwo(a, w, x, i);
      LoopBackFour(a, w, x, y, z, i);
      assert [w, x] + [y, z] == [w, x, y, z];
    }
  }

  /* ---- an input ---- */

  /** Coefficients 0.9 and 0.99: the first step goes by the learning rate, whatever the size of the gradient's square. */
  lemma FirstStepExample(a: Arithmetic)
    requires a.sqrt(0.01) == 0.1
    ensures RunTrace(a, Options(0.9, 0.99, 0.0, 0.0, 1.0, true, false), 0.0, [1.0]).parameter == -1.0
  {
    var o := Options(0.9, 0.99, 0.0, 0.0, 1.0, true, false);
    TraceMatchesCorrected(a, o, 0.0, [1.0]);
    assert [1.0][..0] == [];
    assert Power(0.9, 1) == Power(0.9, 0) * 0.9 && Power(0.99, 1) == Power(0.99, 0) * 0.99;
  }
}
