/** The reference optimizer as it runs: tensors updated in place, state created the first time a gradient arrives. */
module AdamReference {

  import opened Adam
  import opened Wrappers

  /** What the update of one tensor reads and writes; with AMSGrad also the largest second moment of each element. */
  datatype Values = Values(parameter: seq<real>, mean: seq<real>, variance: seq<real>, largest: Option<seq<real>>)

  ghost predicate SameShape(t: Values, n: nat) {
    |t.parameter| == n && |t.mean| == n && |t.variance| == n && (t.largest.Some? ==> |t.largest.value| == n)
  }

  datatype Element = Element(moments: Moments, largest: Option<real>)

  function At(t: Values, k: nat): Element
    requires k < |t.parameter| && k < |t.mean| && k < |t.variance| && (t.largest.Some? ==> k < |t.largest.value|)
  {
    Element(Moments(t.parameter[k], t.mean[k], t.variance[k]),
            match t.largest case None => None case Some(x) => Some(x[k]))
  }

  function Max(x: real, y: real): real {
    if x >= y then x else y
  }

  /** The scalar reference; with AMSGrad the parameter moves by the largest second moment so far instead of the latest. */
  function StepElement(a: Arithmetic, o: Options, e: Element, g: real): Element {
    var m := ReferenceStep(a, o, e.moments, g);
    match e.largest
    case None => Element(m, None)
    case Some(x) =>
      var most := Max(x, m.variance);
      var p := DecayedElement(o, e.moments.parameter);
      Element(m.(parameter := p + (-o.learningRate) * Divide(a, m.mean, a.sqrt(most) + o.epsilon)), Some(most))
  }

  function DecayFactor(o: Options): real {
    1.0 - o.learningRate * o.weightDecay
  }

  function DecayedElement(o: Options, p: real): real {
    if o.weightDecay != 0.0 && o.adamW then p * DecayFactor(o) else p
  }

  /** Every element has made one step of the scalar reference. */
  ghost predicate Stepped(a: Arithmetic, o: Options, t: Values, grad: seq<real>, u: Values) {
    && SameShape(t, |grad|) && SameShape(u, |grad|)
    && forall k :: 0 <= k < |grad| ==> At(u, k) == StepElement(a, o, At(t, k), grad[k])
  }

  /* ---- elementwise arithmetic on whole tensors ---- */

  function Scaled(x: seq<real>, c: real): seq<real> {
    seq(|x|, k requires 0 <= k < |x| => x[k] * c)
  }

  function Plus(x: seq<real>, y: seq<real>, alpha: real): seq<real>
    requires |x| == |y|
  {
    seq(|x|, k requires 0 <= k < |x| => x[k] + alpha * y[k])
  }

  function PlusProduct(x: seq<real>, y: seq<real>, z: seq<real>, value: real): seq<real>
    requires |x| == |y| == |z|
  {
    seq(|x|, k requires 0 <= k < |x| => x[k] + value * (y[k] * z[k]))
  }

  function PlusQuotient(a: Arithmetic, x: seq<real>, y: seq<real>, z: seq<real>, value: real): seq<real>
    requires |x| == |y| == |z|
  {
    seq(|x|, k requires 0 <= k < |x| => x[k] + value * Divide(a, y[k], z[k]))
  }

  function Maximum(x: seq<real>, y: seq<real>): seq<real>
    requires |x| == |y|
  {
    seq(|x|, k requires 0 <= k < |x| => Max(x[k], y[k]))
  }

  function RootPlus(a: Arithmetic, x: seq<real>, epsilon: real): seq<real> {
    seq(|x|, k requires 0 <= k < |x| => a.sqrt(x[k]) + epsilon)
  }

  /** The tensors after the parameter was decayed to `decayed` and the gradient to `grad`. */
  function Updated(a: Arithmetic, o: Options, t: Values, decayed: seq<real>, grad: seq<real>): Values
    requires SameShape(t, |grad|) && |decayed| == |grad|
  {
    var mean := Plus(Scaled(t.mean, o.beta1), grad, 1.0 - o.beta1);
    var variance := PlusProduct(Scaled(t.variance, o.beta2), grad, grad, 1.0 - o.beta2);
    var largest := match t.largest case None => None case Some(x) => Some(Maximum(x, variance));
    var under := match largest case None => variance case Some(x) => x;
    Values(PlusQuotient(a, decayed, mean, RootPlus(a, under, o.epsilon), -o.learningRate), mean, variance, largest)
  }

  lemma Shape(a: Arithmetic, o: Options, t: Values, decayed: seq<real>, grad: seq<real>)
    requires SameShape(t, |grad|) && |decayed| == |grad|
    ensures SameShape(Updated(a, o, t, decayed, grad), |grad|)
  {
  }

  lemma ElementUpdated(a: Arithmetic, o: Options, t: Values, decayed: seq<real>, grad: seq<real>, k: nat)
    requires SameShape(t, |grad|) && |decayed| == |grad| && k < |grad|
    ensures var u := Updated(a, o, t, decayed, grad);
      var mean := t.mean[k] * o.beta1 + (1.0 - o.beta1) * grad[k];
      var variance := t.variance[k] * o.beta2 + (1.0 - o.beta2) * (grad[k] * grad[k]);
      && SameShape(u, |grad|) && (u.largest.Some? <==> t.largest.Some?)
      && u.mean[k] == mean && u.variance[k] == variance
      && (t.largest.Some? ==> u.largest.value[k] == Max(t.largest.value[k], variance))
      && var under := if t.largest.Some? then u.largest.value[k] else variance;
         u.parameter[k] == decayed[k] + (-o.learningRate) * Divide(a, u.mean[k], a.sqrt(under) + o.epsilon)
  {
    hide Divide, Max;
    var u := Updated(a, o, t, decayed, grad);
    var mean, variance := Scaled(t.mean, o.beta1), Scaled(t.variance, o.beta2);
    assert mean[k] == t.mean[k] * o.beta1 && variance[k] == t.variance[k] * o.beta2;
    assert u.mean[k] == mean[k] + (1.0 - o.beta1) * grad[k];
    assert u.variance[k] == variance[k] + (1.0 - o.beta2) * (grad[k] * grad[k]);
    var under := match u.largest case None => u.variance case Some(x) => x;
    var denominator := RootPlus(a, under, o.epsilon);
    assert denominator[k] == a.sqrt(under[k]) + o.epsilon;
    assert u.parameter[k] == decayed[k] + (-o.learningRate) * Divide(a, u.mean[k], denominator[k]);
  }

  function Decayed(o: Options, p: seq<real>): seq<real> {
    if o.weightDecay != 0.0 && o.adamW then Scaled(p, DecayFactor(o)) else p
  }

  function Regularised(o: Options, p: seq<real>, grad: seq<real>): seq<real>
    requires |p| == |grad|
  {
    if o.weightDecay != 0.0 && !o.adamW then Plus(grad, p, o.weightDecay) else grad
  }

  /** The tensor operations in their order make every element step as the scalar reference does. */
  lemma UpdatedIsStepped(a: Arithmetic, o: Options, t: Values, g: seq<real>)
    requires SameShape(t, |g|)
    ensures |Decayed(o, t.parameter)| == |Regularised(o, t.parameter, g)| == |g|
    ensures Stepped(a, o, t, g, Updated(a, o, t, Decayed(o, t.parameter), Regularised(o, t.parameter, g)))
  {
    hide Updated, StepElement;
    var decayed, grad := Decayed(o, t.parameter), Regularised(o, t.parameter, g);
    Shape(a, o, t, decayed, grad);
    var u := Updated(a, o, t, decayed, grad);
    forall k | 0 <= k < |g| ensures At(u, k) == StepElement(a, o, At(t, k), g[k]) {
      ElementUpdated(a, o, t, decayed, grad, k);
      ScalarStep(a, o, At(t, k), g[k], decayed[k], grad[k], At(u, k));
    }
  }

  lemma ScalarStep(a: Arithmetic, o: Options, e: Element, g: real, decayed: real, grad: real, r: Element)
    requires decayed == DecayedElement(o, e.moments.parameter)
    requires grad == if o.weightDecay != 0.0 && !o.adamW then g + o.weightDecay * e.moments.parameter else g
    requires r.moments.mean == e.moments.mean * o.beta1 + (1.0 - o.beta1) * grad
    requires r.moments.variance == e.moments.variance * o.beta2 + (1.0 - o.beta2) * (grad * grad)
    requires r.largest == match e.largest case None => None case Some(x) => Some(Max(x, r.moments.variance))
    requires var under := match r.largest case None => r.moments.variance case Some(x) => x;
      r.moments.parameter == decayed + (-o.learningRate) * Divide(a, r.moments.mean, a.sqrt(under) + o.epsilon)
    ensures r == StepElement(a, o, e, g)
  {
    hide Divide, Max;
    var s := ReferenceStep(a, o, e.moments, g);
    assert s.mean == r.moments.mean;
    assert s.variance == r.moments.variance;
    assert s.parameter == decayed + (-o.learningRate) * Divide(a, s.mean, a.sqrt(s.variance) + o.epsilon);
  }

  class Tensor {
    var data: seq<real>
    var grad: Option<seq<real>>
    /** Whether the gradient is kept in sparse form. */
    var sparse: bool

    constructor Zeros(n: nat)
      ensures data == seq(n, _ => 0.0) && grad == None && !sparse
    {
      data := seq(n, _ => 0.0);
      grad, sparse := None, false;
    }

    method Mul(c: real)
      modifies `data
      ensures data == Scaled(old(data), c)
    {
      data := Scaled(data, c);
    }

    method Add(x: seq<real>, alpha: real)
      requires |x| == |data|
      modifies `data
      ensures data == Plus(old(data), x, alpha)
    {
      data := Plus(data, x, alpha);
    }

    method AddCMul(x: seq<real>, y: seq<real>, value: real)
      requires |x| == |y| == |data|
      modifies `data
      ensures data == PlusProduct(old(data), x, y, value)
    {
      data := PlusProduct(data, x, y, value);
    }

    method SetToMaximum(x: seq<real>)
      requires |x| == |data|
      modifies `data
      ensures data == Maximum(old(data), x)
    {
      data := Maximum(data, x);
    }

    method AddCDiv(a: Arithmetic, x: seq<real>, y: seq<real>, value: real)
      requires |x| == |y| == |data|
      modifies `data
      ensures data == PlusQuotient(a, old(data), x, y, value)
    {
      data := PlusQuotient(a, data, x, y, value);
    }
  }

  function Maybe(x: Option<Tensor>): set<Tensor> {
    match x case None => {} case Some(t) => {t}
  }

  ghost function Value(p: Tensor, m: Tensor, v: Tensor, x: Option<Tensor>): Values
    reads p, m, v, Maybe(x)
  {
    Values(p.data, m.data, v.data, match x case None => None case Some(t) => Some(t.data))
  }

  /** One iteration of the update: decay, both moments, their maximum if it is kept, then the parameter. */
  method UpdateOne(
      a: Arithmetic, o: Options, param: Tensor, g: seq<real>, expAvg: Tensor, expAvgSq: Tensor, maxExpAvgSq: Option<Tensor>)
    requires param != expAvg && param != expAvgSq && expAvg != expAvgSq && Maybe(maxExpAvgSq) !! {param, expAvg, expAvgSq}
    requires SameShape(Value(param, expAvg, expAvgSq, maxExpAvgSq), |g|)
    modifies param`data, expAvg`data, expAvgSq`data, Maybe(maxExpAvgSq)`data
    ensures Stepped(a, o, old(Value(param, expAvg, expAvgSq, maxExpAvgSq)), g, Value(param, expAvg, expAvgSq, maxExpAvgSq))
  {
    hide Stepped, PlusQuotient, DecayFactor, Max;
    ghost var before := Value(param, expAvg, expAvgSq, maxExpAvgSq);
    UpdatedIsStepped(a, o, before, g);
    var grad := g;
    if o.weightDecay != 0.0 && o.adamW {
      param.Mul(DecayFactor(o));
    } else if o.weightDecay != 0.0 {
      grad := Plus(grad, param.data, o.weightDecay);
    }
    assert param.data == Decayed(o, before.parameter) && grad == Regularised(o, before.parameter, g);
    expAvg.Mul(o.beta1);
    expAvg.Add(grad, 1.0 - o.beta1);
    expAvgSq.Mul(o.beta2);
    expAvgSq.AddCMul(grad, grad, 1.0 - o.beta2);
    var denom;
    match maxExpAvgSq {
      case Some(x) =>
        x.SetToMaximum(expAvgSq.data);
        denom := RootPlus(a, x.data, o.epsilon);
      case None =>
        denom := RootPlus(a, expAvgSq.data, o.epsilon);
    }
    param.AddCDiv(a, expAvg.data, denom, -o.learningRate);
  }

  ghost predicate Apart(xs: seq<Tensor>, ys: seq<Tensor>) {
    forall i, j :: 0 <= i < |xs| && 0 <= j < |ys| ==> xs[i] != ys[j]
  }

  /** The list of maxima is empty without AMSGrad. */
  function Nth(xs: seq<Tensor>, i: nat): Option<Tensor>
    requires xs != [] ==> i < |xs|
  {
    if xs == [] then None else Some(xs[i])
  }

  /** Runs the update over the whole list; no tensor occurs twice. */
  method AdamNoBiasCorrection(
      a: Arithmetic, o: Options, params: seq<Tensor>, grads: seq<seq<real>>, expAvgs: seq<Tensor>, expAvgSqs: seq<Tensor>,
      maxExpAvgSqs: seq<Tensor>, amsGrad: bool)
    requires |params| == |grads| == |expAvgs| == |expAvgSqs| && |maxExpAvgSqs| == if amsGrad then |params| else 0
    requires NoDup(params) && NoDup(expAvgs) && NoDup(expAvgSqs) && NoDup(maxExpAvgSqs)
    requires Apart(params, expAvgs) && Apart(params, expAvgSqs) && Apart(expAvgs, expAvgSqs)
    requires Apart(params, maxExpAvgSqs) && Apart(expAvgs, maxExpAvgSqs) && Apart(expAvgSqs, maxExpAvgSqs)
    requires forall i :: 0 <= i < |params| ==>
      SameShape(Value(params[i], expAvgs[i], expAvgSqs[i], Nth(maxExpAvgSqs, i)), |grads[i]|)
    modifies params`data, expAvgs`data, expAvgSqs`data, maxExpAvgSqs`data
    ensures forall i :: 0 <= i < |params| ==>
      Stepped(a, o, old(Value(params[i], expAvgs[i], expAvgSqs[i], Nth(maxExpAvgSqs, i))), grads[i],
              Value(params[i], expAvgs[i], expAvgSqs[i], Nth(maxExpAvgSqs, i)))
  {
    hide Stepped, SameShape;
    for i := 0 to |params|
      invariant forall j :: 0 <= j < i ==>
        Stepped(a, o, old(Value(params[j], expAvgs[j], expAvgSqs[j], Nth(maxExpAvgSqs, j))), grads[j],
                Value(params[j], expAvgs[j], expAvgSqs[j], Nth(maxExpAvgSqs, j)))
      invariant forall j :: i <= j < |params| ==>
        Value(params[j], expAvgs[j], expAvgSqs[j], Nth(maxExpAvgSqs, j))
        == old(Value(params[j], expAvgs[j], expAvgSqs[j], Nth(maxExpAvgSqs, j)))
    {
      UpdateOne(a, o, params[i], grads[i], expAvgs[i], expAvgSqs[i], if amsGrad then Some(maxExpAvgSqs[i]) else None);
    }
  }

  /** The optimizer's state of one parameter. */
  datatype Record = Record(step: nat, expAvg: Tensor, expAvgSq: Tensor, maxExpAvgSq: Option<Tensor>)

  type States = map<Tensor, Record>

  function Zeros(n: nat): seq<real> {
    seq(n, _ => 0.0)
  }

  function Held(r: Record): set<Tensor> {
    {r.expAvg, r.expAvgSq} + Maybe(r.maxExpAvgSq)
  }

  /** The maximum is held with AMSGrad only, no tensor serves twice, and none of them is a parameter. */
  ghost predicate Sound(st: States, params: seq<Tensor>, amsGrad: bool) {
    && (forall p :: p in st ==>
      && st[p].expAvg != st[p].expAvgSq && Maybe(st[p].maxExpAvgSq) !! {st[p].expAvg, st[p].expAvgSq}
      && (st[p].maxExpAvgSq.Some? <==> amsGrad) && forall t :: t in Held(st[p]) ==> t !in params)
    && (forall p, q :: p in st && q in st && p != q ==> Held(st[p]) !! Held(st[q]))
  }

  function Steps(st: States, p: Tensor): nat {
    if p in st then st[p].step else 0
  }

  /** Moments that do not exist yet count as zero. */
  ghost function View(st: States, p: Tensor, amsGrad: bool): Values
    reads p, if p in st then Held(st[p]) else {}
  {
    if p in st then Value(p, st[p].expAvg, st[p].expAvgSq, st[p].maxExpAvgSq)
    else Values(p.data, Zeros(|p.data|), Zeros(|p.data|), if amsGrad then Some(Zeros(|p.data|)) else None)
  }

  ghost predicate Shaped(st: States, p: Tensor, amsGrad: bool)
    reads p, if p in st then Held(st[p]) else {}
  {
    && SameShape(View(st, p, amsGrad), |p.data|)
    && (p.grad.Some? ==> |p.grad.value| == |p.data|)
  }

  /** The lists handed to the update. */
  datatype Lists = Lists(
    params: seq<Tensor>, grads: seq<seq<real>>, expAvgs: seq<Tensor>, expAvgSqs: seq<Tensor>, maxExpAvgSqs: seq<Tensor>)

  function Extended(l: Lists, p: Tensor, grad: seq<real>, r: Record): Lists {
    Lists(l.params + [p], l.grads + [grad], l.expAvgs + [r.expAvg], l.expAvgSqs + [r.expAvgSq],
          match r.maxExpAvgSq case None => l.maxExpAvgSqs case Some(x) => l.maxExpAvgSqs + [x])
  }

  ghost predicate SameLength(l: Lists, amsGrad: bool) {
    && |l.params| == |l.grads| == |l.expAvgs| == |l.expAvgSqs|
    && |l.maxExpAvgSqs| == if amsGrad then |l.params| else 0
  }

  /** They name exactly the parameters with a gradient, with their own moments. */
  ghost predicate Collected(st: States, params: seq<Tensor>, l: Lists, amsGrad: bool)
    reads params`grad
  {
    && SameLength(l, amsGrad) && NoDup(l.params)
    && (forall k :: 0 <= k < |l.params| ==>
      && l.params[k] in params && l.params[k] in st && l.params[k].grad == Some(l.grads[k])
      && l.expAvgs[k] == st[l.params[k]].expAvg && l.expAvgSqs[k] == st[l.params[k]].expAvgSq
      && Nth(l.maxExpAvgSqs, k) == st[l.params[k]].maxExpAvgSq)
    && (forall p :: p in params && p.grad.Some? ==> p in l.params)
  }

  lemma CollectOne(before: States, st: States, params: seq<Tensor>, l: Lists, p: Tensor, amsGrad: bool)
    requires Collected(before, params, l, amsGrad)
    requires p !in params && p.grad.Some? && p in st && st == before[p := st[p]] && (st[p].maxExpAvgSq.Some? <==> amsGrad)
    ensures Collected(st, params + [p], Extended(l, p, p.grad.value, st[p]), amsGrad)
  {
    var all := l.params + [p];
    forall q | q in params + [p] && q.grad.Some? ensures q in all {
      if q in params {
        assert q in l.params;
      } else {
        assert q == p && all[|l.params|] == p;
      }
    }
  }

  lemma CollectNone(st: States, params: seq<Tensor>, l: Lists, p: Tensor, amsGrad: bool)
    requires Collected(st, params, l, amsGrad) && p.grad.None?
    ensures Collected(st, params + [p], l, amsGrad)
  {
  }

  /** What is held for the parameter at place `k`. */
  function HeldAt(l: Lists, k: nat): set<Tensor>
    requires k < |l.expAvgs| && k < |l.expAvgSqs| && (l.maxExpAvgSqs != [] ==> k < |l.maxExpAvgSqs|)
  {
    {l.expAvgs[k], l.expAvgSqs[k]} + Maybe(Nth(l.maxExpAvgSqs, k))
  }

  /** Tensors of two places are different, and so are the tensors of one place. */
  lemma PlacesApart(st: States, params: seq<Tensor>, l: Lists, amsGrad: bool, i: nat, j: nat)
    requires Collected(st, params, l, amsGrad) && Sound(st, params, amsGrad) && i < |l.params| && j < |l.params|
    ensures l.params[i] !in HeldAt(l, j) && (i != j ==> HeldAt(l, i) !! HeldAt(l, j))
    ensures l.expAvgs[i] != l.expAvgSqs[j] && Maybe(Nth(l.maxExpAvgSqs, i)) !! {l.expAvgs[j], l.expAvgSqs[j]}
  {
    var p, q := l.params[i], l.params[j];
    assert HeldAt(l, i) == Held(st[p]) && HeldAt(l, j) == Held(st[q]);
    assert i != j ==> p != q;
  }

  /** The collected lists meet what the update demands. */
  lemma CollectedFits(st: States, params: seq<Tensor>, l: Lists, amsGrad: bool)
    requires Collected(st, params, l, amsGrad) && Sound(st, params, amsGrad)
    ensures NoDup(l.expAvgs) && NoDup(l.expAvgSqs) && NoDup(l.maxExpAvgSqs)
    ensures Apart(l.params, l.expAvgs) && Apart(l.params, l.expAvgSqs) && Apart(l.expAvgs, l.expAvgSqs)
    ensures Apart(l.params, l.maxExpAvgSqs) && Apart(l.expAvgs, l.maxExpAvgSqs) && Apart(l.expAvgSqs, l.maxExpAvgSqs)
  {
    forall i, j | 0 <= i < |l.params| && 0 <= j < |l.params|
      ensures l.params[i] != l.expAvgs[j] && l.params[i] != l.expAvgSqs[j] && l.expAvgs[i] != l.expAvgSqs[j]
      ensures i != j ==> l.expAvgs[i] != l.expAvgs[j] && l.expAvgSqs[i] != l.expAvgSqs[j]
    {
      PlacesApart(st, params, l, amsGrad, i, j);
    }
    forall i, j | 0 <= i < |l.params| && 0 <= j < |l.maxExpAvgSqs|
      ensures l.params[i] != l.maxExpAvgSqs[j] && l.expAvgs[i] != l.maxExpAvgSqs[j] && l.expAvgSqs[i] != l.maxExpAvgSqs[j]
      ensures i != j ==> l.maxExpAvgSqs[i] != l.maxExpAvgSqs[j]
    {
      PlacesApart(st, params, l, amsGrad, i, j);
      PlacesApart(st, params, l, amsGrad, j, i);
      assert l.maxExpAvgSqs[j] in Maybe(Nth(l.maxExpAvgSqs, j)) && l.maxExpAvgSqs[i] in Maybe(Nth(l.maxExpAvgSqs, i));
    }
  }

  ghost predicate Outside(t: Tensor, l: Lists) {
    t !in l.params && t !in l.expAvgs && t !in l.expAvgSqs && t !in l.maxExpAvgSqs
  }

  /** A parameter without a gradient shares nothing with the collected lists. */
  lemma NotCollected(st: States, params: seq<Tensor>, l: Lists, amsGrad: bool, p: Tensor)
    requires Collected(st, params, l, amsGrad) && Sound(st, params, amsGrad) && p in params && p.grad.None?
    ensures Outside(p, l)
    ensures p in st ==> forall t :: t in Held(st[p]) ==> Outside(t, l)
  {
    forall k | 0 <= k < |l.params|
      ensures p != l.params[k] && p != l.expAvgs[k] && p != l.expAvgSqs[k]
      ensures p in st ==> Held(st[p]) !! {l.params[k], l.expAvgs[k], l.expAvgSqs[k]}
    {
      var q := l.params[k];
      assert HeldAt(l, k) == Held(st[q]);
    }
    forall k | 0 <= k < |l.maxExpAvgSqs| ensures p != l.maxExpAvgSqs[k] && (p in st ==> l.maxExpAvgSqs[k] !in Held(st[p])) {
      var q := l.params[k];
      assert l.maxExpAvgSqs[k] in Maybe(Nth(l.maxExpAvgSqs, k)) && l.maxExpAvgSqs[k] in Held(st[q]);
    }
  }

  /** The lists name what the optimizer holds for their parameters. */
  lemma CollectedViews(st: States, params: seq<Tensor>, l: Lists, amsGrad: bool)
    requires Collected(st, params, l, amsGrad)
    ensures SameLength(l, amsGrad)
    ensures forall k :: 0 <= k < |l.params| ==>
      View(st, l.params[k], amsGrad) == Value(l.params[k], l.expAvgs[k], l.expAvgSqs[k], Nth(l.maxExpAvgSqs, k))
    ensures forall k :: 0 <= k < |l.params| ==> l.params[k].grad == Some(l.grads[k])
    ensures forall p :: p in params && p.grad.Some? ==> exists k :: 0 <= k < |l.params| && l.params[k] == p
  {
  }

  lemma CollectedShapes(st: States, params: seq<Tensor>, l: Lists, amsGrad: bool)
    requires Collected(st, params, l, amsGrad) && forall p :: p in params ==> Shaped(st, p, amsGrad)
    ensures SameLength(l, amsGrad)
    ensures forall k :: 0 <= k < |l.params| ==>
      SameShape(Value(l.params[k], l.expAvgs[k], l.expAvgSqs[k], Nth(l.maxExpAvgSqs, k)), |l.grads[k]|)
  {
    hide SameShape;
    CollectedViews(st, params, l, amsGrad);
    forall k | 0 <= k < |l.params|
      ensures SameShape(Value(l.params[k], l.expAvgs[k], l.expAvgSqs[k], Nth(l.maxExpAvgSqs, k)), |l.grads[k]|)
    {
      assert Shaped(st, l.params[k], amsGrad);
    }
  }

  /** Every list but the first consists of tensors that the state holds. */
  lemma ListsAreHeld(st: States, params: seq<Tensor>, l: Lists, amsGrad: bool)
    requires Collected(st, params, l, amsGrad)
    ensures forall t :: t in l.expAvgs + l.expAvgSqs + l.maxExpAvgSqs ==> exists p :: p in st && t in Held(st[p])
  {
    forall k | 0 <= k < |l.params| ensures exists p :: p in st && l.expAvgs[k] in Held(st[p]) && l.expAvgSqs[k] in Held(st[p]) {
      assert l.params[k] in st;
    }
    forall k | 0 <= k < |l.maxExpAvgSqs| ensures exists p :: p in st && l.maxExpAvgSqs[k] in Held(st[p]) {
      assert l.params[k] in st && Nth(l.maxExpAvgSqs, k) == Some(l.maxExpAvgSqs[k]);
    }
  }

  /** Everything that some state holds. */
  function AllHeld(st: States): set<Tensor> {
    set p, t | p in st && t in Held(st[p]) :: t
  }

  ghost predicate ApartFrom(st: States, params: seq<Tensor>, r: Record) {
    forall t :: t in Held(r) ==> t !in params && forall q :: q in st ==> t !in Held(st[q])
  }

  lemma SoundWithNew(st: States, params: seq<Tensor>, amsGrad: bool, p: Tensor, r: Record)
    requires Sound(st, params, amsGrad) && p !in st
    requires r.expAvg != r.expAvgSq && Maybe(r.maxExpAvgSq) !! {r.expAvg, r.expAvgSq} && (r.maxExpAvgSq.Some? <==> amsGrad)
    requires ApartFrom(st, params, r)
    ensures Sound(st[p := r], params, amsGrad)
  {
    hide Held;
  }

  lemma SoundWithCount(st: States, params: seq<Tensor>, amsGrad: bool, p: Tensor)
    requires Sound(st, params, amsGrad) && p in st
    ensures Sound(st[p := st[p].(step := st[p].step + 1)], params, amsGrad)
    ensures Held(st[p].(step := st[p].step + 1)) == Held(st[p])
  {
    assert Held(st[p].(step := st[p].step + 1)) == Held(st[p]);
    hide Held;
  }

  lemma NewView(st: States, p: Tensor, amsGrad: bool, r: Record)
    requires p !in st && (r.maxExpAvgSq.Some? <==> amsGrad) && forall t :: t in Held(r) ==> t.data == Zeros(|p.data|)
    ensures View(st[p := r], p, amsGrad) == View(st, p, amsGrad)
  {
    assert r.expAvg in Held(r) && r.expAvgSq in Held(r);
    assert r.maxExpAvgSq.Some? ==> r.maxExpAvgSq.value in Held(r);
  }

  /** A sparse gradient is refused. */
  ghost predicate Refused(p: Tensor)
    reads p`grad, p`sparse
  {
    p.grad.Some? && p.sparse
  }

  /** Every tensor that is held now was held before or is new. */
  twostate lemma HeldBefore(before: States, new st: States)
    requires forall p :: p in st ==> Inherited(before, st, p) || fresh(Held(st[p]))
    ensures forall p, t :: p in st && t in Held(st[p]) ==> t in AllHeld(before) || fresh(t)
  {
    forall p, t | p in st && t in Held(st[p]) ensures t in AllHeld(before) || fresh(t) {
      if Inherited(before, st, p) {
        assert Held(st[p]) == Held(before[p]);
      }
    }
  }

  class Optimizer {
    const amsGrad: bool
    var state: States

    constructor (amsGrad: bool)
      ensures this.amsGrad == amsGrad && state == map[]
    {
      this.amsGrad := amsGrad;
      state := map[];
    }

    /** Creates the state of `p` when there is none and counts the step. */
    method Prepare(p: Tensor, params: seq<Tensor>)
      requires Sound(state, params, amsGrad) && p in params
      modifies `state
      ensures Sound(state, params, amsGrad) && p in state
      ensures state == old(state)[p := state[p].(step := Steps(old(state), p) + 1)]
      ensures p in old(state) ==> Inherited(old(state), state, p) && Held(state[p]) == Held(old(state)[p])
      ensures p !in old(state) ==> fresh(Held(state[p]))
      ensures forall q :: q in params ==> View(state, q, amsGrad) == old(View(state, q, amsGrad))
    {
      hide Sound, Held, ApartFrom;
      if p !in state {
        var r := StartRecord(|p.data|, params);
        SoundWithNew(state, params, amsGrad, p, r);
        NewView(state, p, amsGrad, r);
        state := state[p := r];
      }
      SoundWithCount(state, params, amsGrad, p);
      state := state[p := state[p].(step := state[p].step + 1)];
    }

    method StartRecord(n: nat, ghost params: seq<Tensor>) returns (r: Record)
      ensures fresh(Held(r)) && r.step == 0 && r.expAvg != r.expAvgSq && Maybe(r.maxExpAvgSq) !! {r.expAvg, r.expAvgSq}
      ensures r.maxExpAvgSq.Some? <==> amsGrad
      ensures ApartFrom(state, params, r) && forall t :: t in Held(r) ==> t.data == Zeros(n)
    {
      var expAvg := new Tensor.Zeros(n);
      var expAvgSq := new Tensor.Zeros(n);
      r := Record(0, expAvg, expAvgSq, None);
      if amsGrad {
        var x := new Tensor.Zeros(n);
        r := r.(maxExpAvgSq := Some(x));
      }
    }

    /** Puts one parameter into the lists. */
    method Take(params: seq<Tensor>, i: nat, l: Lists) returns (more: Lists)
      requires NoDup(params) && i < |params| && params[i].grad.Some?
      requires Sound(state, params, amsGrad) && Collected(state, params[..i], l, amsGrad)
      modifies `state
      ensures Sound(state, params, amsGrad) && Collected(state, params[..i + 1], more, amsGrad)
      ensures params[i] in state && state == old(state)[params[i] := state[params[i]]]
      ensures Steps(state, params[i]) == Steps(old(state), params[i]) + 1
      ensures if params[i] in old(state)
              then Inherited(old(state), state, params[i]) && Held(state[params[i]]) == Held(old(state)[params[i]])
              else fresh(Held(state[params[i]]))
      ensures forall q :: q in params ==> View(state, q, amsGrad) == old(View(state, q, amsGrad))
    {
      hide Sound, View, Collected, NoDup, Held;
      var p := params[i];
      First(params, i);
      Prepare(p, params);
      SoundAt(state, params, amsGrad, p);
      CollectOne(old(state), state, params[..i], l, p, amsGrad);
      more := Extended(l, p, p.grad.value, state[p]);
    }

    /** Lists the parameters with a gradient, or fails at the first sparse one, when `n` parameters have been passed; no
        tensor that existed before changes. */
    method Collect(params: seq<Tensor>) returns (ok: bool, l: Lists, ghost n: nat)
      requires NoDup(params) && Sound(state, params, amsGrad)
      modifies `state
      ensures n <= |params| && (forall j :: 0 <= j < n ==> !Refused(params[j]))
      ensures if ok then n == |params| else n < |params| && Refused(params[n])
      ensures Sound(state, params, amsGrad) && (ok ==> Collected(state, params, l, amsGrad))
      ensures forall p :: p in params ==> View(state, p, amsGrad) == old(View(state, p, amsGrad))
      ensures forall j :: 0 <= j < |params| ==>
        Steps(state, params[j]) == Steps(old(state), params[j]) + (if j < n && params[j].grad.Some? then 1 else 0)
      ensures ok ==> forall t :: t in l.expAvgs + l.expAvgSqs + l.maxExpAvgSqs ==> t in AllHeld(old(state)) || fresh(t)
    {
      hide Sound, View, Collected, NoDup, Extended, Held, AllHeld;
      l := Lists([], [], [], [], []);
      assert Collected(state, [], l, amsGrad) by { NothingCollected(state, amsGrad); }
      assert params[..0] == [];
      for i := 0 to |params|
        invariant Sound(state, params, amsGrad) && forall j :: 0 <= j < i ==> !Refused(params[j])
        invariant Collected(state, params[..i], l, amsGrad)
        invariant forall p :: p in params ==> View(state, p, amsGrad) == old(View(state, p, amsGrad))
        invariant forall j :: 0 <= j < |params| ==>
          Steps(state, params[j]) == Steps(old(state), params[j]) + (if j < i && params[j].grad.Some? then 1 else 0)
        invariant forall p :: p in state ==> Inherited(old(state), state, p) || fresh(Held(state[p]))
      {
        var p := params[i];
        First(params, i);
        if p.grad.Some? {
          if p.sparse {
            return false, l, i;
          }
          l := Take(params, i, l);
          Only(params, i);
        } else {
          CollectNone(state, params[..i], l, p, amsGrad);
        }
      }
      assert params[..|params|] == params;
      ListsAreHeld(state, params, l, amsGrad);
      HeldBefore(old(state), state);
      ok, n := true, |params|;
    }

    /** Runs the update over the collected lists. */
    method Update(a: Arithmetic, o: Options, params: seq<Tensor>, l: Lists)
      requires Sound(state, params, amsGrad) && Collected(state, params, l, amsGrad)
      requires forall p :: p in params ==> Shaped(state, p, amsGrad)
      modifies l.params`data, l.expAvgs`data, l.expAvgSqs`data, l.maxExpAvgSqs`data
      ensures forall p :: p in params && p.grad.None? ==> View(state, p, amsGrad) == old(View(state, p, amsGrad))
      ensures forall p :: p in params && p.grad.Some? ==>
        Stepped(a, o, old(View(state, p, amsGrad)), p.grad.value, View(state, p, amsGrad))
    {
      hide Stepped, Sound, NoDup, Apart, SameShape;
      CollectedFits(state, params, l, amsGrad);
      CollectedViews(state, params, l, amsGrad);
      CollectedShapes(state, params, l, amsGrad);
      forall p | p in params && p.grad.None?
        ensures Outside(p, l) && (p in state ==> forall t :: t in Held(state[p]) ==> Outside(t, l))
      {
        NotCollected(state, params, l, amsGrad, p);
      }
      hide Collected, Held;
      AdamNoBiasCorrection(a, o, l.params, l.grads, l.expAvgs, l.expAvgSqs, l.maxExpAvgSqs, amsGrad);
      CollectedViews(state, params, l, amsGrad);
      hide Value;
    }

    /** One optimizer step over a parameter group: parameters without a gradient keep everything. A sparse gradient stops
        it before any value or moment has changed. */
    method Step(a: Arithmetic, o: Options, params: seq<Tensor>) returns (ok: bool)
      requires NoDup(params) && Sound(state, params, amsGrad)
      requires forall p :: p in params ==> Shaped(state, p, amsGrad)
      modifies `state, params`data, AllHeld(state)`data
      ensures Sound(state, params, amsGrad) && forall p :: p in params ==> Shaped(state, p, amsGrad)
      ensures ok <==> forall p :: p in params ==> !Refused(p)
      ensures !ok ==> forall p :: p in params ==> View(state, p, amsGrad) == old(View(state, p, amsGrad))
      ensures forall p :: p in params && p.grad.None? ==>
        View(state, p, amsGrad) == old(View(state, p, amsGrad)) && Steps(state, p) == old(Steps(state, p))
      ensures ok ==> forall p :: p in params && p.grad.Some? ==>
        && Stepped(a, o, old(View(state, p, amsGrad)), p.grad.value, View(state, p, amsGrad))
        && Steps(state, p) == old(Steps(state, p)) + 1
    {
      hide Stepped, Sound, NoDup, AllHeld, View, Refused;
      ghost var n;
      var l;
      ok, l, n := Collect(params);
      if ok {
        assert forall t :: t in l.params ==> t in params;
        hide Collected;
        Update(a, o, params, l);
        forall p | p in params ensures Shaped(state, p, amsGrad) {
          ShapeKept(a, o, old(View(state, p, amsGrad)), View(state, p, amsGrad), old(|p.data|), p.grad);
          ViewHasParameter(state, p, amsGrad);
        }
      }
    }
  }

  /** The moments of `p` are the tensors they were. */
  ghost predicate Inherited(before: States, st: States, p: Tensor)
    requires p in st
  {
    p in before && st[p] == before[p].(step := st[p].step)
  }

  lemma SoundAt(st: States, params: seq<Tensor>, amsGrad: bool, p: Tensor)
    requires Sound(st, params, amsGrad) && p in st
    ensures st[p].maxExpAvgSq.Some? <==> amsGrad
  {
  }

  lemma ViewHasParameter(st: States, p: Tensor, amsGrad: bool)
    ensures View(st, p, amsGrad).parameter == p.data
  {
  }

  /** A step keeps the shapes. */
  lemma ShapeKept(a: Arithmetic, o: Options, t: Values, u: Values, n: nat, grad: Option<seq<real>>)
    requires SameShape(t, n) && if grad.None? then u == t else |grad.value| == n && Stepped(a, o, t, grad.value, u)
    ensures SameShape(u, n) && |u.parameter| == n
  {
  }

  lemma NothingCollected(st: States, amsGrad: bool)
    ensures Collected(st, [], Lists([], [], [], [], []), amsGrad)
  {
  }

  lemma First(ts: seq<Tensor>, i: nat)
    requires NoDup(ts) && i < |ts|
    ensures ts[i] !in ts[..i] && ts[..i + 1] == ts[..i] + [ts[i]]
  {
  }

  lemma Only(ts: seq<Tensor>, i: nat)
    requires NoDup(ts) && i < |ts|
    ensures forall j :: 0 <= j < |ts| && j != i ==> ts[j] != ts[i]
  {
  }

  /* ---- whole runs ---- */

  /** The gradients of element `k`, step by step. */
  function Column(gs: seq<seq<real>>, k: nat): seq<real>
    requires forall i :: 0 <= i < |gs| ==> k < |gs[i]|
  {
    seq(|gs|, i requires 0 <= i < |gs| => gs[i][k])
  }

  /** A tensor with zero moments at first that makes one step per gradient. */
  ghost predicate Trained(a: Arithmetic, o: Options, ts: seq<Values>, gs: seq<seq<real>>, n: nat) {
    && |ts| == |gs| + 1
    && SameShape(ts[0], n) && ts[0].mean == Zeros(n) && ts[0].variance == Zeros(n)
    && (ts[0].largest.Some? ==> ts[0].largest.value == Zeros(n))
    && forall i :: 0 <= i < |gs| ==> |gs[i]| == n && Stepped(a, o, ts[i], gs[i], ts[i + 1])
  }

  lemma {:induction false} TrainedIsReference(a: Arithmetic, o: Options, ts: seq<Values>, gs: seq<seq<real>>, n: nat, k: nat)
    requires Trained(a, o, ts, gs, n) && k < n && ts[0].largest.None?
    ensures SameShape(ts[|gs|], n)
    ensures At(ts[|gs|], k) == Element(RunReference(a, o, ts[0].parameter[k], Column(gs, k)), None)
    decreases |gs|
  {
    hide ReferenceStep;
    if gs != [] {
      var m := |gs| - 1;
      assert Trained(a, o, ts[..m + 1], gs[..m], n);
      TrainedIsReference(a, o, ts[..m + 1], gs[..m], n, k);
      assert Stepped(a, o, ts[m], gs[m], ts[m + 1]);
      assert Column(gs, k)[..m] == Column(gs[..m], k);
    }
  }

  /** For every sequence of gradient tensors, the in-place optimizer without AMSGrad and the operation graph without bias
      correction hold the same parameter and moments in every element. */
  lemma OptimizerMatchesTrace(a: Arithmetic, o: Options, ts: seq<Values>, gs: seq<seq<real>>, n: nat, k: nat)
    requires Trained(a, o, ts, gs, n) && k < n && o.weightDecay >= 0.0 && !o.biasCorrection && ts[0].largest.None?
    ensures SameShape(ts[|gs|], n)
    ensures Agree(RunTrace(a, o, ts[0].parameter[k], Column(gs, k)), At(ts[|gs|], k).moments)
  {
    TrainedIsReference(a, o, ts, gs, n, k);
    TraceMatchesReference(a, o, ts[0].parameter[k], Column(gs, k));
  }

  /** With AMSGrad every element holds the maximum of its second moments so far, the zero at the start among them. */
  lemma {:induction false} LargestIsMaximum(a: Arithmetic, o: Options, ts: seq<Values>, gs: seq<seq<real>>, n: nat, k: nat, i: nat)
    requires Trained(a, o, ts, gs, n) && k < n && ts[0].largest.Some? && i <= |gs|
    ensures forall j :: 0 <= j <= i ==> |ts[j].variance| == n
    ensures SameShape(ts[i], n) && ts[i].largest.Some?
    ensures forall j :: 0 <= j <= i ==> ts[j].variance[k] <= ts[i].largest.value[k]
    ensures exists j :: 0 <= j <= i && ts[j].variance[k] == ts[i].largest.value[k]
    decreases i
  {
    hide ReferenceStep, Divide;
    if i == 0 {
      assert ts[0].variance[k] == ts[0].largest.value[k];
    } else {
      LargestIsMaximum(a, o, ts, gs, n, k, i - 1);
      assert Stepped(a, o, ts[i - 1], gs[i - 1], ts[i]);
      assert At(ts[i], k) == StepElement(a, o, At(ts[i - 1], k), gs[i - 1][k]);
      assert ts[i].largest.value[k] == Max(ts[i - 1].largest.value[k], ts[i].variance[k]);
      var j :| 0 <= j <= i - 1 && ts[j].variance[k] == ts[i - 1].largest.value[k];
      assert ts[if ts[i].variance[k] > ts[j].variance[k] then i else j].variance[k] == ts[i].largest.value[k];
    }
  }
}
