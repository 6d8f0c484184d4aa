/** All buffers that feed, directly or through other cores, the buffers of a given set. */
module FanIn {
  import opened Wrappers

  type Coordinate = (int, int)

  const DRAM: Coordinate := (255, 255)
  const DEPTH_LIMIT: nat := 400

  datatype PipeLists = PipeLists(inputs: seq<int>, outputs: seq<int>)

  /** Pipes with their buffer lists, and the core of every buffer. */
  datatype Layout = Layout(pipes: seq<PipeLists>, cores: map<int, Coordinate>)

  function CoresOf(g: Layout, bs: set<int>): set<Coordinate> {
    set b | b in bs && b in g.cores :: g.cores[b]
  }

  function BuffersOn(g: Layout, cs: set<Coordinate>): set<int> {
    set b | b in g.cores && g.cores[b] in cs
  }

  predicate Touches(ids: seq<int>, bs: set<int>) {
    exists b :: b in ids && b in bs
  }

  /** Inputs of the pipes that write some buffer of `bs`. */
  function Sources(g: Layout, bs: set<int>): set<int> {
    set p, x | p in g.pipes && x in p.inputs && Touches(p.outputs, bs) :: x
  }

  /** Outputs of the pipes that read some buffer of `bs`. */
  function Sinks(g: Layout, bs: set<int>): set<int> {
    set p, x | p in g.pipes && x in p.outputs && Touches(p.inputs, bs) :: x
  }

  /** What feeds some buffer on the (non-DRAM) cores of `bs`. */
  function Direct(g: Layout, bs: set<int>): set<int> {
    Sources(g, BuffersOn(g, CoresOf(g, bs) - {DRAM}))
  }

  function AllInputs(g: Layout): set<int> {
    set p, x | p in g.pipes && x in p.inputs :: x
  }

  /** The recursion, with the depth counter as an argument. */
  function FanInSet(g: Layout, depth: nat, ids: set<int>, visited: set<int>): set<int>
    decreases if depth > DEPTH_LIMIT then 0 else DEPTH_LIMIT + 1 - depth
  {
    if depth > DEPTH_LIMIT || ids == {} then {} else
      var direct := Direct(g, ids);
      visited + direct + FanInSet(g, depth + 1, direct - visited, visited + direct)
  }

  /** How often the counter is bumped. */
  function Calls(g: Layout, depth: nat, ids: set<int>, visited: set<int>): nat
    decreases if depth > DEPTH_LIMIT then 0 else DEPTH_LIMIT + 1 - depth
  {
    if depth > DEPTH_LIMIT then 0 else if ids == {} then 1 else
      var direct := Direct(g, ids);
      1 + Calls(g, depth + 1, direct - visited, visited + direct)
  }

  /* ---- exactness ---- */

  /** `c` holds what feeds `ids` and whatever feeds one of its own members. */
  ghost predicate ClosedOver(g: Layout, c: set<int>, ids: set<int>) {
    Direct(g, ids) <= c && Direct(g, c) <= c
  }

  /** `c` is the least such set: the transitive closure. */
  ghost predicate IsClosure(g: Layout, c: set<int>, ids: set<int>) {
    ClosedOver(g, c, ids) && forall d: set<int> :: ClosedOver(g, d, ids) ==> c <= d
  }

  /** `x` is an input of a pipe with an output on the core of `b`, which is not the one that stands for DRAM. */
  ghost predicate FeedsCoreOf(g: Layout, x: int, b: int) {
    b in g.cores && g.cores[b] != (255, 255)
    && exists p, o :: p in g.pipes && x in p.inputs && o in p.outputs && o in g.cores && g.cores[o] == g.cores[b]
  }

  lemma DirectMeans(g: Layout, bs: set<int>, x: int)
    ensures x in Direct(g, bs) <==> exists b :: b in bs && FeedsCoreOf(g, x, b)
  {
    if x in Direct(g, bs) {
      var p :| p in g.pipes && x in p.inputs && Touches(p.outputs, BuffersOn(g, CoresOf(g, bs) - {DRAM}));
      var o :| o in p.outputs && o in BuffersOn(g, CoresOf(g, bs) - {DRAM});
      var b :| b in bs && b in g.cores && g.cores[b] == g.cores[o];
      assert FeedsCoreOf(g, x, b);
    }
    if b :| b in bs && FeedsCoreOf(g, x, b) {
      var p, o :| p in g.pipes && x in p.inputs && o in p.outputs && o in g.cores && g.cores[o] == g.cores[b];
      assert g.cores[o] in CoresOf(g, bs) - {DRAM};
      assert Touches(p.outputs, BuffersOn(g, CoresOf(g, bs) - {DRAM}));
    }
  }

  lemma DirectMonotone(g: Layout, a: set<int>, b: set<int>)
    requires a <= b
    ensures Direct(g, a) <= Direct(g, b)
  {
    assert CoresOf(g, a) <= CoresOf(g, b);
    BuffersMonotone(g, CoresOf(g, a) - {DRAM}, CoresOf(g, b) - {DRAM});
    SourcesMonotone(g, BuffersOn(g, CoresOf(g, a) - {DRAM}), BuffersOn(g, CoresOf(g, b) - {DRAM}));
  }

  lemma BuffersMonotone(g: Layout, a: set<Coordinate>, b: set<Coordinate>)
    requires a <= b
    ensures BuffersOn(g, a) <= BuffersOn(g, b)
  {
  }

  lemma SourcesMonotone(g: Layout, a: set<int>, b: set<int>)
    requires a <= b
    ensures Sources(g, a) <= Sources(g, b)
  {
    forall p, x | p in g.pipes && x in p.inputs && Touches(p.outputs, a) ensures x in Sources(g, b) {
      assert Touches(p.outputs, b);
    }
  }

  /** Being fed is decided buffer by buffer. */
  lemma DirectPointwise(g: Layout, bs: set<int>, x: int) returns (b: int)
    requires x in Direct(g, bs)
    ensures b in bs && x in Direct(g, {b})
  {
    var p :| p in g.pipes && x in p.inputs && Touches(p.outputs, BuffersOn(g, CoresOf(g, bs) - {DRAM}));
    var o :| o in p.outputs && o in BuffersOn(g, CoresOf(g, bs) - {DRAM});
    b :| b in bs && b in g.cores && g.cores[b] == g.cores[o];
    assert g.cores[o] in CoresOf(g, {b}) - {DRAM};
    assert o in BuffersOn(g, CoresOf(g, {b}) - {DRAM});
    assert Touches(p.outputs, BuffersOn(g, CoresOf(g, {b}) - {DRAM}));
  }

  lemma DirectUnion(g: Layout, a: set<int>, b: set<int>)
    ensures Direct(g, a + b) == Direct(g, a) + Direct(g, b)
  {
    hide Direct;
    DirectMonotone(g, a, a + b);
    DirectMonotone(g, b, a + b);
    forall x | x in Direct(g, a + b) ensures x in Direct(g, a) + Direct(g, b) {
      var y := DirectPointwise(g, a + b, x);
      if y in a {
        DirectMonotone(g, {y}, a);
      } else {
        DirectMonotone(g, {y}, b);
      }
    }
  }

  lemma DirectInputs(g: Layout, bs: set<int>)
    ensures Direct(g, bs) <= AllInputs(g)
    ensures Direct(g, {}) == {}
  {
    assert CoresOf(g, {}) == {};
    assert BuffersOn(g, {}) == {};
  }

  lemma CardLess<T>(a: set<T>, b: set<T>, x: T)
    requires b <= a && x in a && x !in b
    ensures |b| < |a|
  {
    CardLeq(b, a - {x});
  }

  lemma {:induction false} CardLeq<T>(a: set<T>, b: set<T>)
    requires a <= b
    ensures |a| <= |b|
  {
    if a != {} {
      var x :| x in a;
      CardLeq(a - {x}, b - {x});
    }
  }

  /** Whatever the depth, nothing outside the closure is returned. */
  lemma {:induction false} FanInSound(g: Layout, depth: nat, ids: set<int>, visited: set<int>, c: set<int>)
    requires visited <= c && ClosedOver(g, c, ids)
    ensures FanInSet(g, depth, ids, visited) <= c
    decreases if depth > DEPTH_LIMIT then 0 else DEPTH_LIMIT + 1 - depth
  {
    hide Direct;
    if depth <= DEPTH_LIMIT && ids != {} {
      var direct := Direct(g, ids);
      DirectMonotone(g, direct - visited, c);
      FanInSound(g, depth + 1, direct - visited, visited + direct, c);
    }
  }

  /** One call finds at least one new input or is the last, so the depth limit is not felt while
      the unvisited inputs are no more than the calls left. */
  lemma {:induction false} FanInComplete(g: Layout, depth: nat, ids: set<int>, visited: set<int>)
    requires depth <= DEPTH_LIMIT + 1 && |AllInputs(g) - visited| <= DEPTH_LIMIT + 1 - depth
    ensures var r := visited + FanInSet(g, depth, ids, visited);
      Direct(g, ids) <= r && Direct(g, r - visited) <= r
    decreases DEPTH_LIMIT + 1 - depth
  {
    hide Direct, AllInputs;
    DirectInputs(g, ids);
    var fan := FanInSet(g, depth, ids, visited);
    if depth > DEPTH_LIMIT {
      EmptyCard(AllInputs(g) - visited);
      assert visited + fan - visited == {};
    } else if ids == {} {
      assert visited + fan - visited == {};
    } else {
      var direct := Direct(g, ids);
      var next := direct - visited;
      var inner := FanInSet(g, depth + 1, next, visited + direct);
      var r := visited + direct + inner;
      assert visited + fan == r;
      if next == {} {
        assert inner == {} && r - visited == {};
      } else {
        var x := PickFrom(next);
        CardLess(AllInputs(g) - visited, AllInputs(g) - (visited + direct), x);
        FanInComplete(g, depth + 1, next, visited + direct);
        DirectUnion(g, next, r - (visited + direct));
        assert r - visited == next + (r - (visited + direct));
      }
    }
  }

  lemma PickFrom<T>(s: set<T>) returns (x: T)
    requires s != {}
    ensures x in s
  {
    x :| x in s;
  }

  lemma EmptyCard(s: set<int>)
    requires |s| <= 0
    ensures s == {}
  {
  }

  /** With at most 401 distinct pipe inputs the result is exactly the closure. */
  lemma FanInIsClosure(g: Layout, ids: set<int>)
    requires |AllInputs(g)| <= 401
    ensures IsClosure(g, FanInSet(g, 0, ids, {}), ids)
  {
    hide Direct, AllInputs, FanInSet;
    var r := FanInSet(g, 0, ids, {});
    assert AllInputs(g) - {} == AllInputs(g);
    FanInComplete(g, 0, ids, {});
    assert {} + r == r && r - {} == r;
    forall d: set<int> | ClosedOver(g, d, ids) ensures r <= d {
      FanInSound(g, 0, ids, {}, d);
    }
  }

  /* ---- the limit is felt with one more input ---- */

  /** Pipe `k` leads from buffer `k`, on core `k + 1`, to buffer `-k - 1`, on core `k`. */
  function ChainPipes(n: nat): seq<PipeLists> {
    if n == 0 then [] else ChainPipes(n - 1) + [PipeLists([n - 1], [0 - n])]
  }

  function ChainCores(n: nat): map<int, Coordinate> {
    if n == 0 then map[] else ChainCores(n - 1)[n - 1 := (n, 0)][0 - n := (n - 1, 0)]
  }

  function Chain(n: nat): Layout {
    Layout(ChainPipes(n), ChainCores(n))
  }

  lemma {:induction false} ChainPipesAre(n: nat, p: PipeLists)
    ensures p in ChainPipes(n) <==> exists k: nat :: k < n && p == PipeLists([k], [0 - k - 1])
  {
    if n > 0 {
      ChainPipesAre(n - 1, p);
    }
  }

  lemma {:induction false} ChainCoresAre(n: nat, b: int)
    ensures b in ChainCores(n) <==> 0 - n <= b < n
    ensures b in ChainCores(n) ==> ChainCores(n)[b] == (if b >= 0 then b + 1 else -b - 1, 0)
  {
    if n > 0 {
      ChainCoresAre(n - 1, b);
    }
  }

  /** Core `j` of the chain is fed by buffer `j` alone. */
  lemma ChainDirect(n: nat, b: int, j: nat)
    requires 0 - n <= b < n && j == if b >= 0 then b + 1 else -b - 1
    ensures Direct(Chain(n), {b}) == if j < n then {j} else {}
  {
    var g := Chain(n);
    var on := BuffersOn(g, CoresOf(g, {b}) - {DRAM});
    ChainCoresAre(n, b);
    assert CoresOf(g, {b}) == {(j, 0)};
    assert (j, 0) != DRAM;
    forall x ensures x in on <==> 0 - n <= x < n && (x == j - 1 || x == 0 - j - 1) {
      ChainCoresAre(n, x);
    }
    forall x ensures x in Direct(g, {b}) <==> x == j < n {
      if x in Direct(g, {b}) {
        var p :| p in g.pipes && x in p.inputs && Touches(p.outputs, on);
        ChainPipesAre(n, p);
      }
      if x == j < n {
        var p := PipeLists([j as int], [0 - j - 1]);
        ChainPipesAre(n, p);
        assert 0 - j - 1 in p.outputs && x in p.inputs;
        assert Touches(p.outputs, on);
      }
    }
  }

  lemma BelowStep(d: nat)
    requires d <= DEPTH_LIMIT
    ensures {d as int} - Below(d) == {d as int} && Below(d) + {d as int} == Below(d + 1)
    ensures Below(d + 1) <= Below(DEPTH_LIMIT + 1)
  {
    hide Below;
    BelowIs(d);
    BelowIs(d + 1);
    BelowIs(DEPTH_LIMIT + 1);
    forall x: int ensures x in Below(d) + {d} <==> x in Below(d + 1) {
    }
    var low, high := Below(d + 1), Below(DEPTH_LIMIT + 1);
    assert forall x :: x in low ==> x in high;
  }

  lemma {:induction false} ChainFan(n: nat, d: nat)
    requires n >= DEPTH_LIMIT + 2 && 1 <= d <= DEPTH_LIMIT + 1
    ensures FanInSet(Chain(n), d, {d as int - 1}, Below(d)) == if d > DEPTH_LIMIT then {} else Below(DEPTH_LIMIT + 1)
    decreases DEPTH_LIMIT + 1 - d
  {
    hide Direct, Chain;
    if d <= DEPTH_LIMIT {
      hide Below;
      ChainDirect(n, d - 1, d);
      BelowStep(d);
      ChainFan(n, d + 1);
    }
  }

  /** Everything up the chain belongs to the closure. */
  lemma {:induction false} ChainClosure(n: nat, c: set<int>, k: nat)
    requires ClosedOver(Chain(n), c, {-1}) && k < n
    ensures k in c
  {
    hide Direct, Chain;
    if k == 0 {
      ChainDirect(n, -1, 0);
    } else {
      ChainClosure(n, c, k - 1);
      ChainDirect(n, k - 1, k);
      DirectMonotone(Chain(n), {k - 1}, c);
    }
  }

  lemma ChainInputs(n: nat)
    ensures AllInputs(Chain(n)) == Below(n)
  {
    forall x ensures x in AllInputs(Chain(n)) <==> x in Below(n) {
      BelowIs(n);
      if x in AllInputs(Chain(n)) {
        var p :| p in ChainPipes(n) && x in p.inputs;
        ChainPipesAre(n, p);
      }
      if 0 <= x < n {
        var p := PipeLists([x], [-x - 1]);
        ChainPipesAre(n, p);
        assert x in p.inputs;
      }
    }
  }

  lemma ChainIsCut(n: nat)
    requires n >= 402
    ensures |AllInputs(Chain(n))| == n
    ensures !IsClosure(Chain(n), FanInSet(Chain(n), 0, {-1}, {}), {-1})
  {
    ChainInputs(n);
    BelowIs(n);
    hide Direct, AllInputs, Chain;
    ChainDirect(n, -1, 0);
    ChainFan(n, 1);
    BelowIs(DEPTH_LIMIT + 1);
    assert Below(1) == {0} by { BelowIs(1); }
    var r := FanInSet(Chain(n), 0, {-1}, {});
    assert {0} - {} == {0} && {} + {0} == {0};
    assert r == {0} + FanInSet(Chain(n), 1, {0}, {0});
    if IsClosure(Chain(n), r, {-1}) {
      ChainClosure(n, r, DEPTH_LIMIT + 1);
    }
  }

  /** The depth limit is harmless for every layout with `n` distinct pipe inputs if and only if n <= 401. */
  lemma LimitHarmlessIff(n: nat)
    ensures (forall g: Layout, ids: set<int> :: |AllInputs(g)| == n ==> IsClosure(g, FanInSet(g, 0, ids, {}), ids))
       <==> n <= 401
  {
    hide IsClosure, AllInputs, FanInSet;
    if n <= 401 {
      forall g: Layout, ids: set<int> | |AllInputs(g)| == n ensures IsClosure(g, FanInSet(g, 0, ids, {}), ids) {
        FanInIsClosure(g, ids);
      }
    } else {
      ChainIsCut(n);
    }
  }

  /* ---- the program: loops over the pipes, and a counter that all calls share ---- */

  class Graph {
    const layout: Layout
    var recursionDepth: nat

    constructor (layout: Layout)
      ensures this.layout == layout && recursionDepth == 0
    {
      this.layout := layout;
      recursionDepth := 0;
    }

    method GetBuffCoreCoordinates(ids: set<int>) returns (cores: set<Coordinate>)
      ensures cores == CoresOf(layout, ids)
    {
      cores := set b | b in layout.cores.Keys && b in ids :: layout.cores[b];
    }

    method GetCoreBuffers(cores: set<Coordinate>) returns (found: set<int>)
      ensures found == BuffersOn(layout, cores)
    {
      var left := layout.cores.Keys;
      found := {};
      while left != {}
        invariant left <= layout.cores.Keys
        invariant found == set b | b in layout.cores && b !in left && layout.cores[b] in cores
        decreases left
      {
        ghost var some := PickFrom(left);
        var b :| b in left;
        left := left - {b};
        if layout.cores[b] in cores {
          found := found + {b};
        }
      }
    }

    /** Buffers at the other end of the pipes that touch `ids`. */
    method GetConnectedBuffers(ids: set<int>, dest: bool, src: bool) returns (found: set<int>)
      requires dest || src
      ensures found == (if dest then Sinks(layout, ids) else {}) + (if src then Sources(layout, ids) else {})
    {
      var ps := layout.pipes;
      found := {};
      ghost var part := Layout([], layout.cores);
      for i := 0 to |ps|
        invariant part == Layout(ps[..i], layout.cores)
        invariant found == (if dest then Sinks(part, ids) else {}) + (if src then Sources(part, ids) else {})
      {
        var p := ps[i];
        SinksLast(ps[..i], p, layout.cores, ids);
        assert ps[..i + 1] == ps[..i] + [p];
        if dest && Touches(p.inputs, ids) {
          found := found + set x | x in p.outputs;
        }
        if src && Touches(p.outputs, ids) {
          found := found + set x | x in p.inputs;
        }
        part := Layout(ps[..i + 1], layout.cores);
      }
      assert ps[..|ps|] == ps;
    }

    method FanInBufferSet(ids: set<int>, visited: set<int>) returns (r: set<int>)
      modifies this`recursionDepth
      decreases if recursionDepth > DEPTH_LIMIT then 0 else DEPTH_LIMIT + 1 - recursionDepth
      ensures r == FanInSet(layout, old(recursionDepth), ids, visited)
      ensures recursionDepth == old(recursionDepth) + Calls(layout, old(recursionDepth), ids, visited)
    {
      hide Direct, AllInputs;
      if recursionDepth > DEPTH_LIMIT {
        return {};
      }
      recursionDepth := recursionDepth + 1;
      if ids == {} {
        return {};
      }
      var cores := GetBuffCoreCoordinates(ids);
      var buffers := GetCoreBuffers(cores - {DRAM});
      var direct := GetConnectedBuffers(buffers, false, true);
      DirectIs(layout, ids);
      var rest := FanInBufferSet(direct - visited, visited + direct);
      return visited + direct + rest;
    }

    /** Cores other than DRAM that eventually feed the given cores. */
    method GetFanInCores(cores: set<Coordinate>) returns (r: set<Coordinate>)
      modifies this`recursionDepth
      ensures r == CoresOf(layout, FanInSet(layout, 0, BuffersOn(layout, cores), {})) - {DRAM}
      ensures |AllInputs(layout)| <= 401 ==>
        exists c: set<int> :: IsClosure(layout, c, BuffersOn(layout, cores)) && r == CoresOf(layout, c) - {DRAM}
    {
      var all := GetCoreBuffers(cores);
      recursionDepth := 0;
      var c := FanInBufferSet(all, {});
      if |AllInputs(layout)| <= 401 {
        FanInIsClosure(layout, all);
      }
      r := GetBuffCoreCoordinates(c);
      r := r - {DRAM};
    }
  }

  lemma DirectIs(g: Layout, ids: set<int>)
    ensures Direct(g, ids) == {} + Sources(g, BuffersOn(g, CoresOf(g, ids) - {DRAM}))
  {
  }

  lemma SinksLast(ps: seq<PipeLists>, p: PipeLists, cores: map<int, Coordinate>, ids: set<int>)
    ensures Sinks(Layout(ps + [p], cores), ids) ==
      Sinks(Layout(ps, cores), ids) + if Touches(p.inputs, ids) then set x | x in p.outputs else {}
    ensures Sources(Layout(ps + [p], cores), ids) ==
      Sources(Layout(ps, cores), ids) + if Touches(p.outputs, ids) then set x | x in p.inputs else {}
  {
    hide Touches;
    var all, some := Layout(ps + [p], cores), Layout(ps, cores);
    forall x | x in Sinks(all, ids)
      ensures x in Sinks(some, ids) + if Touches(p.inputs, ids) then set y | y in p.outputs else {}
    {
      var q :| q in ps + [p] && x in q.outputs && Touches(q.inputs, ids);
      assert q in ps || q == p;
    }
    forall x | x in Sources(all, ids)
      ensures x in Sources(some, ids) + if Touches(p.outputs, ids) then set y | y in p.inputs else {}
    {
      var q :| q in ps + [p] && x in q.inputs && Touches(q.outputs, ids);
      assert q in ps || q == p;
    }
    forall x | x in Sinks(some, ids) + if Touches(p.inputs, ids) then set y | y in p.outputs else {}
      ensures x in Sinks(all, ids)
    {
      var q :| q in ps + [p] && x in q.outputs && Touches(q.inputs, ids);
    }
    forall x | x in Sources(some, ids) + if Touches(p.outputs, ids) then set y | y in p.inputs else {}
      ensures x in Sources(all, ids)
    {
      var q :| q in ps + [p] && x in q.inputs && Touches(q.outputs, ids);
    }
  }
}
