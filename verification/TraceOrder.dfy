/** Which pipes the worklist of `generate_trace` prints and in which order, independently of how it finds them. */
module TraceOrder {
  import opened Incidence
  import opened Wrappers

  /** What the traversal looks at: the predecessor list of every pipe (one entry per route, so with
      multiplicity), and the pipes all of whose input buffers are in DRAM. */
  datatype Graph<P(==)> = Graph(preds: map<P, seq<P>>, fromDram: set<P>)

  /** Predecessors are pipes of the graph. */
  ghost predicate Inside<P>(g: Graph<P>) {
    forall p, q :: p in g.preds && q in At(g.preds, p) ==> q in g.preds
  }

  ghost predicate PredsIn<P>(g: Graph<P>, p: P, done: seq<P>) {
    forall q :: q in At(g.preds, p) ==> q in done
  }

  /** A pipe with no predecessor only starts when it reads from DRAM. */
  ghost predicate Stalled<P>(g: Graph<P>, p: P) {
    At(g.preds, p) == [] && p !in g.fromDram
  }

  /** Each pipe at most once, after all of its predecessors. */
  ghost predicate Topological<P>(g: Graph<P>, order: seq<P>) {
    && NoDup(order)
    && forall i :: 0 <= i < |order| ==>
         order[i] in g.preds && PredsIn(g, order[i], order[..i]) && !Stalled(g, order[i])
  }

  /** Nothing that could still be printed is left out. */
  ghost predicate Exhaustive<P>(g: Graph<P>, order: seq<P>) {
    forall p {:trigger PredsIn(g, p, order)} :: p in g.preds && p !in order ==> Stalled(g, p) || !PredsIn(g, p, order)
  }

  /** First come, first served: whenever a prefix releases a pipe, it has released all pipes printed before it. */
  ghost predicate Fifo<P>(g: Graph<P>, order: seq<P>) {
    forall i, j, k :: 0 <= i < j < |order| && 0 <= k <= |order| && PredsIn(g, order[j], order[..k])
      ==> PredsIn(g, order[i], order[..k])
  }

  ghost predicate IsTraceOrder<P>(g: Graph<P>, order: seq<P>) {
    Topological(g, order) && Exhaustive(g, order) && Fifo(g, order)
  }

  /* ---- exactly which pipes are printed ---- */

  ghost predicate HeldBy<P>(g: Graph<P>, p: P, s: set<P>) {
    exists q :: q in At(g.preds, p) && q in s
  }

  /** A set none of whose members can ever become the first one printed. */
  ghost predicate Stuck<P>(g: Graph<P>, s: set<P>) {
    s <= g.preds.Keys && forall p {:trigger HeldBy(g, p, s)} :: p in s ==> Stalled(g, p) || HeldBy(g, p, s)
  }

  ghost function Unprinted<P>(g: Graph<P>, order: seq<P>): set<P> {
    set p | p in g.preds && p !in order
  }

  lemma UnprintedIsHeld<P>(g: Graph<P>, order: seq<P>, p: P)
    requires Exhaustive(g, order) && Inside(g) && p in Unprinted(g, order)
    ensures Stalled(g, p) || HeldBy(g, p, Unprinted(g, order))
  {
    if !Stalled(g, p) {
      assert !PredsIn(g, p, order);
      var q :| q in At(g.preds, p) && q !in order;
      assert q in g.preds;
    }
  }

  /** The pipes that are never printed form the greatest stuck set, for cyclic graphs too. */
  lemma UnprintedIsGreatestStuckSet<P>(g: Graph<P>, order: seq<P>, s: set<P>)
    requires IsTraceOrder(g, order) && Inside(g)
    ensures Stuck(g, Unprinted(g, order))
    ensures Stuck(g, s) ==> s <= Unprinted(g, order)
  {
    var u := Unprinted(g, order);
    forall p | p in u ensures Stalled(g, p) || HeldBy(g, p, u) {
      UnprintedIsHeld(g, order, p);
    }
    if Stuck(g, s) {
      forall p | p in s ensures p in u {
        if p in order {
          var i :| 0 <= i < |order| && order[i] == p;
          NotInStuckSet(g, order, s, i);
        }
      }
    }
  }

  lemma {:induction false} NotInStuckSet<P>(g: Graph<P>, order: seq<P>, s: set<P>, i: nat)
    requires Topological(g, order) && Stuck(g, s) && i < |order|
    ensures order[i] !in s
    decreases i
  {
    if order[i] in s {
      assert HeldBy(g, order[i], s);
      var q :| q in At(g.preds, order[i]) && q in s;
      assert q in order[..i];
      var j :| 0 <= j < i && order[j] == q;
      NotInStuckSet(g, order, s, j);
    }
  }

  /* ---- when every pipe is printed ---- */

  /** `w` follows the edges: each pipe is a predecessor of the next one. */
  ghost predicate Walk<P>(g: Graph<P>, w: seq<P>) {
    && (forall i :: 0 <= i < |w| ==> w[i] in g.preds)
    && forall i :: 0 <= i < |w| - 1 ==> w[i] in At(g.preds, w[i + 1])
  }

  ghost predicate Cycle<P>(g: Graph<P>, w: seq<P>) {
    |w| >= 2 && Walk(g, w) && w[0] == w[|w| - 1]
  }

  ghost predicate SourcesInDram<P>(g: Graph<P>) {
    forall p :: p in g.preds && At(g.preds, p) == [] ==> p in g.fromDram
  }

  lemma {:induction false} WalkAdvances<P>(g: Graph<P>, order: seq<P>, w: seq<P>, j: nat) returns (i: nat)
    requires Topological(g, order) && Walk(g, w) && |w| >= 2
    requires j < |order| && order[j] == w[|w| - 1]
    ensures i < j && order[i] == w[0]
    decreases |w|
  {
    var n := |w| - 1;
    assert w[n - 1] in At(g.preds, w[n]);
    assert w[n - 1] in order[..j];
    i :| 0 <= i < j && order[i] == w[n - 1];
    if n > 1 {
      i := WalkAdvances(g, order, w[..n], i);
    }
  }

  lemma {:induction false} Pigeonhole<P>(w: seq<P>, s: set<P>) returns (i: nat, j: nat)
    requires (forall i :: 0 <= i < |w| ==> w[i] in s) && |w| > |s|
    ensures i < j < |w| && w[i] == w[j]
    decreases |w|
  {
    var n := |w| - 1;
    if w[n] in w[..n] {
      i :| 0 <= i < n && w[..n][i] == w[n];
      j := n;
    } else {
      i, j := Pigeonhole(w[..n], s - {w[n]});
    }
  }

  /** From any pipe of a set in which everyone has a predecessor one can walk back as far as one likes. */
  lemma {:induction false} WalkBack<P>(g: Graph<P>, s: set<P>, p: P, n: nat) returns (w: seq<P>)
    requires p in s && Stuck(g, s) && forall x :: x in s ==> !Stalled(g, x)
    ensures |w| == n + 1 && Walk(g, w) && w[n] == p && forall i :: 0 <= i <= n ==> w[i] in s
  {
    if n == 0 {
      w := [p];
    } else {
      assert HeldBy(g, p, s);
      var q :| q in At(g.preds, p) && q in s;
      var v := WalkBack(g, s, q, n - 1);
      w := v + [p];
    }
  }

  /** Every pipe is printed if and only if the graph has no cycle and every pipe without predecessors
      reads from DRAM only. */
  lemma AllPrintedIffAcyclicFromDram<P>(g: Graph<P>, order: seq<P>)
    requires IsTraceOrder(g, order) && Inside(g)
    ensures Unprinted(g, order) == {} <==> SourcesInDram(g) && forall w: seq<P> :: !Cycle(g, w)
  {
    var s := Unprinted(g, order);
    if s == {} {
      forall w: seq<P> ensures !Cycle(g, w) {
        if Cycle(g, w) {
          NoCycleAmongPrinted(g, order, w);
        }
      }
      forall p | p in g.preds && At(g.preds, p) == [] ensures p in g.fromDram {
        assert p !in s;
      }
    } else if SourcesInDram(g) {
      UnprintedIsGreatestStuckSet(g, order, s);
      var p :| p in s;
      var w := WalkBack(g, s, p, |s|);
      var i, j := Pigeonhole(w, s);
      assert Cycle(g, w[i..j + 1]);
    }
  }

  lemma NoCycleAmongPrinted<P>(g: Graph<P>, order: seq<P>, w: seq<P>)
    requires Topological(g, order) && Unprinted(g, order) == {}
    ensures !Cycle(g, w)
  {
    if Cycle(g, w) {
      assert w[0] !in Unprinted(g, order);
      var j :| 0 <= j < |order| && order[j] == w[0];
      var i := WalkAdvances(g, order, w, j);
      assert false;
    }
  }

  /* ---- the counter kept for each pipe ---- */

  /** How many entries of `ps` are not yet visited. */
  ghost function Pending<P>(ps: seq<P>, visited: set<P>): nat {
    if ps == [] then 0 else Pending(ps[..|ps| - 1], visited) + if ps[|ps| - 1] in visited then 0 else 1
  }

  lemma {:induction false} PendingAll<P>(ps: seq<P>)
    ensures Pending(ps, {}) == |ps|
  {
    if ps != [] {
      PendingAll(ps[..|ps| - 1]);
    }
  }

  lemma {:induction false} PendingNone<P>(ps: seq<P>, visited: set<P>)
    ensures Pending(ps, visited) == 0 <==> forall p :: p in ps ==> p in visited
  {
    if ps != [] {
      var n := |ps| - 1;
      PendingNone(ps[..n], visited);
      assert ps == ps[..n] + [ps[n]];
    }
  }

  lemma {:induction false} PendingVisit<P>(ps: seq<P>, visited: set<P>, p: P)
    requires p !in visited
    ensures Pending(ps, visited) == Pending(ps, visited + {p}) + multiset(ps)[p]
  {
    if ps != [] {
      var n := |ps| - 1;
      PendingVisit(ps[..n], visited, p);
      assert ps == ps[..n] + [ps[n]];
    }
  }

  /* ---- the worklist invariant ---- */

  /** The counter of an unvisited pipe is the number of its unvisited predecessor entries, plus the
      decrements that the last visited pipe still owes it. */
  ghost predicate Counted<P>(g: Graph<P>, order: seq<P>, owed: seq<P>, dep: map<P, int>) {
    forall c :: c in g.preds && c !in order ==>
      c in dep && dep[c] == Pending(At(g.preds, c), Elems(order)) + multiset(owed)[c]
  }

  /** The queue holds exactly the unvisited pipes whose counter is zero and that may start. */
  ghost predicate Queued<P>(g: Graph<P>, order: seq<P>, queue: seq<P>, dep: map<P, int>) {
    && (forall c :: c in queue ==> c in g.preds)
    && forall c :: c in g.preds && c in dep ==> (c in queue <==> c !in order && dep[c] == 0 && !Stalled(g, c))
  }

  ghost predicate ReleasedInOrder<P>(g: Graph<P>, order: seq<P>, queue: seq<P>) {
    var all := order + queue;
    && (forall j :: 0 <= j < |all| ==> PredsIn(g, all[j], order))
    && forall i, j, k :: 0 <= i < j < |all| && 0 <= k <= |order| && PredsIn(g, all[j], order[..k])
         ==> PredsIn(g, all[i], order[..k])
  }

  ghost predicate Owing<P>(g: Graph<P>, order: seq<P>, owed: seq<P>) {
    forall c :: c in owed ==> c in g.preds && order != [] && order[|order| - 1] in At(g.preds, c)
  }

  ghost predicate Inv<P>(g: Graph<P>, order: seq<P>, queue: seq<P>, owed: seq<P>, dep: map<P, int>) {
    && dep.Keys == g.preds.Keys
    && Topological(g, order)
    && NoDup(order + queue)
    && Counted(g, order, owed, dep)
    && Queued(g, order, queue, dep)
    && ReleasedInOrder(g, order, queue)
    && Owing(g, order, owed)
  }

  /** Before the first pop the queue holds the pipes without predecessors that read from DRAM. */
  lemma InvStart<P>(g: Graph<P>, queue: seq<P>, dep: map<P, int>)
    requires dep.Keys == g.preds.Keys && forall p :: p in g.preds ==> dep[p] == |At(g.preds, p)|
    requires NoDup(queue) && forall p :: p in queue ==> p in g.preds
    requires forall p :: p in g.preds ==> (p in queue <==> At(g.preds, p) == [] && p in g.fromDram)
    ensures Inv(g, [], queue, [], dep)
  {
    assert [] + queue == queue;
    forall p | p in g.preds ensures dep[p] == Pending(At(g.preds, p), Elems([])) {
      PendingAll(At(g.preds, p));
      assert Elems<P>([]) == {};
    }
  }

  lemma InvFinal<P>(g: Graph<P>, order: seq<P>, dep: map<P, int>)
    requires Inv(g, order, [], [], dep)
    ensures IsTraceOrder(g, order)
  {
    assert order + [] == order;
    forall p | p in g.preds && p !in order ensures Stalled(g, p) || !PredsIn(g, p, order) {
      PendingNone(At(g.preds, p), Elems(order));
    }
  }

  /** Taking the first pipe off the queue: it is owed to each successor as often as it occurs there. */
  lemma InvVisit<P>(g: Graph<P>, order: seq<P>, queue: seq<P>, dep: map<P, int>, succ: seq<P>)
    requires Inv(g, order, queue, [], dep) && queue != []
    requires forall c :: c in g.preds ==> multiset(succ)[c] == multiset(At(g.preds, c))[queue[0]]
    requires forall c :: c in succ ==> c in g.preds
    ensures Inv(g, order + [queue[0]], queue[1..], succ, dep)
  {
    hide PredsIn, Pending, ReleasedInOrder, Topological, Counted, Queued, NoDup, Owing, Stalled;
    var p := queue[0];
    QueueHead(g, order, queue, dep);
    VisitTopological(g, order, p);
    VisitCounted(g, order, p, dep, succ);
    VisitQueued(g, order, queue, dep);
    VisitReleases(g, order, queue);
    VisitOwing(g, order, p, succ);
    assert (order + [p]) + queue[1..] == order + queue;
  }

  lemma QueueHead<P>(g: Graph<P>, order: seq<P>, queue: seq<P>, dep: map<P, int>)
    requires Queued(g, order, queue, dep) && queue != [] && dep.Keys == g.preds.Keys
    requires NoDup(order + queue) && ReleasedInOrder(g, order, queue)
    ensures queue[0] in g.preds && queue[0] !in order && queue[0] !in queue[1..]
    ensures PredsIn(g, queue[0], order) && !Stalled(g, queue[0])
  {
    hide PredsIn, Stalled;
    NoDupFirst(order, queue);
    assert (order + queue)[|order|] == queue[0];
    assert queue[0] in queue;
  }

  lemma NoDupFirst<T>(s: seq<T>, t: seq<T>)
    requires NoDup(s + t)
    ensures NoDup(s)
    ensures t != [] ==> t[0] !in s && t[0] !in t[1..]
  {
    forall i, j | 0 <= i < j < |s| ensures s[i] != s[j] {
      assert (s + t)[i] == s[i] && (s + t)[j] == s[j];
    }
    if t != [] {
      assert (s + t)[|s|] == t[0];
      forall i | 0 <= i < |s| ensures s[i] != t[0] {
        assert (s + t)[i] == s[i];
      }
      forall j | 0 <= j < |t| - 1 ensures t[1..][j] != t[0] {
        assert (s + t)[|s| + 1 + j] == t[1..][j];
      }
    }
  }

  lemma VisitOwing<P>(g: Graph<P>, order: seq<P>, p: P, succ: seq<P>)
    requires forall c :: c in g.preds ==> multiset(succ)[c] == multiset(At(g.preds, c))[p]
    requires forall c :: c in succ ==> c in g.preds
    ensures Owing(g, order + [p], succ)
  {
    forall c | c in succ ensures p in At(g.preds, c) {
      assert multiset(succ)[c] > 0;
    }
  }

  lemma VisitCounted<P>(g: Graph<P>, order: seq<P>, p: P, dep: map<P, int>, succ: seq<P>)
    requires Counted(g, order, [], dep) && p !in order
    requires forall c :: c in g.preds ==> multiset(succ)[c] == multiset(At(g.preds, c))[p]
    ensures Counted(g, order + [p], succ, dep)
  {
    hide Pending;
    forall c | c in g.preds && c !in order + [p]
      ensures c in dep && dep[c] == Pending(At(g.preds, c), Elems(order + [p])) + multiset(succ)[c]
    {
      PendingVisit(At(g.preds, c), Elems(order), p);
      assert Elems(order) + {p} == Elems(order + [p]);
    }
  }

  lemma VisitQueued<P>(g: Graph<P>, order: seq<P>, queue: seq<P>, dep: map<P, int>)
    requires Queued(g, order, queue, dep) && queue != [] && queue[0] !in order && queue[0] !in queue[1..]
    ensures Queued(g, order + [queue[0]], queue[1..], dep)
  {
    assert queue == [queue[0]] + queue[1..];
  }

  lemma VisitTopological<P>(g: Graph<P>, order: seq<P>, p: P)
    requires Topological(g, order) && p in g.preds && p !in order && PredsIn(g, p, order) && !Stalled(g, p)
    ensures Topological(g, order + [p])
  {
    hide PredsIn;
    var order' := order + [p];
    forall i | 0 <= i < |order'| ensures PredsIn(g, order'[i], order'[..i]) {
      assert order'[..i] == order[..i];
      assert order[..|order|] == order;
    }
  }

  lemma VisitReleases<P>(g: Graph<P>, order: seq<P>, queue: seq<P>)
    requires queue != [] && ReleasedInOrder(g, order, queue)
    ensures ReleasedInOrder(g, order + [queue[0]], queue[1..])
  {
    var order' := order + [queue[0]];
    assert order' + queue[1..] == order + queue;
    forall j | 0 <= j < |order + queue| ensures PredsIn(g, (order + queue)[j], order') {
      assert PredsIn(g, (order + queue)[j], order);
    }
    forall i, j, k | 0 <= i < j < |order + queue| && 0 <= k <= |order'| && PredsIn(g, (order + queue)[j], order'[..k])
      ensures PredsIn(g, (order + queue)[i], order'[..k])
    {
      hide PredsIn;
      if k <= |order| {
        assert order'[..k] == order[..k];
      } else {
        assert order'[..k] == order';
      }
    }
  }

  /** Paying one decrement to an unvisited successor, which is queued when its counter reaches zero. */
  lemma InvPay<P>(g: Graph<P>, order: seq<P>, queue: seq<P>, owed: seq<P>, dep: map<P, int>)
    requires Inv(g, order, queue, owed, dep) && owed != []
    ensures owed[0] in order ==> Inv(g, order, queue, owed[1..], dep)
    ensures owed[0] !in order ==>
      var c := owed[0];
      Inv(g, order, if dep[c] == 1 then queue + [c] else queue, owed[1..], dep[c := dep[c] - 1])
  {
    NoDupFirst(order, queue);
    hide PredsIn, Topological, Pending, Counted, Queued, ReleasedInOrder, Owing, NoDup, Stalled;
    var c := owed[0];
    PayOwing(g, order, owed);
    if c in order {
      PayVisited(g, order, owed, dep);
    } else {
      PayUnvisited(g, order, queue, owed, dep);
      PayCounted(g, order, owed, dep);
      PayQueued(g, order, queue, dep, c);
      if dep[c] == 1 {
        ReleaseLast(g, order, queue, c);
        assert order + (queue + [c]) == (order + queue) + [c];
        NoDupPush(order + queue, c);
      }
    }
  }

  lemma PayOwing<P>(g: Graph<P>, order: seq<P>, owed: seq<P>)
    requires Owing(g, order, owed) && owed != []
    ensures Owing(g, order, owed[1..])
    ensures owed[0] in g.preds && order != [] && order[|order| - 1] in At(g.preds, owed[0])
  {
    assert owed[0] in owed;
  }

  /** A visited pipe has no counter any more. */
  lemma PayVisited<P>(g: Graph<P>, order: seq<P>, owed: seq<P>, dep: map<P, int>)
    requires Counted(g, order, owed, dep) && owed != [] && owed[0] in order
    ensures Counted(g, order, owed[1..], dep)
  {
    hide Pending, Elems;
    assert owed == [owed[0]] + owed[1..];
  }

  /** An unvisited pipe that is owed something waits outside the queue; the last payment releases it. */
  lemma PayUnvisited<P>(g: Graph<P>, order: seq<P>, queue: seq<P>, owed: seq<P>, dep: map<P, int>)
    requires Counted(g, order, owed, dep) && Queued(g, order, queue, dep) && Owing(g, order, owed)
    requires owed != [] && owed[0] !in order
    ensures var c := owed[0];
      && c in g.preds && c in dep && dep[c] >= 1 && c !in queue && !Stalled(g, c)
      && (dep[c] == 1 ==> forall q :: q in At(g.preds, c) ==> q in order)
  {
    var c := owed[0];
    assert owed == [c] + owed[1..];
    assert multiset(owed)[c] >= 1;
    PendingNone(At(g.preds, c), Elems(order));
    hide Pending;
  }

  lemma PayCounted<P>(g: Graph<P>, order: seq<P>, owed: seq<P>, dep: map<P, int>)
    requires Counted(g, order, owed, dep) && owed != [] && owed[0] !in order && owed[0] in dep
    ensures Counted(g, order, owed[1..], dep[owed[0] := dep[owed[0]] - 1])
  {
    hide Pending, Elems;
    var c := owed[0];
    assert multiset(owed) == multiset{c} + multiset(owed[1..]) by {
      assert owed == [c] + owed[1..];
    }
  }

  lemma PayQueued<P>(g: Graph<P>, order: seq<P>, queue: seq<P>, dep: map<P, int>, c: P)
    requires Queued(g, order, queue, dep) && c in g.preds && c in dep && dep[c] >= 1 && c !in queue && c !in order && !Stalled(g, c)
    ensures Queued(g, order, if dep[c] == 1 then queue + [c] else queue, dep[c := dep[c] - 1])
  {
    hide Stalled;
  }

  lemma NoDupPush<T>(s: seq<T>, x: T)
    requires NoDup(s) && x !in s
    ensures NoDup(s + [x])
  {
  }

  lemma ReleaseLast<P>(g: Graph<P>, order: seq<P>, queue: seq<P>, c: P)
    requires ReleasedInOrder(g, order, queue) && NoDup(order) && order != []
    requires order[|order| - 1] in At(g.preds, c)
    requires forall q :: q in At(g.preds, c) ==> q in order
    ensures ReleasedInOrder(g, order, queue + [c])
  {
    var all := order + queue;
    var all' := order + (queue + [c]);
    assert all' == all + [c];
    forall i, j, k | 0 <= i < j < |all'| && 0 <= k <= |order| && PredsIn(g, all'[j], order[..k])
      ensures PredsIn(g, all'[i], order[..k])
    {
      if j == |all| {
        assert order[|order| - 1] in order[..k];
        assert k == |order|;
        assert order[..k] == order;
        assert PredsIn(g, all[i], order);
      }
    }
  }
}
