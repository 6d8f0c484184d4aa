/** The cross references between buffers and pipes of one temporal epoch, as a value.
    Every table entry lists the values of an insertion-ordered dictionary, so entries
    have no repetitions and their order is the order in which a traversal meets them. */
module Incidence {
  import opened Wrappers

  ghost function Elems<T>(s: seq<T>): set<T> {
    set x | x in s
  }

  /** `dict[key] = value` on a dictionary from ids to the objects that own them. */
  function Put<T(==)>(s: seq<T>, x: T): seq<T> {
    if x in s then s else s + [x]
  }

  function At<K(==), V>(m: map<K, seq<V>>, k: K): seq<V> {
    if k in m then m[k] else []
  }

  /* ---- one relation, kept as two tables that refer to each other ---- */

  datatype Rel<X(==), Y(==)> = Rel(fwd: map<X, seq<Y>>, back: map<Y, seq<X>>)

  /** Both tables are free of repetitions, stay within each other's keys and mirror each other. */
  ghost predicate Good<X, Y>(r: Rel<X, Y>) {
    && NoDupEntries(r.fwd) && NoDupEntries(r.back)
    && (forall x, y :: x in r.fwd && y in r.fwd[x] ==> y in r.back && x in r.back[y])
    && (forall x, y :: y in r.back && x in r.back[y] ==> x in r.fwd && y in r.fwd[x])
  }

  ghost function Add<X, Y>(r: Rel<X, Y>, x: X, y: Y): Rel<X, Y> {
    Rel(r.fwd[x := Put(At(r.fwd, x), y)], r.back[y := Put(At(r.back, y), x)])
  }

  lemma AddKeepsGood<X, Y>(r: Rel<X, Y>, x: X, y: Y)
    requires Good(r) && x in r.fwd && y in r.back
    ensures Good(Add(r, x, y))
    ensures Add(r, x, y).fwd.Keys == r.fwd.Keys && Add(r, x, y).back.Keys == r.back.Keys
  {
    var a := Add(r, x, y);
    forall u, v | u in a.fwd && v in a.fwd[u] ensures v in a.back && u in a.back[v] {
      if u != x || v != y {
        assert v in r.fwd[u];
      }
    }
    forall u, v | v in a.back && u in a.back[v] ensures u in a.fwd && v in a.fwd[u] {
      if u != x || v != y {
        assert u in r.back[v];
      }
    }
  }

  /* ---- the tables of an epoch ---- */

  datatype Net<B(==), P(==)> = Net(
    ins: Rel<P, B>,     // Pipe.input_buffers / Buffer.input_of_pipes
    outs: Rel<P, B>,   // Pipe.output_buffers / Buffer.output_of_pipes
    feeds: Rel<B, B>    // Buffer.output_buffer_of_same_op / Buffer.input_buffer_of_same_op
  )

  /** The tables cover the same pipes and buffers. */
  ghost predicate SameKeys<B, P>(net: Net<B, P>) {
    && net.ins.fwd.Keys == net.outs.fwd.Keys
    && net.ins.back.Keys == net.outs.back.Keys == net.feeds.fwd.Keys == net.feeds.back.Keys
  }

  /** Every reference is mirrored by the reference back, and no buffer is its own same-op neighbour. */
  ghost predicate Consistent<B, P>(net: Net<B, P>) {
    && SameKeys(net)
    && Good(net.ins) && Good(net.outs) && Good(net.feeds)
    && Irreflexive(net.feeds.fwd)
  }

  /** The three ways in which the program changes the tables. */
  datatype Update<B, P> =
    | Reads(pipe: P, buffer: B)    // the pipe gets an input buffer
    | Writes(pipe: P, buffer: B)   // the pipe gets an output buffer
    | Feeds(up: B, down: B)        // within an op, `down` is produced from `up`

  ghost predicate Fits<B, P>(net: Net<B, P>, u: Update<B, P>) {
    match u
    case Reads(p, b) => p in net.ins.fwd && b in net.ins.back
    case Writes(p, b) => p in net.ins.fwd && b in net.ins.back
    case Feeds(b, c) => b in net.ins.back && c in net.ins.back
  }

  ghost function Step<B, P>(net: Net<B, P>, u: Update<B, P>): Net<B, P> {
    match u
    case Reads(p, b) => net.(ins := Add(net.ins, p, b))
    case Writes(p, b) => net.(outs := Add(net.outs, p, b))
    case Feeds(b, c) => if b == c then net else net.(feeds := Add(net.feeds, b, c))
  }

  lemma StepKeepsConsistent<B, P>(net: Net<B, P>, u: Update<B, P>)
    requires Consistent(net) && Fits(net, u)
    ensures Consistent(Step(net, u))
    ensures Step(net, u).ins.fwd.Keys == net.ins.fwd.Keys && Step(net, u).ins.back.Keys == net.ins.back.Keys
  {
    match u
    case Reads(p, b) => AddKeepsGood(net.ins, p, b);
    case Writes(p, b) => AddKeepsGood(net.outs, p, b);
    case Feeds(b, c) =>
      if b != c {
        AddKeepsGood(net.feeds, b, c);
      }
  }

  ghost predicate AllFit<B, P>(net: Net<B, P>, us: seq<Update<B, P>>) {
    forall u :: u in us ==> Fits(net, u)
  }

  /** The tables after a series of updates, in order. */
  ghost function Run<B, P>(net: Net<B, P>, us: seq<Update<B, P>>): Net<B, P>
    decreases |us|
  {
    if us == [] then net else Step(Run(net, us[..|us| - 1]), us[|us| - 1])
  }

  lemma {:induction false} RunAppends<B, P>(net: Net<B, P>, us: seq<Update<B, P>>, vs: seq<Update<B, P>>)
    ensures Run(net, us + vs) == Run(Run(net, us), vs)
    decreases |vs|
  {
    if vs == [] {
      assert us + vs == us;
    } else {
      var n := |vs| - 1;
      RunAppends(net, us, vs[..n]);
      assert (us + vs)[..|us + vs| - 1] == us + vs[..n];
    }
  }

  lemma {:induction false} RunKeepsConsistent<B, P>(net: Net<B, P>, us: seq<Update<B, P>>)
    requires Consistent(net) && AllFit(net, us)
    ensures Consistent(Run(net, us))
    ensures Run(net, us).ins.fwd.Keys == net.ins.fwd.Keys && Run(net, us).ins.back.Keys == net.ins.back.Keys
    decreases |us|
  {
    if us != [] {
      var n := |us| - 1;
      RunKeepsConsistent(net, us[..n]);
      assert us[n] in us;
      StepKeepsConsistent(Run(net, us[..n]), us[n]);
    }
  }

  ghost predicate Names<B, P>(us: seq<Update<B, P>>, u: Update<B, P>) {
    u in us
  }

  lemma NamesLast<B, P>(us: seq<Update<B, P>>, last: Update<B, P>, u: Update<B, P>)
    ensures Names(us + [last], u) <==> Names(us, u) || u == last
  {
  }

  /** What a series of updates adds is exactly what it names: nothing is lost and no pair appears on its own. */
  lemma {:induction false} RunLinksExactly<B, P>(net: Net<B, P>, us: seq<Update<B, P>>, b: B, c: B)
    ensures c in At(Run(net, us).feeds.fwd, b) <==> c in At(net.feeds.fwd, b) || (b != c && Names(us, Feeds(b, c)))
    decreases |us|
  {
    if us != [] {
      var n := |us| - 1;
      RunLinksExactly(net, us[..n], b, c);
      assert us == us[..n] + [us[n]];
      NamesLast(us[..n], us[n], Feeds(b, c));
    }
  }

  lemma StepLoads<B, P>(net: Net<B, P>, u: Update<B, P>, p: P, b: B)
    ensures b in At(Step(net, u).ins.fwd, p) <==> b in At(net.ins.fwd, p) || u == Reads(p, b)
    ensures b in At(Step(net, u).outs.fwd, p) <==> b in At(net.outs.fwd, p) || u == Writes(p, b)
  {
  }

  lemma {:induction false} RunLoadsExactly<B, P>(net: Net<B, P>, us: seq<Update<B, P>>, p: P, b: B)
    ensures b in At(Run(net, us).ins.fwd, p) <==> b in At(net.ins.fwd, p) || Names(us, Reads(p, b))
    ensures b in At(Run(net, us).outs.fwd, p) <==> b in At(net.outs.fwd, p) || Names(us, Writes(p, b))
    decreases |us|
  {
    hide Step, At;
    if us != [] {
      var n := |us| - 1;
      RunLoadsExactly(net, us[..n], p, b);
      assert us == us[..n] + [us[n]];
      StepLoads(Run(net, us[..n]), us[n], p, b);
      NamesLast(us[..n], us[n], Reads(p, b));
      NamesLast(us[..n], us[n], Writes(p, b));
    }
  }

  /** What was in the tables stays, and in its order: new values come behind. */
  lemma {:induction false} RunOnlyAppends<B, P>(net: Net<B, P>, us: seq<Update<B, P>>, p: P, b: B)
    ensures At(net.ins.fwd, p) <= At(Run(net, us).ins.fwd, p) && At(net.outs.fwd, p) <= At(Run(net, us).outs.fwd, p)
    ensures At(net.ins.back, b) <= At(Run(net, us).ins.back, b) && At(net.outs.back, b) <= At(Run(net, us).outs.back, b)
    ensures At(net.feeds.fwd, b) <= At(Run(net, us).feeds.fwd, b) && At(net.feeds.back, b) <= At(Run(net, us).feeds.back, b)
    decreases |us|
  {
    if us != [] {
      hide Step, At;
      var n := |us| - 1;
      RunOnlyAppends(net, us[..n], p, b);
      StepOnlyAppends(Run(net, us[..n]), us[n], p, b);
    }
  }

  lemma StepOnlyAppends<B, P>(net: Net<B, P>, u: Update<B, P>, p: P, b: B)
    ensures At(net.ins.fwd, p) <= At(Step(net, u).ins.fwd, p) && At(net.outs.fwd, p) <= At(Step(net, u).outs.fwd, p)
    ensures At(net.ins.back, b) <= At(Step(net, u).ins.back, b) && At(net.outs.back, b) <= At(Step(net, u).outs.back, b)
    ensures At(net.feeds.fwd, b) <= At(Step(net, u).feeds.fwd, b) && At(net.feeds.back, b) <= At(Step(net, u).feeds.back, b)
  {
  }

  /* ---- successor and predecessor lists ---- */

  /** The pipes met when visiting the buffers `bs` in order and, in each, its pipes in order. */
  ghost function Hop<B, P>(bs: seq<B>, hop: map<B, seq<P>>): seq<P> {
    if bs == [] then [] else Hop(bs[..|bs| - 1], hop) + At(hop, bs[|bs| - 1])
  }

  /** Like Hop, but each buffer is preceded by its same-op neighbours. */
  ghost function Fan<B, P>(bs: seq<B>, same: map<B, seq<B>>, hop: map<B, seq<P>>): seq<P> {
    if bs == [] then [] else
      var b := bs[|bs| - 1];
      Fan(bs[..|bs| - 1], same, hop) + Hop(At(same, b) + [b], hop)
  }

  ghost function Successors<B, P>(net: Net<B, P>, p: P): seq<P> {
    Fan(At(net.outs.fwd, p), net.feeds.fwd, net.ins.back)
  }

  ghost function Predecessors<B, P>(net: Net<B, P>, p: P): seq<P> {
    Fan(At(net.ins.fwd, p), net.feeds.back, net.outs.back)
  }

  ghost predicate Within<B, P>(hop: map<B, seq<P>>, all: set<P>) {
    forall b, p :: b in hop && p in hop[b] ==> p in all
  }

  lemma {:induction false} HopStaysInside<B, P>(bs: seq<B>, hop: map<B, seq<P>>, all: set<P>, p: P)
    requires Within(hop, all) && p in Hop(bs, hop)
    ensures p in all
  {
    var n := |bs| - 1;
    if p in Hop(bs[..n], hop) {
      HopStaysInside(bs[..n], hop, all, p);
    }
  }

  lemma {:induction false} FanStaysInside<B, P>(bs: seq<B>, same: map<B, seq<B>>, hop: map<B, seq<P>>, all: set<P>, p: P)
    requires Within(hop, all) && p in Fan(bs, same, hop)
    ensures p in all
  {
    var n := |bs| - 1;
    if p in Fan(bs[..n], same, hop) {
      FanStaysInside(bs[..n], same, hop, all, p);
    } else {
      HopStaysInside(At(same, bs[n]) + [bs[n]], hop, all, p);
    }
  }

  lemma BackStaysInside<X, Y>(r: Rel<X, Y>)
    requires Good(r)
    ensures Within(r.back, r.fwd.Keys)
  {
  }

  /** Successors and predecessors are pipes of the epoch. */
  lemma NeighboursInside<B, P>(net: Net<B, P>, p: P)
    requires Consistent(net)
    ensures forall q :: q in Successors(net, p) ==> q in net.ins.fwd.Keys
    ensures forall q :: q in Predecessors(net, p) ==> q in net.ins.fwd.Keys
  {
    BackStaysInside(net.ins);
    BackStaysInside(net.outs);
    forall q | q in Successors(net, p) ensures q in net.ins.fwd.Keys {
      FanStaysInside(At(net.outs.fwd, p), net.feeds.fwd, net.ins.back, net.ins.fwd.Keys, q);
    }
    forall q | q in Predecessors(net, p) ensures q in net.ins.fwd.Keys {
      FanStaysInside(At(net.ins.fwd, p), net.feeds.back, net.outs.back, net.outs.fwd.Keys, q);
    }
  }

  /* ---- double counting ---- */

  lemma {:induction false} NoDupCount<T>(s: seq<T>, x: T)
    requires NoDup(s)
    ensures multiset(s)[x] == if x in s then 1 else 0
  {
    if s != [] {
      var n := |s| - 1;
      NoDupCount(s[..n], x);
      assert s == s[..n] + [s[n]];
    }
  }

  ghost function Holders<B, P>(bs: seq<B>, hop: map<B, seq<P>>, q: P): set<B> {
    set b | b in bs && q in At(hop, b)
  }

  lemma HoldersLast<B, P>(bs: seq<B>, last: B, hop: map<B, seq<P>>, q: P)
    ensures Holders(bs + [last], hop, q) == Holders(bs, hop, q) + if q in At(hop, last) then {last} else {}
  {
  }

  lemma {:induction false} HopCount<B, P>(bs: seq<B>, hop: map<B, seq<P>>, q: P)
    requires NoDup(bs) && NoDupEntries(hop)
    ensures multiset(Hop(bs, hop))[q] == |Holders(bs, hop, q)|
  {
    if bs == [] {
      assert Holders(bs, hop, q) == {};
    } else {
      var n := |bs| - 1;
      HopCount(bs[..n], hop, q);
      NoDupCount(At(hop, bs[n]), q);
      assert bs == bs[..n] + [bs[n]];
      HoldersLast(bs[..n], bs[n], hop, q);
      assert bs[n] !in bs[..n];
    }
  }

  /** The ways to get from the buffers `bs` to pipe `q`: first buffer, buffer whose pipe is taken. */
  ghost function Routes<B, P>(bs: seq<B>, same: map<B, seq<B>>, hop: map<B, seq<P>>, q: P): set<(B, B)> {
    set b, c | b in bs && c in Holders(At(same, b) + [b], hop, q) :: (b, c)
  }

  ghost function Pairs<B>(b: B, cs: set<B>): set<(B, B)> {
    set c | c in cs :: (b, c)
  }

  lemma {:induction false} PairCard<B>(b: B, cs: set<B>)
    ensures |Pairs(b, cs)| == |cs|
  {
    if cs != {} {
      var c :| c in cs;
      PairCard(b, cs - {c});
      assert Pairs(b, cs) == Pairs(b, cs - {c}) + {(b, c)};
    } else {
      assert Pairs(b, cs) == {};
    }
  }

  lemma RoutesLast<B, P>(bs: seq<B>, last: B, same: map<B, seq<B>>, hop: map<B, seq<P>>, q: P)
    ensures Routes(bs + [last], same, hop, q)
         == Routes(bs, same, hop, q) + Pairs(last, Holders(At(same, last) + [last], hop, q))
  {
  }

  lemma NoDupParts<T>(s: seq<T>)
    requires NoDup(s) && s != []
    ensures NoDup(s[..|s| - 1]) && s[|s| - 1] !in s[..|s| - 1]
  {
  }

  ghost predicate NoDupEntries<K, T>(m: map<K, seq<T>>) {
    forall k :: k in m ==> NoDup(m[k])
  }

  ghost predicate Irreflexive<B>(m: map<B, seq<B>>) {
    forall b :: b in m ==> b !in m[b]
  }

  lemma NearNoDup<B>(same: map<B, seq<B>>, b: B)
    requires NoDupEntries(same) && Irreflexive(same)
    ensures NoDup(At(same, b) + [b])
  {
  }

  lemma RoutesNone<B, P>(same: map<B, seq<B>>, hop: map<B, seq<P>>, q: P)
    ensures Routes([], same, hop, q) == {}
  {
  }

  lemma RoutesStart<B, P>(bs: seq<B>, same: map<B, seq<B>>, hop: map<B, seq<P>>, q: P, b: B, cs: set<B>)
    requires b !in bs
    ensures Routes(bs, same, hop, q) !! Pairs(b, cs)
  {
  }

  lemma {:induction false} FanCount<B, P>(bs: seq<B>, same: map<B, seq<B>>, hop: map<B, seq<P>>, q: P)
    requires NoDup(bs)
    requires NoDupEntries(same) && Irreflexive(same) && NoDupEntries(hop)
    ensures multiset(Fan(bs, same, hop))[q] == |Routes(bs, same, hop, q)|
  {
    hide Holders, Routes, Pairs, Hop, NoDup, At, NoDupEntries, Irreflexive;
    if bs == [] {
      RoutesNone(same, hop, q);
    } else {
      var n := |bs| - 1;
      var near := At(same, bs[n]) + [bs[n]];
      NoDupParts(bs);
      NearNoDup(same, bs[n]);
      FanCount(bs[..n], same, hop, q);
      HopCount(near, hop, q);
      PairCard(bs[n], Holders(near, hop, q));
      assert bs == bs[..n] + [bs[n]];
      RoutesLast(bs[..n], bs[n], same, hop, q);
      RoutesStart(bs[..n], same, hop, q, bs[n], Holders(near, hop, q));
    }
  }

  lemma {:induction false} SwapCard<A, B>(ps: set<(A, B)>)
    ensures |set p | p in ps :: (p.1, p.0)| == |ps|
  {
    if ps != {} {
      var p :| p in ps;
      SwapCard(ps - {p});
      assert (set d | d in ps :: (d.1, d.0)) == (set d | d in ps - {p} :: (d.1, d.0)) + {(p.1, p.0)};
    } else {
      assert (set p | p in ps :: (p.1, p.0)) == {};
    }
  }

  lemma RoutesReverse<B, P>(net: Net<B, P>, p: P, q: P)
    requires Consistent(net) && p in net.ins.fwd && q in net.ins.fwd
    ensures Routes(At(net.ins.fwd, q), net.feeds.back, net.outs.back, p)
         == set d | d in Routes(At(net.outs.fwd, p), net.feeds.fwd, net.ins.back, q) :: (d.1, d.0)
  {
    var there := Routes(At(net.outs.fwd, p), net.feeds.fwd, net.ins.back, q);
    var back := Routes(At(net.ins.fwd, q), net.feeds.back, net.outs.back, p);
    forall b, c | (b, c) in there ensures (c, b) in back {
      assert c in At(net.ins.fwd, q) && p in At(net.outs.back, b);
    }
    forall c, b | (c, b) in back ensures (b, c) in there {
      assert b in At(net.outs.fwd, p) && q in At(net.ins.back, c);
    }
    forall d | d in back ensures d in set e | e in there :: (e.1, e.0) {
      assert (d.1, d.0) in there;
    }
  }

  /** Edge multiplicities seen from both ends agree: `q` occurs among p's successors exactly as often
      as `p` occurs among q's predecessors. */
  lemma SuccessorsMirrorPredecessors<B, P>(net: Net<B, P>, p: P, q: P)
    requires Consistent(net) && p in net.ins.fwd && q in net.ins.fwd
    ensures multiset(Successors(net, p))[q] == multiset(Predecessors(net, q))[p]
  {
    hide Fan, Routes;
    FanCount(At(net.outs.fwd, p), net.feeds.fwd, net.ins.back, q);
    FanCount(At(net.ins.fwd, q), net.feeds.back, net.outs.back, p);
    RoutesReverse(net, p, q);
    SwapCard(Routes(At(net.outs.fwd, p), net.feeds.fwd, net.ins.back, q));
  }

  /** ... and they still do after any series of connections and any incidence loading. */
  lemma MirrorSurvivesUpdates<B, P>(net: Net<B, P>, us: seq<Update<B, P>>, p: P, q: P)
    requires Consistent(net) && AllFit(net, us) && p in net.ins.fwd && q in net.ins.fwd
    ensures multiset(Successors(Run(net, us), p))[q] == multiset(Predecessors(Run(net, us), q))[p]
  {
    RunKeepsConsistent(net, us);
    SuccessorsMirrorPredecessors(Run(net, us), p, q);
  }
}
