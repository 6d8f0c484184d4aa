/** Printing the packets of an epoch: predecessor counting, the worklist and the packets of one pipe. */
module PipeTrace {
  import opened Incidence
  import opened TraceOrder
  import opened PipeGraph
  import opened Wrappers

  datatype PipeType = Unicast | Scatter | Gather | AllToAll

  datatype Packet = Packet(cycle: int, id: int, size: int, kind: PipeType, src: int, dst: int, nodeTypes: int,
                           numDeps: int, deps: seq<int>)

  datatype Result<T> = Ok(value: T) | UnconnectedBuffer

  /* ---- what is printed for one pipe ---- */

  function SumBytes(ins: seq<Buffer>): int {
    if ins == [] then 0 else SumBytes(ins[..|ins| - 1]) + ins[|ins| - 1].root.tileSize * ins[|ins| - 1].root.sizeTiles
  }

  /** Largest delay among the sources; only asked for when there is a source. */
  function MaxDelay(ins: seq<Buffer>): int
    requires ins != []
  {
    var d := ins[|ins| - 1].root.delay;
    if |ins| == 1 then d else
      var m := MaxDelay(ins[..|ins| - 1]);
      if m < d then d else m
  }

  function TypeOf(ins: seq<Buffer>, outs: seq<Buffer>): PipeType
    requires ins != []
  {
    if |ins| > 1 && |outs| == 1 then Gather
    else if ins[0].root.scatter || (|ins| == 1 && |outs| > 1) then Scatter
    else if |ins| > 1 && |outs| > 1 then AllToAll
    else Unicast
  }

  /** `count` consecutive ids. */
  function Ids(first: int, count: nat): seq<int> {
    if count == 0 then [] else Ids(first, count - 1) + [first + count - 1]
  }

  lemma {:induction false} IdsAre(first: int, count: nat, d: int)
    ensures |Ids(first, count)| == count && forall k :: 0 <= k < count ==> Ids(first, count)[k] == first + k
    ensures d in Ids(first, count) <==> first <= d < first + count
  {
    if count > 0 {
      IdsAre(first, count - 1, d);
    }
  }

  ghost function Row(src: Buffer, outs: seq<Buffer>): seq<(Buffer, Buffer)> {
    if outs == [] then [] else Row(src, outs[..|outs| - 1]) + [(src, outs[|outs| - 1])]
  }

  /** Source and destination of each unicast packet, sources outermost. */
  ghost function Ends(ins: seq<Buffer>, outs: seq<Buffer>): seq<(Buffer, Buffer)> {
    if ins == [] then [] else Ends(ins[..|ins| - 1], outs) + Row(ins[|ins| - 1], outs)
  }

  lemma {:induction false} RowLength(src: Buffer, outs: seq<Buffer>)
    ensures |Row(src, outs)| == |outs|
  {
    if outs != [] {
      RowLength(src, outs[..|outs| - 1]);
    }
  }

  lemma {:induction false} EndsLength(ins: seq<Buffer>, outs: seq<Buffer>)
    ensures |Ends(ins, outs)| == |ins| * |outs|
  {
    if ins != [] {
      EndsLength(ins[..|ins| - 1], outs);
      RowLength(ins[|ins| - 1], outs);
      assert |ins| * |outs| == (|ins| - 1) * |outs| + |outs|;
    }
  }

  /** The packets for the given ends: consecutive ids, everything else shared. */
  ghost function Packets(ends: seq<(Buffer, Buffer)>, first: int, ins: seq<Buffer>, outs: seq<Buffer>, deps: seq<int>): seq<Packet>
    requires ends != [] ==> ins != []
  {
    if ends == [] then [] else
      var n := |ends| - 1;
      Packets(ends[..n], first, ins, outs, deps)
      + [Packet(MaxDelay(ins), first + n, SumBytes(ins), TypeOf(ins, outs),
                ends[n].0.root.node, ends[n].1.root.node, 0, |deps|, deps)]
  }

  lemma {:induction false} PacketsAt(ends: seq<(Buffer, Buffer)>, first: int, ins: seq<Buffer>, outs: seq<Buffer>, deps: seq<int>, k: nat)
    requires (ends != [] ==> ins != []) && k < |ends|
    ensures |Packets(ends, first, ins, outs, deps)| == |ends|
    ensures Packets(ends, first, ins, outs, deps)[k].id == first + k
    ensures Packets(ends, first, ins, outs, deps)[k].deps == deps
  {
    var n := |ends| - 1;
    if n > 0 {
      PacketsAt(ends[..n], first, ins, outs, deps, if k < n then k else 0);
    }
  }

  /* ---- the same, read off the tables of the epoch ---- */

  type Tables = Net<Buffer, Pipe>

  ghost function Sources(net: Tables, p: Pipe): seq<Buffer> {
    At(net.ins.fwd, p)
  }

  ghost function Targets(net: Tables, p: Pipe): seq<Buffer> {
    At(net.outs.fwd, p)
  }

  ghost function PacketIds(net: Tables, p: Pipe): seq<int> {
    Ids(p.root.id, |Sources(net, p)| * |Targets(net, p)|)
  }

  ghost function IdsOfAll(net: Tables, ps: seq<Pipe>): seq<int> {
    if ps == [] then [] else IdsOfAll(net, ps[..|ps| - 1]) + PacketIds(net, ps[|ps| - 1])
  }

  ghost function Deps(net: Tables, p: Pipe): seq<int> {
    IdsOfAll(net, Successors(net, p))
  }

  ghost function PipePackets(net: Tables, p: Pipe): seq<Packet> {
    Packets(Ends(Sources(net, p), Targets(net, p)), p.root.id, Sources(net, p), Targets(net, p), Deps(net, p))
  }

  ghost function TraceOf(net: Tables, order: seq<Pipe>): seq<Packet> {
    if order == [] then [] else TraceOf(net, order[..|order| - 1]) + PipePackets(net, order[|order| - 1])
  }

  ghost function GraphOf(net: Tables): Graph<Pipe> {
    Graph(map p | p in net.ins.fwd :: Predecessors(net, p),
          set p | p in net.ins.fwd && forall b :: b in Sources(net, p) ==> b.root.dramType)
  }

  /* ---- what the trace means ---- */

  lemma {:induction false} IdsOfAllAre(net: Tables, ps: seq<Pipe>, d: int)
    ensures d in IdsOfAll(net, ps) <==> exists q :: q in ps && d in PacketIds(net, q)
  {
    hide PacketIds;
    if ps != [] {
      var n := |ps| - 1;
      IdsOfAllAre(net, ps[..n], d);
      assert ps == ps[..n] + [ps[n]];
    }
  }

  /** Every packet of the trace comes from one printed pipe, and position in the trace follows the order of pipes. */
  lemma {:induction false} Locate(net: Tables, order: seq<Pipe>, x: nat) returns (i: nat, k: nat)
    requires x < |TraceOf(net, order)|
    ensures i < |order| && k < |PipePackets(net, order[i])|
    ensures x == |TraceOf(net, order[..i])| + k
    ensures TraceOf(net, order)[x] == PipePackets(net, order[i])[k]
  {
    hide PipePackets;
    var n := |order| - 1;
    var before := TraceOf(net, order[..n]);
    if x < |before| {
      i, k := Locate(net, order[..n], x);
      assert order[..n][..i] == order[..i];
    } else {
      i, k := n, x - |before|;
    }
  }

  lemma {:induction false} PrintedAt(net: Tables, order: seq<Pipe>, i: nat, k: nat) returns (x: nat)
    requires i < |order| && k < |PipePackets(net, order[i])|
    ensures x < |TraceOf(net, order)| && x == |TraceOf(net, order[..i])| + k
    ensures TraceOf(net, order)[x] == PipePackets(net, order[i])[k]
  {
    hide PipePackets;
    var n := |order| - 1;
    if i < n {
      x := PrintedAt(net, order[..n], i, k);
      assert order[..n][..i] == order[..i];
    } else {
      x := |TraceOf(net, order[..n])| + k;
    }
  }

  lemma {:induction false} TraceGrows(net: Tables, order: seq<Pipe>, i: nat, j: nat)
    requires i <= j <= |order|
    ensures |TraceOf(net, order[..i])| <= |TraceOf(net, order[..j])|
    decreases j - i
  {
    hide PipePackets;
    if i < j {
      TraceGrows(net, order, i, j - 1);
      assert order[..j][..j - 1] == order[..j - 1];
    }
  }

  lemma PipePacketsAre(net: Tables, p: Pipe, k: nat)
    requires k < |Sources(net, p)| * |Targets(net, p)|
    ensures |PipePackets(net, p)| == |Sources(net, p)| * |Targets(net, p)|
    ensures PipePackets(net, p)[k].id == p.root.id + k && PipePackets(net, p)[k].deps == Deps(net, p)
  {
    EndsLength(Sources(net, p), Targets(net, p));
    PacketsAt(Ends(Sources(net, p), Targets(net, p)), p.root.id, Sources(net, p), Targets(net, p), Deps(net, p), k);
  }

  lemma PipePacketsCount(net: Tables, p: Pipe)
    ensures |PipePackets(net, p)| == |Sources(net, p)| * |Targets(net, p)|
  {
    EndsLength(Sources(net, p), Targets(net, p));
    if Ends(Sources(net, p), Targets(net, p)) != [] {
      PacketsAt(Ends(Sources(net, p), Targets(net, p)), p.root.id, Sources(net, p), Targets(net, p), Deps(net, p), 0);
    }
  }

  lemma IndexUnique<T>(s: seq<T>, i: nat, j: nat)
    requires NoDup(s) && i < |s| && j < |s| && s[i] == s[j]
    ensures i == j
  {
  }

  /** A printed successor stands later in the order. */
  lemma SuccessorLater(net: Tables, order: seq<Pipe>, i: nat, q: Pipe) returns (j: nat)
    requires Consistent(net) && Topological(GraphOf(net), order) && i < |order|
    requires q in Successors(net, order[i]) && q in order
    ensures i < j < |order| && order[j] == q
  {
    hide Successors, Predecessors, Consistent;
    var p := order[i];
    j :| 0 <= j < |order| && order[j] == q;
    assert p in net.ins.fwd && q in net.ins.fwd;
    SuccessorsMirrorPredecessors(net, p, q);
    assert multiset(Successors(net, p))[q] > 0;
    assert p in Predecessors(net, q);
    assert PredsIn(GraphOf(net), order[j], order[..j]);
    assert p in order[..j];
    var m :| 0 <= m < j && order[m] == p;
    IndexUnique(order, m, i);
  }

  /** Every id in a packet's `deps` is an id of a pipe that succeeds the packet's pipe. If that pipe is
      printed at all, its packet with this id stands later in the trace. */
  lemma DepsComeLater(net: Tables, order: seq<Pipe>, x: nat, d: int) returns (q: Pipe)
    requires Consistent(net) && Topological(GraphOf(net), order)
    requires x < |TraceOf(net, order)| && d in TraceOf(net, order)[x].deps
    ensures q in net.ins.fwd && d in PacketIds(net, q)
    ensures q in order ==> exists y :: x < y < |TraceOf(net, order)| && TraceOf(net, order)[y].id == d
  {
    hide Successors, TraceOf, PipePackets, IdsOfAll, Consistent, Topological;
    var i, k := Locate(net, order, x);
    PipePacketsCount(net, order[i]);
    PipePacketsAre(net, order[i], k);
    IdsOfAllAre(net, Successors(net, order[i]), d);
    q :| q in Successors(net, order[i]) && d in PacketIds(net, q);
    NeighboursInside(net, order[i]);
    if q in order {
      var j := SuccessorLater(net, order, i, q);
      IdsAre(q.root.id, |Sources(net, q)| * |Targets(net, q)|, d);
      PipePacketsCount(net, q);
      var y := PrintedAt(net, order, j, d - q.root.id);
      PipePacketsAre(net, q, d - q.root.id);
      BlockEnd(net, order, i);
      TraceGrows(net, order, i + 1, j);
      assert x < y;
    }
  }

  lemma BlockEnd(net: Tables, order: seq<Pipe>, i: nat)
    requires i < |order|
    ensures |TraceOf(net, order[..i + 1])| == |TraceOf(net, order[..i])| + |PipePackets(net, order[i])|
  {
    assert order[..i + 1][..i] == order[..i];
  }

  /** When the graph is acyclic and starts in DRAM, every dependency is printed after its dependent. */
  lemma AcyclicDepsComeLater(net: Tables, order: seq<Pipe>, x: nat, d: int)
    requires Consistent(net) && IsTraceOrder(GraphOf(net), order) && Inside(GraphOf(net))
    requires SourcesInDram(GraphOf(net)) && forall w: seq<Pipe> :: !Cycle(GraphOf(net), w)
    requires x < |TraceOf(net, order)| && d in TraceOf(net, order)[x].deps
    ensures exists y :: x < y < |TraceOf(net, order)| && TraceOf(net, order)[y].id == d
  {
    AllPrintedIffAcyclicFromDram(GraphOf(net), order);
    hide TraceOf, Cycle, IsTraceOrder, SourcesInDram;
    assert Topological(GraphOf(net), order) by { TraceOrderIsTopological(GraphOf(net), order); }
    var q := DepsComeLater(net, order, x, d);
    assert q !in Unprinted(GraphOf(net), order);
  }

  lemma TraceOrderIsTopological<P>(g: Graph<P>, order: seq<P>)
    requires IsTraceOrder(g, order)
    ensures Topological(g, order)
  {
  }

  /** Ids of different pipes are at least as far apart as the lower one has (source, target) pairs. */
  ghost predicate Spaced(net: Tables) {
    forall p, q :: p in net.ins.fwd && q in net.ins.fwd && p != q ==>
      p.root.id + |Sources(net, p)| * |Targets(net, p)| <= q.root.id
      || q.root.id + |Sources(net, q)| * |Targets(net, q)| <= p.root.id
  }

  lemma PacketIdsDistinct(net: Tables, order: seq<Pipe>, x: nat, y: nat)
    requires Spaced(net) && Topological(GraphOf(net), order)
    requires x < y < |TraceOf(net, order)|
    ensures TraceOf(net, order)[x].id != TraceOf(net, order)[y].id
  {
    hide TraceOf, PipePackets, Sources, Targets;
    var i, k := Locate(net, order, x);
    var j, m := Locate(net, order, y);
    PipePacketsCount(net, order[i]);
    PipePacketsAre(net, order[i], k);
    PipePacketsCount(net, order[j]);
    PipePacketsAre(net, order[j], m);
    if order[i] == order[j] {
      IndexUnique(order, i, j);
    }
  }

  /* ---- what one packet says ---- */

  lemma {:induction false} MaxDelayIsLargest(ins: seq<Buffer>)
    requires ins != []
    ensures exists i :: 0 <= i < |ins| && ins[i].root.delay == MaxDelay(ins)
    ensures forall i :: 0 <= i < |ins| ==> ins[i].root.delay <= MaxDelay(ins)
  {
    var n := |ins| - 1;
    if n > 0 {
      MaxDelayIsLargest(ins[..n]);
      assert forall i :: 0 <= i < n ==> ins[..n][i] == ins[i];
      var i :| 0 <= i < n && ins[..n][i].root.delay == MaxDelay(ins[..n]);
      assert ins[if MaxDelay(ins) == ins[n].root.delay then n else i].root.delay == MaxDelay(ins);
    } else {
      assert ins[0].root.delay == MaxDelay(ins);
    }
  }

  /** Totals of the bytes of the first buffers, one buffer more at each place. */
  ghost predicate Totals(sums: seq<int>, bs: seq<Buffer>) {
    && |sums| == |bs| + 1 && sums[0] == 0
    && forall i :: 0 <= i < |bs| ==> sums[i + 1] == sums[i] + bs[i].root.tileSize * bs[i].root.sizeTiles
  }

  lemma {:induction false} SumBytesIsTotal(ins: seq<Buffer>) returns (sums: seq<int>)
    ensures Totals(sums, ins) && sums[|ins|] == SumBytes(ins)
  {
    if ins == [] {
      sums := [0];
    } else {
      var before := SumBytesIsTotal(ins[..|ins| - 1]);
      sums := before + [SumBytes(ins)];
    }
  }

  lemma RowAt(src: Buffer, outs: seq<Buffer>, j: nat)
    requires j < |outs|
    ensures |Row(src, outs)| == |outs| && Row(src, outs)[j] == (src, outs[j])
  {
    RowLength(src, outs);
    if j < |outs| - 1 {
      RowAt(src, outs[..|outs| - 1], j);
      RowLength(src, outs[..|outs| - 1]);
    } else {
      RowLength(src, outs[..|outs| - 1]);
    }
  }

  /** Place `i * |outs| + j` holds source `i` and target `j`. */
  lemma {:induction false} EndsAt(ins: seq<Buffer>, outs: seq<Buffer>, i: nat, j: nat)
    requires i < |ins| && j < |outs|
    ensures i * |outs| + j < |ins| * |outs| == |Ends(ins, outs)|
    ensures Ends(ins, outs)[i * |outs| + j] == (ins[i], outs[j])
  {
    hide Row;
    var n := |ins| - 1;
    EndsLength(ins, outs);
    EndsLength(ins[..n], outs);
    if i < n {
      EndsAt(ins[..n], outs, i, j);
      assert n * |outs| <= |ins| * |outs|;
    } else {
      RowAt(ins[n], outs, j);
      assert |ins| * |outs| == n * |outs| + |outs|;
    }
  }

  lemma {:induction false} PacketsAre(ends: seq<(Buffer, Buffer)>, first: int, ins: seq<Buffer>, outs: seq<Buffer>,
                                      deps: seq<int>, k: nat)
    requires ins != [] && k < |ends|
    ensures |Packets(ends, first, ins, outs, deps)| == |ends|
    ensures Packets(ends, first, ins, outs, deps)[k] ==
      Packet(MaxDelay(ins), first + k, SumBytes(ins), TypeOf(ins, outs), ends[k].0.root.node, ends[k].1.root.node, 0, |deps|, deps)
  {
    hide MaxDelay, SumBytes, TypeOf;
    var n := |ends| - 1;
    if n > 0 {
      PacketsAre(ends[..n], first, ins, outs, deps, if k < n then k else 0);
    }
  }

  /** The packet from source `i` to target `j` of a pipe. It waits as long as the slowest source takes and carries the bytes
      of all sources; its kind depends on how many sources and targets there are and on the flag of the first source. */
  lemma PacketMeans(net: Tables, p: Pipe, i: nat, j: nat)
    requires i < |Sources(net, p)| && j < |Targets(net, p)|
    ensures var ins, outs := Sources(net, p), Targets(net, p);
      && i * |outs| + j < |PipePackets(net, p)| == |ins| * |outs|
      && var x := PipePackets(net, p)[i * |outs| + j];
      && x.id == p.root.id + i * |outs| + j && x.src == ins[i].root.node && x.dst == outs[j].root.node
      && (exists s :: 0 <= s < |ins| && ins[s].root.delay == x.cycle)
      && (forall s :: 0 <= s < |ins| ==> ins[s].root.delay <= x.cycle)
      && (exists sums :: Totals(sums, ins) && sums[|ins|] == x.size)
      && (x.kind == Gather <==> |ins| > 1 && |outs| == 1)
      && (x.kind == Scatter <==> (|ins| == 1 && (|outs| > 1 || ins[0].root.scatter)) || (|outs| > 1 && ins[0].root.scatter))
      && (x.kind == AllToAll <==> |ins| > 1 && |outs| > 1 && !ins[0].root.scatter)
      && (x.kind == Unicast <==> |ins| == 1 && |outs| == 1 && !ins[0].root.scatter)
      && x.nodeTypes == 0 && x.numDeps == |x.deps| && x.deps == Deps(net, p)
      && (forall d :: d in x.deps <==> exists q :: q in Successors(net, p)
                                                && q.root.id <= d < q.root.id + |Sources(net, q)| * |Targets(net, q)|)
  {
    hide MaxDelay, SumBytes, Packets, Ends, Successors;
    var ins, outs := Sources(net, p), Targets(net, p);
    EndsAt(ins, outs, i, j);
    PacketsAre(Ends(ins, outs), p.root.id, ins, outs, Deps(net, p), i * |outs| + j);
    MaxDelayIsLargest(ins);
    var sums := SumBytesIsTotal(ins);
    DepsAre(net, p);
  }

  lemma DepsAre(net: Tables, p: Pipe)
    ensures forall d :: d in Deps(net, p) <==> exists q :: q in Successors(net, p)
                                                 && q.root.id <= d < q.root.id + |Sources(net, q)| * |Targets(net, q)|
  {
    hide Successors;
    forall d ensures d in Deps(net, p) <==> exists q :: q in Successors(net, p)
                                                 && q.root.id <= d < q.root.id + |Sources(net, q)| * |Targets(net, q)|
    {
      IdsOfAllAre(net, Successors(net, p), d);
      forall q ensures d in PacketIds(net, q) <==> q.root.id <= d < q.root.id + |Sources(net, q)| * |Targets(net, q)| {
        IdsAre(q.root.id, |Sources(net, q)| * |Targets(net, q)|, d);
      }
    }
  }

  /* ---- reading the tables off the objects ---- */

  lemma FwdInside<X, Y>(r: Rel<X, Y>, x: X)
    requires Good(r)
    ensures forall y :: y in At(r.fwd, x) ==> y in r.back.Keys
  {
  }

  lemma BackInside<X, Y>(r: Rel<X, Y>, y: Y)
    requires Good(r)
    ensures forall x :: x in At(r.back, y) ==> x in r.fwd.Keys
  {
  }

  lemma PipeEntries(p: Pipe, buffers: set<Buffer>, pipes: set<Pipe>)
    requires p in pipes && Consistent(Snapshot(buffers, pipes))
    ensures Sources(Snapshot(buffers, pipes), p) == p.inputBuffers
    ensures Targets(Snapshot(buffers, pipes), p) == p.outputBuffers
    ensures forall b :: b in p.inputBuffers ==> b in buffers
    ensures forall b :: b in p.outputBuffers ==> b in buffers
  {
    hide Good, Irreflexive;
    FwdInside(InputTables(buffers, pipes), p);
    FwdInside(OutputTables(buffers, pipes), p);
    assert InputTables(buffers, pipes).back.Keys == buffers;
    assert OutputTables(buffers, pipes).back.Keys == buffers;
  }

  lemma BufferEntries(b: Buffer, buffers: set<Buffer>, pipes: set<Pipe>)
    requires b in buffers && Consistent(Snapshot(buffers, pipes))
    ensures At(Snapshot(buffers, pipes).feeds.fwd, b) == b.outputBufferOfSameOp
    ensures At(Snapshot(buffers, pipes).feeds.back, b) == b.inputBufferOfSameOp
    ensures At(Snapshot(buffers, pipes).ins.back, b) == b.inputOfPipes
    ensures At(Snapshot(buffers, pipes).outs.back, b) == b.outputOfPipes
    ensures forall c :: c in b.outputBufferOfSameOp ==> c in buffers
    ensures forall c :: c in b.inputBufferOfSameOp ==> c in buffers
  {
    hide Good, Irreflexive;
    FwdInside(SameOpTables(buffers), b);
    BackInside(SameOpTables(buffers), b);
    assert SameOpTables(buffers).back.Keys == buffers;
    assert SameOpTables(buffers).fwd.Keys == buffers;
  }

  lemma FanLast<B, P>(bs: seq<B>, b: B, same: map<B, seq<B>>, hop: map<B, seq<P>>)
    ensures Fan(bs + [b], same, hop) == Fan(bs, same, hop) + Hop(At(same, b) + [b], hop)
  {
    assert (bs + [b])[..|bs|] == bs;
  }

  lemma HopLast<B, P>(bs: seq<B>, b: B, hop: map<B, seq<P>>)
    ensures Hop(bs + [b], hop) == Hop(bs, hop) + At(hop, b)
  {
    assert (bs + [b])[..|bs|] == bs;
  }

  /** All pipes that read the buffers, in the order of the buffers. */
  method PipesReading(bs: seq<Buffer>, ghost buffers: set<Buffer>, ghost pipes: set<Pipe>) returns (ret: seq<Pipe>)
    requires Consistent(Snapshot(buffers, pipes)) && forall i :: 0 <= i < |bs| ==> bs[i] in buffers
    ensures ret == Hop(bs, Snapshot(buffers, pipes).ins.back)
  {
    hide Snapshot, Consistent, Hop;
    ghost var hop := Snapshot(buffers, pipes).ins.back;
    ret := [];
    HopNone(hop);
    for j := 0 to |bs|
      invariant ret == Hop(bs[..j], hop)
    {
      var found := bs[j].inputOfPipes;
      BufferEntries(bs[j], buffers, pipes);
      ghost var start := ret;
      for k := 0 to |found|
        invariant ret == start + found[..k]
      {
        ret := ret + [found[k]];
      }
      assert found[..|found|] == found;
      assert bs[..j + 1] == bs[..j] + [bs[j]];
      HopLast(bs[..j], bs[j], hop);
    }
    assert bs[..|bs|] == bs;
  }

  /** All pipes that write the buffers, in the order of the buffers. */
  method PipesWriting(bs: seq<Buffer>, ghost buffers: set<Buffer>, ghost pipes: set<Pipe>) returns (ret: seq<Pipe>)
    requires Consistent(Snapshot(buffers, pipes)) && forall i :: 0 <= i < |bs| ==> bs[i] in buffers
    ensures ret == Hop(bs, Snapshot(buffers, pipes).outs.back)
  {
    hide Snapshot, Consistent, Hop;
    ghost var hop := Snapshot(buffers, pipes).outs.back;
    ret := [];
    HopNone(hop);
    for j := 0 to |bs|
      invariant ret == Hop(bs[..j], hop)
    {
      var found := bs[j].outputOfPipes;
      BufferEntries(bs[j], buffers, pipes);
      ghost var start := ret;
      for k := 0 to |found|
        invariant ret == start + found[..k]
      {
        ret := ret + [found[k]];
      }
      assert found[..|found|] == found;
      assert bs[..j + 1] == bs[..j] + [bs[j]];
      HopLast(bs[..j], bs[j], hop);
    }
    assert bs[..|bs|] == bs;
  }

  /** Pipes reading the output buffers of `p` or, through an op, the buffers produced from them. */
  method SucceedPipes(p: Pipe, ghost buffers: set<Buffer>, ghost pipes: set<Pipe>) returns (ret: seq<Pipe>)
    requires p in pipes && Consistent(Snapshot(buffers, pipes))
    ensures ret == Successors(Snapshot(buffers, pipes), p)
  {
    hide Snapshot, Consistent, Fan, Hop, At;
    PipeEntries(p, buffers, pipes);
    ghost var net := Snapshot(buffers, pipes);
    var bs := p.outputBuffers;
    ret := [];
    FanNone(net.feeds.fwd, net.ins.back);
    for i := 0 to |bs|
      invariant ret == Fan(bs[..i], net.feeds.fwd, net.ins.back)
    {
      BufferEntries(bs[i], buffers, pipes);
      var found := PipesReading(bs[i].outputBufferOfSameOp + [bs[i]], buffers, pipes);
      ret := ret + found;
      assert bs[..i + 1] == bs[..i] + [bs[i]];
      FanLast(bs[..i], bs[i], net.feeds.fwd, net.ins.back);
    }
    assert bs[..|bs|] == bs;
  }

  /** Pipes writing the input buffers of `p` or, through an op, the buffers they are produced from. */
  method PredecessorPipes(p: Pipe, ghost buffers: set<Buffer>, ghost pipes: set<Pipe>) returns (ret: seq<Pipe>)
    requires p in pipes && Consistent(Snapshot(buffers, pipes))
    ensures ret == Predecessors(Snapshot(buffers, pipes), p)
  {
    hide Snapshot, Consistent, Fan, Hop, At;
    PipeEntries(p, buffers, pipes);
    ghost var net := Snapshot(buffers, pipes);
    var bs := p.inputBuffers;
    ret := [];
    FanNone(net.feeds.back, net.outs.back);
    for i := 0 to |bs|
      invariant ret == Fan(bs[..i], net.feeds.back, net.outs.back)
    {
      BufferEntries(bs[i], buffers, pipes);
      var found := PipesWriting(bs[i].inputBufferOfSameOp + [bs[i]], buffers, pipes);
      ret := ret + found;
      assert bs[..i + 1] == bs[..i] + [bs[i]];
      FanLast(bs[..i], bs[i], net.feeds.back, net.outs.back);
    }
    assert bs[..|bs|] == bs;
  }

  lemma FanNone<B, P>(same: map<B, seq<B>>, hop: map<B, seq<P>>)
    ensures Fan([], same, hop) == []
  {
  }

  lemma HopNone<B, P>(hop: map<B, seq<P>>)
    ensures Hop([], hop) == []
  {
  }

  method GetMsgSize(p: Pipe) returns (size: int)
    ensures size == SumBytes(p.inputBuffers)
  {
    size := 0;
    for i := 0 to |p.inputBuffers|
      invariant size == SumBytes(p.inputBuffers[..i])
    {
      size := size + p.inputBuffers[i].root.tileSize * p.inputBuffers[i].root.sizeTiles;
      assert p.inputBuffers[..i + 1][..i] == p.inputBuffers[..i];
    }
    assert p.inputBuffers[..|p.inputBuffers|] == p.inputBuffers;
  }

  lemma SuccessorsAreOurs(p: Pipe, buffers: set<Buffer>, pipes: set<Pipe>)
    requires Consistent(Snapshot(buffers, pipes))
    ensures forall q :: q in Successors(Snapshot(buffers, pipes), p) ==> q in pipes
  {
    hide Good, Irreflexive, Successors;
    NeighboursInside(Snapshot(buffers, pipes), p);
    assert Snapshot(buffers, pipes).ins.fwd.Keys == pipes;
  }

  /** The `deps` list of a pipe's packets. */
  method DependencyIds(p: Pipe, ghost buffers: set<Buffer>, ghost pipes: set<Pipe>) returns (deps: seq<int>)
    requires p in pipes && Consistent(Snapshot(buffers, pipes))
    ensures deps == Deps(Snapshot(buffers, pipes), p)
  {
    hide Snapshot, Consistent, Successors, Ids, Sources, Targets;
    ghost var net := Snapshot(buffers, pipes);
    SuccessorsAreOurs(p, buffers, pipes);
    var succ := SucceedPipes(p, buffers, pipes);
    deps := [];
    for i := 0 to |succ|
      invariant deps == IdsOfAll(net, succ[..i])
    {
      var q := succ[i];
      PipeEntries(q, buffers, pipes);
      deps := deps + Ids(q.root.id, |q.inputBuffers| * |q.outputBuffers|);
      assert succ[..i + 1][..i] == succ[..i];
    }
    assert succ[..|succ|] == succ;
  }

  /** One unicast packet per (source, destination) pair. */
  method UnicastPackets(first: int, size: int, ins: seq<Buffer>, outs: seq<Buffer>, deps: seq<int>) returns (ret: seq<Packet>)
    requires size == SumBytes(ins)
    ensures ins != [] ==> ret == Packets(Ends(ins, outs), first, ins, outs, deps)
    ensures ins == [] ==> ret == []
  {
    hide MaxDelay, SumBytes, TypeOf, Packets, Row, Ends;
    ret := [];
    ghost var ends: seq<(Buffer, Buffer)> := [];
    NoPackets(first, ins, outs, deps);
    for i := 0 to |ins|
      invariant ends == Ends(ins[..i], outs)
      invariant if ins == [] then ret == [] else ret == Packets(ends, first, ins, outs, deps) && |ret| == |ends|
    {
      ghost var start := ends;
      NoRow(ins[i]);
      for j := 0 to |outs|
        invariant ends == start + Row(ins[i], outs[..j])
        invariant ret == Packets(ends, first, ins, outs, deps) && |ret| == |ends|
      {
        OneMorePacket(ends, (ins[i], outs[j]), first, ins, outs, deps);
        RowNext(ins[i], outs, j);
        ret := ret + [Packet(MaxDelay(ins), first + |ret|, size, TypeOf(ins, outs),
                             ins[i].root.node, outs[j].root.node, 0, |deps|, deps)];
        ends := ends + [(ins[i], outs[j])];
      }
      assert outs[..|outs|] == outs;
      EndsNext(ins, outs, i);
    }
    assert ins[..|ins|] == ins;
  }

  lemma NoPackets(first: int, ins: seq<Buffer>, outs: seq<Buffer>, deps: seq<int>)
    ensures Ends([], outs) == [] && (ins != [] ==> Packets([], first, ins, outs, deps) == [])
  {
  }

  lemma NoRow(src: Buffer)
    ensures Row(src, []) == []
  {
  }

  lemma RowNext(src: Buffer, outs: seq<Buffer>, j: nat)
    requires j < |outs|
    ensures Row(src, outs[..j + 1]) == Row(src, outs[..j]) + [(src, outs[j])]
  {
    assert outs[..j + 1][..j] == outs[..j];
  }

  lemma EndsNext(ins: seq<Buffer>, outs: seq<Buffer>, i: nat)
    requires i < |ins|
    ensures Ends(ins[..i + 1], outs) == Ends(ins[..i], outs) + Row(ins[i], outs)
  {
    assert ins[..i + 1][..i] == ins[..i];
  }

  lemma OneMorePacket(ends: seq<(Buffer, Buffer)>, end: (Buffer, Buffer), first: int, ins: seq<Buffer>, outs: seq<Buffer>,
                      deps: seq<int>)
    requires ins != []
    ensures Packets(ends + [end], first, ins, outs, deps) == Packets(ends, first, ins, outs, deps)
      + [Packet(MaxDelay(ins), first + |ends|, SumBytes(ins), TypeOf(ins, outs),
                end.0.root.node, end.1.root.node, 0, |deps|, deps)]
  {
    hide MaxDelay, SumBytes, TypeOf;
    assert (ends + [end])[..|ends|] == ends;
  }

  method PipeToPackets(p: Pipe, ghost buffers: set<Buffer>, ghost pipes: set<Pipe>) returns (ret: seq<Packet>)
    requires p in pipes && Consistent(Snapshot(buffers, pipes)) && p.msgSize == SumBytes(p.inputBuffers)
    ensures ret == PipePackets(Snapshot(buffers, pipes), p)
  {
    hide Snapshot, Consistent, Packets, Deps, SumBytes;
    PipeEntries(p, buffers, pipes);
    var deps := DependencyIds(p, buffers, pipes);
    ret := UnicastPackets(p.root.id, p.msgSize, p.inputBuffers, p.outputBuffers, deps);
    if p.inputBuffers == [] {
      PipePacketsCount(Snapshot(buffers, pipes), p);
    }
  }

  /* ---- the worklist ---- */

  ghost function Counters(pipes: set<Pipe>): map<Pipe, int>
    reads pipes`depSize
  {
    map p | p in pipes :: p.depSize
  }

  method DecrementDepSize(c: Pipe, ghost pipes: set<Pipe>)
    requires c in pipes
    modifies c`depSize
    ensures c.depSize == old(c.depSize) - 1
    ensures Counters(pipes) == old(Counters(pipes))[c := old(c.depSize) - 1]
  {
    ghost var before := Counters(pipes);
    c.depSize := c.depSize - 1;
    assert Counters(pipes) == before[c := c.depSize];
  }

  lemma GraphFacts(net: Tables)
    requires Consistent(net)
    ensures GraphOf(net).preds.Keys == net.ins.fwd.Keys && Inside(GraphOf(net))
    ensures forall p :: p in net.ins.fwd ==> At(GraphOf(net).preds, p) == Predecessors(net, p)
  {
    hide Predecessors, Good, Irreflexive;
    forall p, q | p in GraphOf(net).preds && q in At(GraphOf(net).preds, p) ensures q in GraphOf(net).preds {
      NeighboursInside(net, p);
    }
  }

  lemma SuccessorFacts(net: Tables, p: Pipe)
    requires Consistent(net) && p in net.ins.fwd
    ensures forall c :: c in Successors(net, p) ==> c in GraphOf(net).preds
    ensures forall c :: c in GraphOf(net).preds ==> multiset(Successors(net, p))[c] == multiset(At(GraphOf(net).preds, c))[p]
  {
    hide Successors, Predecessors, Consistent;
    NeighboursInside(net, p);
    GraphFacts(net);
    forall c | c in GraphOf(net).preds
      ensures multiset(Successors(net, p))[c] == multiset(At(GraphOf(net).preds, c))[p]
    {
      SuccessorsMirrorPredecessors(net, p, c);
    }
  }

  lemma SnapshotKeys(buffers: set<Buffer>, pipes: set<Pipe>)
    ensures Snapshot(buffers, pipes).ins.fwd.Keys == pipes && Snapshot(buffers, pipes).ins.back.Keys == buffers
  {
  }

  /** Every counter becomes the length of its pipe's predecessor list. */
  method CountPredecessors(order: seq<Pipe>, ghost buffers: set<Buffer>, ghost pipes: set<Pipe>)
    requires Consistent(Snapshot(buffers, pipes)) && forall p :: p in order ==> p in pipes
    modifies pipes`depSize, pipes`msgSize
    ensures forall p :: p in order ==> p.depSize == |Predecessors(Snapshot(buffers, pipes), p)|
    ensures forall p :: p in order ==> p.msgSize == SumBytes(p.inputBuffers)
  {
    hide Snapshot, Consistent, Predecessors, SumBytes;
    for i := 0 to |order|
      invariant forall p :: p in order[..i] ==> p.depSize == |Predecessors(Snapshot(buffers, pipes), p)|
      invariant forall p :: p in order[..i] ==> p.msgSize == SumBytes(p.inputBuffers)
    {
      var ps := PredecessorPipes(order[i], buffers, pipes);
      order[i].depSize := |ps|;
      order[i].msgSize := GetMsgSize(order[i]);
      assert order[..i + 1] == order[..i] + [order[i]];
    }
    assert order[..|order|] == order;
  }

  /** No predecessors, and all sources in DRAM. */
  predicate Starts(p: Pipe)
    reads p`depSize, p`inputBuffers
  {
    p.depSize == 0 && forall b :: b in p.inputBuffers ==> b.root.dramType
  }

  /** The starting pipes in the order in which `order` lists them. */
  ghost function Starting(order: seq<Pipe>): seq<Pipe>
    reads order`depSize, order`inputBuffers
  {
    if order == [] then [] else
      var p := order[|order| - 1];
      Starting(order[..|order| - 1]) + if Starts(p) then [p] else []
  }

  lemma {:induction false} StartingAre(order: seq<Pipe>)
    requires NoDup(order)
    ensures NoDup(Starting(order))
    ensures forall p :: p in Starting(order) <==> p in order && Starts(p)
  {
    if order != [] {
      var n := |order| - 1;
      StartingAre(order[..n]);
      assert order == order[..n] + [order[n]];
      assert order[n] !in order[..n];
      if Starts(order[n]) {
        NoDupPush(Starting(order[..n]), order[n]);
      }
    }
  }

  /** The pipes that start the traversal, in dictionary order. */
  method StartPipes(order: seq<Pipe>) returns (queue: seq<Pipe>)
    requires NoDup(order)
    ensures queue == Starting(order)
    ensures NoDup(queue) && forall p :: p in queue <==> p in order && Starts(p)
  {
    queue := [];
    for i := 0 to |order|
      invariant queue == Starting(order[..i])
    {
      var p := order[i];
      assert order[..i + 1][..i] == order[..i];
      if p.depSize == 0 && forall b :: b in p.inputBuffers ==> b.root.dramType {
        queue := queue + [p];
      }
    }
    assert order[..|order|] == order;
    StartingAre(order);
  }

  lemma StartIsInvariant(order: seq<Pipe>, queue: seq<Pipe>, buffers: set<Buffer>, pipes: set<Pipe>)
    requires Consistent(Snapshot(buffers, pipes)) && NoDup(queue) && forall p :: p in order <==> p in pipes
    requires forall p :: p in order ==> p.depSize == |Predecessors(Snapshot(buffers, pipes), p)|
    requires forall p :: p in queue <==> p in order && Starts(p)
    ensures Inv(GraphOf(Snapshot(buffers, pipes)), [], queue, [], Counters(pipes))
  {
    hide Snapshot, Consistent, Predecessors, Inv;
    var net := Snapshot(buffers, pipes);
    var g := GraphOf(net);
    SnapshotKeys(buffers, pipes);
    GraphFacts(net);
    forall p | p in g.preds ensures p in queue <==> At(g.preds, p) == [] && p in g.fromDram {
      PipeEntries(p, buffers, pipes);
      assert p in order;
    }
    InvStart(g, queue, Counters(pipes));
  }

  lemma ElemsNext<P>(printed: seq<P>, p: P)
    ensures Elems(printed + [p]) == Elems(printed) + {p}
  {
  }

  /** One round of the worklist: print the first pipe of the queue and pay its successors. */
  method VisitNext(ghost printed: seq<Pipe>, queue: seq<Pipe>, visited: set<Pipe>, ghost buffers: set<Buffer>, ghost pipes: set<Pipe>)
    returns (packets: seq<Packet>, rest: seq<Pipe>)
    requires Consistent(Snapshot(buffers, pipes)) && queue != [] && queue[0] in pipes
    requires Inv(GraphOf(Snapshot(buffers, pipes)), printed, queue, [], Counters(pipes))
    requires visited == Elems(printed) + {queue[0]} && queue[0].msgSize == SumBytes(queue[0].inputBuffers)
    modifies pipes`depSize
    ensures packets == PipePackets(Snapshot(buffers, pipes), queue[0])
    ensures Inv(GraphOf(Snapshot(buffers, pipes)), printed + [queue[0]], rest, [], Counters(pipes))
  {
    hide Snapshot, Consistent, Successors, Predecessors, Inv, GraphOf, PipePackets, SumBytes, Counters, Elems;
    ghost var net := Snapshot(buffers, pipes);
    SnapshotKeys(buffers, pipes);
    var p := queue[0];
    packets := PipeToPackets(p, buffers, pipes);
    var succ := SucceedPipes(p, buffers, pipes);
    SuccessorFacts(net, p);
    SuccessorsAreOurs(p, buffers, pipes);
    InvVisit(GraphOf(net), printed, queue, Counters(pipes), succ);
    ElemsNext(printed, p);
    rest := PayAll(GraphOf(net), printed + [p], visited, queue[1..], succ, pipes);
  }

  /** Prints the packets of every pipe that becomes ready, first come, first served. */
  method Traverse(order: seq<Pipe>, ghost buffers: set<Buffer>, ghost pipes: set<Pipe>)
    returns (out: seq<Packet>, ghost printed: seq<Pipe>)
    requires Consistent(Snapshot(buffers, pipes)) && NoDup(order) && forall p :: p in order <==> p in pipes
    modifies pipes`depSize, pipes`msgSize
    ensures Snapshot(buffers, pipes) == old(Snapshot(buffers, pipes))
    ensures IsTraceOrder(GraphOf(Snapshot(buffers, pipes)), printed)
    ensures out == TraceOf(Snapshot(buffers, pipes), printed)
  {
    hide Snapshot, Consistent, Predecessors, Inv, GraphOf, PipePackets, SumBytes, IsTraceOrder, Counters, NoDup;
    CountPredecessors(order, buffers, pipes);
    var queue := StartPipes(order);
    StartIsInvariant(order, queue, buffers, pipes);
    out, printed := [], [];
    var visited: set<Pipe> := {};
    while queue != []
      invariant Inv(GraphOf(Snapshot(buffers, pipes)), printed, queue, [], Counters(pipes))
      invariant out == TraceOf(Snapshot(buffers, pipes), printed)
      invariant visited == Elems(printed)
      invariant forall p :: p in pipes ==> p.msgSize == SumBytes(p.inputBuffers)
      decreases pipes - visited
    {
      var p := queue[0];
      NextIsOurs(printed, queue, buffers, pipes);
      visited := visited + {p};
      var packets, rest := VisitNext(printed, queue, visited, buffers, pipes);
      TraceLast(Snapshot(buffers, pipes), printed, p);
      out := out + packets;
      printed, queue := printed + [p], rest;
    }
    InvFinal(GraphOf(Snapshot(buffers, pipes)), printed, Counters(pipes));
  }

  lemma TraceLast(net: Tables, order: seq<Pipe>, p: Pipe)
    ensures TraceOf(net, order + [p]) == TraceOf(net, order) + PipePackets(net, p)
  {
    assert (order + [p])[..|order|] == order;
  }

  lemma NextIsOurs(printed: seq<Pipe>, queue: seq<Pipe>, buffers: set<Buffer>, pipes: set<Pipe>)
    requires Consistent(Snapshot(buffers, pipes)) && queue != []
    requires Inv(GraphOf(Snapshot(buffers, pipes)), printed, queue, [], Counters(pipes))
    ensures queue[0] in pipes && queue[0] in Snapshot(buffers, pipes).ins.fwd && queue[0] !in printed
  {
    hide Snapshot, Consistent, Topological, Counted, ReleasedInOrder;
    GraphFacts(Snapshot(buffers, pipes));
    SnapshotKeys(buffers, pipes);
    NoDupFirst(printed, queue);
    assert queue[0] in queue;
  }

  /** The inner loop: one decrement per successor entry, queueing the pipes whose counter reaches zero. */
  method PayAll(ghost g: Graph<Pipe>, ghost printed: seq<Pipe>, visited: set<Pipe>, queue0: seq<Pipe>, succ: seq<Pipe>,
                ghost pipes: set<Pipe>) returns (queue: seq<Pipe>)
    requires Inv(g, printed, queue0, succ, Counters(pipes)) && visited == Elems(printed)
    requires forall c :: c in succ ==> c in pipes
    modifies pipes`depSize
    ensures Inv(g, printed, queue, [], Counters(pipes))
  {
    hide Inv;
    queue := queue0;
    assert succ[0..] == succ;
    for k := 0 to |succ|
      invariant Inv(g, printed, queue, succ[k..], Counters(pipes))
    {
      var child := succ[k];
      InvPay(g, printed, queue, succ[k..], Counters(pipes));
      assert succ[k..][1..] == succ[k + 1..];
      if child !in visited {
        DecrementDepSize(child, pipes);
        if child.depSize == 0 {
          queue := queue + [child];
        }
      }
    }
    assert succ[|succ|..] == [];
  }

  /* ---- the whole phase for one epoch ---- */

  datatype OpAtCore = OpAtCore(ins: seq<Buffer>, outs: seq<Buffer>)

  ghost predicate OursOnly(groups: seq<OpAtCore>, buffers: set<Buffer>) {
    forall i :: 0 <= i < |groups| ==>
      (forall b :: b in groups[i].ins ==> b in buffers) && forall b :: b in groups[i].outs ==> b in buffers
  }

  /** `b` belongs to the inputs and `c` to the outputs of one op on one core, replicas included. */
  ghost predicate Paired(groups: seq<OpAtCore>, b: Buffer, c: Buffer, buffers: set<Buffer>)
    requires OursOnly(groups, buffers)
    reads buffers`replicatedBuffers
  {
    exists i :: 0 <= i < |groups| && b in WithReplicas(groups[i].ins) && c in WithReplicas(groups[i].outs)
  }

  ghost predicate LinksGroups(us: seq<Update<Buffer, Pipe>>, groups: seq<OpAtCore>, buffers: set<Buffer>)
    requires OursOnly(groups, buffers)
    reads buffers`replicatedBuffers
  {
    && (forall u :: u in us ==> u.Feeds? && u.up in buffers && u.down in buffers)
    && forall b, c :: b in buffers && c in buffers ==> (Names(us, Feeds(b, c)) <==> Paired(groups, b, c, buffers))
  }

  method ConnectAll(groups: seq<OpAtCore>, ghost buffers: set<Buffer>, ghost pipes: set<Pipe>)
    returns (ghost us: seq<Update<Buffer, Pipe>>)
    requires DistinctBuffers(buffers) && FlatReplicas(buffers) && OursOnly(groups, buffers)
    modifies buffers`inputBufferOfSameOp, buffers`outputBufferOfSameOp
    ensures Snapshot(buffers, pipes) == Run(old(Snapshot(buffers, pipes)), us)
    ensures LinksGroups(us, groups, buffers)
  {
    hide Snapshot, Run, LinksGroups, DistinctBuffers, FlatReplicas, OnlyPairs, EveryPair;
    ghost var before := Snapshot(buffers, pipes);
    us := [];
    RunNothing(before);
    NoGroups(buffers);
    for i := 0 to |groups|
      invariant Snapshot(buffers, pipes) == Run(before, us)
      invariant LinksGroups(us, groups[..i], buffers)
    {
      var vs := ConnectOpAtCore(groups[i].ins, groups[i].outs, buffers, pipes);
      RunAppends(before, us, vs);
      OneMoreGroup(us, vs, groups[..i], groups[i], buffers);
      assert groups[..i + 1] == groups[..i] + [groups[i]];
      us := us + vs;
    }
    assert groups[..|groups|] == groups;
  }

  lemma NoGroups(buffers: set<Buffer>)
    ensures LinksGroups([], [], buffers)
  {
  }

  lemma OneMoreGroup(us: seq<Update<Buffer, Pipe>>, vs: seq<Update<Buffer, Pipe>>, groups: seq<OpAtCore>, g: OpAtCore,
                     buffers: set<Buffer>)
    requires OursOnly(groups, buffers) && OursOnly(groups + [g], buffers) && FlatReplicas(buffers)
    requires LinksGroups(us, groups, buffers)
    requires OnlyPairs(vs, WithReplicas(g.ins), WithReplicas(g.outs)) && EveryPair(vs, WithReplicas(g.ins), WithReplicas(g.outs))
    ensures LinksGroups(us + vs, groups + [g], buffers)
  {
    var all := groups + [g];
    assert all[|groups|] == g;
    GroupInside(g, buffers);
    forall b, c | b in buffers && c in buffers
      ensures Names(us + vs, Feeds(b, c)) <==> Paired(all, b, c, buffers)
    {
      assert Names(us + vs, Feeds(b, c)) <==> Names(us, Feeds(b, c)) || Names(vs, Feeds(b, c));
      assert Names(us, Feeds(b, c)) <==> Paired(groups, b, c, buffers);
      assert Names(vs, Feeds(b, c)) <==> b in WithReplicas(g.ins) && c in WithReplicas(g.outs);
      if Paired(groups, b, c, buffers) {
        var i :| 0 <= i < |groups| && b in WithReplicas(groups[i].ins) && c in WithReplicas(groups[i].outs);
        assert all[i] == groups[i];
      }
      if Paired(all, b, c, buffers) {
        var i :| 0 <= i < |all| && b in WithReplicas(all[i].ins) && c in WithReplicas(all[i].outs);
        assert i < |groups| ==> all[i] == groups[i];
      }
    }
  }

  lemma GroupInside(g: OpAtCore, buffers: set<Buffer>)
    requires FlatReplicas(buffers) && OursOnly([g], buffers)
    ensures forall b :: b in WithReplicas(g.ins) ==> b in buffers
    ensures forall b :: b in WithReplicas(g.outs) ==> b in buffers
  {
    assert [g][0] == g;
    ReplicasInside(g.ins, buffers);
    ReplicasInside(g.outs, buffers);
  }

  /** A buffer that is neither in DRAM nor intermediate and has no same-op neighbour. */
  predicate Unconnected(b: Buffer)
    reads b`inputBufferOfSameOp, b`outputBufferOfSameOp
  {
    !b.IsDramBuffer() && !b.root.intermediate && b.inputBufferOfSameOp == [] && b.outputBufferOfSameOp == []
  }

  /** Neither in DRAM, by core or by type, nor intermediate, and without a same-op neighbour on either side. */
  ghost predicate LeftAlone(b: Buffer)
    reads b`inputBufferOfSameOp, b`outputBufferOfSameOp
  {
    && !b.root.dramCore && !b.root.dramType && !b.root.intermediate
    && |b.inputBufferOfSameOp| + |b.outputBufferOfSameOp| == 0
  }

  /** Connects the buffers of every op on every core, checks that no buffer is left alone, and prints. */
  method GenerateTrace(groups: seq<OpAtCore>, buffers: set<Buffer>, order: seq<Pipe>, ghost pipes: set<Pipe>)
    returns (r: Result<seq<Packet>>, ghost us: seq<Update<Buffer, Pipe>>, ghost printed: seq<Pipe>)
    requires DistinctBuffers(buffers) && FlatReplicas(buffers) && OursOnly(groups, buffers)
    requires Consistent(Snapshot(buffers, pipes)) && NoDup(order) && forall p :: p in order <==> p in pipes
    modifies buffers`inputBufferOfSameOp, buffers`outputBufferOfSameOp, pipes`depSize, pipes`msgSize
    ensures LinksGroups(us, groups, buffers)
    ensures Snapshot(buffers, pipes) == Run(old(Snapshot(buffers, pipes)), us) && Consistent(Snapshot(buffers, pipes))
    ensures r.UnconnectedBuffer? <==> exists b :: b in buffers && LeftAlone(b)
    ensures r.Ok? ==> r.value == TraceOf(Snapshot(buffers, pipes), printed)
    ensures r.Ok? ==> IsTraceOrder(GraphOf(Snapshot(buffers, pipes)), printed)
  {
    hide Snapshot, Run, DistinctBuffers, FlatReplicas, Consistent, NoDup, IsTraceOrder, TraceOf, GraphOf;
    ghost var before := Snapshot(buffers, pipes);
    SnapshotKeys(buffers, pipes);
    us := ConnectAll(groups, buffers, pipes);
    printed := [];
    LinksFit(before, us, groups, buffers, pipes);
    RunKeepsConsistent(before, us);
    assert forall b :: b in buffers ==> (Unconnected(b) <==> LeftAlone(b));
    if exists b :: b in buffers && Unconnected(b) {
      r := UnconnectedBuffer;
    } else {
      var out;
      out, printed := Traverse(order, buffers, pipes);
      r := Ok(out);
    }
  }

  lemma LinksFit(net: Tables, us: seq<Update<Buffer, Pipe>>, groups: seq<OpAtCore>, buffers: set<Buffer>, pipes: set<Pipe>)
    requires OursOnly(groups, buffers) && LinksGroups(us, groups, buffers) && net.ins.back.Keys == buffers
    ensures AllFit(net, us)
  {
  }
}
