/** Buffers and pipes of an epoch as objects, with the loops that fill their cross references. */
module PipeGraph {
  import opened Incidence

  /** The entries of pipegen.yaml that the trace uses. */
  datatype BufferRoot = BufferRoot(
    uniqid: int, dramType: bool, intermediate: bool, dramCore: bool,
    node: int, scatter: bool, tileSize: int, sizeTiles: int, delay: int)

  datatype OutputEntry = One(id: int) | Many(ids: seq<int>)

  datatype PipeRoot = PipeRoot(id: int, inputList: seq<int>, outputList: seq<OutputEntry>)

  datatype Side = Out | In

  /* ---- objects ---- */

  /** A Python list that several calls share and that some of them extend. */
  class BufferList {
    var items: seq<Buffer>

    constructor (items: seq<Buffer>)
      ensures this.items == items
    {
      this.items := items;
    }
  }

  class Buffer {
    const root: BufferRoot
    var inputOfPipes: seq<Pipe>
    var outputOfPipes: seq<Pipe>
    var inputBufferOfSameOp: seq<Buffer>
    var outputBufferOfSameOp: seq<Buffer>
    var replicatedBuffers: seq<Buffer>

    constructor (root: BufferRoot)
      ensures this.root == root
      ensures inputOfPipes == [] && outputOfPipes == []
      ensures inputBufferOfSameOp == [] && outputBufferOfSameOp == [] && replicatedBuffers == []
    {
      this.root := root;
      inputOfPipes, outputOfPipes := [], [];
      inputBufferOfSameOp, outputBufferOfSameOp, replicatedBuffers := [], [], [];
    }

    predicate IsDramBuffer() {
      root.dramCore || root.dramType
    }

    method AddReplicatedBuffer(buffer: Buffer)
      modifies this`replicatedBuffers
      ensures replicatedBuffers == old(replicatedBuffers) + [buffer]
    {
      replicatedBuffers := replicatedBuffers + [buffer];
    }

    /** Links this buffer with all of `others` and their replicas, and leaves the replicas in the caller's list. */
    method ConnectBuffersOfSameOp(others: BufferList, side: Side, ghost buffers: set<Buffer>, ghost pipes: set<Pipe>)
      requires DistinctBuffers(buffers) && FlatReplicas(buffers)
      requires this in buffers && forall b :: b in others.items ==> b in buffers
      modifies others, buffers`inputBufferOfSameOp, buffers`outputBufferOfSameOp
      ensures others.items == old(others.items) + Replicas(old(others.items))
      ensures forall b :: b in others.items ==> b in buffers
      ensures Snapshot(buffers, pipes) == Run(old(Snapshot(buffers, pipes)), Links(this, others.items, side))
    {
      hide Snapshot, Run, Links, Replicas, FlatReplicas, DistinctBuffers;
      ReplicasInside(others.items, buffers);
      others.items := others.items + Replicas(others.items);
      LinkWithEach(others.items, side, buffers, pipes);
    }

    method LinkWithEach(items: seq<Buffer>, side: Side, ghost buffers: set<Buffer>, ghost pipes: set<Pipe>)
      requires DistinctBuffers(buffers) && this in buffers && forall i :: 0 <= i < |items| ==> items[i] in buffers
      modifies buffers`inputBufferOfSameOp, buffers`outputBufferOfSameOp
      ensures Snapshot(buffers, pipes) == Run(old(Snapshot(buffers, pipes)), Links(this, items, side))
    {
      hide Snapshot;
      ghost var before := Snapshot(buffers, pipes);
      for i := 0 to |items|
        invariant Snapshot(buffers, pipes) == Run(before, Links(this, items[..i], side))
      {
        LinkWith(items[i], side, buffers, pipes);
        LinksLast(this, items[..i], items[i], side);
        assert items[..i + 1] == items[..i] + [items[i]];
      }
      assert items[..|items|] == items;
    }

    method LinkWith(other: Buffer, side: Side, ghost buffers: set<Buffer>, ghost pipes: set<Pipe>)
      requires DistinctBuffers(buffers) && this in buffers && other in buffers
      modifies buffers`inputBufferOfSameOp, buffers`outputBufferOfSameOp
      ensures Snapshot(buffers, pipes) == Step(old(Snapshot(buffers, pipes)), LinkOf(this, other, side))
    {
      if other.root.uniqid == root.uniqid {
        return;
      } else if side == Out {
        Feed(this, other, buffers, pipes);
      } else {
        Feed(other, this, buffers, pipes);
      }
    }

    static method Feed(up: Buffer, down: Buffer, ghost buffers: set<Buffer>, ghost pipes: set<Pipe>)
      requires up in buffers && down in buffers && up != down
      modifies up`outputBufferOfSameOp, down`inputBufferOfSameOp
      ensures Snapshot(buffers, pipes) == Step(old(Snapshot(buffers, pipes)), Feeds(up, down))
    {
      ghost var before := SameOpTables(buffers);
      up.outputBufferOfSameOp := Put(up.outputBufferOfSameOp, down);
      down.inputBufferOfSameOp := Put(down.inputBufferOfSameOp, up);
      assert SameOpTables(buffers).fwd == before.fwd[up := Put(before.fwd[up], down)];
      assert SameOpTables(buffers).back == before.back[down := Put(before.back[down], up)];
    }
  }

  class Pipe {
    const root: PipeRoot
    var inputBuffers: seq<Buffer>
    var outputBuffers: seq<Buffer>
    var depSize: int
    var msgSize: int

    constructor (root: PipeRoot)
      ensures this.root == root && inputBuffers == [] && outputBuffers == []
    {
      this.root := root;
      inputBuffers, outputBuffers, depSize, msgSize := [], [], 0, 0;
    }

    method AddInput(b: Buffer, ghost buffers: set<Buffer>, ghost pipes: set<Pipe>)
      requires this in pipes && b in buffers
      modifies this`inputBuffers, b`inputOfPipes
      ensures Snapshot(buffers, pipes) == Step(old(Snapshot(buffers, pipes)), Reads(this, b))
    {
      ghost var before := InputTables(buffers, pipes);
      b.inputOfPipes := Put(b.inputOfPipes, this);
      inputBuffers := Put(inputBuffers, b);
      assert InputTables(buffers, pipes).fwd == before.fwd[this := Put(before.fwd[this], b)];
      assert InputTables(buffers, pipes).back == before.back[b := Put(before.back[b], this)];
    }

    method AddOutput(b: Buffer, ghost buffers: set<Buffer>, ghost pipes: set<Pipe>)
      requires this in pipes && b in buffers
      modifies this`outputBuffers, b`outputOfPipes
      ensures Snapshot(buffers, pipes) == Step(old(Snapshot(buffers, pipes)), Writes(this, b))
    {
      ghost var before := OutputTables(buffers, pipes);
      b.outputOfPipes := Put(b.outputOfPipes, this);
      outputBuffers := Put(outputBuffers, b);
      assert OutputTables(buffers, pipes).fwd == before.fwd[this := Put(before.fwd[this], b)];
      assert OutputTables(buffers, pipes).back == before.back[b := Put(before.back[b], this)];
    }
  }

  /* ---- abstraction ---- */

  /** An epoch's dictionaries are keyed by id, so an id names one object. */
  ghost predicate DistinctBuffers(buffers: set<Buffer>) {
    forall a, b :: a in buffers && b in buffers && a.root.uniqid == b.root.uniqid ==> a == b
  }

  /** Only base buffers have replicas, and replicas belong to the epoch. */
  ghost predicate FlatReplicas(buffers: set<Buffer>)
    reads buffers`replicatedBuffers
  {
    && (forall b, r :: b in buffers && r in b.replicatedBuffers ==> r in buffers)
    && (forall b, r :: b in buffers && r in b.replicatedBuffers && r in buffers ==> r.replicatedBuffers == [])
  }

  function Replicas(bs: seq<Buffer>): seq<Buffer>
    reads (set b | b in bs)`replicatedBuffers
    decreases |bs|
  {
    if bs == [] then [] else Replicas(bs[..|bs| - 1]) + bs[|bs| - 1].replicatedBuffers
  }

  lemma {:induction false} ReplicasInside(bs: seq<Buffer>, buffers: set<Buffer>)
    requires FlatReplicas(buffers) && forall b :: b in bs ==> b in buffers
    ensures forall r :: r in Replicas(bs) ==> r in buffers
  {
    if bs != [] {
      assert bs[|bs| - 1] in buffers;
      ReplicasInside(bs[..|bs| - 1], buffers);
    }
  }

  ghost function InputTables(buffers: set<Buffer>, pipes: set<Pipe>): Rel<Pipe, Buffer>
    reads pipes`inputBuffers, buffers`inputOfPipes
  {
    Rel(map p | p in pipes :: p.inputBuffers, map b | b in buffers :: b.inputOfPipes)
  }

  ghost function OutputTables(buffers: set<Buffer>, pipes: set<Pipe>): Rel<Pipe, Buffer>
    reads pipes`outputBuffers, buffers`outputOfPipes
  {
    Rel(map p | p in pipes :: p.outputBuffers, map b | b in buffers :: b.outputOfPipes)
  }

  ghost function SameOpTables(buffers: set<Buffer>): Rel<Buffer, Buffer>
    reads buffers`inputBufferOfSameOp, buffers`outputBufferOfSameOp
  {
    Rel(map b | b in buffers :: b.outputBufferOfSameOp, map b | b in buffers :: b.inputBufferOfSameOp)
  }

  ghost function Snapshot(buffers: set<Buffer>, pipes: set<Pipe>): Net<Buffer, Pipe>
    reads pipes`inputBuffers, pipes`outputBuffers
    reads buffers`inputOfPipes, buffers`outputOfPipes, buffers`inputBufferOfSameOp, buffers`outputBufferOfSameOp
  {
    Net(InputTables(buffers, pipes), OutputTables(buffers, pipes), SameOpTables(buffers))
  }

  ghost function LinkOf(b: Buffer, other: Buffer, side: Side): Update<Buffer, Pipe> {
    if side == Out then Feeds(b, other) else Feeds(other, b)
  }

  ghost function Links(b: Buffer, others: seq<Buffer>, side: Side): seq<Update<Buffer, Pipe>> {
    if others == [] then []
    else Links(b, others[..|others| - 1], side) + [LinkOf(b, others[|others| - 1], side)]
  }

  lemma LinksLast(b: Buffer, others: seq<Buffer>, last: Buffer, side: Side)
    ensures Links(b, others + [last], side) == Links(b, others, side) + [LinkOf(b, last, side)]
  {
    assert (others + [last])[..|others|] == others;
  }

  /* ---- connecting the buffers of one op on one core ---- */

  function WithReplicas(bs: seq<Buffer>): seq<Buffer>
    reads (set b | b in bs)`replicatedBuffers
  {
    bs + Replicas(bs)
  }

  ghost predicate SameElements(s: seq<Buffer>, t: seq<Buffer>, buffers: set<Buffer>) {
    forall b :: b in buffers ==> (b in s <==> b in t)
  }

  lemma {:induction false} ReplicasOf(bs: seq<Buffer>, r: Buffer)
    ensures r in Replicas(bs) <==> exists b :: b in bs && r in b.replicatedBuffers
  {
    if bs != [] {
      var n := |bs| - 1;
      ReplicasOf(bs[..n], r);
      assert bs == bs[..n] + [bs[n]];
    }
  }

  /** A list that already holds its base buffers, and possibly their replicas, holds exactly
      both after it is extended once more. */
  lemma GrownOnce(items: seq<Buffer>, base: seq<Buffer>, buffers: set<Buffer>)
    requires FlatReplicas(buffers)
    requires (forall b :: b in base ==> b in buffers) && (forall b :: b in items ==> b in buffers)
    requires SameElements(items, base, buffers) || SameElements(items, WithReplicas(base), buffers)
    ensures SameElements(WithReplicas(items), WithReplicas(base), buffers)
  {
    ReplicasInside(base, buffers);
    forall b | b in buffers ensures b in WithReplicas(items) <==> b in WithReplicas(base) {
      ReplicasOf(items, b);
      ReplicasOf(base, b);
      if b in Replicas(items) && b !in WithReplicas(base) {
        var c :| c in items && b in c.replicatedBuffers;
        ReplicasOf(base, c);
      }
    }
  }

  /** The updates link only buffers of `ups` to buffers of `downs` ... */
  ghost predicate OnlyPairs(us: seq<Update<Buffer, Pipe>>, ups: seq<Buffer>, downs: seq<Buffer>) {
    forall u :: u in us ==> u.Feeds? && u.up in ups && u.down in downs
  }

  /** ... and link all of them. */
  ghost predicate EveryPair(us: seq<Update<Buffer, Pipe>>, ups: seq<Buffer>, downs: seq<Buffer>) {
    forall b, c :: b in ups && c in downs ==> Names(us, Feeds(b, c))
  }

  lemma {:induction false} LinksPair(b: Buffer, others: seq<Buffer>, side: Side)
    ensures side == Out ==> OnlyPairs(Links(b, others, side), [b], others) && EveryPair(Links(b, others, side), [b], others)
    ensures side == In ==> OnlyPairs(Links(b, others, side), others, [b]) && EveryPair(Links(b, others, side), others, [b])
  {
    if others != [] {
      var n := |others| - 1;
      LinksPair(b, others[..n], side);
      assert others == others[..n] + [others[n]];
      LinksLast(b, others[..n], others[n], side);
    }
  }

  lemma PairsGrowUp(us: seq<Update<Buffer, Pipe>>, vs: seq<Update<Buffer, Pipe>>, ups: seq<Buffer>, b: Buffer,
                    downs: seq<Buffer>, items: seq<Buffer>, buffers: set<Buffer>)
    requires OnlyPairs(us, ups, downs) && EveryPair(us, ups, downs)
    requires OnlyPairs(vs, [b], items) && EveryPair(vs, [b], items)
    requires SameElements(items, downs, buffers)
    requires (forall c :: c in downs ==> c in buffers) && (forall c :: c in items ==> c in buffers)
    ensures OnlyPairs(us + vs, ups + [b], downs) && EveryPair(us + vs, ups + [b], downs)
  {
    forall x, y | x in ups + [b] && y in downs ensures Names(us + vs, Feeds(x, y)) {
      assert Names(us, Feeds(x, y)) || Names(vs, Feeds(x, y));
    }
  }

  lemma PairsGrowDown(us: seq<Update<Buffer, Pipe>>, vs: seq<Update<Buffer, Pipe>>, ups: seq<Buffer>, b: Buffer,
                      done: seq<Buffer>, items: seq<Buffer>, all: seq<Buffer>, buffers: set<Buffer>)
    requires OnlyPairs(us, ups, all) && EveryPair(us, ups, done)
    requires OnlyPairs(vs, items, [b]) && EveryPair(vs, items, [b]) && b in all
    requires SameElements(items, ups, buffers)
    requires (forall c :: c in ups ==> c in buffers) && (forall c :: c in items ==> c in buffers)
    ensures OnlyPairs(us + vs, ups, all) && EveryPair(us + vs, ups, done + [b])
  {
    forall x, y | x in ups && y in done + [b] ensures Names(us + vs, Feeds(x, y)) {
      assert Names(us, Feeds(x, y)) || Names(vs, Feeds(x, y));
    }
  }

  lemma NoPairs(ups: seq<Buffer>, downs: seq<Buffer>)
    ensures OnlyPairs([], ups, downs)
    ensures ups == [] || downs == [] ==> EveryPair([], ups, downs)
  {
  }

  lemma SameAsItself(s: seq<Buffer>, buffers: set<Buffer>)
    ensures SameElements(s, s, buffers)
  {
  }

  lemma RunNothing<B, P>(net: Net<B, P>)
    ensures Run(net, []) == net
  {
  }

  lemma RunLast<B, P>(net: Net<B, P>, us: seq<Update<B, P>>, u: Update<B, P>)
    ensures Run(net, us + [u]) == Step(Run(net, us), u)
  {
    assert (us + [u])[..|us|] == us;
  }

  /** First loop: every input buffer gets all outputs and their replicas. */
  method FeedOutputs(ins: seq<Buffer>, outs: seq<Buffer>, outList: BufferList, ghost buffers: set<Buffer>, ghost pipes: set<Pipe>)
    returns (ghost us: seq<Update<Buffer, Pipe>>)
    requires DistinctBuffers(buffers) && FlatReplicas(buffers) && outList.items == outs
    requires (forall b :: b in ins ==> b in buffers) && (forall b :: b in outs ==> b in buffers)
    modifies outList, buffers`inputBufferOfSameOp, buffers`outputBufferOfSameOp
    ensures forall b :: b in outList.items ==> b in buffers
    ensures SameElements(outList.items, if ins == [] then outs else WithReplicas(outs), buffers)
    ensures Snapshot(buffers, pipes) == Run(old(Snapshot(buffers, pipes)), us)
    ensures OnlyPairs(us, ins, WithReplicas(outs)) && EveryPair(us, ins, WithReplicas(outs))
  {
    hide Snapshot, Run, OnlyPairs, EveryPair, FlatReplicas, DistinctBuffers, SameElements, Links, Replicas;
    ghost var before := Snapshot(buffers, pipes);
    us := [];
    RunNothing(before);
    NoPairs([], WithReplicas(outs));
    SameAsItself(outs, buffers);
    ReplicasInside(outs, buffers);
    for k := 0 to |ins|
      invariant forall b :: b in outList.items ==> b in buffers
      invariant SameElements(outList.items, if k == 0 then outs else WithReplicas(outs), buffers)
      invariant Snapshot(buffers, pipes) == Run(before, us)
      invariant OnlyPairs(us, ins[..k], WithReplicas(outs)) && EveryPair(us, ins[..k], WithReplicas(outs))
    {
      GrownOnce(outList.items, outs, buffers);
      ins[k].ConnectBuffersOfSameOp(outList, Out, buffers, pipes);
      ghost var vs := Links(ins[k], outList.items, Out);
      LinksPair(ins[k], outList.items, Out);
      PairsGrowUp(us, vs, ins[..k], ins[k], WithReplicas(outs), outList.items, buffers);
      RunAppends(before, us, vs);
      us := us + vs;
      assert ins[..k + 1] == ins[..k] + [ins[k]];
    }
    assert ins[..|ins|] == ins;
  }

  /** Second loop, over the list as the first loop left it: every output gets all inputs and their replicas. */
  method FeedInputs(os: seq<Buffer>, ins: seq<Buffer>, inList: BufferList, ghost all: seq<Buffer>,
                    ghost buffers: set<Buffer>, ghost pipes: set<Pipe>)
    returns (ghost us: seq<Update<Buffer, Pipe>>)
    requires DistinctBuffers(buffers) && FlatReplicas(buffers) && inList.items == ins
    requires (forall b :: b in ins ==> b in buffers) && (forall b :: b in os ==> b in buffers && b in all)
    modifies inList, buffers`inputBufferOfSameOp, buffers`outputBufferOfSameOp
    ensures Snapshot(buffers, pipes) == Run(old(Snapshot(buffers, pipes)), us)
    ensures OnlyPairs(us, WithReplicas(ins), all) && EveryPair(us, WithReplicas(ins), os)
  {
    hide Snapshot, Run, OnlyPairs, EveryPair, FlatReplicas, DistinctBuffers, SameElements, Links, Replicas;
    ghost var before := Snapshot(buffers, pipes);
    us := [];
    RunNothing(before);
    NoPairs(WithReplicas(ins), []);
    NoPairs(WithReplicas(ins), all);
    SameAsItself(ins, buffers);
    ReplicasInside(ins, buffers);
    for k := 0 to |os|
      invariant forall b :: b in inList.items ==> b in buffers
      invariant SameElements(inList.items, if k == 0 then ins else WithReplicas(ins), buffers)
      invariant Snapshot(buffers, pipes) == Run(before, us)
      invariant OnlyPairs(us, WithReplicas(ins), all) && EveryPair(us, WithReplicas(ins), os[..k])
    {
      GrownOnce(inList.items, ins, buffers);
      os[k].ConnectBuffersOfSameOp(inList, In, buffers, pipes);
      ghost var vs := Links(os[k], inList.items, In);
      LinksPair(os[k], inList.items, In);
      PairsGrowDown(us, vs, WithReplicas(ins), os[k], os[..k], inList.items, all, buffers);
      RunAppends(before, us, vs);
      us := us + vs;
      assert os[..k + 1] == os[..k] + [os[k]];
    }
    assert os[..|os|] == os;
  }

  /** The two connection loops of one op on one core, each of which extends the other side's list on every call. */
  method ConnectOpAtCore(ins: seq<Buffer>, outs: seq<Buffer>, ghost buffers: set<Buffer>, ghost pipes: set<Pipe>)
    returns (ghost us: seq<Update<Buffer, Pipe>>)
    requires DistinctBuffers(buffers) && FlatReplicas(buffers)
    requires (forall b :: b in ins ==> b in buffers) && (forall b :: b in outs ==> b in buffers)
    modifies buffers`inputBufferOfSameOp, buffers`outputBufferOfSameOp
    ensures Snapshot(buffers, pipes) == Run(old(Snapshot(buffers, pipes)), us)
    ensures OnlyPairs(us, WithReplicas(ins), WithReplicas(outs)) && EveryPair(us, WithReplicas(ins), WithReplicas(outs))
  {
    var inList := new BufferList(ins);
    var outList := new BufferList(outs);
    hide Snapshot;
    ghost var before := Snapshot(buffers, pipes);
    ReplicasInside(outs, buffers);
    var first := FeedOutputs(ins, outs, outList, buffers, pipes);
    var second := FeedInputs(outList.items, ins, inList, WithReplicas(outs), buffers, pipes);
    RunAppends(before, first, second);
    us := first + second;
    forall x, y | x in WithReplicas(ins) && y in WithReplicas(outs) ensures Names(us, Feeds(x, y)) {
      assert ins != [];
      assert Names(second, Feeds(x, y));
    }
  }

  /* ---- filling the incidence tables from the pipe descriptions ---- */

  function ClearOffset(id: int): int {
    id - id % 1000000000
  }

  /** Output ids in order, with nested lists flattened. */
  function FlatOutputs(es: seq<OutputEntry>): seq<int> {
    if es == [] then [] else
      FlatOutputs(es[..|es| - 1]) + match es[|es| - 1] case One(id) => [id] case Many(ids) => ids
  }

  ghost predicate Known(buffers: map<int, Buffer>, root: PipeRoot) {
    && (forall i :: 0 <= i < |root.inputList| ==> ClearOffset(root.inputList[i]) in buffers)
    && (forall i :: 0 <= i < |FlatOutputs(root.outputList)| ==> FlatOutputs(root.outputList)[i] in buffers)
  }

  ghost function InputUpdates(buffers: map<int, Buffer>, p: Pipe, ids: seq<int>): seq<Update<Buffer, Pipe>>
    requires forall i :: 0 <= i < |ids| ==> ClearOffset(ids[i]) in buffers
  {
    if ids == [] then [] else
      InputUpdates(buffers, p, ids[..|ids| - 1]) + [Reads(p, buffers[ClearOffset(ids[|ids| - 1])])]
  }

  ghost function OutputUpdates(buffers: map<int, Buffer>, p: Pipe, ids: seq<int>): seq<Update<Buffer, Pipe>>
    requires forall i :: 0 <= i < |ids| ==> ids[i] in buffers
  {
    if ids == [] then [] else
      OutputUpdates(buffers, p, ids[..|ids| - 1]) + [Writes(p, buffers[ids[|ids| - 1]])]
  }

  /** The incidence updates of the pipes, in dictionary order. */
  ghost function LoadUpdates(buffers: map<int, Buffer>, pipes: seq<Pipe>): seq<Update<Buffer, Pipe>>
    requires forall i :: 0 <= i < |pipes| ==> Known(buffers, pipes[i].root)
  {
    if pipes == [] then [] else
      var p := pipes[|pipes| - 1];
      assert Known(buffers, p.root);
      LoadUpdates(buffers, pipes[..|pipes| - 1])
      + (InputUpdates(buffers, p, p.root.inputList) + OutputUpdates(buffers, p, FlatOutputs(p.root.outputList)))
  }

  lemma {:induction false} InputUpdatesName(buffers: map<int, Buffer>, p: Pipe, ids: seq<int>, q: Pipe, b: Buffer)
    requires forall i :: 0 <= i < |ids| ==> ClearOffset(ids[i]) in buffers
    ensures Reads(q, b) in InputUpdates(buffers, p, ids)
       <==> p == q && exists i :: 0 <= i < |ids| && buffers[ClearOffset(ids[i])] == b
    ensures Writes(q, b) !in InputUpdates(buffers, p, ids)
  {
    if ids != [] {
      var n := |ids| - 1;
      InputUpdatesName(buffers, p, ids[..n], q, b);
      assert forall i :: 0 <= i < n ==> ids[..n][i] == ids[i];
    }
  }

  lemma {:induction false} OutputUpdatesName(buffers: map<int, Buffer>, p: Pipe, ids: seq<int>, q: Pipe, b: Buffer)
    requires forall i :: 0 <= i < |ids| ==> ids[i] in buffers
    ensures Writes(q, b) in OutputUpdates(buffers, p, ids)
       <==> p == q && exists i :: 0 <= i < |ids| && buffers[ids[i]] == b
    ensures Reads(q, b) !in OutputUpdates(buffers, p, ids)
  {
    if ids != [] {
      var n := |ids| - 1;
      OutputUpdatesName(buffers, p, ids[..n], q, b);
      assert forall i :: 0 <= i < n ==> ids[..n][i] == ids[i];
    }
  }

  /** The loaded incidence is exactly the one the descriptions name, offsets of input ids cleared. */
  lemma {:induction false} LoadUpdatesNames(buffers: map<int, Buffer>, pipes: seq<Pipe>, p: Pipe, b: Buffer)
    requires forall i :: 0 <= i < |pipes| ==> Known(buffers, pipes[i].root)
    ensures Names(LoadUpdates(buffers, pipes), Reads(p, b))
       <==> p in pipes && exists i :: 0 <= i < |p.root.inputList| && buffers[ClearOffset(p.root.inputList[i])] == b
    ensures Names(LoadUpdates(buffers, pipes), Writes(p, b))
       <==> p in pipes && exists i :: 0 <= i < |FlatOutputs(p.root.outputList)|
                                     && buffers[FlatOutputs(p.root.outputList)[i]] == b
  {
    if pipes == [] {
      hide FlatOutputs;
    } else {
      hide LoadUpdates, Names, InputUpdates, OutputUpdates, FlatOutputs;
      var n := |pipes| - 1;
      var last := pipes[n];
      LoadUpdatesNames(buffers, pipes[..n], p, b);
      assert pipes == pipes[..n] + [last];
      assert Known(buffers, last.root);
      LoadUpdatesLast(buffers, pipes, Reads(p, b));
      LoadUpdatesLast(buffers, pipes, Writes(p, b));
      InputUpdatesName(buffers, last, last.root.inputList, p, b);
      OutputUpdatesName(buffers, last, FlatOutputs(last.root.outputList), p, b);
    }
  }

  /** An update of all pipes is one of the earlier pipes or one of the last pipe. */
  lemma LoadUpdatesLast(buffers: map<int, Buffer>, pipes: seq<Pipe>, u: Update<Buffer, Pipe>)
    requires pipes != [] && forall i :: 0 <= i < |pipes| ==> Known(buffers, pipes[i].root)
    ensures var n := |pipes| - 1; var last := pipes[n];
      && Known(buffers, last.root)
      && (Names(LoadUpdates(buffers, pipes), u)
          <==> Names(LoadUpdates(buffers, pipes[..n]), u)
               || u in InputUpdates(buffers, last, last.root.inputList)
               || u in OutputUpdates(buffers, last, FlatOutputs(last.root.outputList)))
  {
    hide InputUpdates, OutputUpdates, FlatOutputs;
    var n := |pipes| - 1;
    var last := pipes[n];
    assert Known(buffers, last.root);
    var ius := InputUpdates(buffers, last, last.root.inputList);
    var ous := OutputUpdates(buffers, last, FlatOutputs(last.root.outputList));
    assert LoadUpdates(buffers, pipes) == LoadUpdates(buffers, pipes[..n]) + (ius + ous);
  }

  ghost predicate Owned(dict: map<int, Buffer>, buffers: set<Buffer>) {
    forall i :: i in dict ==> dict[i] in buffers
  }

  method LoadInputs(p: Pipe, ids: seq<int>, dict: map<int, Buffer>, ghost buffers: set<Buffer>, ghost pipes: set<Pipe>)
    returns (ok: bool, ghost us: seq<Update<Buffer, Pipe>>)
    requires p in pipes && Owned(dict, buffers)
    modifies p`inputBuffers, buffers`inputOfPipes
    ensures Snapshot(buffers, pipes) == Run(old(Snapshot(buffers, pipes)), us)
    ensures ok <==> forall i :: 0 <= i < |ids| ==> ClearOffset(ids[i]) in dict
    ensures ok ==> us == InputUpdates(dict, p, ids)
  {
    hide Snapshot, Run, Step;
    ghost var before := Snapshot(buffers, pipes);
    us := [];
    RunNothing(before);
    for n := 0 to |ids|
      invariant Snapshot(buffers, pipes) == Run(before, us)
      invariant forall i :: 0 <= i < n ==> ClearOffset(ids[i]) in dict
      invariant us == InputUpdates(dict, p, ids[..n])
    {
      var id := ClearOffset(ids[n]);
      if id !in dict {
        return false, us;
      }
      var b := dict[id];
      p.AddInput(b, buffers, pipes);
      RunLast(before, us, Reads(p, b));
      us := us + [Reads(p, b)];
      assert ids[..n + 1][..n] == ids[..n];
    }
    assert ids[..|ids|] == ids;
    return true, us;
  }

  method LoadOutputIds(p: Pipe, ids: seq<int>, dict: map<int, Buffer>, ghost buffers: set<Buffer>, ghost pipes: set<Pipe>)
    returns (ok: bool, ghost us: seq<Update<Buffer, Pipe>>)
    requires p in pipes && Owned(dict, buffers)
    modifies p`outputBuffers, buffers`outputOfPipes
    ensures Snapshot(buffers, pipes) == Run(old(Snapshot(buffers, pipes)), us)
    ensures ok <==> forall i :: 0 <= i < |ids| ==> ids[i] in dict
    ensures ok ==> us == OutputUpdates(dict, p, ids)
  {
    hide Snapshot, Run, Step;
    ghost var before := Snapshot(buffers, pipes);
    us := [];
    RunNothing(before);
    for n := 0 to |ids|
      invariant Snapshot(buffers, pipes) == Run(before, us)
      invariant forall i :: 0 <= i < n ==> ids[i] in dict
      invariant us == OutputUpdates(dict, p, ids[..n])
    {
      var id: int := ids[n];
      if id !in dict {
        return false, us;
      }
      var b := dict[id];
      p.AddOutput(b, buffers, pipes);
      RunLast(before, us, Writes(p, b));
      us := us + [Writes(p, b)];
      assert ids[..n + 1][..n] == ids[..n];
    }
    assert ids[..|ids|] == ids;
    return true, us;
  }

  method LoadOutputs(p: Pipe, es: seq<OutputEntry>, dict: map<int, Buffer>, ghost buffers: set<Buffer>, ghost pipes: set<Pipe>)
    returns (ok: bool, ghost us: seq<Update<Buffer, Pipe>>)
    requires p in pipes && Owned(dict, buffers)
    modifies p`outputBuffers, buffers`outputOfPipes
    ensures Snapshot(buffers, pipes) == Run(old(Snapshot(buffers, pipes)), us)
    ensures ok <==> forall i :: 0 <= i < |FlatOutputs(es)| ==> FlatOutputs(es)[i] in dict
    ensures ok ==> us == OutputUpdates(dict, p, FlatOutputs(es))
  {
    hide Snapshot, Run, OutputUpdates, FlatOutputs;
    ghost var before := Snapshot(buffers, pipes);
    us := [];
    RunNothing(before);
    NoOutputs(dict, p);
    for n := 0 to |es|
      invariant Snapshot(buffers, pipes) == Run(before, us)
      invariant forall i :: 0 <= i < |FlatOutputs(es[..n])| ==> FlatOutputs(es[..n])[i] in dict
      invariant us == OutputUpdates(dict, p, FlatOutputs(es[..n]))
    {
      var ids := match es[n] case One(id) => [id] case Many(ids) => ids;
      var good, vs := LoadOutputIds(p, ids, dict, buffers, pipes);
      RunAppends(before, us, vs);
      FlatLast(es, n);
      if !good {
        FlatPrefix(es, n + 1);
        var bad :| 0 <= bad < |ids| && ids[bad] !in dict;
        assert FlatOutputs(es)[|FlatOutputs(es[..n])| + bad] == ids[bad];
        return false, us + vs;
      }
      OutputUpdatesAppend(dict, p, FlatOutputs(es[..n]), ids);
      us := us + vs;
    }
    assert es[..|es|] == es;
    return true, us;
  }

  lemma {:induction false} OutputUpdatesAppend(dict: map<int, Buffer>, p: Pipe, ids: seq<int>, more: seq<int>)
    requires forall i :: 0 <= i < |ids| ==> ids[i] in dict
    requires forall i :: 0 <= i < |more| ==> more[i] in dict
    ensures OutputUpdates(dict, p, ids + more) == OutputUpdates(dict, p, ids) + OutputUpdates(dict, p, more)
    decreases |more|
  {
    if more == [] {
      assert ids + more == ids;
    } else {
      var n := |more| - 1;
      OutputUpdatesAppend(dict, p, ids, more[..n]);
      assert (ids + more)[..|ids + more| - 1] == ids + more[..n];
    }
  }

  /** Reads the input and output lists of every pipe. Stops at the first id that names no buffer. */
  method LoadIncidence(order: seq<Pipe>, dict: map<int, Buffer>, ghost buffers: set<Buffer>, ghost pipes: set<Pipe>)
    returns (ok: bool, ghost us: seq<Update<Buffer, Pipe>>)
    requires (forall p :: p in order ==> p in pipes) && Owned(dict, buffers)
    modifies pipes`inputBuffers, pipes`outputBuffers, buffers`inputOfPipes, buffers`outputOfPipes
    ensures Snapshot(buffers, pipes) == Run(old(Snapshot(buffers, pipes)), us)
    ensures ok <==> forall i :: 0 <= i < |order| ==> Known(dict, order[i].root)
    ensures ok ==> us == LoadUpdates(dict, order)
  {
    hide Snapshot, Run, InputUpdates, OutputUpdates, FlatOutputs;
    ghost var before := Snapshot(buffers, pipes);
    us := [];
    RunNothing(before);
    for n := 0 to |order|
      invariant Snapshot(buffers, pipes) == Run(before, us)
      invariant forall i :: 0 <= i < n ==> Known(dict, order[i].root)
      invariant us == LoadUpdates(dict, order[..n])
    {
      var p := order[n];
      var ins, vs := LoadInputs(p, p.root.inputList, dict, buffers, pipes);
      RunAppends(before, us, vs);
      if !ins {
        return false, us + vs;
      }
      var outs, ws := LoadOutputs(p, p.root.outputList, dict, buffers, pipes);
      RunAppends(before, us + vs, ws);
      if !outs {
        return false, us + vs + ws;
      }
      assert order[..n + 1][..n] == order[..n];
      assert us + vs + ws == us + (vs + ws);
      us := us + vs + ws;
    }
    assert order[..|order|] == order;
    return true, us;
  }

  lemma NoOutputs(dict: map<int, Buffer>, p: Pipe)
    ensures FlatOutputs([]) == [] && OutputUpdates(dict, p, []) == []
  {
  }

  lemma FlatLast(es: seq<OutputEntry>, n: nat)
    requires n < |es|
    ensures FlatOutputs(es[..n + 1]) == FlatOutputs(es[..n]) + match es[n] case One(id) => [id] case Many(ids) => ids
  {
    assert es[..n + 1][..n] == es[..n];
  }

  lemma {:induction false} FlatPrefix(es: seq<OutputEntry>, n: nat)
    requires n <= |es|
    ensures FlatOutputs(es[..n]) <= FlatOutputs(es)
    decreases |es|
  {
    if n < |es| {
      var m := |es| - 1;
      FlatPrefix(es[..m], n);
      assert es[..m][..n] == es[..n];
    } else {
      assert es[..n] == es;
    }
  }

  lemma {:induction false} LoadUpdatesFit(net: Net<Buffer, Pipe>, dict: map<int, Buffer>, order: seq<Pipe>)
    requires forall i :: 0 <= i < |order| ==> Known(dict, order[i].root)
    requires Owned(dict, net.ins.back.Keys) && forall p :: p in order ==> p in net.ins.fwd
    ensures AllFit(net, LoadUpdates(dict, order))
  {
    hide InputUpdates, OutputUpdates;
    if order != [] {
      var n := |order| - 1;
      LoadUpdatesFit(net, dict, order[..n]);
      var p := order[n];
      assert Known(dict, p.root);
      InputUpdatesFit(net, dict, p, p.root.inputList);
      OutputUpdatesFit(net, dict, p, FlatOutputs(p.root.outputList));
    }
  }

  lemma {:induction false} InputUpdatesFit(net: Net<Buffer, Pipe>, dict: map<int, Buffer>, p: Pipe, ids: seq<int>)
    requires forall i :: 0 <= i < |ids| ==> ClearOffset(ids[i]) in dict
    requires Owned(dict, net.ins.back.Keys) && p in net.ins.fwd
    ensures AllFit(net, InputUpdates(dict, p, ids))
  {
    if ids != [] {
      InputUpdatesFit(net, dict, p, ids[..|ids| - 1]);
      var id := ClearOffset(ids[|ids| - 1]);
      assert dict[id] in net.ins.back.Keys;
    }
  }

  lemma {:induction false} OutputUpdatesFit(net: Net<Buffer, Pipe>, dict: map<int, Buffer>, p: Pipe, ids: seq<int>)
    requires forall i :: 0 <= i < |ids| ==> ids[i] in dict
    requires Owned(dict, net.ins.back.Keys) && p in net.ins.fwd
    ensures AllFit(net, OutputUpdates(dict, p, ids))
  {
    if ids != [] {
      OutputUpdatesFit(net, dict, p, ids[..|ids| - 1]);
      var id: int := ids[|ids| - 1];
      assert dict[id] in net.ins.back.Keys;
    }
  }

  /** Loading the descriptions of an epoch leaves its tables consistent, so successor and predecessor
      lists mirror each other from then on. */
  lemma LoadKeepsConsistent(net: Net<Buffer, Pipe>, dict: map<int, Buffer>, order: seq<Pipe>)
    requires Consistent(net) && forall i :: 0 <= i < |order| ==> Known(dict, order[i].root)
    requires Owned(dict, net.ins.back.Keys) && forall p :: p in order ==> p in net.ins.fwd
    ensures Consistent(Run(net, LoadUpdates(dict, order)))
  {
    LoadUpdatesFit(net, dict, order);
    RunKeepsConsistent(net, LoadUpdates(dict, order));
  }

  /* ---- loading in terms of the listed numbers ---- */

  /** `base` is the multiple of 1000000000 that `id` is an offset from. */
  ghost predicate OffsetFrom(base: int, id: int) {
    base % 1000000000 == 0 && base <= id < base + 1000000000
  }

  lemma OneBase(base: int, id: int)
    ensures OffsetFrom(base, id) <==> base == ClearOffset(id)
  {
  }

  /** An output list names an id, on its own or inside a nested list. */
  ghost predicate Lists(es: seq<OutputEntry>, id: int) {
    exists i :: 0 <= i < |es| && (es[i] == One(id) || (es[i].Many? && id in es[i].ids))
  }

  lemma {:induction false} FlatIsListed(es: seq<OutputEntry>, id: int)
    ensures id in FlatOutputs(es) <==> Lists(es, id)
  {
    if es != [] {
      var n := |es| - 1;
      FlatIsListed(es[..n], id);
      assert forall i :: 0 <= i < n ==> es[..n][i] == es[i];
      assert id in FlatOutputs(es) <==> id in FlatOutputs(es[..n]) || es[n] == One(id) || (es[n].Many? && id in es[n].ids);
    }
  }

  lemma AllKeys(dict: map<int, Buffer>, ids: seq<int>)
    ensures (forall i :: 0 <= i < |ids| ==> ids[i] in dict) <==> forall id: int :: id in ids ==> id in dict
  {
    if forall i :: 0 <= i < |ids| ==> ids[i] in dict {
      forall id: int | id in ids ensures id in dict {
        var i :| 0 <= i < |ids| && ids[i] == id;
        assert ids[i] in dict;
      }
    }
    if forall id: int :: id in ids ==> id in dict {
      forall i | 0 <= i < |ids| ensures ids[i] in dict {
        var id: int := ids[i];
        assert id in ids;
      }
    }
  }

  lemma OutputsKnown(dict: map<int, Buffer>, es: seq<OutputEntry>, ids: seq<int>)
    requires ids == FlatOutputs(es)
    ensures (forall i :: 0 <= i < |ids| ==> ids[i] in dict) <==> forall id :: Lists(es, id) ==> id in dict
  {
    hide FlatOutputs, Lists;
    forall id: int ensures id in ids <==> Lists(es, id) {
      FlatIsListed(es, id);
    }
    AllKeys(dict, ids);
  }

  lemma InputsKnown(dict: map<int, Buffer>, ids: seq<int>)
    ensures (forall i :: 0 <= i < |ids| ==> ClearOffset(ids[i]) in dict)
       <==> forall base, id :: id in ids && OffsetFrom(base, id) ==> base in dict
  {
    hide OffsetFrom, ClearOffset;
    forall base, id ensures OffsetFrom(base, id) <==> base == ClearOffset(id) {
      OneBase(base, id);
    }
    if forall base, id :: id in ids && OffsetFrom(base, id) ==> base in dict {
      forall i | 0 <= i < |ids| ensures ClearOffset(ids[i]) in dict {
        var base := ClearOffset(ids[i]);
        assert ids[i] in ids && OffsetFrom(base, ids[i]);
      }
    }
  }

  /** The lookups of a pipe succeed if and only if the base of every listed input and every listed output is a key. */
  lemma KnownMeans(dict: map<int, Buffer>, root: PipeRoot)
    ensures Known(dict, root) <==>
      && (forall base, id :: id in root.inputList && OffsetFrom(base, id) ==> base in dict)
      && (forall id :: Lists(root.outputList, id) ==> id in dict)
  {
    hide FlatOutputs, Lists, OffsetFrom, ClearOffset;
    InputsKnown(dict, root.inputList);
    OutputsKnown(dict, root.outputList, FlatOutputs(root.outputList));
  }

  /** After loading, a buffer is an input of a pipe if and only if it was one before or is found at the base of an id that
      the pipe lists. */
  lemma LoadedInputs(net: Net<Buffer, Pipe>, dict: map<int, Buffer>, pipes: seq<Pipe>, p: Pipe, b: Buffer)
    requires forall i :: 0 <= i < |pipes| ==> Known(dict, pipes[i].root)
    ensures b in At(Run(net, LoadUpdates(dict, pipes)).ins.fwd, p) <==>
      || b in At(net.ins.fwd, p)
      || (p in pipes && exists base, id :: id in p.root.inputList && OffsetFrom(base, id) && base in dict && dict[base] == b)
  {
    RunLoadsExactly(net, LoadUpdates(dict, pipes), p, b);
    LoadUpdatesNames(dict, pipes, p, b);
    hide LoadUpdates, Run, At, OffsetFrom, ClearOffset, FlatOutputs;
    if p in pipes {
      assert Known(dict, p.root);
      forall base, id ensures OffsetFrom(base, id) <==> base == ClearOffset(id) {
        OneBase(base, id);
      }
      if i :| 0 <= i < |p.root.inputList| && dict[ClearOffset(p.root.inputList[i])] == b {
        assert OffsetFrom(ClearOffset(p.root.inputList[i]), p.root.inputList[i]);
      }
    }
  }

  /** The same for outputs, which carry no offset. */
  lemma LoadedOutputs(net: Net<Buffer, Pipe>, dict: map<int, Buffer>, pipes: seq<Pipe>, p: Pipe, b: Buffer)
    requires forall i :: 0 <= i < |pipes| ==> Known(dict, pipes[i].root)
    ensures b in At(Run(net, LoadUpdates(dict, pipes)).outs.fwd, p) <==>
      || b in At(net.outs.fwd, p)
      || (p in pipes && exists id :: Lists(p.root.outputList, id) && id in dict && dict[id] == b)
  {
    RunLoadsExactly(net, LoadUpdates(dict, pipes), p, b);
    LoadUpdatesNames(dict, pipes, p, b);
    hide LoadUpdates, Run, At, Lists, FlatOutputs;
    if p in pipes {
      assert Known(dict, p.root);
      OutputsNamed(dict, p.root.outputList, b);
    }
  }

  lemma OutputsNamed(dict: map<int, Buffer>, es: seq<OutputEntry>, b: Buffer)
    requires forall i :: 0 <= i < |FlatOutputs(es)| ==> FlatOutputs(es)[i] in dict
    ensures (exists i :: 0 <= i < |FlatOutputs(es)| && dict[FlatOutputs(es)[i]] == b)
       <==> exists id :: Lists(es, id) && id in dict && dict[id] == b
  {
    hide FlatOutputs, Lists;
    var ids := FlatOutputs(es);
    if i :| 0 <= i < |ids| && dict[ids[i]] == b {
      FlatIsListed(es, ids[i]);
    }
    if id :| Lists(es, id) && id in dict && dict[id] == b {
      FlatIsListed(es, id);
      var i :| 0 <= i < |ids| && ids[i] == id;
      assert dict[ids[i]] == b;
    }
  }

  /** A pipe that lists 1000000005 reads the buffer with id 1000000000. */
  lemma OffsetExample(net: Net<Buffer, Pipe>, p: Pipe, b: Buffer)
    requires p.root == PipeRoot(7, [1000000005], [])
    ensures Known(map[1000000000 := b], p.root)
    ensures b in At(Run(net, LoadUpdates(map[1000000000 := b], [p])).ins.fwd, p)
  {
    var dict := map[1000000000 := b];
    assert Known(dict, [p][0].root);
    LoadedInputs(net, dict, [p], p, b);
    assert OffsetFrom(1000000000, 1000000005) && p.root.inputList[0] == 1000000005;
  }
}
