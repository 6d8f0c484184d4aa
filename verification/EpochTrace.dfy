/** From the descriptions of one epoch to its packets. */
module EpochTrace {
  import opened Incidence
  import opened TraceOrder
  import opened PipeGraph
  import opened PipeTrace
  import opened EpochBuffers
  import opened Wrappers

  /* ---- pipes ---- */

  /** A repeated pipe id keeps its place in the dictionary and gets the new pipe. */
  function PlaceOf(order: seq<Pipe>, id: int): Option<nat> {
    if order == [] then None
    else if order[|order| - 1].root.id == id then Some(|order| - 1)
    else PlaceOf(order[..|order| - 1], id)
  }

  lemma {:induction false} PlaceIs(order: seq<Pipe>, id: int)
    ensures PlaceOf(order, id).Some? ==> PlaceOf(order, id).value < |order| && order[PlaceOf(order, id).value].root.id == id
    ensures PlaceOf(order, id).None? ==> forall i :: 0 <= i < |order| ==> order[i].root.id != id
  {
    if order != [] && order[|order| - 1].root.id != id {
      PlaceIs(order[..|order| - 1], id);
    }
  }

  /** The descriptions that end up in the dictionary, in its order. */
  function Kept(roots: seq<PipeRoot>): seq<PipeRoot> {
    if roots == [] then [] else
      var last := roots[|roots| - 1];
      var before := Kept(roots[..|roots| - 1]);
      match PlaceOfId(before, last.id) case None => before + [last] case Some(k) => before[k := last]
  }

  function PlaceOfId(roots: seq<PipeRoot>, id: int): (k: Option<nat>)
    ensures k.Some? ==> k.value < |roots| && roots[k.value].id == id
  {
    if roots == [] then None
    else if roots[|roots| - 1].id == id then Some(|roots| - 1)
    else PlaceOfId(roots[..|roots| - 1], id)
  }

  lemma {:induction false} SamePlace(order: seq<Pipe>, roots: seq<PipeRoot>, id: int)
    requires |order| == |roots| && forall i :: 0 <= i < |order| ==> order[i].root == roots[i]
    ensures PlaceOf(order, id) == PlaceOfId(roots, id)
  {
    if order != [] {
      SamePlace(order[..|order| - 1], roots[..|order| - 1], id);
    }
  }

  predicate AllHaveOutputs(roots: seq<PipeRoot>) {
    forall i :: 0 <= i < |roots| ==> roots[i].outputList != []
  }

  /** Pipes that are linked to nothing, one for each description that ends up in the dictionary. */
  ghost predicate Piped(order: seq<Pipe>, roots: seq<PipeRoot>)
    reads order
  {
    && |order| == |Kept(roots)| && (forall i :: 0 <= i < |order| ==> order[i].root == Kept(roots)[i])
    && NoDup(order) && forall i :: 0 <= i < |order| ==> NoBuffers(order[i])
  }

  /** Creates the pipes once more, behind those described by `done`; fails at the first one whose output list is empty,
      since its first entry is looked at. */
  method CreatePipes(roots: seq<PipeRoot>, before: seq<Pipe>, ghost done: seq<PipeRoot>) returns (ok: bool, order: seq<Pipe>)
    requires Piped(before, done)
    ensures ok <==> AllHaveOutputs(roots)
    ensures ok ==> Piped(order, done + roots) && forall p :: p in order ==> fresh(p) || p in before
  {
    hide Piped;
    order := before;
    assert done + roots[..0] == done;
    for n := 0 to |roots|
      invariant AllHaveOutputs(roots[..n]) && Piped(order, done + roots[..n])
      invariant forall p :: p in order ==> fresh(p) || p in before
    {
      order := CreatePipe(roots[n], order, done + roots[..n]);
      assert roots[..n + 1] == roots[..n] + [roots[n]] && done + roots[..n + 1] == done + roots[..n] + [roots[n]];
      if roots[n].outputList == [] {
        return false, order;
      }
    }
    assert roots[..|roots|] == roots;
    ok := true;
  }

  method CreatePipe(root: PipeRoot, before: seq<Pipe>, ghost done: seq<PipeRoot>) returns (order: seq<Pipe>)
    requires Piped(before, done)
    ensures Piped(order, done + [root]) && forall p :: p in order ==> fresh(p) || p in before
  {
    hide PlaceOf, PlaceOfId, Kept, NoDup;
    var p := new Pipe(root);
    SamePlace(before, Kept(done), root.id);
    PlaceIs(before, root.id);
    KeptNext(done, root);
    NoDupPlaced(before, p, PlaceOf(before, root.id));
    match PlaceOf(before, root.id) {
      case None => order := before + [p];
      case Some(k) => order := before[k := p];
    }
  }

  function Placed(roots: seq<PipeRoot>, root: PipeRoot): seq<PipeRoot> {
    match PlaceOfId(roots, root.id) case None => roots + [root] case Some(k) => roots[k := root]
  }

  lemma KeptNext(roots: seq<PipeRoot>, root: PipeRoot)
    ensures Kept(roots + [root]) == Placed(Kept(roots), root)
  {
    hide PlaceOfId;
    assert (roots + [root])[..|roots|] == roots;
  }

  lemma NothingPiped()
    ensures Piped([], [])
  {
  }

  /** The description that an id has in the end. */
  function LastOf(roots: seq<PipeRoot>, id: int): Option<PipeRoot> {
    if roots == [] then None
    else if roots[|roots| - 1].id == id then Some(roots[|roots| - 1])
    else LastOf(roots[..|roots| - 1], id)
  }

  lemma NoLast(id: int)
    ensures LastOf([], id).None?
  {
  }

  lemma LastOfNext(roots: seq<PipeRoot>, root: PipeRoot, id: int)
    ensures LastOf(roots + [root], id) == if root.id == id then Some(root) else LastOf(roots, id)
  {
    assert (roots + [root])[..|roots|] == roots;
  }

  lemma {:induction false} NoPlace(roots: seq<PipeRoot>, id: int)
    ensures PlaceOfId(roots, id).None? <==> forall k :: 0 <= k < |roots| ==> roots[k].id != id
  {
    if roots != [] {
      NoPlace(roots[..|roots| - 1], id);
    }
  }

  /** No id is kept twice ... */
  lemma {:induction false} KeptOnce(roots: seq<PipeRoot>)
    ensures forall j, k :: 0 <= j < k < |Kept(roots)| ==> Kept(roots)[j].id != Kept(roots)[k].id
  {
    hide PlaceOfId;
    if roots != [] {
      var n := |roots| - 1;
      KeptOnce(roots[..n]);
      NoPlace(Kept(roots[..n]), roots[n].id);
    }
  }

  /** Where a description is placed, all other places keeping what they have. */
  lemma PlacedAt(roots: seq<PipeRoot>, root: PipeRoot) returns (p: nat)
    ensures p < |Placed(roots, root)| && Placed(roots, root)[p] == root
    ensures forall k :: 0 <= k < |Placed(roots, root)| && k != p ==> k < |roots| && Placed(roots, root)[k] == roots[k]
    ensures forall k :: 0 <= k < |roots| && roots[k].id == root.id ==> |Placed(roots, root)| == |roots|
    ensures forall k :: 0 <= k < |roots| ==> k < |Placed(roots, root)| && Placed(roots, root)[k].id == roots[k].id
  {
    hide PlaceOfId;
    NoPlace(roots, root.id);
    p := match PlaceOfId(roots, root.id) case None => |roots| case Some(k) => k;
  }

  /** ... and what is kept is the last description of each id. */
  lemma {:induction false} KeptIsLast(roots: seq<PipeRoot>, k: nat)
    requires k < |Kept(roots)|
    ensures LastOf(roots, Kept(roots)[k].id) == Some(Kept(roots)[k])
  {
    NothingKept();
    hide PlaceOfId, Kept, LastOf, Placed;
    var n := |roots| - 1;
    var before, root := roots[..n], roots[n];
    assert roots == before + [root];
    KeptNext(before, root);
    KeptOnce(roots);
    var p := PlacedAt(Kept(before), root);
    LastOfNext(before, root, Kept(roots)[k].id);
    if k != p {
      KeptIsLast(before, k);
    }
  }

  lemma NothingKept()
    ensures Kept([]) == []
  {
  }

  lemma {:induction false} KeptHasAll(roots: seq<PipeRoot>, i: nat)
    requires i < |roots|
    ensures exists k :: 0 <= k < |Kept(roots)| && Kept(roots)[k].id == roots[i].id
  {
    hide Kept, Placed;
    var n := |roots| - 1;
    var before, root := roots[..n], roots[n];
    assert roots == before + [root];
    KeptNext(before, root);
    var p := PlacedAt(Kept(before), root);
    if i < n {
      KeptHasAll(before, i);
      var k :| 0 <= k < |Kept(before)| && Kept(before)[k].id == roots[i].id;
      assert Kept(roots)[k].id == roots[i].id;
    }
  }

  /** Creating the same pipes once more, for part of the descriptions: places stay, later descriptions win. */
  lemma {:induction false} KeptPlaces(done: seq<PipeRoot>, roots: seq<PipeRoot>, n: nat)
    requires n <= |roots| && Kept(done) == Kept(roots)
    ensures |Kept(done + roots[..n])| == |Kept(roots)|
    ensures forall k :: 0 <= k < |Kept(roots)| ==>
      && Kept(done + roots[..n])[k].id == Kept(roots)[k].id
      && Kept(done + roots[..n])[k] == match LastOf(roots[..n], Kept(roots)[k].id) case None => Kept(roots)[k] case Some(r) => r
  {
    hide PlaceOfId, Kept, LastOf, Placed;
    if n == 0 {
      assert done + roots[..0] == done;
      forall k | 0 <= k < |Kept(roots)| ensures LastOf(roots[..0], Kept(roots)[k].id) == None {
        NoLast(Kept(roots)[k].id);
      }
    } else {
      KeptPlaces(done, roots, n - 1);
      var root := roots[n - 1];
      assert roots[..n] == roots[..n - 1] + [root] && done + roots[..n] == done + roots[..n - 1] + [root];
      var before := Kept(done + roots[..n - 1]);
      KeptNext(done + roots[..n - 1], root);
      KeptHasAll(roots, n - 1);
      var q :| 0 <= q < |Kept(roots)| && Kept(roots)[q].id == root.id;
      assert before[q].id == root.id;
      var p := PlacedAt(before, root);
      KeptOnce(roots);
      forall k | 0 <= k < |Kept(roots)|
        ensures LastOf(roots[..n], Kept(roots)[k].id) ==
          if root.id == Kept(roots)[k].id then Some(root) else LastOf(roots[..n - 1], Kept(roots)[k].id)
      {
        LastOfNext(roots[..n - 1], root, Kept(roots)[k].id);
      }
    }
  }

  /** However often the pipes are created, the dictionary is the same. */
  lemma KeptAgain(done: seq<PipeRoot>, roots: seq<PipeRoot>)
    requires Kept(done) == Kept(roots)
    ensures Kept(done + roots) == Kept(roots)
  {
    hide Kept, LastOf;
    KeptPlaces(done, roots, |roots|);
    assert roots[..|roots|] == roots;
    forall k | 0 <= k < |Kept(roots)| ensures Kept(done + roots)[k] == Kept(roots)[k] {
      KeptIsLast(roots, k);
    }
  }

  lemma NoDupPlaced(order: seq<Pipe>, p: Pipe, place: Option<nat>)
    requires NoDup(order) && p !in order && (place.Some? ==> place.value < |order|)
    ensures NoDup(match place case None => order + [p] case Some(k) => order[k := p])
  {
  }

  ghost predicate NoBuffers(p: Pipe)
    reads p
  {
    p.inputBuffers == [] && p.outputBuffers == []
  }

  /* ---- ops ---- */

  /** The buffers of one op on one core, by id. */
  datatype OpIds = OpIds(ins: seq<int>, outs: seq<int>)

  /** Some buffer or replica of the epoch is described with this id. */
  ghost predicate IsId(es: seq<BufferEntry>, id: int) {
    exists i, r :: 0 <= i < |es| && Numbered(es[i], r, id)
  }

  ghost predicate IdsKnown(es: seq<BufferEntry>, ids: seq<int>) {
    forall k :: 0 <= k < |ids| ==> IsId(es, ids[k])
  }

  /** The base of every input that a pipe lists and every output that it lists, nested or not, is an id of the epoch. */
  ghost predicate ListsIds(es: seq<BufferEntry>, root: PipeRoot) {
    && (forall base, id :: id in root.inputList && OffsetFrom(base, id) ==> IsId(es, base))
    && (forall id :: Lists(root.outputList, id) ==> IsId(es, id))
  }

  ghost predicate OpsKnown(es: seq<BufferEntry>, ops: seq<OpIds>) {
    forall n :: 0 <= n < |ops| ==> IdsKnown(es, ops[n].ins) && IdsKnown(es, ops[n].outs)
  }

  ghost predicate InDict(dict: map<int, Buffer>, ids: seq<int>) {
    forall k :: 0 <= k < |ids| ==> ids[k] in dict
  }

  function Look(dict: map<int, Buffer>, ids: seq<int>): (bs: seq<Buffer>)
    requires InDict(dict, ids)
  {
    seq(|ids|, k requires 0 <= k < |ids| => assert ids[k] in dict; dict[ids[k]])
  }

  ghost predicate OpsInDict(dict: map<int, Buffer>, ops: seq<OpIds>) {
    forall n :: 0 <= n < |ops| ==> InDict(dict, ops[n].ins) && InDict(dict, ops[n].outs)
  }

  function Groups(dict: map<int, Buffer>, ops: seq<OpIds>): (gs: seq<OpAtCore>)
    requires OpsInDict(dict, ops)
  {
    seq(|ops|, n requires 0 <= n < |ops| => OpAtCore(Look(dict, ops[n].ins), Look(dict, ops[n].outs)))
  }

  lemma GroupsAreOurs(dict: map<int, Buffer>, ops: seq<OpIds>)
    requires OpsInDict(dict, ops)
    ensures OursOnly(Groups(dict, ops), BuffersOf(dict))
  {
    forall n | 0 <= n < |ops|
      ensures forall b :: b in Groups(dict, ops)[n].ins ==> b in BuffersOf(dict)
      ensures forall b :: b in Groups(dict, ops)[n].outs ==> b in BuffersOf(dict)
    {
      LookIsOurs(dict, ops[n].ins);
      LookIsOurs(dict, ops[n].outs);
    }
  }

  lemma LookIsOurs(dict: map<int, Buffer>, ids: seq<int>)
    requires InDict(dict, ids)
    ensures forall b :: b in Look(dict, ids) ==> b in BuffersOf(dict)
  {
    forall k | 0 <= k < |ids| ensures Look(dict, ids)[k] in BuffersOf(dict) {
      var id: int := ids[k];
      assert id in dict;
    }
  }

  lemma KnownIsInDict(es: seq<BufferEntry>, copies: seq<seq<Buffer>>, ops: seq<OpIds>)
    requires Made(es, copies) && OpsKnown(es, ops)
    ensures OpsInDict(StoredAll(es, copies), ops)
  {
    hide CopyId, Copies, StoredAll, CopyRoot;
    forall n | 0 <= n < |ops| ensures InDict(StoredAll(es, copies), ops[n].ins) && InDict(StoredAll(es, copies), ops[n].outs) {
      IdsAreInDict(es, copies, ops[n].ins);
      IdsAreInDict(es, copies, ops[n].outs);
    }
  }

  lemma IdsAreInDict(es: seq<BufferEntry>, copies: seq<seq<Buffer>>, ids: seq<int>)
    requires Made(es, copies) && IdsKnown(es, ids)
    ensures InDict(StoredAll(es, copies), ids)
  {
    hide StoredAll, IsId;
    forall k | 0 <= k < |ids| ensures ids[k] in StoredAll(es, copies) {
      KeyIffId(es, copies, ids[k]);
    }
  }

  /** The keys of the dictionary are the ids of the descriptions. */
  lemma KeyIffId(es: seq<BufferEntry>, copies: seq<seq<Buffer>>, id: int)
    requires Made(es, copies)
    ensures id in StoredAll(es, copies) <==> IsId(es, id)
  {
    hide CopyId, Copies, StoredAll, CopyRoot, Numbered;
    if id in StoredAll(es, copies) {
      var i, r := LastCopy(es, copies, id);
      SlotIsNumbered(es, i, r, id);
    }
    if i, r :| 0 <= i < |es| && Numbered(es[i], r, id) {
      SlotIsNumbered(es, i, r, id);
      IdsAreKeys(es, copies, i, r);
    }
  }

  lemma KnownIffListsIds(es: seq<BufferEntry>, copies: seq<seq<Buffer>>, root: PipeRoot)
    requires Made(es, copies)
    ensures Known(StoredAll(es, copies), root) <==> ListsIds(es, root)
  {
    hide StoredAll, IsId, OffsetFrom, Lists, Known, CopyId, Copies, CopyRoot;
    KnownMeans(StoredAll(es, copies), root);
    forall id ensures id in StoredAll(es, copies) <==> IsId(es, id) {
      KeyIffId(es, copies, id);
    }
  }

  /** Loading succeeds if and only if every pipe lists ids of the epoch only. */
  lemma AllKnownIffListed(es: seq<BufferEntry>, copies: seq<seq<Buffer>>, order: seq<Pipe>, roots: seq<PipeRoot>)
    requires Made(es, copies)
    requires |order| == |roots| && forall i :: 0 <= i < |order| ==> order[i].root == roots[i]
    ensures (forall i :: 0 <= i < |order| ==> Known(StoredAll(es, copies), order[i].root))
       <==> forall i :: 0 <= i < |roots| ==> ListsIds(es, roots[i])
  {
    hide StoredAll, ListsIds, Known;
    var dict := StoredAll(es, copies);
    hide Made;
    forall i | 0 <= i < |roots| ensures Known(dict, order[i].root) <==> ListsIds(es, roots[i]) {
      KnownIffListsIds(es, copies, roots[i]);
    }
    if forall i :: 0 <= i < |order| ==> Known(dict, order[i].root) {
      forall i | 0 <= i < |roots| ensures ListsIds(es, roots[i]) {
        assert Known(dict, order[i].root);
      }
    }
  }

  /* ---- the whole way ---- */

  datatype Outcome = NoOpModel | NoOutputs | UnknownBuffer | Unconnected | Printed(packets: seq<Packet>)

  /** What the tables hold is what the descriptions name: the listed inputs, offsets cleared, and outputs of each pipe,
      and the pairs of each op on each core, replicas included. */
  ghost predicate Described(net: Tables, dict: map<int, Buffer>, order: seq<Pipe>, ops: seq<OpIds>)
    reads BuffersOf(dict)`replicatedBuffers
  {
    && (forall p, b :: p in order && b in BuffersOf(dict) ==>
         (b in At(net.ins.fwd, p) <==> exists base, id :: id in p.root.inputList && OffsetFrom(base, id) && Leads(dict, base, b)))
    && (forall p, b :: p in order && b in BuffersOf(dict) ==>
         (b in At(net.outs.fwd, p) <==> exists id :: Lists(p.root.outputList, id) && Leads(dict, id, b)))
    && (forall b, c :: b in BuffersOf(dict) && c in BuffersOf(dict) ==>
         (c in At(net.feeds.fwd, b) <==>
          b != c && exists n :: 0 <= n < |ops| && Among(dict, ops[n].ins, b) && Among(dict, ops[n].outs, c)))
  }

  /** `b` has one of the ids or is a replica of a buffer that has. */
  ghost predicate Among(dict: map<int, Buffer>, ids: seq<int>, b: Buffer)
    reads BuffersOf(dict)`replicatedBuffers
  {
    exists c :: c in BuffersOf(dict) && (exists id :: id in ids && Leads(dict, id, c)) && (b == c || b in c.replicatedBuffers)
  }

  lemma LookIsAmong(dict: map<int, Buffer>, ids: seq<int>, b: Buffer)
    requires InDict(dict, ids)
    ensures b in WithReplicas(Look(dict, ids)) <==> Among(dict, ids, b)
  {
    hide Replicas;
    var bs := Look(dict, ids);
    LookIsOurs(dict, ids);
    ReplicasOf(bs, b);
    forall c ensures c in bs <==> exists id :: id in ids && Leads(dict, id, c) {
      if c in bs {
        var k :| 0 <= k < |ids| && bs[k] == c;
        assert Leads(dict, ids[k], c);
      }
      if id :| id in ids && Leads(dict, id, c) {
        var k :| 0 <= k < |ids| && ids[k] == id;
        assert bs[k] == c;
      }
    }
  }

  /** The pairs of the groups are the pairs of the ops. */
  lemma PairsOfOps(dict: map<int, Buffer>, ops: seq<OpIds>, b: Buffer, c: Buffer)
    requires OpsInDict(dict, ops) && OursOnly(Groups(dict, ops), BuffersOf(dict))
    ensures Paired(Groups(dict, ops), b, c, BuffersOf(dict))
       <==> exists n :: 0 <= n < |ops| && Among(dict, ops[n].ins, b) && Among(dict, ops[n].outs, c)
  {
    hide Among, Look, WithReplicas, BuffersOf;
    forall n | 0 <= n < |ops|
      ensures b in WithReplicas(Groups(dict, ops)[n].ins) <==> Among(dict, ops[n].ins, b)
      ensures c in WithReplicas(Groups(dict, ops)[n].outs) <==> Among(dict, ops[n].outs, c)
    {
      LookIsAmong(dict, ops[n].ins, b);
      LookIsAmong(dict, ops[n].outs, c);
    }
  }

  ghost predicate Leads(dict: map<int, Buffer>, id: int, b: Buffer) {
    id in dict && dict[id] == b
  }

  /** The descriptions of all graphs in a row. */
  function Joined(graphs: seq<seq<BufferEntry>>): seq<BufferEntry> {
    if graphs == [] then [] else Joined(graphs[..|graphs| - 1]) + graphs[|graphs| - 1]
  }

  lemma JoinedNext(graphs: seq<seq<BufferEntry>>, g: nat)
    requires g < |graphs|
    ensures Joined(graphs[..g + 1]) == Joined(graphs[..g]) + graphs[g]
  {
    assert graphs[..g + 1][..g] == graphs[..g];
  }

  /** The pipes are created within the loop over the graphs: not at all when there is none. */
  function Built(graphs: seq<seq<BufferEntry>>, roots: seq<PipeRoot>): seq<PipeRoot> {
    if graphs == [] then [] else roots
  }

  /** The first graph whose buffers cannot be created fails, unless the pipes behind an earlier graph failed before. */
  ghost predicate FailsAtBuffers(graphs: seq<seq<BufferEntry>>, roots: seq<PipeRoot>) {
    exists g :: 0 <= g < |graphs| && !AllCreatable(graphs[g]) && (g == 0 || AllHaveOutputs(roots))
  }

  ghost predicate FailsAtPipes(graphs: seq<seq<BufferEntry>>, roots: seq<PipeRoot>) {
    graphs != [] && AllCreatable(graphs[0]) && !AllHaveOutputs(roots)
  }

  /** For every graph its buffers and then, once more, all pipes. */
  method CreateAll(graphs: seq<seq<BufferEntry>>, roots: seq<PipeRoot>)
    returns (failed: Option<Outcome>, dict: map<int, Buffer>, order: seq<Pipe>, ghost made: seq<seq<Buffer>>)
    ensures failed == Some(NoOpModel) <==> FailsAtBuffers(graphs, roots)
    ensures failed == Some(NoOutputs) <==> FailsAtPipes(graphs, roots)
    ensures failed in {None, Some(NoOpModel), Some(NoOutputs)}
    ensures failed.None? ==> Created(Joined(graphs), made, dict) && Piped(order, Built(graphs, roots))
    ensures failed.None? ==> (forall g, b :: g in made && b in g ==> fresh(b)) && forall p :: p in order ==> fresh(p)
  {
    hide Created, Piped, AllCreatable, AllHaveOutputs, Kept, Joined;
    failed, dict, order, made := None, map[], [], [];
    NothingCreated();
    NothingPiped();
    for g := 0 to |graphs|
      invariant failed.None?
      invariant forall h :: 0 <= h < g ==> AllCreatable(graphs[h])
      invariant g > 0 ==> AllHaveOutputs(roots)
      invariant Created(Joined(graphs[..g]), made, dict) && Piped(order, if g == 0 then [] else roots)
      invariant (forall g, b :: g in made && b in g ==> fresh(b)) && forall p :: p in order ==> fresh(p)
    {
      var ok;
      ok, dict, made := CreateBuffers(graphs[g], dict, Joined(graphs[..g]), made);
      if !ok {
        return Some(NoOpModel), dict, order, made;
      }
      JoinedNext(graphs, g);
      ok, order := CreatePipes(roots, order, if g == 0 then [] else roots);
      if !ok {
        return Some(NoOutputs), dict, order, made;
      }
      PipedAgain(order, roots, g > 0);
    }
    assert graphs[..|graphs|] == graphs;
  }

  lemma PipedAgain(order: seq<Pipe>, roots: seq<PipeRoot>, again: bool)
    requires Piped(order, (if again then roots else []) + roots)
    ensures Piped(order, roots)
  {
    hide Kept, NoBuffers;
    if again {
      KeptAgain(roots, roots);
    } else {
      assert [] + roots == roots;
    }
  }

  lemma NothingCreated()
    ensures Joined([]) == [] && Created([], [], map[])
  {
    NothingMade();
  }

  /** Creates buffers and pipes, fills the tables, connects the ops and prints. The trace is one of the net that the
      descriptions name, over buffers that carry what is described; nothing about the tables is assumed. */
  method TraceEpoch(graphs: seq<seq<BufferEntry>>, roots: seq<PipeRoot>, ops: seq<OpIds>)
    returns (r: Outcome, ghost net: Tables, ghost printed: seq<Pipe>, ghost dict: map<int, Buffer>, ghost order: seq<Pipe>,
             ghost made: seq<seq<Buffer>>)
    requires ReplicasSurvive(Joined(graphs)) && OpsKnown(Joined(graphs), ops)
    ensures r == NoOpModel <==> FailsAtBuffers(graphs, roots)
    ensures r == NoOutputs <==> FailsAtPipes(graphs, roots)
    ensures r !in {NoOpModel, NoOutputs} ==> Made(Joined(graphs), made) && dict == StoredAll(Joined(graphs), made)
    ensures r == UnknownBuffer <==>
      && !FailsAtBuffers(graphs, roots) && !FailsAtPipes(graphs, roots)
      && exists i :: 0 <= i < |Kept(Built(graphs, roots))| && !ListsIds(Joined(graphs), Kept(Built(graphs, roots))[i])
    ensures r.Unconnected? ==> exists b :: b in BuffersOf(dict) && LeftAlone(b)
    ensures r.Printed? ==> forall b :: b in BuffersOf(dict) ==> !LeftAlone(b)
    ensures r.Unconnected? || r.Printed? ==>
      && Consistent(net) && net.ins.fwd.Keys == Elems(order) && net.ins.back.Keys == BuffersOf(dict)
      && |order| == |Kept(Built(graphs, roots))| && (forall i :: 0 <= i < |order| ==> order[i].root == Kept(Built(graphs, roots))[i])
      && OpsInDict(dict, ops) && OursOnly(Groups(dict, ops), BuffersOf(dict)) && Described(net, dict, order, ops)
    ensures r.Printed? ==> r.packets == TraceOf(net, printed) && IsTraceOrder(GraphOf(net), printed)
  {
    hide Snapshot, Consistent, StoredAll, Made, AllReplicated, CopyId, Copies, BuffersOf, FlatReplicas, DistinctBuffers,
      ReplicasSurvive, OpsKnown, OpsInDict, Groups, OursOnly, Described, LinksGroups, IsTraceOrder, TraceOf, GraphOf, Run,
      LoadUpdates, PipesUnlinked, NoBuffers, Kept, AllCreatable, AllHaveOutputs, NoDup, Known, Owned, ListsIds, Joined,
      Built, FailsAtBuffers, FailsAtPipes, Created;
    net, printed := Snapshot({}, {}), [];
    var failed, buffers, pipes, copies := CreateAll(graphs, roots);
    ghost var es := Joined(graphs);
    dict, order, made := buffers, pipes, copies;
    match failed {
      case Some(f) => return f, net, printed, dict, order, made;
      case None =>
    }
    EpochIsCreated(es, copies, buffers);
    ghost var bs: set<Buffer> := BuffersOf(buffers);
    AllAllocated(buffers);
    ghost var ps := Elems(pipes);
    EmptyTables(bs, pipes);
    ghost var start := Snapshot(bs, ps);
    SnapshotKeys(bs, ps);
    OwnedByDict(buffers);
    ghost var loads, links;
    var loaded;
    loaded, loads := LoadIncidence(pipes, buffers, bs, ps);
    AllKnownIffListed(es, copies, pipes, Kept(Built(graphs, roots)));
    if !loaded {
      assert !FailsAtBuffers(graphs, roots) && !FailsAtPipes(graphs, roots);
      assert exists i :: 0 <= i < |pipes| && !ListsIds(es, Kept(Built(graphs, roots))[i]);
      return UnknownBuffer, net, printed, dict, order, made;
    }
    LoadKeepsConsistent(start, buffers, pipes);
    KnownIsInDict(es, copies, ops);
    GroupsAreOurs(buffers, ops);
    var values := set id | id in buffers :: buffers[id];
    assert values == bs by { SameBuffers(buffers); }
    var trace;
    trace, links, printed := GenerateTrace(Groups(buffers, ops), values, pipes, ps);
    net := Snapshot(bs, ps);
    SnapshotKeys(bs, ps);
    TablesAreDescribed(start, buffers, pipes, ops, links);
    match trace {
      case UnconnectedBuffer => r := Unconnected;
      case Ok(packets) => r := Printed(packets);
    }
  }

  lemma EpochIsCreated(es: seq<BufferEntry>, groups: seq<seq<Buffer>>, dict: map<int, Buffer>)
    requires Created(es, groups, dict)
    ensures Made(es, groups) && dict == StoredAll(es, groups)
    ensures DistinctBuffers(BuffersOf(dict)) && forall b :: b in BuffersOf(dict) ==> Unlinked(b)
    ensures FlatReplicas(BuffersOf(dict)) <==> ReplicasSurvive(es)
    ensures forall b :: b in BuffersOf(dict) ==> exists g :: g in groups && b in g
  {
    hide CopyId, CopyRoot, Copies, StoredAll, Unlinked, DistinctBuffers, FlatReplicas, ReplicasSurvive, BuffersOf;
    CreatedMeans(es, groups, dict);
    BuffersAreMade(es, groups);
  }

  lemma TablesAreDescribed(start: Tables, dict: map<int, Buffer>, order: seq<Pipe>, ops: seq<OpIds>,
                           links: seq<Update<Buffer, Pipe>>)
    requires Empty(start) && forall i :: 0 <= i < |order| ==> Known(dict, order[i].root)
    requires OpsInDict(dict, ops) && OursOnly(Groups(dict, ops), BuffersOf(dict))
    requires LinksGroups(links, Groups(dict, ops), BuffersOf(dict))
    ensures Described(Run(Run(start, LoadUpdates(dict, order)), links), dict, order, ops)
  {
    hide LoadUpdates, Run, Paired, BuffersOf, At, OffsetFrom, Lists, Among, Groups, OpsInDict, OursOnly;
    var loaded := Run(start, LoadUpdates(dict, order));
    var net := Run(loaded, links);
    forall p, b | p in order && b in BuffersOf(dict)
      ensures b in At(net.ins.fwd, p) <==> exists base, id :: id in p.root.inputList && OffsetFrom(base, id) && Leads(dict, base, b)
      ensures b in At(net.outs.fwd, p) <==> exists id :: Lists(p.root.outputList, id) && Leads(dict, id, b)
    {
      EmptyAt(start, p);
      RunLoadsExactly(loaded, links, p, b);
      LoadedInputs(start, dict, order, p, b);
      LoadedOutputs(start, dict, order, p, b);
      assert forall id {:trigger id in dict} :: Leads(dict, id, b) <==> id in dict && dict[id] == b;
    }
    forall b, c | b in BuffersOf(dict) && c in BuffersOf(dict)
      ensures c in At(net.feeds.fwd, b) <==>
        b != c && exists n :: 0 <= n < |ops| && Among(dict, ops[n].ins, b) && Among(dict, ops[n].outs, c)
    {
      EmptyBetween(start, b);
      RunLinksExactly(loaded, links, b, c);
      RunLinksExactly(start, LoadUpdates(dict, order), b, c);
      LoadsLinkNothing(dict, order, b, c);
      PairsOfOps(dict, ops, b, c);
      assert Names(links, Feeds(b, c)) <==> Paired(Groups(dict, ops), b, c, BuffersOf(dict));
    }
  }

  /** Loading connects no buffers of an op. */
  lemma {:induction false} LoadsLinkNothing(dict: map<int, Buffer>, order: seq<Pipe>, b: Buffer, c: Buffer)
    requires forall i :: 0 <= i < |order| ==> Known(dict, order[i].root)
    ensures !Names(LoadUpdates(dict, order), Feeds(b, c))
  {
    hide InputUpdates, OutputUpdates, FlatOutputs;
    if order != [] {
      hide LoadUpdates, Names;
      var n := |order| - 1;
      assert Known(dict, order[n].root);
      LoadsLinkNothing(dict, order[..n], b, c);
      LoadUpdatesLast(dict, order, Feeds(b, c));
      InputsLinkNothing(dict, order[n], order[n].root.inputList, b, c);
      OutputsLinkNothing(dict, order[n], FlatOutputs(order[n].root.outputList), b, c);
    }
  }

  lemma {:induction false} InputsLinkNothing(dict: map<int, Buffer>, p: Pipe, ids: seq<int>, b: Buffer, c: Buffer)
    requires forall i :: 0 <= i < |ids| ==> ClearOffset(ids[i]) in dict
    ensures Feeds(b, c) !in InputUpdates(dict, p, ids)
  {
    if ids != [] {
      InputsLinkNothing(dict, p, ids[..|ids| - 1], b, c);
    }
  }

  lemma {:induction false} OutputsLinkNothing(dict: map<int, Buffer>, p: Pipe, ids: seq<int>, b: Buffer, c: Buffer)
    requires forall i :: 0 <= i < |ids| ==> ids[i] in dict
    ensures Feeds(b, c) !in OutputUpdates(dict, p, ids)
  {
    if ids != [] {
      OutputsLinkNothing(dict, p, ids[..|ids| - 1], b, c);
    }
  }

  lemma AllAllocated(dict: map<int, Buffer>)
    ensures forall b :: b in BuffersOf(dict) ==> allocated(b)
  {
  }

  lemma SameBuffers(dict: map<int, Buffer>)
    ensures (set id | id in dict :: dict[id]) == BuffersOf(dict)
  {
  }

  lemma EmptyTables(buffers: set<Buffer>, order: seq<Pipe>)
    requires (forall b :: b in buffers ==> Unlinked(b)) && forall i :: 0 <= i < |order| ==> NoBuffers(order[i])
    ensures Consistent(Snapshot(buffers, Elems(order))) && Empty(Snapshot(buffers, Elems(order)))
    ensures forall p :: p in order <==> p in Elems(order)
  {
    NothingLinked(buffers, Elems(order));
    hide Consistent;
  }

  ghost predicate Empty(net: Tables) {
    && (forall p :: p in net.ins.fwd ==> net.ins.fwd[p] == [])
    && (forall p :: p in net.outs.fwd ==> net.outs.fwd[p] == [])
    && (forall b :: b in net.feeds.fwd ==> net.feeds.fwd[b] == [])
  }

  lemma EmptyAt(net: Tables, p: Pipe)
    requires Empty(net)
    ensures At(net.ins.fwd, p) == [] && At(net.outs.fwd, p) == []
  {
  }

  lemma EmptyBetween(net: Tables, b: Buffer)
    requires Empty(net)
    ensures At(net.feeds.fwd, b) == []
  {
  }

  lemma OwnedByDict(dict: map<int, Buffer>)
    ensures Owned(dict, BuffersOf(dict))
  {
  }
}
