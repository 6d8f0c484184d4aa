/** Creating the buffers of an epoch, with the replicas of each one. */
module EpochBuffers {
  import opened Incidence
  import opened PipeGraph
  import opened Wrappers

  /** One buffer description: the cycles of its op model, if there is one, how often the buffer is replicated and how
      far apart the ids of the replicas are. */
  datatype BufferEntry = BufferEntry(root: BufferRoot, opModel: Option<int>, replicate: int, scatterGatherNumTiles: int)

  function CopyId(e: BufferEntry, r: nat): int {
    e.root.uniqid + r * e.scatterGatherNumTiles
  }

  function Copies(e: BufferEntry): nat {
    if e.replicate > 1 then e.replicate else 1
  }

  function CopyRoot(e: BufferEntry, r: nat): BufferRoot {
    e.root.(uniqid := CopyId(e, r), delay := match e.opModel case None => 0 case Some(cycles) => cycles)
  }

  /** The op model is looked up without a guard for a replica. */
  predicate Creatable(e: BufferEntry) {
    e.replicate > 1 ==> e.opModel.Some?
  }

  /* ---- which copy ends up under an id ---- */

  /** Copy `r` of entry `i`; copy 0 is the buffer itself. */
  ghost predicate Slot(es: seq<BufferEntry>, i: int, r: int) {
    0 <= i < |es| && 0 <= r < Copies(es[i])
  }

  /** Copies are made entry by entry. */
  ghost predicate Earlier(i: int, r: int, j: int, q: int) {
    i < j || (i == j && r < q)
  }

  /** No copy made later has the same id. */
  ghost predicate Survives(es: seq<BufferEntry>, i: int, r: int)
    requires Slot(es, i, r)
  {
    forall j, q :: Slot(es, j, q) && Earlier(i, r, j, q) ==> CopyId(es[j], q) != CopyId(es[i], r)
  }

  /** No base buffer that stays in the dictionary has lost a replica to a repeated id. */
  ghost predicate ReplicasSurvive(es: seq<BufferEntry>) {
    forall i, r {:trigger Slot(es, i, r)} :: Slot(es, i, r) && Slot(es, i, 0) && Survives(es, i, 0) ==> Survives(es, i, r)
  }

  /** Every buffer and every replica has an id of its own. */
  ghost predicate UniqueIds(es: seq<BufferEntry>) {
    forall i, r, j, q :: Slot(es, i, r) && Slot(es, j, q) && CopyId(es[i], r) == CopyId(es[j], q) ==> i == j && r == q
  }

  lemma UniqueIdsSurvive(es: seq<BufferEntry>)
    requires UniqueIds(es)
    ensures ReplicasSurvive(es)
  {
    hide CopyId, Copies;
  }

  /** The dictionary after the first `n` copies of an entry were stored. */
  ghost function Stored(dict: map<int, Buffer>, e: BufferEntry, copies: seq<Buffer>, n: nat): map<int, Buffer>
    requires n <= |copies|
  {
    if n == 0 then dict else Stored(dict, e, copies, n - 1)[CopyId(e, n - 1) := copies[n - 1]]
  }

  ghost function StoredAll(es: seq<BufferEntry>, groups: seq<seq<Buffer>>): map<int, Buffer>
    requires |groups| == |es|
  {
    if es == [] then map[] else
      var n := |es| - 1;
      Stored(StoredAll(es[..n], groups[..n]), es[n], groups[n], |groups[n]|)
  }

  /** One buffer object for each copy, with the data of that copy, and no object for two copies. */
  ghost predicate Made(es: seq<BufferEntry>, groups: seq<seq<Buffer>>) {
    && |groups| == |es|
    && (forall i :: 0 <= i < |es| ==> |groups[i]| == Copies(es[i]))
    && (forall i, r {:trigger groups[i][r]} :: Slot(es, i, r) ==> groups[i][r].root == CopyRoot(es[i], r))
    && (forall i, r, j, q {:trigger groups[i][r], groups[j][q]} ::
         Slot(es, i, r) && Slot(es, j, q) && groups[i][r] == groups[j][q] ==> i == j && r == q)
  }

  /** `id` is the number of the buffer itself or of one of its replicas, counted in steps of the gap. */
  ghost predicate Numbered(e: BufferEntry, r: int, id: int) {
    && (r == 0 || 0 < r < e.replicate)
    && id == e.root.uniqid + r * e.scatterGatherNumTiles
  }

  lemma SlotIsNumbered(es: seq<BufferEntry>, i: int, r: int, id: int)
    ensures Slot(es, i, r) && CopyId(es[i], r) == id <==> 0 <= i < |es| && Numbered(es[i], r, id)
  {
  }

  /** What the copies of a description are: as many as it asks for but at least one, with its data, numbered in steps of the
      gap, and as slow as its op model if it has one. */
  lemma CopiesMean(es: seq<BufferEntry>, groups: seq<seq<Buffer>>, i: nat)
    requires Made(es, groups) && i < |es|
    ensures |groups| == |es| && |groups[i]| == if es[i].replicate > 1 then es[i].replicate else 1
    ensures forall r :: 0 <= r < |groups[i]| ==>
      var was, b := es[i].root, groups[i][r].root;
      && b == was.(uniqid := b.uniqid, delay := b.delay)
      && Numbered(es[i], r, b.uniqid)
      && b.delay == if es[i].opModel == None then 0 else es[i].opModel.value
  {
    forall r | 0 <= r < |groups[i]| ensures groups[i][r].root == CopyRoot(es[i], r) {
      assert Slot(es, i, r);
    }
  }

  lemma {:induction false} StoredHolds(dict: map<int, Buffer>, e: BufferEntry, copies: seq<Buffer>, n: nat, id: int)
    requires n <= |copies|
    ensures var more := Stored(dict, e, copies, n);
      && (id in more <==> id in dict || exists r :: 0 <= r < n && CopyId(e, r) == id)
      && ((forall r :: 0 <= r < n ==> CopyId(e, r) != id) && id in dict ==> more[id] == dict[id])
      && (forall r :: 0 <= r < n && CopyId(e, r) == id && (forall q :: r < q < n ==> CopyId(e, q) != id) ==> more[id] == copies[r])
  {
    hide CopyId;
    if n > 0 {
      StoredHolds(dict, e, copies, n - 1, id);
    }
  }

  /** An id of the dictionary belongs to the copy that was made last with it. */
  lemma {:induction false} LastCopy(es: seq<BufferEntry>, groups: seq<seq<Buffer>>, id: int) returns (i: int, r: int)
    requires Made(es, groups) && id in StoredAll(es, groups)
    ensures Slot(es, i, r) && CopyId(es[i], r) == id && Survives(es, i, r)
    ensures StoredAll(es, groups)[id] == groups[i][r]
    decreases |es|
  {
    hide CopyId, Copies, Stored, CopyRoot;
    var n := |es| - 1;
    var dict := StoredAll(es[..n], groups[..n]);
    StoredHolds(dict, es[n], groups[n], |groups[n]|, id);
    MadeBefore(es, groups);
    if q :| 0 <= q < |groups[n]| && CopyId(es[n], q) == id {
      i := n;
      r := LastOf(es[n], |groups[n]|, id, q);
      assert Slot(es, n, r);
    } else {
      i, r := LastCopy(es[..n], groups[..n], id);
      assert Slot(es[..n], i, r);
      StillSurvives(es, i, r, es[n]);
    }
  }

  lemma MadeBefore(es: seq<BufferEntry>, groups: seq<seq<Buffer>>)
    requires Made(es, groups) && es != []
    ensures Made(es[..|es| - 1], groups[..|es| - 1])
  {
    hide CopyId, Copies, CopyRoot;
    var n := |es| - 1;
    forall i, r | Slot(es[..n], i, r) ensures Slot(es, i, r) && groups[..n][i][r] == groups[i][r] {
    }
  }

  lemma {:induction false} LastOf(e: BufferEntry, n: nat, id: int, r: nat) returns (last: nat)
    requires r < n && CopyId(e, r) == id
    ensures r <= last < n && CopyId(e, last) == id && forall q :: last < q < n ==> CopyId(e, q) != id
    decreases n - r
  {
    hide CopyId;
    last := r;
    if q :| r < q < n && CopyId(e, q) == id {
      last := LastOf(e, n, id, q);
    }
  }

  lemma StillSurvives(es: seq<BufferEntry>, i: int, r: int, last: BufferEntry)
    requires es != [] && last == es[|es| - 1] && Slot(es[..|es| - 1], i, r) && Survives(es[..|es| - 1], i, r)
    requires forall q :: 0 <= q < Copies(last) ==> CopyId(last, q) != CopyId(es[i], r)
    ensures Slot(es, i, r) && Survives(es, i, r)
  {
    hide CopyId, Copies;
    var n := |es| - 1;
    forall j, q | Slot(es, j, q) && Earlier(i, r, j, q) ensures CopyId(es[j], q) != CopyId(es[i], r) {
      if j < n {
        assert Slot(es[..n], j, q);
      }
    }
  }

  /** Every copy's id is a key. */
  lemma {:induction false} IdsAreKeys(es: seq<BufferEntry>, groups: seq<seq<Buffer>>, i: int, r: int)
    requires Made(es, groups) && Slot(es, i, r)
    ensures CopyId(es[i], r) in StoredAll(es, groups)
    decreases |es|
  {
    hide CopyId, Copies, Stored, CopyRoot;
    var n := |es| - 1;
    StoredHolds(StoredAll(es[..n], groups[..n]), es[n], groups[n], |groups[n]|, CopyId(es[i], r));
    MadeBefore(es, groups);
    if i < n {
      IdsAreKeys(es[..n], groups[..n], i, r);
    }
  }

  /** A copy is what its id leads to if and only if it survives. */
  lemma InDictionaryIffSurvives(es: seq<BufferEntry>, groups: seq<seq<Buffer>>, i: int, r: int)
    requires Made(es, groups) && Slot(es, i, r)
    ensures CopyId(es[i], r) in StoredAll(es, groups)
    ensures StoredAll(es, groups)[CopyId(es[i], r)] == groups[i][r] <==> Survives(es, i, r)
  {
    hide CopyId, Copies, StoredAll, CopyRoot;
    IdsAreKeys(es, groups, i, r);
    var j, q := LastCopy(es, groups, CopyId(es[i], r));
    if Survives(es, i, r) {
      assert !Earlier(i, r, j, q);
      assert Earlier(j, q, i, r) || (i == j && q == r);
    }
  }

  /* ---- what the connection loops rely on ---- */

  ghost function BuffersOf(dict: map<int, Buffer>): set<Buffer> {
    set id | id in dict :: dict[id]
  }

  /** The first copy holds the others in order; none of them is linked to anything yet. */
  ghost predicate Replicated(copies: seq<Buffer>)
    reads copies
  {
    && copies != [] && copies[0].replicatedBuffers == copies[1..]
    && (forall r :: 1 <= r < |copies| ==> copies[r].replicatedBuffers == [])
    && (forall r :: 0 <= r < |copies| ==> Unlinked(copies[r]))
  }

  ghost predicate Unlinked(b: Buffer)
    reads b
  {
    && b.inputOfPipes == [] && b.outputOfPipes == []
    && b.inputBufferOfSameOp == [] && b.outputBufferOfSameOp == []
  }

  ghost predicate AllReplicated(groups: seq<seq<Buffer>>)
    reads set i, r | 0 <= i < |groups| && 0 <= r < |groups[i]| :: groups[i][r]
  {
    forall i :: 0 <= i < |groups| ==> Replicated(groups[i])
  }

  /** An id always names one buffer, and nothing is linked yet. */
  lemma KeysNameBuffers(es: seq<BufferEntry>, groups: seq<seq<Buffer>>)
    requires Made(es, groups) && AllReplicated(groups)
    ensures var dict := StoredAll(es, groups);
      (forall id :: id in dict ==> dict[id].root.uniqid == id && Unlinked(dict[id])) && DistinctBuffers(BuffersOf(dict))
  {
    hide StoredAll, CopyId, Copies;
    var dict := StoredAll(es, groups);
    forall id | id in dict ensures dict[id].root.uniqid == id && Unlinked(dict[id]) {
      var i, r := LastCopy(es, groups, id);
      assert Replicated(groups[i]);
    }
  }

  /** Only base buffers have replicas; the epoch owns all of them if and only if no base buffer that stays in the
      dictionary has lost one to a repeated id. */
  lemma FlatIffReplicasSurvive(es: seq<BufferEntry>, groups: seq<seq<Buffer>>)
    requires Made(es, groups) && AllReplicated(groups)
    ensures FlatReplicas(BuffersOf(StoredAll(es, groups))) <==> ReplicasSurvive(es)
  {
    hide StoredAll, CopyId, Copies, Survives, CopyRoot, ReplicasSurvive, FlatReplicas;
    if ReplicasSurvive(es) {
      SurvivingIsFlat(es, groups);
    }
    if FlatReplicas(BuffersOf(StoredAll(es, groups))) {
      FlatIsSurviving(es, groups);
    }
  }

  lemma SurvivingIsFlat(es: seq<BufferEntry>, groups: seq<seq<Buffer>>)
    requires Made(es, groups) && AllReplicated(groups) && ReplicasSurvive(es)
    ensures FlatReplicas(BuffersOf(StoredAll(es, groups)))
  {
    hide StoredAll, CopyId, Copies, Survives, CopyRoot;
    var dict := StoredAll(es, groups);
    forall id | id in dict
      ensures forall c :: c in dict[id].replicatedBuffers ==> c in BuffersOf(dict) && c.replicatedBuffers == []
    {
      var i, r := LastCopy(es, groups, id);
      assert Replicated(groups[i]);
      forall c | c in dict[id].replicatedBuffers ensures c in BuffersOf(dict) && c.replicatedBuffers == [] {
        assert r == 0;
        var k :| 0 <= k < |groups[i][1..]| && groups[i][1..][k] == c;
        assert c == groups[i][k + 1] && Slot(es, i, k + 1);
        InDictionaryIffSurvives(es, groups, i, k + 1);
      }
    }
  }

  lemma FlatIsSurviving(es: seq<BufferEntry>, groups: seq<seq<Buffer>>)
    requires Made(es, groups) && AllReplicated(groups) && FlatReplicas(BuffersOf(StoredAll(es, groups)))
    ensures ReplicasSurvive(es)
  {
    hide StoredAll, CopyId, Copies, Survives, CopyRoot;
    var dict := StoredAll(es, groups);
    forall i, r | Slot(es, i, r) && Slot(es, i, 0) && Survives(es, i, 0) ensures Survives(es, i, r) {
      if r > 0 {
        InDictionaryIffSurvives(es, groups, i, 0);
        assert Replicated(groups[i]);
        var b := groups[i][0];
        assert b in BuffersOf(dict) && groups[i][1..][r - 1] == groups[i][r] && groups[i][r] in b.replicatedBuffers;
        CopyKnown(es, groups, i, r);
      }
    }
  }

  /** A copy that is in the dictionary at all is there under its own id. */
  lemma CopyKnown(es: seq<BufferEntry>, groups: seq<seq<Buffer>>, i: int, r: int)
    requires Made(es, groups) && AllReplicated(groups) && Slot(es, i, r) && groups[i][r] in BuffersOf(StoredAll(es, groups))
    ensures Survives(es, i, r)
  {
    hide StoredAll, CopyId, Copies, Survives;
    KeysNameBuffers(es, groups);
    InDictionaryIffSurvives(es, groups, i, r);
    assert groups[i][r].root == CopyRoot(es[i], r);
  }

  /* ---- an input that loses a replica ---- */

  /** A buffer with id 1 and a replica with id 2, and behind it a buffer that has id 2 itself. */
  function Overlapping(root: BufferRoot, cycles: int): seq<BufferEntry> {
    [BufferEntry(root.(uniqid := 1), Some(cycles), 2, 1), BufferEntry(root.(uniqid := 2), None, 1, 0)]
  }

  /** The buffer stays in the dictionary and still lists its replica, which the dictionary no longer holds. */
  lemma ReplicaIsReplaced(root: BufferRoot, cycles: int, groups: seq<seq<Buffer>>)
    requires Made(Overlapping(root, cycles), groups) && AllReplicated(groups)
    ensures var dict := StoredAll(Overlapping(root, cycles), groups);
      && 1 in dict && 2 in dict
      && dict[1].replicatedBuffers == [groups[0][1]] && groups[0][1] !in BuffersOf(dict) && dict[2] == groups[1][0]
    ensures !ReplicasSurvive(Overlapping(root, cycles)) && !FlatReplicas(BuffersOf(StoredAll(Overlapping(root, cycles), groups)))
  {
    var es := Overlapping(root, cycles);
    assert Slot(es, 0, 0) && Slot(es, 0, 1) && Slot(es, 1, 0);
    assert CopyId(es[0], 0) == 1 && CopyId(es[0], 1) == 2 && CopyId(es[1], 0) == 2;
    assert Replicated(groups[0]) && groups[0][1..] == [groups[0][1]];
    assert Survives(es, 0, 0) && Survives(es, 1, 0);
    assert Earlier(0, 1, 1, 0) && !Survives(es, 0, 1);
    hide StoredAll, CopyId, Copies, Survives, CopyRoot, FlatReplicas, Overlapping;
    InDictionaryIffSurvives(es, groups, 0, 0);
    InDictionaryIffSurvives(es, groups, 1, 0);
    if groups[0][1] in BuffersOf(StoredAll(es, groups)) {
      CopyKnown(es, groups, 0, 1);
      assert false;
    }
    FlatIffReplicasSurvive(es, groups);
  }

  /** A buffer with id 10000, two replicas and gap 8: the ids are 10000, 10008 and 10016. */
  lemma GapExample(root: BufferRoot, cycles: int, groups: seq<seq<Buffer>>)
    requires var es := [BufferEntry(root.(uniqid := 10000), Some(cycles), 3, 8)]; Made(es, groups)
    ensures var dict := StoredAll([BufferEntry(root.(uniqid := 10000), Some(cycles), 3, 8)], groups);
      dict.Keys == {10000, 10008, 10016} && |groups[0]| == 3
      && dict[10000] == groups[0][0] && dict[10008] == groups[0][1] && dict[10016] == groups[0][2]
  {
    var e := BufferEntry(root.(uniqid := 10000), Some(cycles), 3, 8);
    var es := [e];
    assert es[0] == e && es[..0] == [] && groups[..0] == [];
    assert CopyId(e, 0) == 10000 && CopyId(e, 1) == 10008 && CopyId(e, 2) == 10016;
    assert StoredAll([], []) == map[];
    forall id { StoredHolds(map[], e, groups[0], 3, id); }
  }

  /* ---- the program ---- */

  /** Adds the copies of one entry; the buffers made before stay as they are. Fails at the first replica when there is
      no op model. */
  method CreateCopies(e: BufferEntry, dict: map<int, Buffer>)
    returns (ok: bool, more: map<int, Buffer>, ghost copies: seq<Buffer>)
    ensures ok <==> Creatable(e)
    ensures ok ==>
      && |copies| == Copies(e) && more == Stored(dict, e, copies, |copies|) && Replicated(copies) && fresh(copies)
      && (forall r :: 0 <= r < |copies| ==> copies[r].root == CopyRoot(e, r)) && NoDup(copies)
  {
    hide CopyId, CopyRoot, Stored, Replicated;
    FirstId(e);
    var b := new Buffer(e.root.(delay := match e.opModel case None => 0 case Some(cycles) => cycles));
    more := dict[e.root.uniqid := b];
    copies := [b];
    StoredFirst(dict, e, b);
    OneReplicated(b);
    var r := 1;
    while r < e.replicate
      invariant 1 <= r <= Copies(e) && |copies| == r && copies[0] == b && fresh(copies) && NoDup(copies)
      invariant more == Stored(dict, e, copies, r) && Replicated(copies) && (r > 1 ==> e.opModel.Some?)
      invariant forall q :: 0 <= q < |copies| ==> copies[q].root == CopyRoot(e, q)
    {
      if e.opModel.None? {
        return false, more, copies;
      }
      var rb := CreateReplica(e, r, b, copies);
      StoredOne(dict, e, copies, rb);
      more := more[CopyId(e, r) := rb];
      copies := copies + [rb];
      r := r + 1;
    }
    ok := true;
  }

  lemma FirstId(e: BufferEntry)
    ensures CopyId(e, 0) == e.root.uniqid
    ensures CopyRoot(e, 0) == e.root.(delay := match e.opModel case None => 0 case Some(cycles) => cycles)
  {
  }

  lemma StoredFirst(dict: map<int, Buffer>, e: BufferEntry, b: Buffer)
    ensures Stored(dict, e, [b], 1) == dict[CopyId(e, 0) := b]
  {
    hide CopyId;
    assert Stored(dict, e, [b], 0) == dict;
  }

  lemma OneReplicated(b: Buffer)
    requires Unlinked(b) && b.replicatedBuffers == []
    ensures Replicated([b])
  {
    assert [b][1..] == [];
  }

  /** Storing one more copy. */
  lemma {:induction false} StoredOne(dict: map<int, Buffer>, e: BufferEntry, copies: seq<Buffer>, b: Buffer)
    ensures Stored(dict, e, copies + [b], |copies| + 1) == Stored(dict, e, copies, |copies|)[CopyId(e, |copies|) := b]
  {
    hide CopyId;
    StoredPrefix(dict, e, copies, b, |copies|);
  }

  lemma {:induction false} StoredPrefix(dict: map<int, Buffer>, e: BufferEntry, copies: seq<Buffer>, b: Buffer, n: nat)
    requires n <= |copies|
    ensures Stored(dict, e, copies + [b], n) == Stored(dict, e, copies, n)
  {
    hide CopyId;
    if n > 0 {
      StoredPrefix(dict, e, copies, b, n - 1);
    }
  }

  method CreateReplica(e: BufferEntry, r: nat, b: Buffer, ghost copies: seq<Buffer>) returns (rb: Buffer)
    requires Replicated(copies) && b == copies[0]
    modifies b`replicatedBuffers
    ensures fresh(rb) && rb.root == CopyRoot(e, r)
    ensures Replicated(copies + [rb])
  {
    hide CopyRoot;
    rb := new Buffer(CopyRoot(e, r));
    assert forall i :: 1 <= i < |copies| && copies[i] == b ==> b.replicatedBuffers == [];
    b.AddReplicatedBuffer(rb);
    assert (copies + [rb])[1..] == copies[1..] + [rb];
  }

  predicate AllCreatable(es: seq<BufferEntry>) {
    forall i :: 0 <= i < |es| ==> Creatable(es[i])
  }

  /** Everything that the buffers described by `es` and their dictionary are known to be. */
  ghost predicate Created(es: seq<BufferEntry>, groups: seq<seq<Buffer>>, dict: map<int, Buffer>)
    reads set i, r | 0 <= i < |groups| && 0 <= r < |groups[i]| :: groups[i][r]
  {
    Made(es, groups) && dict == StoredAll(es, groups) && AllReplicated(groups)
  }

  method CreateEntry(e: BufferEntry, buffers: map<int, Buffer>, ghost done: seq<BufferEntry>, ghost made: seq<seq<Buffer>>)
    returns (ok: bool, dict: map<int, Buffer>, ghost copies: seq<Buffer>)
    requires Created(done, made, buffers)
    ensures ok <==> Creatable(e)
    ensures ok ==> fresh(copies) && Created(done + [e], made + [copies], dict)
  {
    hide CopyId, CopyRoot, Copies, StoredAll, Made, AllReplicated, Replicated, Stored, Creatable;
    ok, dict, copies := CreateCopies(e, buffers);
    if ok {
      CopiesAreNew(made, copies);
      MadeOneMore(done, made, e, copies);
      MadeLength(done, made);
      StoredNext(done, made, e, copies);
      ReplicatedNext(made, copies);
    }
  }

  twostate lemma CopiesAreNew(made: seq<seq<Buffer>>, new copies: seq<Buffer>)
    requires fresh(copies)
    ensures forall g, b :: g in made && b in g ==> b !in copies
  {
  }

  lemma MadeLength(es: seq<BufferEntry>, groups: seq<seq<Buffer>>)
    requires Made(es, groups)
    ensures |groups| == |es|
  {
  }

  /** Creates the buffers of one graph behind those of the graphs before, described by `done`; a repeated id silently
      replaces the buffer that had it. */
  method CreateBuffers(es: seq<BufferEntry>, buffers: map<int, Buffer>, ghost done: seq<BufferEntry>, ghost made: seq<seq<Buffer>>)
    returns (ok: bool, dict: map<int, Buffer>, ghost groups: seq<seq<Buffer>>)
    requires Created(done, made, buffers)
    ensures ok <==> AllCreatable(es)
    ensures ok ==> Created(done + es, groups, dict)
    ensures ok ==> forall g, b :: g in groups && b in g ==> fresh(b) || g in made
    ensures ok ==> DistinctBuffers(BuffersOf(dict)) && forall b :: b in BuffersOf(dict) ==> Unlinked(b)
    ensures ok ==> (FlatReplicas(BuffersOf(dict)) <==> ReplicasSurvive(done + es))
  {
    hide Created, Creatable, BuffersOf, Unlinked, DistinctBuffers, FlatReplicas, ReplicasSurvive;
    dict, groups := buffers, made;
    assert done + es[..0] == done;
    for i := 0 to |es|
      invariant AllCreatable(es[..i]) && Created(done + es[..i], groups, dict)
      invariant forall g, b :: g in groups && b in g ==> fresh(b) || g in made
    {
      ghost var copies;
      ok, dict, copies := CreateEntry(es[i], dict, done + es[..i], groups);
      if !ok {
        return;
      }
      groups := groups + [copies];
      assert es[..i + 1] == es[..i] + [es[i]] && done + es[..i + 1] == done + es[..i] + [es[i]];
    }
    assert es[..|es|] == es;
    ok := true;
    CreatedMeans(done + es, groups, dict);
  }

  lemma CreatedMeans(es: seq<BufferEntry>, groups: seq<seq<Buffer>>, dict: map<int, Buffer>)
    requires Created(es, groups, dict)
    ensures DistinctBuffers(BuffersOf(dict)) && forall b :: b in BuffersOf(dict) ==> Unlinked(b)
    ensures FlatReplicas(BuffersOf(dict)) <==> ReplicasSurvive(es)
  {
    hide CopyId, CopyRoot, Copies, StoredAll, Unlinked, DistinctBuffers, FlatReplicas, ReplicasSurvive;
    KeysNameBuffers(es, groups);
    NamedAreUnlinked(dict);
    FlatIffReplicasSurvive(es, groups);
  }

  lemma NothingMade()
    ensures Made([], []) && StoredAll([], []) == map[] && AllReplicated([])
  {
  }

  lemma NamedAreUnlinked(dict: map<int, Buffer>)
    requires forall id :: id in dict ==> Unlinked(dict[id])
    ensures forall b :: b in BuffersOf(dict) ==> Unlinked(b)
  {
    hide Unlinked;
  }

  /** Every buffer of the dictionary was made as a copy. */
  lemma BuffersAreMade(es: seq<BufferEntry>, groups: seq<seq<Buffer>>)
    requires Made(es, groups)
    ensures forall b :: b in BuffersOf(StoredAll(es, groups)) ==> exists g :: g in groups && b in g
  {
    hide StoredAll, CopyId, Survives;
    forall id | id in StoredAll(es, groups) ensures exists g :: g in groups && StoredAll(es, groups)[id] in g {
      var i, r := LastCopy(es, groups, id);
      assert groups[i] in groups && groups[i][r] in groups[i];
    }
  }

  lemma MadeOneMore(es: seq<BufferEntry>, groups: seq<seq<Buffer>>, e: BufferEntry, copies: seq<Buffer>)
    requires Made(es, groups) && |copies| == Copies(e) && NoDup(copies)
    requires forall r :: 0 <= r < |copies| ==> copies[r].root == CopyRoot(e, r)
    requires forall g, b :: g in groups && b in g ==> b !in copies
    ensures Made(es + [e], groups + [copies])
  {
    hide CopyId, CopyRoot, Copies;
    var all, gs := es + [e], groups + [copies];
    forall i, r | Slot(all, i, r)
      ensures if i < |es| then Slot(es, i, r) && gs[i][r] == groups[i][r] && gs[i][r] !in copies else gs[i][r] == copies[r]
    {
      if i < |es| {
        assert groups[i] in groups && groups[i][r] in groups[i];
      }
    }
  }

  lemma StoredNext(es: seq<BufferEntry>, groups: seq<seq<Buffer>>, e: BufferEntry, copies: seq<Buffer>)
    requires |groups| == |es|
    ensures StoredAll(es + [e], groups + [copies]) == Stored(StoredAll(es, groups), e, copies, |copies|)
  {
    hide Stored, StoredAll;
    var n, all, gs := |es|, es + [e], groups + [copies];
    StoredAllUnfold(all, gs);
    assert all[..n] == es && gs[..n] == groups && all[n] == e && gs[n] == copies;
  }

  lemma StoredAllUnfold(es: seq<BufferEntry>, groups: seq<seq<Buffer>>)
    requires |groups| == |es| > 0
    ensures var n := |es| - 1;
      StoredAll(es, groups) == Stored(StoredAll(es[..n], groups[..n]), es[n], groups[n], |groups[n]|)
  {
    hide Stored;
  }

  lemma ReplicatedNext(groups: seq<seq<Buffer>>, copies: seq<Buffer>)
    requires AllReplicated(groups) && Replicated(copies)
    ensures AllReplicated(groups + [copies])
  {
    hide Replicated;
  }

  ghost predicate PipesUnlinked(pipes: set<Pipe>)
    reads pipes
  {
    forall p :: p in pipes ==> p.inputBuffers == [] && p.outputBuffers == []
  }

  /** Tables without entries are consistent: the loading loops start from here. */
  lemma NothingLinked(buffers: set<Buffer>, pipes: set<Pipe>)
    requires PipesUnlinked(pipes) && forall b :: b in buffers ==> Unlinked(b)
    ensures Consistent(Snapshot(buffers, pipes))
  {
  }
}
