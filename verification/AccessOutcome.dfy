/** Where an access path ends up: which reads overrun their object, and which member a name leads to. */
module AccessOutcome {
  import opened ArrayLayout
  import opened AccessPath
  import opened AccessSafety
  import opened AccessText
  import opened Wrappers

  /** The walk at its start, on the variable itself. */
  function Root(v: Variable): State {
    State(Resolve(v.ty), v.addr, 1, None, [], Extent(v.addr, Size(v.ty)), [])
  }

  /** Where the segments lead before the stars and the read. */
  function Land(table: TypeTable, word: int -> int, st: State, segs: seq<Segment>): Option<State>
    decreases |segs|
  {
    if segs == [] then Some(st) else
      match StepSegment(table, word, st, segs[0])
      case None => None
      case Some(next) => Land(table, word, next, segs[1..])
  }

  lemma {:induction false} FollowFinishes(table: TypeTable, word: int -> int, stars: nat, st: State, segs: seq<Segment>)
    ensures AccessText.Follow(table, word, stars, st, segs) ==
      match Land(table, word, st, segs) case None => Failed case Some(there) => Finish(table, word, stars, there)
    decreases |segs|
  {
    hide StepSegment, Finish;
    if segs != [] && StepSegment(table, word, st, segs[0]).Some? {
      FollowFinishes(table, word, stars, StepSegment(table, word, st, segs[0]).value, segs[1..]);
    }
  }

  lemma {:induction false} LandLast(table: TypeTable, word: int -> int, st: State, segs: seq<Segment>, last: Segment)
    ensures Land(table, word, st, segs + [last]) ==
      match Land(table, word, st, segs) case None => None case Some(there) => StepSegment(table, word, there, last)
    decreases |segs|
  {
    hide StepSegment;
    var all := segs + [last];
    if segs == [] {
      assert all == [last] && all[1..] == [];
      assert StepSegment(table, word, st, last).Some? ==>
        Land(table, word, StepSegment(table, word, st, last).value, []) == StepSegment(table, word, st, last);
    } else {
      assert all[1..] == segs[1..] + [last];
      if StepSegment(table, word, st, segs[0]).Some? {
        LandLast(table, word, StepSegment(table, word, st, segs[0]).value, segs[1..], last);
      }
    }
  }

  lemma SegmentOnTrack(table: TypeTable, word: int -> int, st: State, seg: Segment)
    requires WellFormedTable(table) && OnTrack(st) && StepSegment(table, word, st, seg).Some?
    ensures OnTrack(StepSegment(table, word, st, seg).value)
  {
    hide FindMember, OnTrack, WellFormedTable, ArrayMemberOffset;
    OnTrackMeans(st);
    match seg
    case Field(n) => FollowOnTrack(st, st.addr, Parts(n, st.divider, st.rest));
    case Via(n) =>
      HopOnTrack(table, word, st);
      var there := Hop(table, word, st).value;
      FollowOnTrack(there, there.addr, Parts(n, there.divider, there.rest));
    case Elements(idx) => LocatedOnTrack(st, idx, Parts([], st.divider, st.rest));
  }

  lemma {:induction false} LandOnTrack(table: TypeTable, word: int -> int, st: State, segs: seq<Segment>)
    requires WellFormedTable(table) && OnTrack(st) && Land(table, word, st, segs).Some?
    ensures OnTrack(Land(table, word, st, segs).value)
    decreases |segs|
  {
    hide StepSegment, OnTrack, WellFormedTable;
    if segs != [] {
      SegmentOnTrack(table, word, st, segs[0]);
      LandOnTrack(table, word, StepSegment(table, word, st, segs[0]).value, segs[1..]);
    }
  }

  /* ---- which reads overrun ---- */

  /** The last segment gives fewer indices than the array has dimensions, and more than one element is below them. */
  ghost predicate EndsPartial(table: TypeTable, word: int -> int, st: State, segs: seq<Segment>) {
    segs != [] &&
    var n := |segs| - 1;
    var before := Land(table, word, st, segs[..n]);
    && segs[n].Elements? && before.Some? && before.value.ty.Array?
    && var dims := Dims(before.value.ty.upperBounds);
    |segs[n].idx| < |dims| && Block(|segs[n].idx|, dims) > 1
  }

  /** Several elements are selected exactly by a partial index at the end. */
  lemma SelectsSeveral(table: TypeTable, word: int -> int, st: State, segs: seq<Segment>)
    requires st.count == 1 && Land(table, word, st, segs).Some?
    ensures Land(table, word, st, segs).value.count > 1 <==> EndsPartial(table, word, st, segs)
  {
    if segs != [] {
      var n := |segs| - 1;
      LandLast(table, word, st, segs[..n], segs[n]);
      assert segs == segs[..n] + [segs[n]];
      LastSelects(table, word, Land(table, word, st, segs[..n]).value, segs[n]);
    }
  }

  lemma LastSelects(table: TypeTable, word: int -> int, st: State, seg: Segment)
    requires StepSegment(table, word, st, seg).Some?
    ensures var c := StepSegment(table, word, st, seg).value.count;
      if seg.Elements? then
        && st.ty.Array? && |seg.idx| <= |Dims(st.ty.upperBounds)|
        && c == Block(|seg.idx|, Dims(st.ty.upperBounds))
        && (|seg.idx| == |Dims(st.ty.upperBounds)| ==> c == 1)
      else c <= 1
  {
    hide FindMember;
  }

  function FinalRead(r: Outcome): Access
    requires r.Value? && r.log != []
  {
    r.log[|r.log| - 1]
  }

  /** The final read leaves the object it is meant for if and only if the path ends in a partial index, what it selects
      is then dereferenced, by a star or as a reference, and the object reached has a size. */
  lemma OverrunsIff(table: TypeTable, vars: map<string, Variable>, word: int -> int,
                    stars: nat, name: string, segs: seq<Segment>)
    requires WellFormedTable(table) && forall v :: v in vars ==> WellFormed(vars[v].ty)
    requires IsName(name) && Proper(segs)
    requires MemAccess(table, vars, word, Asterisks(stars) + name + Text(segs)).Value?
    ensures var r := MemAccess(table, vars, word, Asterisks(stars) + name + Text(segs));
      && name in vars && Land(table, word, Root(vars[name]), segs).Some?
      && HopStars(table, word, stars, Land(table, word, Root(vars[name]), segs).value).Some?
      && r.log != [] && AllInside(r.log[..|r.log| - 1])
      && (!Inside(FinalRead(r)) <==>
          && EndsPartial(table, word, Root(vars[name]), segs)
          && (stars > 0 || HopStars(table, word, stars, Land(table, word, Root(vars[name]), segs).value).value.ty.Reference?)
          && Size(r.ty) > 0)
  {
    TextMeansSegments(table, vars, word, stars, name, segs);
    var v := vars[name];
    var st := Root(v);
    FollowFinishes(table, word, stars, st, segs);
    RootOnTrack(v);
    LandOnTrack(table, word, st, segs);
    SelectsSeveral(table, word, st, segs);
    EndOverrunsIff(table, word, stars, Land(table, word, st, segs).value);
  }

  lemma RootOnTrack(v: Variable)
    requires WellFormed(v.ty)
    ensures OnTrack(Root(v))
  {
    ResolveKeeps(v.ty);
  }

  lemma EndOverrunsIff(table: TypeTable, word: int -> int, stars: nat, st: State)
    requires WellFormedTable(table) && OnTrack(st) && Finish(table, word, stars, st).Value?
    ensures var r := Finish(table, word, stars, st); var there := HopStars(table, word, stars, st);
      there.Some? && r.log != [] && AllInside(r.log[..|r.log| - 1])
      && (!Inside(FinalRead(r)) <==> st.count > 1 && (stars > 0 || there.value.ty.Reference?) && Size(r.ty) > 0)
  {
    FinishInside(table, word, stars, st);
    StarsKeepCount(table, word, stars, st);
    EndIsWellFormed(table, word, stars, st);
    hide Inside, AllInside, WellFormedTable, OnTrack;
  }

  lemma {:induction false} StarsKeepCount(table: TypeTable, word: int -> int, stars: nat, st: State)
    requires HopStars(table, word, stars, st).Some?
    ensures HopStars(table, word, stars, st).value.count == st.count
    decreases stars
  {
    if stars > 0 {
      StarsKeepCount(table, word, stars - 1, Hop(table, word, st).value);
    }
  }

  lemma EndIsWellFormed(table: TypeTable, word: int -> int, stars: nat, st: State)
    requires WellFormedTable(table) && OnTrack(st) && Finish(table, word, stars, st).Value?
    ensures st.count >= 1 && Size(Finish(table, word, stars, st).ty) >= 0
  {
    ArrivedStars(table, word, stars, st, false);
    var there := HopStars(table, word, stars, st).value;
    SizeNonNegative(there.ty);
    if there.ty.Reference? {
      ArrivedHop(table, word, there, stars > 0);
      SizeNonNegative(Hop(table, word, there).value.ty);
    }
  }

  /* ---- an input that overruns ---- */

  /** `int *a[1][2]` read as `*a[0]`: two elements are selected, then one pointer is followed and two
      integers are read from an object that holds one. */
  lemma PartialIndexOverruns(word: int -> int)
    ensures var r := MemAccess(IntTable(), GridVars(), word, "*a[0]");
      && r.Value? && r.addr == word(100) && r.bytes == 8 && r.ty == Base(4)
      && r.log != [] && FinalRead(r) == Access(word(100), 8, Extent(word(100), 4)) && !Inside(FinalRead(r))
  {
    hide MemAccess, Text, Asterisks, AccessText.Follow;
    var segs := [Elements([0])];
    GridText();
    assert "*a[0]" == Asterisks(1) + "a" + Text(segs);
    TextMeansSegments(IntTable(), GridVars(), word, 1, "a", segs);
    FollowFinishes(IntTable(), word, 1, Root(GridVars()["a"]), segs);
    GridRow(word);
    GridEnd(word);
  }

  lemma GridText()
    ensures Text([Elements([0])]) == "[0]" && Asterisks(1) == "*"
  {
    var segs := [Elements([0])];
    assert segs[1..] == [] && [0][1..] == [];
    assert Subscripts([0]) == "[0]";
    assert Asterisks(0) == [];
  }

  function Row(): State {
    Root(GridVars()["a"]).(ty := Pointer(Some(1)), count := 2)
  }

  lemma GridRow(word: int -> int)
    ensures Land(IntTable(), word, Root(GridVars()["a"]), [Elements([0])]) == Some(Row())
  {
    hide Land;
    var st := Root(GridVars()["a"]);
    FirstRow();
    hide ArrayMemberOffset;
    LandLast(IntTable(), word, st, [], Elements([0]));
    assert [] + [Elements([0])] == [Elements([0])];
    LandNothing(IntTable(), word, st);
    assert st.ty == GridType();
  }

  lemma LandNothing(table: TypeTable, word: int -> int, st: State)
    ensures Land(table, word, st, []) == Some(st)
  {
  }

  lemma GridEnd(word: int -> int)
    ensures Finish(IntTable(), word, 1, Row())
         == Value(word(100), 8, Base(4), 2, true, [Access(100, 4, Row().within), Access(word(100), 8, Extent(word(100), 4))])
  {
    var there := Hop(IntTable(), word, Row()).value;
    assert there.log == [Access(100, 4, Row().within)];
    assert HopStars(IntTable(), word, 0, there) == Some(there);
  }

  function IntTable(): TypeTable {
    map[1 := Base(4)]
  }

  function GridType(): Type {
    Array(Pointer(Some(1)), [Some(0), Some(1)])
  }

  function GridVars(): map<string, Variable> {
    map["a" := Variable(100, GridType())]
  }

  lemma FirstRow()
    ensures ArrayMemberOffset(GridType(), [0]) == Some(Located(Pointer(Some(1)), 0, 2))
  {
    var ubs: seq<Option<int>> := [Some(0), Some(1)];
    assert ubs[1..] == [Some(1)] && ubs[1..][1..] == [];
    assert Dims(ubs[1..]) == [2];
    assert Dims(ubs) == [1, 2];
    assert [1, 2][1..] == [2] && [2][1..] == [];
    assert Prod([2]) == 2;
    assert Offset([0], [1, 2]) == 0;
  }

  /* ---- which member a name leads to ---- */

  /** The first member of that name `k` unnamed members down, at its place in the whole. */
  function FindAt(t: Type, name: string, k: nat): Option<Member>
    decreases k, 1, 0
  {
    if k == 0 then FindNamed(Members(t), name) else FindBelow(Members(t), name, k)
  }

  function FindBelow(ms: seq<Member>, name: string, k: nat): Option<Member>
    requires k > 0
    decreases k, 0, |ms|
  {
    if ms == [] then None else
      var m := if ms[0].name.None? then FindAt(Resolve(ms[0].ty), name, k - 1) else None;
      if m.Some? then Some(m.value.(address := ms[0].address + m.value.address)) else FindBelow(ms[1..], name, k)
  }

  /** The name designates a member that lies `k` unnamed members down: the nearest one of that name. */
  ghost predicate DesignatedAt(t: Type, name: string, k: nat) {
    FindAt(t, name, k).Some? && forall j: nat :: j < k ==> FindAt(t, name, j).None?
  }

  function Depth(t: Type): nat
    decreases t, 0
  {
    match t
    case Base(_) => 0
    case Record(_, ms) => 1 + DepthOf(t, |ms|)
    case Array(e, _) => 1 + Depth(e)
    case Pointer(_) => 0
    case Reference(_) => 0
    case Typedef(u) => 1 + Depth(u)
    case Qualified(u) => 1 + Depth(u)
  }

  /** The greatest depth among the first `n` members. */
  function DepthOf(t: Type, n: nat): nat
    requires t.Record? && n <= |t.members|
    decreases t, 0, n
  {
    if n == 0 then 0 else
      var d, before := Depth(t.members[n - 1].ty), DepthOf(t, n - 1);
      if d > before then d else before
  }

  lemma {:induction false} MemberDepth(t: Type, n: nat, m: Member)
    requires t.Record? && n <= |t.members| && m in t.members[..n]
    ensures Depth(m.ty) <= DepthOf(t, n)
  {
    hide Depth;
    if t.members[n - 1] != m {
      assert t.members[..n] == t.members[..n - 1] + [t.members[n - 1]];
      MemberDepth(t, n - 1, m);
    }
  }

  lemma {:induction false} ResolveDepth(t: Type)
    ensures Depth(Resolve(t)) <= Depth(t)
  {
    if t.Typedef? {
      ResolveDepth(t.of);
    }
  }

  /** The unnamed member that the lookup gives is the one that holds the first member of that name one level down. */
  lemma {:induction false} FoundUnnamed(ms: seq<Member>, name: string)
    ensures FindUnnamed(ms, name).Some? <==> FindBelow(ms, name, 1).Some?
    ensures FindUnnamed(ms, name).Some? ==>
      var u := FindUnnamed(ms, name).value; var m := FindNamed(Members(Resolve(u.ty)), name);
      m.Some? && FindBelow(ms, name, 1) == Some(m.value.(address := u.address + m.value.address))
  {
    if ms != [] {
      assert FindAt(Resolve(ms[0].ty), name, 0) == FindNamed(Members(Resolve(ms[0].ty)), name);
      FoundUnnamed(ms[1..], name);
    }
  }

  /** A type is not that of a member below it. */
  lemma BelowDiffers(whole: Type, name: string)
    requires FindNamed(Members(whole), name).Some?
    ensures whole != Resolve(FindNamed(Members(whole), name).value.ty)
  {
    var m := FindNamed(Members(whole), name).value;
    FoundIsMember(Members(whole), name);
    assert whole.members[..|whole.members|] == whole.members;
    MemberDepth(whole, |whole.members|, m);
    ResolveDepth(m.ty);
  }

  /** The lookup finds a name if and only if it designates a member at most one unnamed level down. It gives that
      member if and only if the member is the type's own: for one a level down it gives the unnamed union or structure
      around it, whose type is another one; deeper ones are missed. */
  lemma LookupIsDesignatedIffNamed(t: Type, name: string)
    ensures FindMember(t, name).Some? <==> DesignatedAt(t, name, 0) || DesignatedAt(t, name, 1)
    ensures forall k: nat {:trigger DesignatedAt(t, name, k)} :: DesignatedAt(t, name, k) ==>
      && (FindMember(t, name).Some? <==> k <= 1)
      && (FindMember(t, name) == FindAt(t, name, k) <==> k == 0)
      && (k <= 1 ==> (Resolve(FindMember(t, name).value.ty) == Resolve(FindAt(t, name, k).value.ty) <==> k == 0))
  {
    FoundUnnamed(Members(t), name);
    if FindNamed(Members(t), name).None? && FindUnnamed(Members(t), name).Some? {
      BelowDiffers(Resolve(FindUnnamed(Members(t), name).value.ty), name);
    }
    assert FindAt(t, name, 0) == FindNamed(Members(t), name) && FindAt(t, name, 1) == FindBelow(Members(t), name, 1);
  }

  /** Both member steps need a member at most one unnamed level down, and then arrive at its type if and only if it is
      not below an unnamed one. */
  lemma StepArrivesIffNamed(table: TypeTable, word: int -> int, st: State, name: string, k: nat)
    ensures StepSegment(table, word, st, Field(name)).Some? ==> DesignatedAt(st.ty, name, 0) || DesignatedAt(st.ty, name, 1)
    ensures StepSegment(table, word, st, Via(name)).Some? ==>
      && st.ty.Pointer? && Hop(table, word, st).Some?
      && var there := Hop(table, word, st).value.ty; DesignatedAt(there, name, 0) || DesignatedAt(there, name, 1)
    ensures DesignatedAt(st.ty, name, k) ==>
      var next := StepSegment(table, word, st, Field(name));
      && (next.Some? <==> st.count <= 1 && k <= 1)
      && (next.Some? ==> (next.value.ty == Resolve(FindAt(st.ty, name, k).value.ty) <==> k == 0))
    ensures st.ty.Pointer? && Hop(table, word, st).Some? && DesignatedAt(Hop(table, word, st).value.ty, name, k) ==>
      var next := StepSegment(table, word, st, Via(name)); var there := Hop(table, word, st).value.ty;
      && (next.Some? <==> st.count <= 1 && k <= 1)
      && (next.Some? ==> (next.value.ty == Resolve(FindAt(there, name, k).value.ty) <==> k == 0))
  {
    hide FindMember, DesignatedAt, FindAt;
    assert DesignatedAt(st.ty, name, k) ==> FindAt(st.ty, name, k).Some? by { DesignatedFinds(st.ty, name, k); }
    LookupIsDesignatedIffNamed(st.ty, name);
    if Hop(table, word, st).Some? {
      var there := Hop(table, word, st).value.ty;
      assert DesignatedAt(there, name, k) ==> FindAt(there, name, k).Some? by { DesignatedFinds(there, name, k); }
      LookupIsDesignatedIffNamed(there, name);
    }
  }

  lemma DesignatedFinds(t: Type, name: string, k: nat)
    ensures DesignatedAt(t, name, k) ==> FindAt(t, name, k).Some?
  {
  }

  /* ---- inputs that show it ---- */

  function CharOrInt(): Type {
    Record(4, [Member(Some("c"), 0, Base(1)), Member(Some("i"), 0, Base(4))])
  }

  /** `struct { union { char c; int i; }; } s` */
  function Holder(): Type {
    Record(4, [Member(None, 0, CharOrInt())])
  }

  /** Reading `s.c` yields the four bytes of the union and its type, where the member is one byte. */
  lemma UnionMemberYieldsUnion(table: TypeTable, word: int -> int)
    ensures var r := MemAccess(table, map["s" := Variable(100, Holder())], word, "s.c");
      r.Value? && r.addr == 100 && r.bytes == 4 && r.ty == CharOrInt()
    ensures DesignatedAt(Holder(), "c", 1) && FindAt(Holder(), "c", 1) == Some(Member(Some("c"), 0, Base(1)))
  {
    hide MemAccess, Text, Asterisks, AccessText.Follow;
    var vars := map["s" := Variable(100, Holder())];
    var segs := [Field("c")];
    UnionText();
    assert "s.c" == Asterisks(0) + "s" + Text(segs);
    TextMeansSegments(table, vars, word, 0, "s", segs);
    FollowFinishes(table, word, 0, Root(vars["s"]), segs);
    UnionLookup();
    LandLast(table, word, Root(vars["s"]), [], Field("c"));
    assert [] + segs == segs;
    LandNothing(table, word, Root(vars["s"]));
  }

  lemma UnionText()
    ensures Text([Field("c")]) == ".c" && Asterisks(0) == ""
  {
    assert [Field("c")][1..] == [];
  }

  lemma UnionLookup()
    ensures FindMember(Holder(), "c") == Some(Member(None, 0, CharOrInt()))
    ensures DesignatedAt(Holder(), "c", 1) && FindAt(Holder(), "c", 1) == Some(Member(Some("c"), 0, Base(1)))
  {
    var ms := Members(Holder());
    assert ms[1..] == [];
    assert FindNamed(ms, "c") == None;
    assert FindAt(CharOrInt(), "c", 0) == Some(Member(Some("c"), 0, Base(1)));
  }

  /** `struct { struct { union { char c; int i; }; }; } s` */
  function DeepHolder(): Type {
    Record(4, [Member(None, 0, Holder())])
  }

  /** `s.c` fails although `c` is the name of a byte of `s`, two unnamed members down. */
  lemma DeepMemberIsMissed(table: TypeTable, word: int -> int)
    ensures MemAccess(table, map["s" := Variable(100, DeepHolder())], word, "s.c") == Failed
    ensures DesignatedAt(DeepHolder(), "c", 2) && FindAt(DeepHolder(), "c", 2) == Some(Member(Some("c"), 0, Base(1)))
  {
    hide MemAccess, Text, Asterisks;
    var vars := map["s" := Variable(100, DeepHolder())];
    var segs := [Field("c")];
    UnionText();
    assert "s.c" == Asterisks(0) + "s" + Text(segs);
    TextMeansSegments(table, vars, word, 0, "s", segs);
    DeepLookup();
    LookupIsDesignatedIffNamed(DeepHolder(), "c");
    assert segs[0] == Field("c") && Root(vars["s"]).ty == DeepHolder();
  }

  lemma DeepLookup()
    ensures DesignatedAt(DeepHolder(), "c", 2) && FindAt(DeepHolder(), "c", 2) == Some(Member(Some("c"), 0, Base(1)))
  {
    UnionLookup();
    var ms := Members(DeepHolder());
    assert ms[1..] == [] && Members(Holder())[1..] == [];
    assert FindAt(Holder(), "c", 0) == None;
    assert FindBelow(ms, "c", 1) == None;
    assert FindAt(DeepHolder(), "c", 0) == None && FindAt(DeepHolder(), "c", 1) == None;
  }
}
