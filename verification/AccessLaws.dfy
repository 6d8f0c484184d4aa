/** What adding one more piece to an access path does to its value. The pieces are text and the values are outcomes of the
    evaluator; together the laws determine the value of every path. */
module AccessLaws {
  import opened ArrayLayout
  import opened AccessPath
  import opened AccessSafety
  import opened AccessText
  import opened AccessOutcome
  import opened AccessTypedefs
  import opened Wrappers

  /** Neither a name for a type nor a reference, which the evaluator looks through at the end. */
  predicate Plain(t: Type) {
    !t.Typedef? && !t.Reference?
  }

  /** One value that was reached without following anything at the end. */
  predicate Single(r: Outcome) {
    r.Value? && r.count == 1 && !r.dereferenced
  }

  /** The reads before the last one. */
  function Before(r: Outcome): seq<Access>
    requires r.Value? && r.log != []
  {
    r.log[..|r.log| - 1]
  }

  /** The object that the last read is meant to stay in. */
  function Around(r: Outcome): Extent
    requires r.Value? && r.log != []
  {
    r.log[|r.log| - 1].within
  }

  /** `count` values of one type are read at `addr`. */
  function Reading(addr: int, ty: Type, count: int, followed: bool, before: seq<Access>, within: Extent): Outcome {
    Value(addr, Size(ty) * count, ty, count, followed, before + [Access(addr, Size(ty) * count, within)])
  }

  /** A type at which the laws say what is read: a plain one, or a reference to a plain one. */
  predicate Readable(table: TypeTable, ty: Type) {
    Plain(ty) || (ty.Reference? && ty.referent in table && Plain(table[ty.referent]))
  }

  /** One value at `addr`; a reference is read, four bytes where it is, and followed. */
  function Arrived(table: TypeTable, word: int -> int, addr: int, ty: Type, before: seq<Access>, within: Extent): Outcome
    requires Readable(table, ty)
  {
    if ty.Reference? then
      var u, there := table[ty.referent], word(addr);
      Reading(there, u, 1, true, before + [Access(addr, 4, within)], Extent(there, Size(u)))
    else Reading(addr, ty, 1, false, before, within)
  }

  ghost function Path(stars: nat, name: string, segs: seq<Segment>): string {
    Asterisks(stars) + name + Text(segs)
  }

  lemma PathMeans(table: TypeTable, vars: map<string, Variable>, word: int -> int, stars: nat, name: string, segs: seq<Segment>)
    requires IsName(name) && Proper(segs)
    ensures MemAccess(table, vars, word, Path(stars, name, segs)) ==
      if name in vars && Land(table, word, Root(vars[name]), segs).Some?
      then Finish(table, word, stars, Land(table, word, Root(vars[name]), segs).value) else Failed
  {
    hide MemAccess, AccessText.Follow, Land, Finish;
    TextMeansSegments(table, vars, word, stars, name, segs);
    if name in vars {
      FollowFinishes(table, word, stars, Root(vars[name]), segs);
    }
  }

  /** A path without stars that yields a single value stands on that value. */
  lemma Stands(table: TypeTable, vars: map<string, Variable>, word: int -> int, name: string, segs: seq<Segment>)
    requires IsName(name) && Proper(segs) && Single(MemAccess(table, vars, word, Path(0, name, segs)))
    ensures var r := MemAccess(table, vars, word, Path(0, name, segs));
      && r.log != [] && name in vars && Land(table, word, Root(vars[name]), segs).Some?
      && var st := Land(table, word, Root(vars[name]), segs).value;
      && st.ty == r.ty && st.addr == r.addr && st.count == 1 && st.log == Before(r) && st.within == Around(r)
      && !st.ty.Reference?
  {
    hide MemAccess, Land;
    PathMeans(table, vars, word, 0, name, segs);
  }

  lemma NextLands(table: TypeTable, vars: map<string, Variable>, word: int -> int, name: string, segs: seq<Segment>, seg: Segment)
    requires IsName(name) && Proper(segs) && Proper(segs + [seg])
    requires Single(MemAccess(table, vars, word, Path(0, name, segs)))
    ensures name in vars && Land(table, word, Root(vars[name]), segs).Some?
    ensures var st := Land(table, word, Root(vars[name]), segs).value; var next := StepSegment(table, word, st, seg);
      MemAccess(table, vars, word, Path(0, name, segs + [seg])) ==
        if next.None? then Failed else Finish(table, word, 0, next.value)
  {
    hide MemAccess, Land, StepSegment, Finish;
    Stands(table, vars, word, name, segs);
    PathMeans(table, vars, word, 0, name, segs + [seg]);
    LandLast(table, word, Root(vars[name]), segs, seg);
  }

  lemma PlainResolves(t: Type)
    ensures Plain(t) ==> Resolve(t) == t
  {
  }

  /** A variable by its name. */
  lemma VariableAlone(table: TypeTable, vars: map<string, Variable>, word: int -> int, name: string)
    requires IsName(name)
    ensures name !in vars ==> MemAccess(table, vars, word, Path(0, name, [])).Failed?
    ensures name in vars && Readable(table, vars[name].ty) ==>
      var v := vars[name];
      MemAccess(table, vars, word, Path(0, name, [])) == Arrived(table, word, v.addr, v.ty, [], Extent(v.addr, Size(v.ty)))
  {
    hide MemAccess;
    PathMeans(table, vars, word, 0, name, []);
  }

  /** `path.n`: the member's offset is added; nothing more is read. */
  lemma MemberOf(table: TypeTable, vars: map<string, Variable>, word: int -> int, name: string, segs: seq<Segment>, n: string)
    requires IsName(name) && Proper(segs) && Proper(segs + [Field(n)])
    requires Single(MemAccess(table, vars, word, Path(0, name, segs)))
    ensures var r := MemAccess(table, vars, word, Path(0, name, segs));
      var q := MemAccess(table, vars, word, Path(0, name, segs + [Field(n)]));
      && r.log != []
      && match FindMember(r.ty, n)
         case None => q.Failed?
         case Some(m) =>
           Readable(table, m.ty) ==> q == Arrived(table, word, r.addr + m.address, m.ty, Before(r), Around(r))
  {
    hide MemAccess, Land, FindMember, Size;
    Stands(table, vars, word, name, segs);
    NextLands(table, vars, word, name, segs, Field(n));
  }

  /** `path->n`: the pointer is read, four bytes where it is, and the member's offset is added to its value. */
  lemma PointedMember(table: TypeTable, vars: map<string, Variable>, word: int -> int, name: string, segs: seq<Segment>, n: string)
    requires IsName(name) && Proper(segs) && Proper(segs + [Via(n)])
    requires Single(MemAccess(table, vars, word, Path(0, name, segs)))
    ensures var r := MemAccess(table, vars, word, Path(0, name, segs));
      var q := MemAccess(table, vars, word, Path(0, name, segs + [Via(n)]));
      && r.log != []
      && (!(r.ty.Pointer? && r.ty.target.Some? && r.ty.target.value in table) ==> q.Failed?)
      && (r.ty.Pointer? && r.ty.target.Some? && r.ty.target.value in table && Plain(table[r.ty.target.value]) ==>
          var u, there := table[r.ty.target.value], word(r.addr);
          match FindMember(u, n)
          case None => q.Failed?
          case Some(m) => Readable(table, m.ty) ==>
            q == Arrived(table, word, there + m.address, m.ty, Before(r) + [Access(r.addr, 4, Around(r))],
                         Extent(there, Size(u))))
  {
    hide MemAccess, Land, FindMember, Size;
    Stands(table, vars, word, name, segs);
    NextLands(table, vars, word, name, segs, Via(n));
  }

  /** No more indices than dimensions, and each below its dimension. */
  predicate Within(idx: seq<int>, dims: seq<int>) {
    |idx| <= |dims| && forall i :: 0 <= i < |idx| ==> idx[i] < dims[i]
  }

  lemma ElementPlace(t: Type, idx: seq<int>)
    requires idx != []
    ensures ArrayMemberOffset(t, idx) ==
      if t.Array? && Within(idx, Dims(t.upperBounds))
      then Some(Located(Resolve(t.element), Offset(idx, Dims(t.upperBounds)), Prod(Dims(t.upperBounds)[|idx|..])))
      else None
  {
    hide Offset, Prod, Dims, Resolve;
  }

  /** Row-major offset, times the size of an element; what lies below the given indices is read as a whole. */
  ghost predicate ReadsElements(q: Outcome, addr: int, e: Type, dims: seq<int>, idx: seq<int>, before: seq<Access>, within: Extent) {
    if Within(idx, dims)
    then q == Reading(addr + Size(e) * Offset(idx, dims), e, Prod(dims[|idx|..]), false, before, within)
    else q.Failed?
  }

  /** `path[i][j]...` */
  lemma ElementsOf(table: TypeTable, vars: map<string, Variable>, word: int -> int, name: string, segs: seq<Segment>,
                   idx: seq<nat>)
    requires IsName(name) && Proper(segs) && Proper(segs + [Elements(idx)])
    requires Single(MemAccess(table, vars, word, Path(0, name, segs)))
    ensures var r := MemAccess(table, vars, word, Path(0, name, segs));
      var q := MemAccess(table, vars, word, Path(0, name, segs + [Elements(idx)]));
      && r.log != []
      && (!r.ty.Array? ==> q.Failed?)
      && (r.ty.Array? && Plain(r.ty.element) ==>
          ReadsElements(q, r.addr, r.ty.element, Dims(r.ty.upperBounds), idx, Before(r), Around(r)))
  {
    hide MemAccess, Land, Size, Dims, StepSegment, Finish, Proper, IsName, Path, ReadsElements;
    Stands(table, vars, word, name, segs);
    NextLands(table, vars, word, name, segs, Elements(idx));
    SomeIndex(segs, idx);
    ElementsStep(table, word, Land(table, word, Root(vars[name]), segs).value, idx);
  }

  lemma SomeIndex(segs: seq<Segment>, idx: seq<nat>)
    requires Proper(segs + [Elements(idx)])
    ensures idx != []
  {
    assert (segs + [Elements(idx)])[|segs|] == Elements(idx);
  }

  lemma ElementsStep(table: TypeTable, word: int -> int, st: State, idx: seq<nat>)
    requires st.count == 1 && idx != []
    ensures var next := StepSegment(table, word, st, Elements(idx));
      var q := if next.None? then Failed else Finish(table, word, 0, next.value);
      && (!st.ty.Array? ==> q.Failed?)
      && (st.ty.Array? && Plain(st.ty.element) ==>
          ReadsElements(q, st.addr, st.ty.element, Dims(st.ty.upperBounds), idx, st.log, st.within))
  {
    hide Size, Offset, Prod, Dims, Within, ArrayMemberOffset;
    ElementPlace(st.ty, idx);
    if st.ty.Array? {
      PlainResolves(st.ty.element);
    }
  }

  /** C has no pointers to references, and names can be replaced by what they name. */
  ghost predicate PlainTable(table: TypeTable) {
    forall id :: id in table ==> Plain(table[id])
  }

  lemma {:induction false} OneMoreStar(table: TypeTable, word: int -> int, stars: nat, st: State)
    ensures HopStars(table, word, stars + 1, st) ==
      match HopStars(table, word, stars, st) case None => None case Some(there) => Hop(table, word, there)
    decreases stars
  {
    if stars == 0 {
      assert HopStars(table, word, 0, st) == Some(st);
      if Hop(table, word, st).Some? {
        assert HopStars(table, word, 0, Hop(table, word, st).value) == Hop(table, word, st);
      }
    } else if Hop(table, word, st).Some? {
      OneMoreStar(table, word, stars - 1, Hop(table, word, st).value);
    }
  }

  lemma {:induction false} StarsEndPlain(table: TypeTable, word: int -> int, stars: nat, st: State)
    requires PlainTable(table) && HopStars(table, word, stars, st).Some? && stars > 0
    ensures Plain(HopStars(table, word, stars, st).value.ty)
    decreases stars
  {
    var there := Hop(table, word, st).value;
    if stars > 1 {
      StarsEndPlain(table, word, stars - 1, there);
    } else {
      assert HopStars(table, word, 0, there) == Some(there);
    }
  }

  /** `*path`, also when the path starts with stars: the value is read as a pointer, four bytes where it is, and as many
      values as before are read where it leads. */
  lemma Dereferenced(table: TypeTable, vars: map<string, Variable>, word: int -> int, stars: nat, name: string, segs: seq<Segment>)
    requires IsName(name) && Proper(segs) && PlainTable(table)
    requires var r := MemAccess(table, vars, word, Path(stars, name, segs)); r.Value? && (stars == 0 ==> !r.dereferenced)
    ensures var r := MemAccess(table, vars, word, Path(stars, name, segs));
      var q := MemAccess(table, vars, word, Path(stars + 1, name, segs));
      && r.log != []
      && if r.ty.Pointer? && r.ty.target.Some? && r.ty.target.value in table
         then
           var u, there := table[r.ty.target.value], word(r.addr);
           q == Reading(there, u, r.count, true, Before(r) + [Access(r.addr, 4, Around(r))], Extent(there, Size(u)))
         else q.Failed?
  {
    hide MemAccess, Land, HopStars, Size;
    PathMeans(table, vars, word, stars, name, segs);
    PathMeans(table, vars, word, stars + 1, name, segs);
    var st := Land(table, word, Root(vars[name]), segs).value;
    OneMoreStar(table, word, stars, st);
    if stars > 0 {
      StarsEndPlain(table, word, stars, st);
    } else {
      NoStars(table, word, st);
    }
  }

  lemma NoStars(table: TypeTable, word: int -> int, st: State)
    ensures HopStars(table, word, 0, st) == Some(st)
  {
  }

  /** Nothing can follow a path that selects several values. */
  lemma NothingBehindSeveral(table: TypeTable, vars: map<string, Variable>, word: int -> int, name: string, segs: seq<Segment>,
                             seg: Segment)
    requires IsName(name) && Proper(segs) && Proper(segs + [seg])
    requires var r := MemAccess(table, vars, word, Path(0, name, segs)); r.Value? && r.count > 1
    ensures MemAccess(table, vars, word, Path(0, name, segs + [seg])).Failed?
  {
    hide MemAccess, Land;
    PathMeans(table, vars, word, 0, name, segs);
    PathMeans(table, vars, word, 0, name, segs + [seg]);
    LandLast(table, word, Root(vars[name]), segs, seg);
  }

  /* ---- inputs ---- */

  /** `struct { int a; int b; }` */
  function TwoInts(): Type {
    Record(8, [Member(Some("a"), 0, Base(4)), Member(Some("b"), 4, Base(4))])
  }

  lemma SecondInt()
    ensures FindMember(TwoInts(), "b") == Some(Member(Some("b"), 4, Base(4)))
  {
    var ms := Members(TwoInts());
    assert ms[1..][0] == Member(Some("b"), 4, Base(4));
    assert FindNamed(ms[1..], "b") == Some(ms[1]);
  }

  lemma DotText()
    ensures Path(0, "s", [Field("b")]) == "s.b" && Path(0, "s", [Via("b")]) == "s->b" && Path(0, "s", []) == "s"
  {
    assert [Field("b")][1..] == [] && [Via("b")][1..] == [];
    assert Text([Field("b")]) == ".b" && Text([Via("b")]) == "->b" && Text([]) == "";
    assert Asterisks(0) == "";
  }

  /** `typedef struct { int a; int b; } foo; foo s;` read as `s.b`. */
  lemma TypedefExample(table: TypeTable, word: int -> int)
    ensures MemAccess(table, map["s" := Variable(100, Typedef(TwoInts()))], word, "s.b")
         == Value(104, 4, Base(4), 1, false, [Access(104, 4, Extent(100, 8))])
  {
    hide MemAccess, FindMember;
    var vars := map["s" := Variable(100, TwoInts())];
    assert vars["s" := Variable(100, Typedef(TwoInts()))] == map["s" := Variable(100, Typedef(TwoInts()))];
    NamedVariable(table, vars, word, "s.b", "s");
    DotText();
    SecondInt();
    VariableAlone(table, vars, word, "s");
    MemberOf(table, vars, word, "s", [], "b");
    assert [] + [Field("b")] == [Field("b")];
  }

  /** The same structure behind a pointer, read as `s->b`. */
  lemma ArrowExample(word: int -> int)
    ensures MemAccess(map[1 := TwoInts()], map["s" := Variable(100, Pointer(Some(1)))], word, "s->b")
         == Value(word(100) + 4, 4, Base(4), 1, false,
                  [Access(100, 4, Extent(100, 4)), Access(word(100) + 4, 4, Extent(word(100), 8))])
  {
    hide MemAccess, FindMember;
    var table, vars := map[1 := TwoInts()], map["s" := Variable(100, Pointer(Some(1)))];
    DotText();
    SecondInt();
    VariableAlone(table, vars, word, "s");
    PointedMember(table, vars, word, "s", [], "b");
    assert [] + [Via("b")] == [Via("b")];
  }
}
