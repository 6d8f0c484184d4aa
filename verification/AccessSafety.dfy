/** Where the reads of an access path fall: inside the root variable, or inside what the last
    followed pointer designates. */
module AccessSafety {
  import opened ArrayLayout
  import opened AccessPath
  import opened Wrappers

  /** Members lie inside their record and array subranges are not empty. */
  ghost predicate WellFormed(t: Type) {
    match t
    case Base(_) => true
    case Record(n, ms) => forall m :: m in ms ==> WellFormed(m.ty) && m.address + Size(m.ty) <= n
    case Array(e, ubs) => WellFormed(e) && Positive(Dims(ubs))
    case Pointer(_) => true
    case Reference(_) => true
    case Typedef(u) => WellFormed(u)
    case Qualified(u) => WellFormed(u)
  }

  ghost predicate WellFormedTable(table: TypeTable) {
    forall id :: id in table ==> WellFormed(table[id])
  }

  lemma {:induction false} ResolveKeeps(t: Type)
    requires WellFormed(t)
    ensures WellFormed(Resolve(t)) && Size(Resolve(t)) == Size(t)
  {
    if t.Typedef? {
      ResolveKeeps(t.of);
    }
  }

  lemma {:induction false} SizeNonNegative(t: Type)
    requires WellFormed(t)
    ensures Size(t) >= 0
  {
    match t
    case Array(e, ubs) =>
      SizeNonNegative(e);
      ProdPositive(Dims(ubs));
      MulMono(0, Prod(Dims(ubs)), Size(e));
    case Typedef(u) => SizeNonNegative(u);
    case Qualified(u) => SizeNonNegative(u);
    case _ =>
  }

  lemma {:induction false} FoundIsMember(ms: seq<Member>, name: string)
    ensures FindNamed(ms, name).Some? ==> FindNamed(ms, name).value in ms
    ensures FindUnnamed(ms, name).Some? ==> FindUnnamed(ms, name).value in ms
  {
    if ms != [] {
      FoundIsMember(ms[1..], name);
    }
  }

  /** What a member name leads to lies inside the record, also when it is the unnamed member holding that name. */
  lemma MemberInside(t: Type, name: string)
    requires WellFormed(t) && FindMember(t, name).Some?
    ensures var m := FindMember(t, name).value;
      WellFormed(Resolve(m.ty)) && m.address + Size(Resolve(m.ty)) <= Size(t)
  {
    FoundIsMember(Members(t), name);
    ResolveKeeps(FindMember(t, name).value.ty);
  }

  /* ---- no negative index in the text ---- */

  /** Minus signs occur in arrows only. */
  ghost predicate NoMinus(s: string) {
    forall i :: 0 <= i < |s| && s[i] == '-' ==> i + 1 < |s| && s[i + 1] == '>'
  }

  lemma NoMinusSuffix(s: string, k: nat)
    requires NoMinus(s) && k <= |s|
    ensures NoMinus(s[k..])
  {
  }

  lemma {:induction false} IndicesNonNegative(s: string)
    requires NoMinus(s) && ArrayIndices(s).Some?
    ensures forall i :: 0 <= i < |ArrayIndices(s).value.values| ==> ArrayIndices(s).value.values[i] >= 0
    ensures NoMinus(ArrayIndices(s).value.rest)
    decreases |s|
  {
    if s != [] && s[0] == '[' {
      hide ParseInt, FindChar, NoMinus;
      FindCharAt(s, ']');
      var close := FindChar(s, ']').value;
      NoMinusSuffix(s, close + 1);
      IndicesNonNegative(s[close + 1..]);
      NumberNonNegative(s, 1, close);
      IndicesOnce(s, close);
    }
  }

  lemma IndicesOnce(s: string, close: nat)
    requires s != [] && s[0] == '[' && FindChar(s, ']') == Some(close) && 0 < close < |s| && ArrayIndices(s).Some?
    ensures ParseInt(s[1..close]).Some? && ArrayIndices(s[close + 1..]).Some?
    ensures var i := ParseInt(s[1..close]).value; var more := ArrayIndices(s[close + 1..]).value;
      ArrayIndices(s).value == Indices([i] + more.values, more.rest)
  {
    hide ParseInt, FindChar;
  }

  lemma {:induction false} StripIsInner(s: string) returns (a: nat, b: nat)
    ensures a <= b <= |s| && Strip(s) == s[a..b]
    decreases |s|
  {
    if s != [] && Space(s[0]) {
      a, b := StripIsInner(s[1..]);
      assert s[1..][a..b] == s[a + 1..b + 1];
      a, b := a + 1, b + 1;
    } else if s != [] && Space(s[|s| - 1]) {
      a, b := StripIsInner(s[..|s| - 1]);
      assert s[..|s| - 1][a..b] == s[a..b];
    } else {
      a, b := 0, |s|;
    }
  }

  lemma {:induction false} DigitsStart(s: string)
    requires Digits(s).Some?
    ensures s != [] && IsDigit(s[0])
    decreases |s|
  {
    if |s| > 1 {
      DigitsStart(BeforeLast(s));
    }
  }

  /** A number inside a text whose minus signs belong to arrows is not negative. */
  lemma NumberNonNegative(s: string, from: nat, to: nat)
    requires NoMinus(s) && from <= to <= |s| && ParseInt(s[from..to]).Some?
    ensures ParseInt(s[from..to]).value >= 0
  {
    hide Digits;
    hide Strip;
    var text := s[from..to];
    var a, b := StripIsInner(text);
    InnerOfInner(s, from, to, a, b);
    var t := Strip(text);
    if t != [] && t[0] == '-' {
      MinusThenArrow(s, from + a, from + b);
      DigitsStart(t[1..]);
      assert false;
    }
  }

  lemma InnerOfInner(s: string, from: nat, to: nat, a: nat, b: nat)
    requires from <= to <= |s| && a <= b <= to - from
    ensures s[from..to][a..b] == s[from + a..from + b]
  {
    var x, y := s[from..to][a..b], s[from + a..from + b];
    forall i | 0 <= i < b - a ensures x[i] == y[i] {
      assert s[from..to][a + i] == s[from + (a + i)];
    }
  }

  lemma MinusThenArrow(s: string, from: nat, to: nat)
    requires NoMinus(s) && from < to <= |s| && s[from] == '-'
    ensures from + 1 < to ==> s[from..to][1..][0] == '>'
  {
  }

  /** The part of the path that is still to be followed, with a pending bracket. */
  ghost function Ahead(p: Option<Divider>, rest: string): string {
    if p == Some(BracketDiv) then "[" + rest else rest
  }

  lemma SplitKeepsNoMinus(s: string)
    requires NoMinus(s)
    ensures var p := SplitAccessPath(s); NoMinus(Ahead(p.divider, p.rest))
  {
    var p := SplitAccessPath(s);
    if p.divider.Some? {
      var k := |s| - |p.rest|;
      if p.divider == Some(BracketDiv) {
        assert s[k - 1..] == "[" + p.rest;
        NoMinusSuffix(s, k - 1);
      } else {
        NoMinusSuffix(s, k);
      }
    }
  }

  /* ---- the invariant of the walk ---- */

  ghost predicate Inside(a: Access) {
    a.within.addr <= a.addr && a.addr + a.size <= a.within.addr + a.within.size
  }

  ghost predicate AllInside(log: seq<Access>) {
    forall i :: 0 <= i < |log| ==> Inside(log[i])
  }

  ghost predicate OnTrack(st: State) {
    && WellFormed(st.ty) && st.count >= 1
    && Inside(Access(st.addr, Size(st.ty) * st.count, st.within))
    && AllInside(st.log)
  }

  lemma HopOnTrack(table: TypeTable, word: int -> int, st: State)
    requires WellFormedTable(table) && OnTrack(st) && Hop(table, word, st).Some?
    ensures var there := Hop(table, word, st).value;
      && WellFormed(there.ty) && there.count == st.count && AllInside(there.log)
      && there.within == Extent(there.addr, Size(there.ty))
  {
    var id := if st.ty.Pointer? then st.ty.target.value else st.ty.referent;
    ResolveKeeps(table[id]);
    MulMono(1, st.count, 4);
    assert Inside(Access(st.addr, 4, st.within));
  }

  lemma FollowOnTrack(st: State, base: int, p: Parts)
    requires WellFormed(st.ty) && st.count == 1 && AllInside(st.log) && FindMember(st.ty, p.name).Some?
    requires Inside(Access(base, Size(st.ty), st.within))
    ensures OnTrack(Follow(st, FindMember(st.ty, p.name).value, base, p))
  {
    MemberInside(st.ty, p.name);
  }

  /** A range of elements of an array, scaled to bytes, stays inside the array. */
  lemma ElementsInside(e: Type, dims: seq<int>, idx: seq<int>)
    requires WellFormed(e) && Positive(dims) && BelowDims(idx, dims) && Offset(idx, dims) >= 0
    ensures 0 <= Size(e) * Offset(idx, dims)
    ensures Size(e) * Offset(idx, dims) + Size(e) * Block(|idx|, dims) <= Prod(dims) * Size(e)
    ensures Block(|idx|, dims) >= 1
  {
    SizeNonNegative(e);
    UpperEnd(idx, dims);
    ProdPositive(dims[|idx|..]);
    assert Block(|idx|, dims) >= 1;
    hide Offset, Block, Prod, Size, WellFormed, Positive, BelowDims;
    Scaled(Offset(idx, dims), Block(|idx|, dims), Prod(dims), Size(e));
  }

  lemma Scaled(o: int, b: int, n: int, z: int)
    requires o >= 0 && o + b <= n && z >= 0
    ensures 0 <= z * o && z * o + z * b <= n * z
  {
    MulMono(0, o, z);
    MulMono(o + b, n, z);
    assert (o + b) * z == z * o + z * b;
  }

  lemma BracketOnTrack(st: State)
    requires OnTrack(st) && st.count == 1 && NoMinus("[" + st.rest) && StepBracket(st).Some?
    ensures OnTrack(StepBracket(st).value)
    ensures NoMinus(Ahead(StepBracket(st).value.divider, StepBracket(st).value.rest))
  {
    hide ArrayIndices, SplitAccessPath, Offset, Prod, OnTrack, ArrayMemberOffset;
    var ix := ArrayIndices("[" + st.rest).value;
    IndicesNonNegative("[" + st.rest);
    LocatedOnTrack(st, ix.values, SplitAccessPath("ARRAY" + ix.rest));
    SplitKeepsNoMinus("ARRAY" + ix.rest);
  }

  lemma LocatedOnTrack(st: State, idx: seq<int>, p: Parts)
    requires OnTrack(st) && st.count == 1 && ArrayMemberOffset(st.ty, idx).Some?
    requires forall i :: 0 <= i < |idx| ==> idx[i] >= 0
    ensures var loc := ArrayMemberOffset(st.ty, idx).value;
      OnTrack(st.(ty := loc.ty, addr := st.addr + Size(loc.ty) * loc.offset, count := loc.count,
                  divider := p.divider, rest := p.rest))
  {
    var e, dims := st.ty.element, Dims(st.ty.upperBounds);
    ResolveKeeps(e);
    LowerEnd(idx, dims);
    ElementsInside(Resolve(e), dims, idx);
    hide Offset, Prod;
  }

  /** One step keeps the walk inside the object it is in, or enters the designated object. */
  lemma StepOnTrack(table: TypeTable, word: int -> int, st: State)
    requires WellFormedTable(table) && OnTrack(st) && st.divider.Some? && NoMinus(Ahead(st.divider, st.rest))
    requires Step(table, word, st).Some?
    ensures OnTrack(Step(table, word, st).value)
    ensures NoMinus(Ahead(Step(table, word, st).value.divider, Step(table, word, st).value.rest))
  {
    hide SplitAccessPath, ArrayIndices, FindMember, OnTrack, WellFormedTable;
    match st.divider.value
    case DotDiv =>
      OnTrackMeans(st);
      SplitKeepsNoMinus(st.rest);
      FollowOnTrack(st, st.addr, SplitAccessPath(st.rest));
    case ArrowDiv =>
      OnTrackMeans(st);
      SplitKeepsNoMinus(st.rest);
      HopOnTrack(table, word, st);
      var there := Hop(table, word, st).value;
      FollowOnTrack(there, there.addr, SplitAccessPath(st.rest));
    case BracketDiv =>
      OnTrackMeans(st);
      BracketOnTrack(st);
  }

  lemma OnTrackMeans(st: State)
    requires OnTrack(st)
    ensures WellFormed(st.ty) && st.count >= 1 && AllInside(st.log)
    ensures st.count == 1 ==> Inside(Access(st.addr, Size(st.ty), st.within))
  {
  }

  /* ---- the result ---- */

  /** All reads but the last are inside; the last one is the result's own. */
  ghost predicate ReadsInside(r: Outcome) {
    r.Value? ==>
      && r.log != []
      && AllInside(r.log[..|r.log| - 1])
      && r.log[|r.log| - 1].addr == r.addr && r.log[|r.log| - 1].size == r.bytes
      && (Inside(r.log[|r.log| - 1]) <==> !r.dereferenced || r.count == 1 || Size(r.ty) == 0)
  }

  ghost predicate Arrived(st: State, dereferenced: bool) {
    && WellFormed(st.ty) && st.count >= 1 && AllInside(st.log)
    && if dereferenced then st.within == Extent(st.addr, Size(st.ty))
       else Inside(Access(st.addr, Size(st.ty) * st.count, st.within))
  }

  lemma ArrivedHop(table: TypeTable, word: int -> int, st: State, dereferenced: bool)
    requires WellFormedTable(table) && Arrived(st, dereferenced) && Hop(table, word, st).Some?
    ensures Arrived(Hop(table, word, st).value, true)
  {
    if dereferenced {
      var one := st.(count := 1);
      HopOnTrack(table, word, one);
    } else {
      HopOnTrack(table, word, st);
    }
  }

  lemma {:induction false} ArrivedStars(table: TypeTable, word: int -> int, stars: nat, st: State, dereferenced: bool)
    requires WellFormedTable(table) && Arrived(st, dereferenced) && HopStars(table, word, stars, st).Some?
    ensures Arrived(HopStars(table, word, stars, st).value, dereferenced || stars > 0)
    decreases stars
  {
    hide Arrived, Hop, WellFormedTable;
    if stars > 0 {
      ArrivedHop(table, word, st, dereferenced);
      ArrivedStars(table, word, stars - 1, Hop(table, word, st).value, true);
    }
  }

  lemma FinishInside(table: TypeTable, word: int -> int, stars: nat, st: State)
    requires WellFormedTable(table) && OnTrack(st)
    ensures ReadsInside(Finish(table, word, stars, st))
  {
    if Finish(table, word, stars, st).Value? {
      ArrivedStars(table, word, stars, st, false);
      var there := HopStars(table, word, stars, st).value;
      var last := there;
      if there.ty.Reference? {
        ArrivedHop(table, word, there, stars > 0);
        last := Hop(table, word, there).value;
      }
      LastRead(last, stars > 0 || there.ty.Reference?);
      assert (last.log + [Access(last.addr, Size(last.ty) * last.count, last.within)])[..|last.log|] == last.log;
    }
  }

  lemma LastRead(st: State, dereferenced: bool)
    requires Arrived(st, dereferenced)
    ensures Inside(Access(st.addr, Size(st.ty) * st.count, st.within))
       <==> !dereferenced || st.count == 1 || Size(st.ty) == 0
  {
    SizeNonNegative(st.ty);
    if dereferenced {
      Multiple(Size(st.ty), st.count);
    }
  }

  lemma Multiple(z: int, n: int)
    requires z >= 0 && n >= 1
    ensures z * n <= z <==> n == 1 || z == 0
  {
    if n > 1 && z > 0 {
      MulMono(2, n, z);
    }
  }

  lemma {:induction false} WalkInside(table: TypeTable, word: int -> int, stars: nat, st: State)
    requires WellFormedTable(table) && OnTrack(st) && NoMinus(Ahead(st.divider, st.rest))
    ensures ReadsInside(Walk(table, word, stars, st))
    decreases Rank(st)
  {
    hide OnTrack, WellFormedTable, Step, Finish, ReadsInside, NoMinus;
    if st.divider.None? {
      FinishInside(table, word, stars, st);
    } else if Step(table, word, st).Some? {
      StepOnTrack(table, word, st);
      StepShortens(table, word, st);
      WalkInside(table, word, stars, Step(table, word, st).value);
    } else {
      FailedInside();
    }
  }

  lemma FailedInside()
    ensures ReadsInside(Failed)
  {
  }

  /** For every path text without a negative index: each pointer is read inside the object it is stored
      in, and the final read stays inside its object unless several array elements were selected and
      then dereferenced, in which case it overruns the designated object. */
  lemma MemAccessInside(table: TypeTable, vars: map<string, Variable>, word: int -> int, path: string)
    requires WellFormedTable(table) && forall v :: v in vars ==> WellFormed(vars[v].ty)
    requires NoMinus(path)
    ensures ReadsInside(MemAccess(table, vars, word, path))
  {
    match Start(vars, path)
    case None =>
    case Some(st) =>
      var v := vars[SplitAccessPath(path[Stars(path)..]).name];
      ResolveKeeps(v.ty);
      NoMinusSuffix(path, Stars(path));
      SplitKeepsNoMinus(path[Stars(path)..]);
      WalkInside(table, word, Stars(path), st);
  }
}
