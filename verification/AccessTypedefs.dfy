/** Typedefs are transparent: wherever a type is replaced by a name for it, every access path has the same outcome. */
module AccessTypedefs {
  import opened AccessPath
  import opened Wrappers

  /** The type with the typedefs at every depth replaced by what they name. */
  function Bare(t: Type): Type {
    match t
    case Record(n, ms) =>
      Record(n, seq(|ms|, i requires 0 <= i < |ms| => Member(ms[i].name, ms[i].address, Bare(ms[i].ty))))
    case Array(e, ubs) => Array(Bare(e), ubs)
    case Typedef(u) => Bare(u)
    case Qualified(u) => Qualified(Bare(u))
    case _ => t
  }

  ghost predicate SameMembers(ms: seq<Member>, ks: seq<Member>) {
    && |ms| == |ks|
    && forall i :: 0 <= i < |ms| ==>
         ms[i].name == ks[i].name && ms[i].address == ks[i].address && Bare(ms[i].ty) == Bare(ks[i].ty)
  }

  ghost predicate SameMember(m: Option<Member>, k: Option<Member>) {
    && (m.Some? <==> k.Some?)
    && (m.Some? ==> m.value.name == k.value.name && m.value.address == k.value.address && Bare(m.value.ty) == Bare(k.value.ty))
  }

  lemma {:induction false} ResolvedIsBare(t: Type)
    ensures !Resolve(t).Typedef? && Bare(Resolve(t)) == Bare(t) && Size(Resolve(t)) == Size(t)
  {
    if t.Typedef? {
      ResolvedIsBare(t.of);
    }
  }

  lemma {:induction false} SizeIsBare(t: Type)
    ensures Size(Bare(t)) == Size(t)
  {
    match t
    case Array(e, _) => SizeIsBare(e);
    case Typedef(u) => SizeIsBare(u);
    case Qualified(u) => SizeIsBare(u);
    case _ =>
  }

  /** Types that are no typedefs and have the same bare form are built alike. */
  lemma SameShape(t: Type, u: Type)
    requires Bare(t) == Bare(u) && !t.Typedef? && !u.Typedef?
    ensures Size(t) == Size(u)
    ensures t.Record? <==> u.Record?
    ensures t.Record? ==> SameMembers(t.members, u.members)
    ensures t.Array? <==> u.Array?
    ensures t.Array? ==> Bare(t.element) == Bare(u.element) && t.upperBounds == u.upperBounds
    ensures t.Pointer? || t.Reference? || u.Pointer? || u.Reference? ==> t == u
  {
    SizeIsBare(t);
    SizeIsBare(u);
    if t.Record? {
      forall i | 0 <= i < |t.members|
        ensures t.members[i].name == u.members[i].name && t.members[i].address == u.members[i].address
        ensures Bare(t.members[i].ty) == Bare(u.members[i].ty)
      {
        assert Bare(t).members[i] == Bare(u).members[i];
      }
    }
  }

  lemma {:induction false} SameNamed(ms: seq<Member>, ks: seq<Member>, name: string)
    requires SameMembers(ms, ks)
    ensures SameMember(FindNamed(ms, name), FindNamed(ks, name))
  {
    if ms != [] {
      SameNamed(ms[1..], ks[1..], name);
    }
  }

  lemma SameInside(t: Type, u: Type, name: string)
    requires Bare(t) == Bare(u)
    ensures FindNamed(Members(Resolve(t)), name).Some? <==> FindNamed(Members(Resolve(u)), name).Some?
  {
    ResolvedIsBare(t);
    ResolvedIsBare(u);
    SameShape(Resolve(t), Resolve(u));
    SameNamed(Members(Resolve(t)), Members(Resolve(u)), name);
  }

  lemma {:induction false} SameUnnamed(ms: seq<Member>, ks: seq<Member>, name: string)
    requires SameMembers(ms, ks)
    ensures SameMember(FindUnnamed(ms, name), FindUnnamed(ks, name))
  {
    if ms != [] {
      SameInside(ms[0].ty, ks[0].ty, name);
      SameUnnamed(ms[1..], ks[1..], name);
    }
  }

  lemma SameFound(t: Type, u: Type, name: string)
    requires Bare(t) == Bare(u) && !t.Typedef? && !u.Typedef?
    ensures SameMember(FindMember(t, name), FindMember(u, name))
  {
    SameShape(t, u);
    SameNamed(Members(t), Members(u), name);
    SameUnnamed(Members(t), Members(u), name);
  }

  /* ---- the same walk ---- */

  ghost predicate SameState(s: State, u: State) {
    s == u.(ty := s.ty) && Bare(s.ty) == Bare(u.ty) && !s.ty.Typedef? && !u.ty.Typedef?
  }

  ghost predicate SameNext(s: Option<State>, u: Option<State>) {
    (s.Some? <==> u.Some?) && (s.Some? ==> SameState(s.value, u.value))
  }

  ghost predicate SameTable(a: TypeTable, b: TypeTable) {
    a.Keys == b.Keys && forall id :: id in a ==> Bare(a[id]) == Bare(b[id])
  }

  ghost predicate SameVariables(a: map<string, Variable>, b: map<string, Variable>) {
    a.Keys == b.Keys && forall v :: v in a ==> a[v].addr == b[v].addr && Bare(a[v].ty) == Bare(b[v].ty)
  }

  /** Equal but for the names of types. */
  ghost predicate SameOutcome(r: Outcome, q: Outcome) {
    match r
    case Failed => q.Failed?
    case Value(_, _, ty, _, _, _) => q.Value? && r == q.(ty := ty) && Bare(ty) == Bare(q.ty)
  }

  lemma SameHop(a: TypeTable, b: TypeTable, word: int -> int, s: State, u: State)
    requires SameTable(a, b) && SameState(s, u)
    ensures SameNext(Hop(a, word, s), Hop(b, word, u))
  {
    SameShape(s.ty, u.ty);
    if (s.ty.Pointer? && s.ty.target.Some?) || s.ty.Reference? {
      var id := if s.ty.Pointer? then s.ty.target.value else s.ty.referent;
      if id in a {
        var t, v := a[id], b[id];
        ResolvedIsBare(t);
        ResolvedIsBare(v);
        SizeIsBare(t);
        SizeIsBare(v);
      }
    }
  }

  lemma SameFollow(s: State, u: State, m: Member, k: Member, p: Parts)
    requires SameState(s, u) && SameMember(Some(m), Some(k))
    ensures SameState(Follow(s, m, s.addr, p), Follow(u, k, u.addr, p))
  {
    ResolvedIsBare(m.ty);
    ResolvedIsBare(k.ty);
  }

  lemma SameElements(t: Type, u: Type, idx: seq<int>)
    requires Bare(t) == Bare(u) && !t.Typedef? && !u.Typedef?
    ensures var l, k := ArrayMemberOffset(t, idx), ArrayMemberOffset(u, idx);
      && (l.Some? <==> k.Some?)
      && (l.Some? ==> l.value == k.value.(ty := l.value.ty) && Bare(l.value.ty) == Bare(k.value.ty)
                      && !l.value.ty.Typedef? && !k.value.ty.Typedef? && Size(l.value.ty) == Size(k.value.ty))
  {
    SameShape(t, u);
    if t.Array? {
      ResolvedIsBare(t.element);
      ResolvedIsBare(u.element);
      SizeIsBare(t.element);
      SizeIsBare(u.element);
    }
  }

  lemma SameStep(a: TypeTable, b: TypeTable, word: int -> int, s: State, u: State)
    requires SameTable(a, b) && SameState(s, u) && s.divider.Some?
    ensures SameNext(Step(a, word, s), Step(b, word, u))
  {
    hide FindMember, Hop, ArrayMemberOffset, SplitAccessPath, ArrayIndices, Size, AccessPath.Follow;
    match s.divider.value
    case DotDiv => SameDot(s, u);
    case ArrowDiv => SameArrow(a, b, word, s, u);
    case BracketDiv => SameBracket(s, u);
  }

  lemma SameDot(s: State, u: State)
    requires SameState(s, u)
    ensures SameNext(StepDot(s), StepDot(u))
  {
    hide FindMember, SplitAccessPath, AccessPath.Follow;
    var p := SplitAccessPath(s.rest);
    SameFound(s.ty, u.ty, p.name);
    if FindMember(s.ty, p.name).Some? {
      SameFollow(s, u, FindMember(s.ty, p.name).value, FindMember(u.ty, p.name).value, p);
    }
  }

  lemma SameArrow(a: TypeTable, b: TypeTable, word: int -> int, s: State, u: State)
    requires SameTable(a, b) && SameState(s, u)
    ensures SameNext(StepArrow(a, word, s), StepArrow(b, word, u))
  {
    hide FindMember, Hop, SplitAccessPath, AccessPath.Follow;
    SameShape(s.ty, u.ty);
    SameHop(a, b, word, s, u);
    if s.ty.Pointer? && Hop(a, word, s).Some? {
      var x, y := Hop(a, word, s).value, Hop(b, word, u).value;
      var p := SplitAccessPath(s.rest);
      SameFound(x.ty, y.ty, p.name);
      if FindMember(x.ty, p.name).Some? {
        SameFollow(x, y, FindMember(x.ty, p.name).value, FindMember(y.ty, p.name).value, p);
      }
    }
  }

  lemma SameBracket(s: State, u: State)
    requires SameState(s, u)
    ensures SameNext(StepBracket(s), StepBracket(u))
  {
    hide ArrayMemberOffset, SplitAccessPath, ArrayIndices, Size;
    var ix := ArrayIndices("[" + s.rest);
    if ix.Some? {
      SameElements(s.ty, u.ty, ix.value.values);
    }
  }

  lemma {:induction false} SameStars(a: TypeTable, b: TypeTable, word: int -> int, stars: nat, s: State, u: State)
    requires SameTable(a, b) && SameState(s, u)
    ensures SameNext(HopStars(a, word, stars, s), HopStars(b, word, stars, u))
    decreases stars
  {
    hide Hop;
    if stars > 0 {
      SameHop(a, b, word, s, u);
      if Hop(a, word, s).Some? {
        SameStars(a, b, word, stars - 1, Hop(a, word, s).value, Hop(b, word, u).value);
      }
    }
  }

  lemma SameFinish(a: TypeTable, b: TypeTable, word: int -> int, stars: nat, s: State, u: State)
    requires SameTable(a, b) && SameState(s, u)
    ensures SameOutcome(Finish(a, word, stars, s), Finish(b, word, stars, u))
    ensures Finish(a, word, stars, s).Value? ==> !Finish(a, word, stars, s).ty.Typedef?
  {
    hide Hop, HopStars, Size;
    SameStars(a, b, word, stars, s, u);
    if HopStars(a, word, stars, s).Some? {
      var x, y := HopStars(a, word, stars, s).value, HopStars(b, word, stars, u).value;
      SameShape(x.ty, y.ty);
      SameHop(a, b, word, x, y);
      if x.ty.Reference? && Hop(a, word, x).Some? {
        SameShape(Hop(a, word, x).value.ty, Hop(b, word, y).value.ty);
      }
    }
  }

  lemma {:induction false} SameWalk(a: TypeTable, b: TypeTable, word: int -> int, stars: nat, s: State, u: State)
    requires SameTable(a, b) && SameState(s, u)
    ensures SameOutcome(Walk(a, word, stars, s), Walk(b, word, stars, u))
    ensures Walk(a, word, stars, s).Value? ==> !Walk(a, word, stars, s).ty.Typedef?
    decreases Rank(s)
  {
    hide Step, Finish;
    if s.divider.None? {
      SameFinish(a, b, word, stars, s, u);
    } else {
      SameStep(a, b, word, s, u);
      if Step(a, word, s).Some? {
        StepShortens(a, word, s);
        SameWalk(a, b, word, stars, Step(a, word, s).value, Step(b, word, u).value);
      }
    }
  }

  /** Types of variables, members, elements and pointees may be replaced by names for them, or names by what they stand for,
      anywhere and at any depth: no path has another outcome but for such names. The type that is reached is never a name. */
  lemma TypedefsAreTransparent(a: TypeTable, b: TypeTable, vars: map<string, Variable>, named: map<string, Variable>,
                               word: int -> int, path: string)
    requires SameTable(a, b) && SameVariables(vars, named)
    ensures SameOutcome(MemAccess(a, vars, word, path), MemAccess(b, named, word, path))
    ensures MemAccess(a, vars, word, path).Value? ==> !MemAccess(a, vars, word, path).ty.Typedef?
  {
    hide Walk, SplitAccessPath, Stars, Size;
    var name := SplitAccessPath(path[Stars(path)..]).name;
    if name in vars {
      var t, u := vars[name].ty, named[name].ty;
      ResolvedIsBare(t);
      ResolvedIsBare(u);
      SizeIsBare(t);
      SizeIsBare(u);
      SameWalk(a, b, word, Stars(path), Start(vars, path).value, Start(named, path).value);
    }
  }

  /** A variable whose type gets a name: every path gives exactly what it gave. */
  lemma NamedVariable(table: TypeTable, vars: map<string, Variable>, word: int -> int, path: string, v: string)
    requires v in vars
    ensures MemAccess(table, vars[v := Variable(vars[v].addr, Typedef(vars[v].ty))], word, path)
         == MemAccess(table, vars, word, path)
  {
    hide Walk, SplitAccessPath, Stars;
  }
}
