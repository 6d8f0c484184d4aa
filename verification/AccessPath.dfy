/** Reading a C variable through an access path such as `*s.ptr->matrix[2][3].x`, guided by its
    debugging-information type. Memory is a function from addresses to the word stored there. */
module AccessPath {
  import opened ArrayLayout
  import opened Wrappers

  /* ---- types ---- */

  datatype Member = Member(name: Option<string>, address: nat, ty: Type)

  /** Type entries. Pointers and references name the entry they lead to, so types are trees. */
  datatype Type =
    | Base(bytes: nat)
    | Record(bytes: nat, members: seq<Member>)            // structure, class or union
    | Array(element: Type, upperBounds: seq<Option<int>>) // one per subrange; None where it is absent
    | Pointer(target: Option<int>)                        // None for a pointer to void
    | Reference(referent: int)
    | Typedef(of: Type)
    | Qualified(of: Type)                                 // const or volatile

  type TypeTable = map<int, Type>

  /** Dimensions of the subranges that have an upper bound. */
  function Dims(ubs: seq<Option<int>>): seq<int> {
    if ubs == [] then [] else
      (match ubs[0] case Some(u) => [u + 1] case None => []) + Dims(ubs[1..])
  }

  function Size(t: Type): int {
    match t
    case Base(n) => n
    case Record(n, _) => n
    case Array(e, ubs) => Prod(Dims(ubs)) * Size(e)
    case Pointer(_) => 4
    case Reference(_) => 4
    case Typedef(u) => Size(u)
    case Qualified(u) => Size(u)
  }

  /** Looks through typedefs, but not through qualifiers. */
  function Resolve(t: Type): Type {
    match t
    case Typedef(u) => Resolve(u)
    case _ => t
  }

  function Dereference(table: TypeTable, t: Type): Option<Type> {
    match t
    case Pointer(Some(id)) => if id in table then Some(Resolve(table[id])) else None
    case Reference(id) => if id in table then Some(Resolve(table[id])) else None
    case _ => None
  }

  function Members(t: Type): seq<Member> {
    if t.Record? then t.members else []
  }

  function FindNamed(ms: seq<Member>, name: string): Option<Member> {
    if ms == [] then None
    else if ms[0].name == Some(name) then Some(ms[0])
    else FindNamed(ms[1..], name)
  }

  /** The unnamed member whose own type has a member of that name. */
  function FindUnnamed(ms: seq<Member>, name: string): Option<Member> {
    if ms == [] then None
    else if ms[0].name.None? && FindNamed(Members(Resolve(ms[0].ty)), name).Some? then Some(ms[0])
    else FindUnnamed(ms[1..], name)
  }

  function FindMember(t: Type, name: string): Option<Member> {
    match FindNamed(Members(t), name)
    case Some(m) => Some(m)
    case None => FindUnnamed(Members(t), name)
  }

  /* ---- splitting a path ---- */

  datatype Divider = DotDiv | ArrowDiv | BracketDiv

  datatype Parts = Parts(name: string, divider: Option<Divider>, rest: string)

  predicate WordChar(c: char) {
    'a' <= c <= 'z' || 'A' <= c <= 'Z' || '0' <= c <= '9' || c == '_' || c == ':'
  }

  function Stars(s: string): (n: nat)
    ensures n <= |s|
  {
    if s != [] && s[0] == '*' then 1 + Stars(s[1..]) else 0
  }

  function WordLength(s: string): (n: nat)
    ensures n <= |s|
  {
    if s != [] && WordChar(s[0]) then 1 + WordLength(s[1..]) else 0
  }

  /** Name (with leading stars), divider and rest; everything is the name when no divider follows a name. */
  function SplitAccessPath(s: string): (p: Parts)
    ensures p.divider.Some? ==> |p.rest| < |s| && p.rest == s[|s| - |p.rest|..]
  {
    var k := Stars(s);
    var w := WordLength(s[k..]);
    var n := k + w;
    if w == 0 || n == |s| then Parts(s, None, [])
    else if s[n] == '.' then Parts(s[..n], Some(DotDiv), s[n + 1..])
    else if s[n] == '[' then Parts(s[..n], Some(BracketDiv), s[n + 1..])
    else if n + 1 < |s| && s[n] == '-' && s[n + 1] == '>' then Parts(s[..n], Some(ArrowDiv), s[n + 2..])
    else Parts(s, None, [])
  }

  function FindChar(s: string, c: char): Option<nat> {
    if s == [] then None
    else if s[0] == c then Some(0)
    else match FindChar(s[1..], c) case None => None case Some(i) => Some(i + 1)
  }

  lemma FindCharAt(s: string, c: char)
    ensures FindChar(s, c).Some? ==> FindChar(s, c).value < |s| && s[FindChar(s, c).value] == c
  {
  }

  predicate IsDigit(c: char) {
    '0' <= c <= '9'
  }

  /** ASCII white space, which `int` ignores around a number. */
  predicate Space(c: char) {
    9 <= c as int <= 13 || 28 <= c as int <= 32
  }

  function Strip(s: string): (r: string)
    ensures |r| <= |s|
  {
    if s != [] && Space(s[0]) then Strip(s[1..])
    else if s != [] && Space(s[|s| - 1]) then Strip(s[..|s| - 1])
    else s
  }

  /** The text before the last digit, without an underscore next to it. */
  function BeforeLast(s: string): (r: string)
    requires s != []
    ensures |r| < |s|
  {
    var more := s[..|s| - 1];
    if more != [] && more[|more| - 1] == '_' then more[..|more| - 1] else more
  }

  function DigitValue(c: char): nat
    requires IsDigit(c)
  {
    c as int - '0' as int
  }

  /** Decimal digits, with single underscores between them. */
  function Digits(s: string): Option<nat> {
    if s == [] || !IsDigit(s[|s| - 1]) then None
    else if |s| == 1 then Some(DigitValue(s[0]))
    else match Digits(BeforeLast(s)) case None => None case Some(n) => Some(10 * n + DigitValue(s[|s| - 1]))
  }

  /** What `int` makes of a text: an optional sign and digits, with white space around them. */
  function ParseInt(text: string): Option<int> {
    var s := Strip(text);
    if s != [] && (s[0] == '-' || s[0] == '+') then
      match Digits(s[1..]) case None => None case Some(n) => var v: int := n; Some(if s[0] == '-' then -v else v)
    else match Digits(s) case None => None case Some(n) => Some(n)
  }

  datatype Indices = Indices(values: seq<int>, rest: string)

  /** The leading run of bracketed integers. */
  function ArrayIndices(s: string): (r: Option<Indices>)
    ensures r.Some? ==> |r.value.rest| <= |s|
    ensures r.Some? && s != [] && s[0] == '[' ==> |r.value.rest| + 2 <= |s|
    decreases |s|
  {
    if s == [] || s[0] != '[' then Some(Indices([], s)) else
      FindCharAt(s, ']');
      match FindChar(s, ']')
      case None => None
      case Some(close) =>
        if close == 0 then None else
        match ParseInt(s[1..close])
        case None => None
        case Some(i) =>
          match ArrayIndices(s[close + 1..])
          case None => None
          case Some(more) => Some(Indices([i] + more.values, more.rest))
  }

  /* ---- one member offset of an array ---- */

  datatype Located = Located(ty: Type, offset: int, count: int)

  /** Element type, offset in elements and number of elements for a prefix of indices.
      A pointer has no dimensions, so indexing it always fails. */
  function ArrayMemberOffset(t: Type, idx: seq<int>): Option<Located> {
    match t
    case Array(e, ubs) =>
      if idx != [] && |idx| <= |Dims(ubs)| && forall i :: 0 <= i < |idx| ==> idx[i] < Dims(ubs)[i] then
        Some(Located(Resolve(e), Offset(idx, Dims(ubs)), Prod(Dims(ubs)[|idx|..])))
      else None
    case _ => None
  }

  /* ---- evaluation ---- */

  datatype Extent = Extent(addr: int, size: int)

  /** One call of the memory reader. `within` is bookkeeping: the object the access is meant to stay in. */
  datatype Access = Access(addr: int, size: int, within: Extent)

  datatype Variable = Variable(addr: int, ty: Type)

  /** Where the walk stands: `count` values of type `ty` at `addr`, and the path still to follow. */
  datatype State = State(ty: Type, addr: int, count: int, divider: Option<Divider>, rest: string,
                         within: Extent, log: seq<Access>)

  datatype Outcome =
    | Failed
    | Value(addr: int, bytes: int, ty: Type, count: int, dereferenced: bool, log: seq<Access>)

  /** The variable the path starts from, after stripping the leading stars. */
  function Start(vars: map<string, Variable>, path: string): Option<State> {
    var p := SplitAccessPath(path[Stars(path)..]);
    if p.name !in vars then None else
      var v := vars[p.name];
      Some(State(Resolve(v.ty), v.addr, 1, p.divider, p.rest, Extent(v.addr, Size(v.ty)), []))
  }

  function Follow(st: State, m: Member, base: int, p: Parts): State {
    st.(ty := Resolve(m.ty), addr := base + m.address, divider := p.divider, rest := p.rest)
  }

  /** Read the pointer or reference at the current address and go where it leads. */
  function Hop(table: TypeTable, word: int -> int, st: State): Option<State> {
    match Dereference(table, st.ty)
    case None => None
    case Some(u) =>
      var there := word(st.addr);
      Some(st.(ty := u, addr := there, within := Extent(there, Size(u)),
               log := st.log + [Access(st.addr, 4, st.within)]))
  }

  function StepDot(st: State): Option<State> {
    var p := SplitAccessPath(st.rest);
    match FindMember(st.ty, p.name)
    case None => None
    case Some(m) => Some(Follow(st, m, st.addr, p))
  }

  function StepArrow(table: TypeTable, word: int -> int, st: State): Option<State> {
    if !st.ty.Pointer? then None else
      match Hop(table, word, st)
      case None => None
      case Some(there) =>
        var p := SplitAccessPath(st.rest);
        match FindMember(there.ty, p.name)
        case None => None
        case Some(m) => Some(Follow(there, m, there.addr, p))
  }

  function StepBracket(st: State): Option<State> {
    match ArrayIndices("[" + st.rest)
    case None => None
    case Some(ix) =>
      match ArrayMemberOffset(st.ty, ix.values)
      case None => None
      case Some(loc) =>
        var p := SplitAccessPath("ARRAY" + ix.rest);
        Some(st.(ty := loc.ty, addr := st.addr + Size(loc.ty) * loc.offset, count := loc.count,
                 divider := p.divider, rest := p.rest))
  }

  function Step(table: TypeTable, word: int -> int, st: State): Option<State>
    requires st.divider.Some?
  {
    if st.count > 1 then None else
      match st.divider.value
      case DotDiv => StepDot(st)
      case ArrowDiv => StepArrow(table, word, st)
      case BracketDiv => StepBracket(st)
  }

  function HopStars(table: TypeTable, word: int -> int, stars: nat, st: State): Option<State> {
    if stars == 0 then Some(st) else
      match Hop(table, word, st)
      case None => None
      case Some(there) => HopStars(table, word, stars - 1, there)
  }

  /** At the end of the path: leading stars first, then a reference, then the read itself. */
  function Finish(table: TypeTable, word: int -> int, stars: nat, st: State): Outcome {
    match HopStars(table, word, stars, st)
    case None => Failed
    case Some(there) =>
      match (if there.ty.Reference? then Hop(table, word, there) else Some(there))
      case None => Failed
      case Some(last) =>
        var bytes := Size(last.ty) * last.count;
        Value(last.addr, bytes, last.ty, last.count, stars > 0 || there.ty.Reference?,
              last.log + [Access(last.addr, bytes, last.within)])
  }

  function Rank(st: State): nat {
    if st.divider.None? then 0 else |st.rest| + 1
  }

  lemma StepShortens(table: TypeTable, word: int -> int, st: State)
    requires st.divider.Some? && Step(table, word, st).Some?
    ensures Rank(Step(table, word, st).value) < Rank(st)
  {
    if st.divider.value == BracketDiv {
      var ix := ArrayIndices("[" + st.rest).value;
      AfterIndices(ix.rest);
    }
  }

  /** The word prefixed to the rest of the path is part of the name that the split drops. */
  lemma AfterIndices(r: string)
    ensures var p := SplitAccessPath("ARRAY" + r);
      p.divider.Some? ==> |p.rest| < |r| && p.rest == r[|r| - |p.rest|..]
  {
    hide WordLength, SplitAccessPath;
    ArrayIsWord(r);
    SplitAfterName("ARRAY" + r);
  }

  lemma ArrayIsWord(r: string)
    ensures WordLength("ARRAY" + r) == 5 + WordLength(r)
  {
    hide WordLength;
    WordPush('Y', r);
    WordPush('A', "Y" + r);
    WordPush('R', "A" + ("Y" + r));
    WordPush('R', "R" + ("A" + ("Y" + r)));
    WordPush('A', "R" + ("R" + ("A" + ("Y" + r))));
    assert "ARRAY" + r == "A" + ("R" + ("R" + ("A" + ("Y" + r))));
  }

  lemma SplitAfterName(s: string)
    requires s != [] && s[0] != '*'
    ensures var p := SplitAccessPath(s);
      p.divider.Some? ==> |p.rest| < |s| - WordLength(s) && p.rest == s[|s| - |p.rest|..]
  {
    hide WordLength;
    assert Stars(s) == 0;
    assert s[0..] == s;
  }

  lemma WordPush(c: char, r: string)
    requires WordChar(c)
    ensures WordLength([c] + r) == 1 + WordLength(r)
  {
    assert ([c] + r)[1..] == r;
  }

  function Walk(table: TypeTable, word: int -> int, stars: nat, st: State): Outcome
    decreases Rank(st)
  {
    if st.divider.None? then Finish(table, word, stars, st) else
      match Step(table, word, st)
      case None => Failed
      case Some(next) =>
        StepShortens(table, word, st);
        Walk(table, word, stars, next)
  }

  /** The value of an access path. */
  function MemAccess(table: TypeTable, vars: map<string, Variable>, word: int -> int, path: string): Outcome {
    match Start(vars, path)
    case None => Failed
    case Some(st) => Walk(table, word, Stars(path), st)
  }

  /* ---- the loops of the program ---- */

  method GetPtrDereferenceCount(name: string) returns (rest: string, count: nat)
    ensures count == Stars(name) && rest == name[count..]
  {
    rest, count := name, 0;
    while rest != [] && rest[0] == '*'
      invariant count <= |name| && rest == name[count..] && count + Stars(rest) == Stars(name)
      decreases |rest|
    {
      rest := rest[1..];
      count := count + 1;
    }
  }

  method GetArrayIndices(path: string) returns (r: Option<Indices>)
    ensures r == ArrayIndices(path)
  {
    var rest, values := path, [];
    assert Prepend(values, ArrayIndices(rest)) == ArrayIndices(path) by {
      if ArrayIndices(path).Some? {
        assert [] + ArrayIndices(path).value.values == ArrayIndices(path).value.values;
      }
    }
    while rest != [] && rest[0] == '['
      invariant Prepend(values, ArrayIndices(rest)) == ArrayIndices(path)
      decreases |rest|
    {
      FindCharAt(rest, ']');
      var close := FindChar(rest, ']');
      if close.None? {
        return None;
      }
      var i := if close.value == 0 then None else ParseInt(rest[1..close.value]);
      if i.None? {
        return None;
      }
      PrependOne(values, i.value, ArrayIndices(rest[close.value + 1..]));
      values := values + [i.value];
      rest := rest[close.value + 1..];
    }
    assert values + [] == values;
    return Some(Indices(values, rest));
  }

  ghost function Prepend(values: seq<int>, r: Option<Indices>): Option<Indices> {
    match r case None => None case Some(ix) => Some(Indices(values + ix.values, ix.rest))
  }

  lemma PrependOne(values: seq<int>, i: int, r: Option<Indices>)
    ensures Prepend(values + [i], r) == Prepend(values, match r case None => None case Some(ix) => Some(Indices([i] + ix.values, ix.rest)))
  {
    if r.Some? {
      assert (values + [i]) + r.value.values == values + ([i] + r.value.values);
    }
  }

  /** Where a list of indices leads; there is no type behind a pointer to void. */
  datatype Place = Place(ty: Option<Type>, offset: int, count: int)

  /** No indices at all select one element at offset zero, of what a pointer leads to as well. */
  function PlaceOf(table: TypeTable, t: Type, idx: seq<int>): Option<Place> {
    if idx != [] then
      match ArrayMemberOffset(t, idx)
      case None => None
      case Some(loc) => Some(Place(Some(loc.ty), loc.offset, loc.count))
    else
      match t
      case Array(e, _) => Some(Place(Some(Resolve(e)), 0, 1))
      case Pointer(None) => Some(Place(None, 0, 1))
      case Pointer(Some(_)) => (match Dereference(table, t) case None => None case Some(u) => Some(Place(Some(u), 0, 1)))
      case _ => None
  }

  /** Builds the subarray sizes from the last dimension back, then sums index times size. */
  method GetArrayMemberOffset(table: TypeTable, t: Type, idx: seq<int>) returns (r: Option<Place>)
    ensures r == PlaceOf(table, t, idx)
  {
    if !t.Pointer? && !t.Array? {
      return None;
    }
    if t.Pointer? && t.target.Some? && Dereference(table, t).None? {
      return None;
    }
    var element := if t.Array? then Some(Resolve(t.element)) else Dereference(table, t);
    var dims := if t.Array? then Dims(t.upperBounds) else [];
    var sizes := SubarraySizes(dims);
    var offset := 0;
    for i := 0 to |idx|
      invariant i <= |dims| && forall j :: 0 <= j < i ==> idx[j] < dims[j]
      invariant |idx| <= |dims| ==> offset + Offset(idx[i..], dims[i..]) == Offset(idx, dims)
      invariant i == 0 ==> offset == 0
    {
      if i >= |dims| || idx[i] >= dims[i] {
        return None;
      }
      assert dims[i..][1..] == dims[i + 1..] && idx[i..][1..] == idx[i + 1..];
      offset := offset + idx[i] * sizes[i];
    }
    // an empty list counts from the end of the sizes
    return Some(Place(element, offset, sizes[if idx == [] then |sizes| - 1 else |idx| - 1]));
  }

  method SubarraySizes(dims: seq<int>) returns (sizes: seq<int>)
    ensures dims == [] ==> sizes == [1]
    ensures dims != [] ==> |sizes| == |dims|
    ensures sizes[|sizes| - 1] == 1
    ensures forall i :: 0 <= i < |dims| ==> sizes[i] == Prod(dims[i + 1..])
  {
    sizes := [1];
    var i := |dims| - 1;
    while i > 0
      invariant dims != [] ==> 0 <= i < |dims| && |sizes| == |dims| - i
      invariant dims == [] ==> i == -1 && sizes == [1]
      invariant dims != [] ==> forall k :: 0 <= k < |sizes| ==> sizes[k] == Prod(dims[i + k + 1..])
      decreases i
    {
      i := i - 1;
      assert dims[i + 1..][1..] == dims[i + 2..];
      sizes := [dims[i + 1] * sizes[0]] + sizes;
    }
  }

  /** The interpreter loop. */
  method RunMemAccess(table: TypeTable, vars: map<string, Variable>, word: int -> int, path: string) returns (r: Outcome)
    ensures r == MemAccess(table, vars, word, path)
  {
    hide Step, Finish, Stars;
    var rest, stars := GetPtrDereferenceCount(path);
    var start := Start(vars, path);
    if start.None? {
      return Failed;
    }
    var st := start.value;
    while st.divider.Some?
      invariant Walk(table, word, stars, st) == MemAccess(table, vars, word, path)
      decreases Rank(st)
    {
      var next := Step(table, word, st);
      if next.None? {
        return Failed;
      }
      StepShortens(table, word, st);
      st := next.value;
    }
    r := Finish(table, word, stars, st);
  }
}
