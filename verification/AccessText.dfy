/** Access paths as lists of segments: following the text of such a list means following its segments. */
module AccessText {
  import opened ArrayLayout
  import opened AccessPath
  import opened Wrappers

  datatype Segment = Field(name: string) | Via(name: string) | Elements(idx: seq<nat>)

  ghost predicate IsName(s: string) {
    s != [] && forall i :: 0 <= i < |s| ==> WordChar(s[i])
  }

  /** Names are words, subscripts are not empty, and neighbouring subscripts are one segment. */
  ghost predicate Proper(segs: seq<Segment>) {
    && (forall i :: 0 <= i < |segs| ==>
          match segs[i] case Field(n) => IsName(n) case Via(n) => IsName(n) case Elements(idx) => idx != [])
    && forall i :: 0 <= i < |segs| - 1 && segs[i].Elements? ==> !segs[i + 1].Elements?
  }

  /* ---- text ---- */

  function Digit(d: nat): char
    requires d < 10
  {
    (d + '0' as int) as char
  }

  function Decimal(n: nat): string {
    if n < 10 then [Digit(n)] else Decimal(n / 10) + [Digit(n % 10)]
  }

  function Subscripts(idx: seq<nat>): string {
    if idx == [] then [] else "[" + Decimal(idx[0]) + "]" + Subscripts(idx[1..])
  }

  function Text(segs: seq<Segment>): string {
    if segs == [] then [] else
      (match segs[0]
       case Field(n) => "." + n
       case Via(n) => "->" + n
       case Elements(idx) => Subscripts(idx)) + Text(segs[1..])
  }

  /* ---- following segments, without any text ---- */

  function StepSegment(table: TypeTable, word: int -> int, st: State, seg: Segment): Option<State> {
    if st.count > 1 then None else
      match seg
      case Field(n) =>
        (match FindMember(st.ty, n)
         case None => None
         case Some(m) => Some(st.(ty := Resolve(m.ty), addr := st.addr + m.address)))
      case Via(n) =>
        if !st.ty.Pointer? then None else
          (match Hop(table, word, st)
           case None => None
           case Some(there) =>
             match FindMember(there.ty, n)
             case None => None
             case Some(m) => Some(there.(ty := Resolve(m.ty), addr := there.addr + m.address)))
      case Elements(idx) =>
        match ArrayMemberOffset(st.ty, idx)
        case None => None
        case Some(loc) => Some(st.(ty := loc.ty, addr := st.addr + Size(loc.ty) * loc.offset, count := loc.count))
  }

  function Follow(table: TypeTable, word: int -> int, stars: nat, st: State, segs: seq<Segment>): Outcome
    decreases |segs|
  {
    if segs == [] then Finish(table, word, stars, st) else
      match StepSegment(table, word, st, segs[0])
      case None => Failed
      case Some(next) => Follow(table, word, stars, next, segs[1..])
  }

  /* ---- numbers ---- */

  lemma {:induction false} DecimalRoundTrip(n: nat)
    ensures Digits(Decimal(n)) == Some(n)
    ensures Decimal(n) != [] && forall i :: 0 <= i < |Decimal(n)| ==> IsDigit(Decimal(n)[i])
  {
    if n < 10 {
      assert DigitValue(Digit(n)) == n;
    } else {
      DecimalRoundTrip(n / 10);
      hide Digits;
      DigitsLast(Decimal(n / 10), n / 10, n % 10);
    }
  }

  lemma DigitsLast(s: string, n: nat, d: nat)
    requires s != [] && IsDigit(s[|s| - 1]) && Digits(s) == Some(n) && d < 10
    ensures Digits(s + [Digit(d)]) == Some(10 * n + d)
  {
    hide BeforeLast;
    BeforeOneMore(s, Digit(d));
    assert DigitValue(Digit(d)) == d;
  }

  lemma BeforeOneMore(s: string, c: char)
    requires s != [] && IsDigit(s[|s| - 1])
    ensures BeforeLast(s + [c]) == s
  {
    assert (s + [c])[..|s|] == s;
  }

  lemma ParseDecimal(n: nat)
    ensures ParseInt(Decimal(n)) == Some(n)
  {
    DecimalRoundTrip(n);
    hide Decimal, Digits;
    var s := Decimal(n);
    assert IsDigit(s[0]) && IsDigit(s[|s| - 1]);
    assert Strip(s) == s;
  }

  lemma {:induction false} FindAfter(s: string, c: char, t: string)
    requires forall i :: 0 <= i < |s| ==> s[i] != c
    ensures FindChar(s + [c] + t, c) == Some(|s|)
  {
    if s == [] {
      assert s + [c] + t == [c] + t;
    } else {
      FindAfter(s[1..], c, t);
      assert (s + [c] + t)[1..] == s[1..] + [c] + t;
    }
  }

  lemma OneSubscript(i: nat, after: string, s: string)
    requires s == "[" + Decimal(i) + "]" + after
    ensures ArrayIndices(s) ==
      match ArrayIndices(after) case None => None case Some(more) => Some(Indices([i] + more.values, more.rest))
  {
    hide ArrayIndices, Decimal, FindChar, ParseInt;
    var d := Decimal(i);
    DecimalRoundTrip(i);
    ParseDecimal(i);
    FindAfter("[" + d, ']', after);
    var close := |d| + 1;
    assert s[1..close] == d && s[close + 1..] == after;
    IndicesUnfold(s, close, i);
  }

  lemma IndicesUnfold(s: string, close: nat, i: int)
    requires s != [] && s[0] == '[' && FindChar(s, ']') == Some(close) && 0 < close < |s| && ParseInt(s[1..close]) == Some(i)
    ensures ArrayIndices(s) == match ArrayIndices(s[close + 1..])
      case None => None
      case Some(more) => Some(Indices([i] + more.values, more.rest))
  {
    hide FindChar, ParseInt;
  }

  lemma {:induction false} SubscriptsRoundTrip(idx: seq<nat>, tail: string)
    requires tail == [] || tail[0] != '['
    ensures ArrayIndices(Subscripts(idx) + tail) == Some(Indices(idx, tail))
    decreases |idx|
  {
    if idx == [] {
      assert Subscripts(idx) + tail == tail;
    } else {
      hide ArrayIndices, Decimal;
      var after := Subscripts(idx[1..]) + tail;
      var s := Subscripts(idx) + tail;
      Associate("[" + Decimal(idx[0]) + "]", Subscripts(idx[1..]), tail);
      SubscriptsRoundTrip(idx[1..], tail);
      OneSubscript(idx[0], after, s);
      assert [idx[0] as int] + idx[1..] == idx;
    }
  }

  /* ---- names ---- */

  lemma {:induction false} WordOf(name: string, tail: string)
    requires forall i :: 0 <= i < |name| ==> WordChar(name[i])
    requires tail == [] || !WordChar(tail[0])
    ensures WordLength(name + tail) == |name|
  {
    if name == [] {
      assert name + tail == tail;
    } else {
      WordOf(name[1..], tail);
      assert (name + tail)[1..] == name[1..] + tail;
    }
  }

  function DividerOf(segs: seq<Segment>): Option<Divider> {
    if segs == [] then None else
      match segs[0] case Field(_) => Some(DotDiv) case Via(_) => Some(ArrowDiv) case Elements(_) => Some(BracketDiv)
  }

  function RestOf(segs: seq<Segment>): string
    requires Proper(segs)
  {
    if segs == [] then [] else
      match segs[0]
      case Field(n) => n + Text(segs[1..])
      case Via(n) => n + Text(segs[1..])
      case Elements(idx) => (Subscripts(idx) + Text(segs[1..]))[1..]
  }

  lemma ProperTail(segs: seq<Segment>)
    requires Proper(segs) && segs != []
    ensures Proper(segs[1..])
    ensures segs[0].Elements? ==> Text(segs[1..]) == [] || Text(segs[1..])[0] != '['
  {
  }

  lemma SplitHere(name: string, tail: string)
    requires IsName(name) && (tail == [] || !WordChar(tail[0]))
    ensures Stars(name + tail) == 0 && WordLength((name + tail)[0..]) == |name|
    ensures (name + tail)[..|name|] == name && (name + tail)[|name|..] == tail
  {
    WordOf(name, tail);
    assert (name + tail)[0..] == name + tail;
    assert (name + tail)[0] == name[0];
  }

  lemma SplitNone(name: string)
    requires IsName(name)
    ensures SplitAccessPath(name) == Parts(name, None, [])
  {
    SplitHere(name, []);
    assert name + [] == name;
    hide Stars, WordLength;
  }

  lemma SplitDot(name: string, rest: string)
    requires IsName(name)
    ensures SplitAccessPath(name + ("." + rest)) == Parts(name, Some(DotDiv), rest)
  {
    SplitHere(name, "." + rest);
    hide Stars, WordLength;
    assert (name + ("." + rest))[|name| + 1..] == rest;
  }

  lemma SplitArrow(name: string, rest: string)
    requires IsName(name)
    ensures SplitAccessPath(name + ("->" + rest)) == Parts(name, Some(ArrowDiv), rest)
  {
    SplitHere(name, "->" + rest);
    hide Stars, WordLength;
    assert (name + ("->" + rest))[|name| + 2..] == rest;
  }

  lemma SplitBracket(name: string, rest: string)
    requires IsName(name)
    ensures SplitAccessPath(name + ("[" + rest)) == Parts(name, Some(BracketDiv), rest)
  {
    SplitHere(name, "[" + rest);
    hide Stars, WordLength;
    assert (name + ("[" + rest))[|name| + 1..] == rest;
  }

  lemma TextHead(segs: seq<Segment>)
    requires Proper(segs) && segs != []
    ensures Text(segs) ==
      match segs[0] case Field(_) => "." + RestOf(segs) case Via(_) => "->" + RestOf(segs) case Elements(_) => "[" + RestOf(segs)
  {
    hide Proper, IsName, Subscripts;
    var more := Text(segs[1..]);
    match segs[0]
    case Field(n) => assert "." + n + more == "." + (n + more);
    case Via(n) => assert "->" + n + more == "->" + (n + more);
    case Elements(_) => BracketRest(segs);
  }

  lemma BracketRest(segs: seq<Segment>)
    requires Proper(segs) && segs != [] && segs[0].Elements?
    ensures "[" + RestOf(segs) == Subscripts(segs[0].idx) + Text(segs[1..])
  {
    var all := Subscripts(segs[0].idx) + Text(segs[1..]);
    assert all[0] == '[';
    assert "[" + all[1..] == all;
  }

  lemma SplitName(name: string, segs: seq<Segment>)
    requires IsName(name) && Proper(segs)
    ensures SplitAccessPath(name + Text(segs)) == Parts(name, DividerOf(segs), RestOf(segs))
  {
    if segs == [] {
      SplitNone(name);
      assert name + [] == name;
    } else {
      TextHead(segs);
      hide SplitAccessPath, IsName, Text, RestOf;
      SplitDot(name, RestOf(segs));
      SplitArrow(name, RestOf(segs));
      SplitBracket(name, RestOf(segs));
    }
  }

  /* ---- the refinement ---- */

  ghost function Pending(st: State, segs: seq<Segment>): State
    requires Proper(segs)
  {
    st.(divider := DividerOf(segs), rest := RestOf(segs))
  }

  ghost predicate Agrees(table: TypeTable, word: int -> int, st: State, segs: seq<Segment>)
    requires Proper(segs) && segs != [] && Proper(segs[1..])
  {
    Step(table, word, Pending(st, segs)) ==
      match StepSegment(table, word, st, segs[0]) case None => None case Some(next) => Some(Pending(next, segs[1..]))
  }

  lemma ProperHead(segs: seq<Segment>)
    requires Proper(segs) && segs != []
    ensures segs[0].Field? ==> IsName(segs[0].name)
    ensures segs[0].Via? ==> IsName(segs[0].name)
    ensures IsName("ARRAY")
  {
  }

  lemma FieldAgrees(table: TypeTable, word: int -> int, st: State, segs: seq<Segment>)
    requires Proper(segs) && segs != [] && Proper(segs[1..]) && segs[0].Field?
    ensures Agrees(table, word, st, segs)
  {
    hide SplitAccessPath, FindMember, Resolve, Text, Hop, StepArrow, StepBracket, Proper, IsName;
    ProperHead(segs);
    SplitName(segs[0].name, segs[1..]);
  }

  lemma ViaAgrees(table: TypeTable, word: int -> int, st: State, segs: seq<Segment>)
    requires Proper(segs) && segs != [] && Proper(segs[1..]) && segs[0].Via?
    ensures Agrees(table, word, st, segs)
  {
    hide SplitAccessPath, FindMember, Resolve, Text, StepDot, StepBracket, Proper, IsName;
    ProperHead(segs);
    SplitName(segs[0].name, segs[1..]);
  }

  lemma ElementsAgree(table: TypeTable, word: int -> int, st: State, segs: seq<Segment>)
    requires Proper(segs) && segs != [] && Proper(segs[1..]) && segs[0].Elements?
    ensures Agrees(table, word, st, segs)
  {
    hide SplitAccessPath, ArrayIndices, ArrayMemberOffset, Text, RestOf, Subscripts, StepDot, StepArrow, StepBracket,
      Size, Proper, IsName;
    var idx, tail := segs[0].idx, Text(segs[1..]);
    ProperHead(segs);
    ProperTail(segs);
    SubscriptsRoundTrip(idx, tail);
    SplitName("ARRAY", segs[1..]);
    BracketRest(segs);
    BracketStep(Pending(st, segs), idx, tail, Parts("ARRAY", DividerOf(segs[1..]), RestOf(segs[1..])));
  }

  lemma BracketStep(st: State, idx: seq<int>, tail: string, p: Parts)
    requires ArrayIndices("[" + st.rest) == Some(Indices(idx, tail)) && SplitAccessPath("ARRAY" + tail) == p
    ensures StepBracket(st) == match ArrayMemberOffset(st.ty, idx) case None => None case Some(loc) =>
      Some(st.(ty := loc.ty, addr := st.addr + Size(loc.ty) * loc.offset, count := loc.count,
               divider := p.divider, rest := p.rest))
  {
  }

  lemma StepAgrees(table: TypeTable, word: int -> int, st: State, segs: seq<Segment>)
    requires Proper(segs) && segs != [] && Proper(segs[1..])
    ensures Agrees(table, word, st, segs)
  {
    hide Agrees, Proper;
    match segs[0]
    case Field(_) => FieldAgrees(table, word, st, segs);
    case Via(_) => ViaAgrees(table, word, st, segs);
    case Elements(_) => ElementsAgree(table, word, st, segs);
  }

  lemma {:induction false} WalkAgrees(table: TypeTable, word: int -> int, stars: nat, st: State, segs: seq<Segment>)
    requires Proper(segs) && st.divider == None && st.rest == []
    ensures Walk(table, word, stars, Pending(st, segs)) == Follow(table, word, stars, st, segs)
    decreases |segs|
  {
    if segs != [] {
      hide Step, StepSegment, Finish, Text, RestOf;
      ProperTail(segs);
      StepAgrees(table, word, st, segs);
      var next := StepSegment(table, word, st, segs[0]);
      if next.Some? {
        SegmentKeepsClear(table, word, st, segs[0]);
        WalkAgrees(table, word, stars, next.value, segs[1..]);
      }
    }
  }

  lemma SegmentKeepsClear(table: TypeTable, word: int -> int, st: State, seg: Segment)
    requires StepSegment(table, word, st, seg).Some?
    ensures var next := StepSegment(table, word, st, seg).value; next.divider == st.divider && next.rest == st.rest
  {
  }

  ghost function Asterisks(n: nat): string {
    if n == 0 then [] else "*" + Asterisks(n - 1)
  }

  lemma {:induction false} StarsOf(n: nat, s: string)
    requires s == [] || s[0] != '*'
    ensures Stars(Asterisks(n) + s) == n && (Asterisks(n) + s)[n..] == s
  {
    if n == 0 {
      assert Asterisks(n) + s == s;
    } else {
      StarsOf(n - 1, s);
      assert (Asterisks(n) + s)[1..] == Asterisks(n - 1) + s;
    }
  }

  /** The text written for stars, a variable and segments is evaluated by following exactly those segments. */
  lemma TextMeansSegments(table: TypeTable, vars: map<string, Variable>, word: int -> int,
                          stars: nat, name: string, segs: seq<Segment>)
    requires IsName(name) && Proper(segs)
    ensures MemAccess(table, vars, word, Asterisks(stars) + name + Text(segs)) ==
      if name !in vars then Failed else
        var v := vars[name];
        Follow(table, word, stars, State(Resolve(v.ty), v.addr, 1, None, [], Extent(v.addr, Size(v.ty)), []), segs)
  {
    hide Walk, Follow, SplitAccessPath, Stars, Resolve, Size, Text, RestOf, Asterisks, Proper;
    var path := Asterisks(stars) + name + Text(segs);
    Associate(Asterisks(stars), name, Text(segs));
    StarsOf(stars, name + Text(segs));
    SplitName(name, segs);
    if name in vars {
      var v := vars[name];
      WalkAgrees(table, word, stars, State(Resolve(v.ty), v.addr, 1, None, [], Extent(v.addr, Size(v.ty)), []), segs);
    }
  }
}
