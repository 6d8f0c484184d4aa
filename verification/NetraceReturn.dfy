/** Which traces the reader gives back from the file that was dumped. It reads as many packets as the header says and never
    looks at what is left of the file. */
module NetraceReturn {
  import opened LittleEndian
  import opened Netrace
  import opened Wrappers

  ghost predicate AllZero(s: seq<Byte>) {
    forall i :: 0 <= i < |s| ==> s[i] == 0
  }

  ghost predicate BlankPacket(p: Packet) {
    && p.cycle == 0 && p.id == 0 && p.size == 0 && p.kind == 0 && p.src == 0 && p.dst == 0 && p.nodeTypes == 0
    && p.numDeps == 0
  }

  /** Regions and packets of zeros, so that it does not matter where among them reading starts. */
  ghost predicate Blank(t: Trace)
    requires t.header.regions.Some?
  {
    && (forall i :: 0 <= i < |t.header.regions.value| ==> t.header.regions.value[i] == Region(0, 0, 0))
    && (forall i :: 0 <= i < |t.packets| ==> BlankPacket(t.packets[i]))
  }

  /** What the program's reader, which never looks behind the last packet, needs in order to give the trace again. */
  ghost predicate Returns(t: Trace)
    requires t.header.notes.Some? && t.header.regions.Some?
  {
    var length, notes := t.header.notesLength, |t.header.notes.value|;
    && TextsAndCounts(t)
    && (length == notes + 1
        || (length > notes + 1 && t.packets == [] && t.header.numRegions == 0)
        || (length == notes && Blank(t)))
  }

  ghost predicate GivesBack(t: Trace)
    requires TraceDumpable(t)
  {
    var r := ReadTrace(TraceBytes(t));
    r.Got? && r.value == CanonTrace(t)
  }

  /* ---- reading consumes what writing the result would write ---- */

  lemma FieldConsumed(s: seq<Byte>, k: nat)
    requires k <= |s|
    ensures Put(FromBytes(s[..k]), k) + s[k..] == s && Fits(FromBytes(s[..k]), k)
  {
    ToFromBytes(s[..k]);
  }

  lemma {:induction false} RegionsConsumed(s: seq<Byte>, n: nat)
    requires ReadRegions(s, n).Got?
    ensures RegionsBytes(ReadRegions(s, n).value) + ReadRegions(s, n).rest == s
    decreases n
  {
    if n == 0 {
      NoRegions();
      assert [] + s == s;
    } else {
      RegionsConsumed(s[24..], n - 1);
      RegionConsumed(s);
      hide FromBytes, RegionBytes;
      var r := Region(FromBytes(s[..8]), FromBytes(s[8..][..8]), FromBytes(s[8..][8..][..8]));
      var more := ReadRegions(s[24..], n - 1);
      assert ([r] + more.value)[1..] == more.value;
      Associate(RegionBytes(r), RegionsBytes(more.value), more.rest);
    }
  }

  lemma RegionConsumed(s: seq<Byte>)
    requires |s| >= 24
    ensures RegionBytes(Region(FromBytes(s[..8]), FromBytes(s[8..][..8]), FromBytes(s[8..][8..][..8]))) + s[24..] == s
  {
    hide Put, FromBytes;
    var s1 := s[8..];
    var s2 := s1[8..];
    FieldConsumed(s, 8);
    FieldConsumed(s1, 8);
    FieldConsumed(s2, 8);
    var a, b, c := Put(FromBytes(s[..8]), 8), Put(FromBytes(s1[..8]), 8), Put(FromBytes(s2[..8]), 8);
    assert s2[8..] == s[24..];
    Associate(a, b + c, s[24..]);
    Associate(b, c, s[24..]);
  }

  lemma {:induction false} DepsConsumed(s: seq<Byte>, n: nat)
    requires ReadDeps(s, n).Got?
    ensures DepsBytes(ReadDeps(s, n).value) + ReadDeps(s, n).rest == s
    ensures forall i :: 0 <= i < |ReadDeps(s, n).value| ==> Fits(ReadDeps(s, n).value[i], 4)
    decreases n
  {
    if n == 0 {
      assert [] + s == s;
    } else {
      DepsConsumed(s[4..], n - 1);
      FieldConsumed(s, 4);
      hide FromBytes, Put, Fits;
      var d, more := FromBytes(s[..4]), ReadDeps(s[4..], n - 1);
      assert ([d] + more.value)[1..] == more.value;
      Associate(Put(d, 4), DepsBytes(more.value), more.rest);
    }
  }

  /** One more field in front of what is already put together. */
  lemma FieldInFront(s: seq<Byte>, k: nat, more: seq<Byte>, rest: seq<Byte>)
    requires k <= |s| && s[k..] == more + rest
    ensures Put(FromBytes(s[..k]), k) + more + rest == s && Fits(FromBytes(s[..k]), k)
  {
    FieldConsumed(s, k);
    Associate(Put(FromBytes(s[..k]), k), more, rest);
  }

  lemma PacketRecordConsumed(s: seq<Byte>)
    requires |s| >= 21
    ensures var r := ReadPacketRecord(s);
      r.Got? && PacketRecord(r.value) + r.rest == s && FieldsFit(r.value) && r.value.deps == None
  {
    hide Put, FromBytes, Fits;
    var r := ReadPacketRecord(s);
    var p, rest := r.value, r.rest;
    var s1 := s[8..];
    var s2 := s1[4..];
    var s3 := s2[4..];
    var s4 := s3[1..];
    var s5 := s4[1..];
    var s6 := s5[1..];
    var s7 := s6[1..];
    var f8 := Put(p.numDeps, 1);
    var f7 := Put(p.nodeTypes, 1) + f8;
    var f6 := Put(p.dst, 1) + f7;
    var f5 := Put(p.src, 1) + f6;
    var f4 := Put(p.kind, 1) + f5;
    var f3 := Put(p.size, 4) + f4;
    var f2 := Put(p.id, 4) + f3;
    FieldConsumed(s7, 1);
    FieldInFront(s6, 1, f8, rest);
    FieldInFront(s5, 1, f7, rest);
    FieldInFront(s4, 1, f6, rest);
    FieldInFront(s3, 1, f5, rest);
    FieldInFront(s2, 4, f4, rest);
    FieldInFront(s1, 4, f3, rest);
    FieldInFront(s, 8, f2, rest);
  }

  predicate FieldsFit(p: Packet) {
    && Fits(p.cycle, 8) && Fits(p.id, 4) && Fits(p.size, 4)
    && Fits(p.kind, 1) && Fits(p.src, 1) && Fits(p.dst, 1) && Fits(p.nodeTypes, 1) && Fits(p.numDeps, 1)
  }

  lemma PacketConsumed(s: seq<Byte>)
    requires ReadPacket(s).Got?
    ensures PacketDumpable(ReadPacket(s).value) && PacketBytes(ReadPacket(s).value) + ReadPacket(s).rest == s
  {
    hide ReadPacketRecord, PacketRecord, DepsBytes, ReadDeps, Fits;
    PacketRecordConsumed(s);
    var r := ReadPacketRecord(s);
    var p := r.value;
    if p.numDeps > 0 {
      DepsConsumed(r.rest, p.numDeps);
      var ds := ReadDeps(r.rest, p.numDeps);
      assert PacketRecord(p.(deps := Some(ds.value))) == PacketRecord(p) by { RecordWithoutDeps(p, Some(ds.value)); }
      Associate(PacketRecord(p), DepsBytes(ds.value), ds.rest);
    } else {
      assert PacketRecord(p) + [] == PacketRecord(p);
    }
  }

  lemma RecordWithoutDeps(p: Packet, deps: Option<seq<int>>)
    ensures PacketRecord(p.(deps := deps)) == PacketRecord(p)
  {
  }

  lemma {:induction false} PacketsConsumed(s: seq<Byte>, n: nat)
    requires ReadPackets(s, n).Got?
    ensures var r := ReadPackets(s, n);
      (forall i :: 0 <= i < |r.value| ==> PacketDumpable(r.value[i])) && PacketsBytes(r.value) + r.rest == s
    decreases n
  {
    hide ReadPacket, PacketBytes, PacketDumpable;
    if n == 0 {
      assert [] + s == s;
    } else {
      PacketConsumed(s);
      var first := ReadPacket(s);
      PacketsConsumed(first.rest, n - 1);
      var more := ReadPackets(first.rest, n - 1);
      assert ([first.value] + more.value)[1..] == more.value;
      Associate(PacketBytes(first.value), PacketsBytes(more.value), more.rest);
    }
  }

  /** Dropping an empty list of dependencies changes no byte. */
  lemma {:induction false} CanonBytes(ps: seq<Packet>)
    requires forall i :: 0 <= i < |ps| ==> PacketDumpable(ps[i]) && FaithfulPacket(ps[i])
    ensures forall i :: 0 <= i < |CanonPackets(ps)| ==> PacketDumpable(CanonPackets(ps)[i])
    ensures PacketsBytes(CanonPackets(ps)) == PacketsBytes(ps)
  {
    if ps != [] {
      CanonBytes(ps[1..]);
      OneCanonBytes(ps[0]);
      hide PacketBytes, PacketDumpable, FaithfulPacket, CanonPacket;
      assert CanonPackets(ps)[1..] == CanonPackets(ps[1..]);
    }
  }

  lemma OneCanonBytes(p: Packet)
    requires PacketDumpable(p) && FaithfulPacket(p)
    ensures PacketDumpable(CanonPacket(p)) && PacketBytes(CanonPacket(p)) == PacketBytes(p)
  {
    hide Fits, PacketRecord, DepsBytes;
    RecordWithoutDeps(p, None);
  }

  /* ---- a terminator that is not counted ---- */

  /** Bytes that are the same one place further on are all zero when a zero is put in front. */
  lemma {:induction false} ShiftedIsZero(s: seq<Byte>, last: seq<Byte>)
    requires s + last == [0] + s
    ensures AllZero(s)
  {
    forall i | 0 <= i < |s| ensures s[i] == 0 {
      ZeroAt(s, last, i);
    }
  }

  lemma {:induction false} ZeroAt(s: seq<Byte>, last: seq<Byte>, i: nat)
    requires s + last == [0] + s && i < |s|
    ensures s[i] == 0
  {
    assert (s + last)[i] == s[i] && ([0] + s)[i] == if i == 0 then 0 else s[i - 1];
    if i > 0 {
      ZeroAt(s, last, i - 1);
    }
  }

  lemma ZeroShifts(s: seq<Byte>)
    requires AllZero(s)
    ensures [0] + s == s + [0]
  {
  }

  lemma {:induction false} ZeroBytes(k: nat)
    ensures AllZero(ToBytes(0, k))
  {
    if k > 0 {
      ZeroBytes(k - 1);
    }
  }

  lemma {:induction false} ZeroNumber(s: seq<Byte>)
    requires AllZero(s)
    ensures FromBytes(s) == 0
  {
    if s != [] {
      ZeroNumber(s[1..]);
    }
  }

  lemma ZeroField(v: int, k: nat)
    requires Fits(v, k)
    ensures AllZero(Put(v, k)) <==> v == 0
  {
    if AllZero(Put(v, k)) {
      ZeroNumber(Put(v, k));
      FromToBytes(v, k);
    }
    ZeroBytes(k);
  }

  lemma ZeroParts(a: seq<Byte>, b: seq<Byte>)
    ensures AllZero(a + b) <==> AllZero(a) && AllZero(b)
  {
    if AllZero(a + b) {
      forall i | 0 <= i < |a| ensures a[i] == 0 {
        assert (a + b)[i] == a[i];
      }
      forall i | 0 <= i < |b| ensures b[i] == 0 {
        assert (a + b)[|a| + i] == b[i];
      }
    }
  }

  lemma ZeroRegion(r: Region)
    requires RegionFits(r)
    ensures AllZero(RegionBytes(r)) <==> r == Region(0, 0, 0)
  {
    hide AllZero, Put, Fits;
    var a, b, c := Put(r.seekOffset, 8), Put(r.cycles, 8), Put(r.packets, 8);
    ZeroParts(a, b + c);
    ZeroParts(b, c);
    ZeroField(r.seekOffset, 8);
    ZeroField(r.cycles, 8);
    ZeroField(r.packets, 8);
  }

  lemma {:induction false} ZeroRegions(rs: seq<Region>)
    requires forall i :: 0 <= i < |rs| ==> RegionFits(rs[i])
    ensures AllZero(RegionsBytes(rs)) <==> forall i :: 0 <= i < |rs| ==> rs[i] == Region(0, 0, 0)
  {
    if rs == [] {
      NoRegions();
    } else {
      hide RegionBytes, RegionFits, AllZero;
      ZeroRegions(rs[1..]);
      ZeroRegion(rs[0]);
      ZeroParts(RegionBytes(rs[0]), RegionsBytes(rs[1..]));
      assert rs == [rs[0]] + rs[1..];
    }
  }

  lemma ZeroRecord(p: Packet)
    requires FieldsFit(p)
    ensures AllZero(PacketRecord(p)) <==> BlankPacket(p)
  {
    hide AllZero, Put, Fits;
    var f8 := Put(p.numDeps, 1);
    var f7 := Put(p.nodeTypes, 1) + f8;
    var f6 := Put(p.dst, 1) + f7;
    var f5 := Put(p.src, 1) + f6;
    var f4 := Put(p.kind, 1) + f5;
    var f3 := Put(p.size, 4) + f4;
    var f2 := Put(p.id, 4) + f3;
    ZeroParts(Put(p.cycle, 8), f2);
    ZeroParts(Put(p.id, 4), f3);
    ZeroParts(Put(p.size, 4), f4);
    ZeroParts(Put(p.kind, 1), f5);
    ZeroParts(Put(p.src, 1), f6);
    ZeroParts(Put(p.dst, 1), f7);
    ZeroParts(Put(p.nodeTypes, 1), f8);
    ZeroField(p.cycle, 8);
    ZeroField(p.id, 4);
    ZeroField(p.size, 4);
    ZeroField(p.kind, 1);
    ZeroField(p.src, 1);
    ZeroField(p.dst, 1);
    ZeroField(p.nodeTypes, 1);
    ZeroField(p.numDeps, 1);
  }

  lemma {:induction false} ZeroPackets(ps: seq<Packet>)
    requires forall i :: 0 <= i < |ps| ==> PacketDumpable(ps[i])
    ensures AllZero(PacketsBytes(ps)) <==> forall i :: 0 <= i < |ps| ==> BlankPacket(ps[i])
  {
    if ps != [] {
      hide AllZero, PacketRecord, DepsBytes, Fits, BlankPacket;
      var p := ps[0];
      ZeroPackets(ps[1..]);
      ZeroRecord(p);
      BlankHasNoDeps(p);
      ZeroParts(PacketBytes(p), PacketsBytes(ps[1..]));
      ZeroParts(PacketRecord(p), if p.numDeps > 0 then DepsBytes(p.deps.value) else []);
      NothingIsZero();
      assert ps == [p] + ps[1..];
    }
  }

  lemma BlankHasNoDeps(p: Packet)
    ensures BlankPacket(p) ==> p.numDeps == 0
  {
  }

  lemma NothingIsZero()
    ensures AllZero([])
  {
  }

  /** Header read with the terminator of the notes left over. */
  lemma ShortHeader(h: Header, tail: seq<Byte>)
    requires Dumpable(h) && 0 < h.notesLength == |h.notes.value| < NOTES_LIMIT && h.numRegions <= REGION_LIMIT
    requires |h.name| <= 30 && NoTrailingNul(h.name) && NoTrailingNul(h.notes.value)
    ensures var r := ReadHeader(HeaderBytes(h) + tail);
      var regions := ReadRegions([0] + (RegionsBytes(h.regions.value) + tail), h.numRegions);
      if h.numRegions == 0 then r == Got(CanonHeader(h), [0] + (RegionsBytes(h.regions.value) + tail))
      else if regions.Failed? then r.Failed?
      else r == Got(h.(regions := Some(regions.value)), regions.rest)
  {
    hide RecordBytes, RegionsBytes, ReadRecord, ReadRegions, StripNuls, Name30, Fits;
    var regions, notes := RegionsBytes(h.regions.value), h.notes.value;
    var body := Zeros(8) + (notes + ([0] + regions));
    Associate(RecordBytes(h), body, tail);
    RecordBack(h, body + tail);
    NameBack(h.name);
    var rest := notes + ([0] + (regions + tail));
    assert body + tail == Zeros(8) + rest;
    assert After(body + tail, 8) == rest;
    StripResult(notes);
    assert Chunk(rest, |notes|) == notes && After(rest, |notes|) == [0] + (regions + tail);
  }

  /** A trace that is given back has its texts and counts right; its notes length is right, or too large with nothing behind
      the notes, or misses the terminator with nothing but zeros behind them. */
  lemma GivesBackOnlyIf(t: Trace)
    requires TraceDumpable(t) && GivesBack(t)
    ensures Returns(t)
  {
    hide HeaderBytes, PacketsBytes, ReadHeader, ReadPackets, CanonPackets, FaithfulPacket, PacketDumpable, NoTrailingNul, Blank;
    var h := t.header;
    var tail := PacketsBytes(t.packets);
    var r := ReadHeader(HeaderBytes(h) + tail);
    PacketsTaken(r.rest, r.value.packets);
    CanonIsFaithful(t.packets);
    NonNegativeLength(t.packets);
    HeaderTaken(h, tail);
    PacketsWritten(t.packets);
    if t.packets != [] {
      LengthPositive(t.packets);
    }
    assert TextsAndCounts(t);
    if h.notesLength == |h.notes.value| {
      MissedTerminator(t);
    }
  }

  lemma MissedTerminator(t: Trace)
    requires TraceDumpable(t) && GivesBack(t) && TextsAndCounts(t) && t.header.notesLength == |t.header.notes.value|
    ensures Blank(t)
  {
    hide HeaderBytes, PacketsBytes, RegionsBytes, ReadHeader, ReadPackets, ReadRegions, CanonPackets, FaithfulPacket, PacketDumpable,
      NoTrailingNul, AllZero, Fits, RegionFits;
    var h := t.header;
    var rs, tail := RegionsBytes(h.regions.value), PacketsBytes(t.packets);
    var s := [0] + (rs + tail);
    ShortHeader(h, tail);
    var r := ReadHeader(HeaderBytes(h) + tail);
    assert rs + r.rest == s by {
      if h.numRegions == 0 {
        assert rs == [] by { NoRegions(); }
      } else {
        RegionsConsumed(s, h.numRegions);
      }
    }
    var ps := ReadPackets(r.rest, h.packets);
    PacketsConsumed(r.rest, h.packets);
    CanonBytes(t.packets);
    Associate(rs, tail, ps.rest);
    ShiftedIsZero(rs + tail, ps.rest);
    ZeroParts(rs, tail);
    ZeroRegions(h.regions.value);
    ZeroPackets(t.packets);
  }

  lemma BlankGivesBack(t: Trace)
    requires TraceDumpable(t) && TextsAndCounts(t) && t.header.notesLength == |t.header.notes.value| && Blank(t)
    ensures GivesBack(t)
  {
    hide HeaderBytes, PacketsBytes, RegionsBytes, ReadHeader, ReadPackets, ReadRegions, CanonPackets, FaithfulPacket, PacketDumpable,
      NoTrailingNul, AllZero, Fits, RegionFits, BlankPacket;
    var h := t.header;
    var rs, tail := RegionsBytes(h.regions.value), PacketsBytes(t.packets);
    ShortHeader(h, tail);
    ZeroRegions(h.regions.value);
    ZeroPackets(t.packets);
    ZeroParts(rs, tail);
    ZeroShifts(rs + tail);
    Associate(rs, tail, [0]);
    RegionsBack(h.regions.value, tail + [0]);
    PacketsBack(t.packets, [0]);
    if h.numRegions == 0 {
      assert rs == [] by { NoRegions(); }
      assert rs + tail == tail;
    }
  }

  /** The program gives a dumped trace back if and only if texts and counts are right and the notes length is exact, or too
      large with nothing behind the notes, or one too small with nothing but zeros behind them. */
  lemma FileGivesBackIff(t: Trace)
    requires TraceDumpable(t)
    ensures GivesBack(t) <==> Returns(t)
  {
    hide ReadTrace, TraceBytes, CanonTrace, PacketDumpable, Blank;
    assert TraceBytes(t) + [] == TraceBytes(t);
    if Returns(t) {
      if t.header.notesLength == |t.header.notes.value| {
        BlankGivesBack(t);
      } else {
        FileRoundTripIff(t);
      }
    } else if GivesBack(t) {
      GivesBackOnlyIf(t);
    }
  }

  /** Notes whose terminator is not counted: the trace is given back with one byte left unread. */
  lemma MissedTerminatorExample()
    ensures var t := Trace(Header([], 0, 0, 0, 1, 0, Some([97]), Some([])), []);
      TraceDumpable(t) && !Recoverable(t) && GivesBack(t)
  {
    var t := Trace(Header([], 0, 0, 0, 1, 0, Some([97]), Some([])), []);
    assert Pow256(1) == 256 && Pow256(4) == 256 * (256 * (256 * Pow256(1)));
    assert Fits(1, 4) && Fits(0, 1) && Fits(0, 4) && Fits(0, 8);
    FileGivesBackIff(t);
    hide ReadTrace, TraceBytes;
  }
}
