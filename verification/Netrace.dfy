/** The netrace file format: what `nt_dump` writes and when `nt_read` gives it back. Names and notes are
    encoded byte strings; a file is a byte string with a cursor. */
module Netrace {
  import opened LittleEndian
  import opened Wrappers

  const NTMAGIC: nat := 0x484A5455
  const VERSION_ONE: nat := 0x3F800000  // 1.0 as a 32-bit float
  const NOTES_LIMIT: nat := 8192
  const REGION_LIMIT: nat := 100

  datatype Region = Region(seekOffset: int, cycles: int, packets: int)

  datatype Header = Header(
    name: seq<Byte>, nodes: int, cycles: int, packets: int, notesLength: int, numRegions: int,
    notes: Option<seq<Byte>>, regions: Option<seq<Region>>)

  datatype Packet = Packet(
    cycle: int, id: int, size: int, kind: int, src: int, dst: int, nodeTypes: int, numDeps: int, deps: Option<seq<int>>)

  datatype Trace = Trace(header: Header, packets: seq<Packet>)

  /* ---- fields ---- */

  predicate Fits(v: int, k: nat) {
    0 <= v < Pow256(k)
  }

  function Put(v: int, k: nat): (s: seq<Byte>)
    ensures |s| == k
  {
    ToBytes(if v >= 0 then v else 0, k)
  }

  lemma FieldBack(v: int, k: nat, rest: seq<Byte>)
    requires Fits(v, k)
    ensures FromBytes((Put(v, k) + rest)[..k]) == v && (Put(v, k) + rest)[k..] == rest
  {
    FromToBytes(v, k);
    assert (Put(v, k) + rest)[..k] == Put(v, k);
  }

  /** `30s`: cut or padded with zero bytes. */
  function Name30(name: seq<Byte>): (s: seq<Byte>)
    ensures |s| == 30
  {
    if |name| >= 30 then name[..30] else name + Zeros(30 - |name|)
  }

  function StripNuls(s: seq<Byte>): seq<Byte> {
    if s != [] && s[|s| - 1] == 0 then StripNuls(s[..|s| - 1]) else s
  }

  predicate NoTrailingNul(s: seq<Byte>) {
    s == [] || s[|s| - 1] != 0
  }

  lemma {:induction false} StripResult(s: seq<Byte>)
    ensures NoTrailingNul(StripNuls(s)) && |StripNuls(s)| <= |s|
    ensures NoTrailingNul(s) ==> StripNuls(s) == s
  {
    if s != [] && s[|s| - 1] == 0 {
      StripResult(s[..|s| - 1]);
    }
  }

  lemma {:induction false} StripZeros(s: seq<Byte>, n: nat)
    requires NoTrailingNul(s)
    ensures StripNuls(s + Zeros(n)) == s
  {
    if n == 0 {
      assert s + Zeros(0) == s;
    } else {
      StripZeros(s, n - 1);
      var t := s + Zeros(n);
      ZerosLast(n);
      assert t[..|t| - 1] == s + Zeros(n - 1);
    }
  }

  lemma {:induction false} ZerosLast(n: nat)
    requires n > 0
    ensures Zeros(n)[..n - 1] == Zeros(n - 1)
  {
    if n > 1 {
      ZerosLast(n - 1);
      assert Zeros(n) == [0] + Zeros(n - 1);
    }
  }

  /** A name survives exactly when it fits and does not end in a zero byte. */
  lemma NameBack(name: seq<Byte>)
    ensures StripNuls(Name30(name)) == name <==> |name| <= 30 && NoTrailingNul(name)
  {
    StripResult(Name30(name));
    if |name| <= 30 && NoTrailingNul(name) {
      StripZeros(name, 30 - |name|);
      if |name| == 30 {
        assert Name30(name) == name + Zeros(0);
      }
    }
  }

  /* ---- writing ---- */

  predicate RegionFits(r: Region) {
    Fits(r.seekOffset, 8) && Fits(r.cycles, 8) && Fits(r.packets, 8)
  }

  function RegionBytes(r: Region): (s: seq<Byte>)
    ensures |s| == 24
  {
    Put(r.seekOffset, 8) + (Put(r.cycles, 8) + Put(r.packets, 8))
  }

  function RegionsBytes(rs: seq<Region>): seq<Byte> {
    if rs == [] then [] else RegionBytes(rs[0]) + RegionsBytes(rs[1..])
  }

  /** The 64 bytes of the header record, with the byte that aligns the 64-bit fields. */
  function RecordBytes(h: Header): (s: seq<Byte>)
    ensures |s| == 64
  {
    Put(NTMAGIC, 4) + (Put(VERSION_ONE, 4) + (Name30(h.name) + (Put(h.nodes, 1) + ([0] +
    (Put(h.cycles, 8) + (Put(h.packets, 8) + (Put(h.notesLength, 4) + Put(h.numRegions, 4))))))))
  }

  predicate Dumpable(h: Header) {
    && Fits(h.nodes, 1) && Fits(h.cycles, 8) && Fits(h.packets, 8) && Fits(h.notesLength, 4) && Fits(h.numRegions, 4)
    && h.notes.Some? && h.regions.Some? && |h.regions.value| == h.numRegions
    && forall i :: 0 <= i < |h.regions.value| ==> RegionFits(h.regions.value[i])
  }

  function HeaderBytes(h: Header): seq<Byte>
    requires Dumpable(h)
  {
    RecordBytes(h) + (Zeros(8) + (h.notes.value + ([0] + RegionsBytes(h.regions.value))))
  }

  predicate PacketDumpable(p: Packet) {
    && Fits(p.cycle, 8) && Fits(p.id, 4) && Fits(p.size, 4)
    && Fits(p.kind, 1) && Fits(p.src, 1) && Fits(p.dst, 1) && Fits(p.nodeTypes, 1) && Fits(p.numDeps, 1)
    && (p.numDeps > 0 ==> p.deps.Some? && forall i :: 0 <= i < |p.deps.value| ==> Fits(p.deps.value[i], 4))
  }

  function DepsBytes(deps: seq<int>): (s: seq<Byte>)
    ensures |s| == 4 * |deps|
  {
    if deps == [] then [] else Put(deps[0], 4) + DepsBytes(deps[1..])
  }

  function PacketRecord(p: Packet): (s: seq<Byte>)
    ensures |s| == 21
  {
    Put(p.cycle, 8) + (Put(p.id, 4) + (Put(p.size, 4) + (Put(p.kind, 1) + (Put(p.src, 1) + (Put(p.dst, 1) +
    (Put(p.nodeTypes, 1) + Put(p.numDeps, 1)))))))
  }

  function PacketBytes(p: Packet): seq<Byte>
    requires PacketDumpable(p)
  {
    PacketRecord(p) + if p.numDeps > 0 then DepsBytes(p.deps.value) else []
  }

  predicate TraceDumpable(t: Trace) {
    Dumpable(t.header) && forall i :: 0 <= i < |t.packets| ==> PacketDumpable(t.packets[i])
  }

  function PacketsBytes(ps: seq<Packet>): seq<Byte>
    requires forall i :: 0 <= i < |ps| ==> PacketDumpable(ps[i])
  {
    if ps == [] then [] else PacketBytes(ps[0]) + PacketsBytes(ps[1..])
  }

  function TraceBytes(t: Trace): seq<Byte>
    requires TraceDumpable(t)
  {
    HeaderBytes(t.header) + PacketsBytes(t.packets)
  }

  /* ---- reading ---- */

  datatype Parsed<T> = Failed | Got(value: T, rest: seq<Byte>)

  function Chunk(s: seq<Byte>, n: nat): seq<Byte> {
    if n <= |s| then s[..n] else s
  }

  function After(s: seq<Byte>, n: nat): seq<Byte> {
    if n <= |s| then s[n..] else []
  }

  function ReadRegions(s: seq<Byte>, n: nat): Parsed<seq<Region>> {
    if n == 0 then Got([], s)
    else if |s| < 24 then Failed
    else
      var r := Region(FromBytes(s[..8]), FromBytes(s[8..][..8]), FromBytes(s[8..][8..][..8]));
      match ReadRegions(s[24..], n - 1)
      case Failed => Failed
      case Got(rs, rest) => Got([r] + rs, rest)
  }

  /** The fixed record, field by field; notes and regions are still missing. */
  function ReadRecord(s: seq<Byte>): Parsed<Header>
    requires |s| >= 64
  {
    var magic, s1 := FromBytes(s[..4]), s[4..];
    var version, s2 := FromBytes(s1[..4]), s1[4..];
    var name, s3 := StripNuls(s2[..30]), s2[30..];
    var nodes, s4 := FromBytes(s3[..1]), s3[1..];
    var s5 := s4[1..];
    var cycles, s6 := FromBytes(s5[..8]), s5[8..];
    var packets, s7 := FromBytes(s6[..8]), s6[8..];
    var notesLength, s8 := FromBytes(s7[..4]), s7[4..];
    var numRegions, s9 := FromBytes(s8[..4]), s8[4..];
    if magic != NTMAGIC || version != VERSION_ONE then Failed
    else Got(Header(name, nodes, cycles, packets, notesLength, numRegions, None, None), s9)
  }

  function ReadHeader(s: seq<Byte>): Parsed<Header> {
    if |s| < 64 then Failed else
      match ReadRecord(s)
      case Failed => Failed
      case Got(h, r) =>
        var rest := After(r, 8);
        var noted := 0 < h.notesLength < NOTES_LIMIT;
        if noted && rest == [] then Failed else
          var h1 := if noted then h.(notes := Some(StripNuls(Chunk(rest, h.notesLength)))) else h;
          var rest1 := if noted then After(rest, h.notesLength) else rest;
          if h.numRegions <= 0 then Got(h1, rest1)
          else if h.numRegions > REGION_LIMIT then Failed
          else match ReadRegions(rest1, h.numRegions)
            case Failed => Failed
            case Got(rs, rest2) => Got(h1.(regions := Some(rs)), rest2)
  }

  function ReadDeps(s: seq<Byte>, n: nat): Parsed<seq<int>> {
    if n == 0 then Got([], s)
    else if |s| < 4 then Failed
    else
      match ReadDeps(s[4..], n - 1)
      case Failed => Failed
      case Got(ds, rest) => Got([FromBytes(s[..4])] + ds, rest)
  }

  function ReadPacketRecord(s: seq<Byte>): Parsed<Packet>
    requires |s| >= 21
  {
    var cycle, s1 := FromBytes(s[..8]), s[8..];
    var id, s2 := FromBytes(s1[..4]), s1[4..];
    var size, s3 := FromBytes(s2[..4]), s2[4..];
    var kind, s4 := FromBytes(s3[..1]), s3[1..];
    var src, s5 := FromBytes(s4[..1]), s4[1..];
    var dst, s6 := FromBytes(s5[..1]), s5[1..];
    var nodeTypes, s7 := FromBytes(s6[..1]), s6[1..];
    var numDeps, s8 := FromBytes(s7[..1]), s7[1..];
    Got(Packet(cycle, id, size, kind, src, dst, nodeTypes, numDeps, None), s8)
  }

  function ReadPacket(s: seq<Byte>): Parsed<Packet> {
    if |s| < 21 then Failed else
      match ReadPacketRecord(s)
      case Failed => Failed
      case Got(p, rest) =>
        if p.numDeps <= 0 then Got(p, rest) else
          match ReadDeps(rest, p.numDeps)
          case Failed => Failed
          case Got(ds, rest1) => Got(p.(deps := Some(ds)), rest1)
  }

  function ReadPackets(s: seq<Byte>, n: nat): Parsed<seq<Packet>>
    decreases n
  {
    if n == 0 then Got([], s) else
      match ReadPacket(s)
      case Failed => Failed
      case Got(p, rest) =>
        match ReadPackets(rest, n - 1)
        case Failed => Failed
        case Got(ps, rest1) => Got([p] + ps, rest1)
  }

  function ReadTrace(s: seq<Byte>): Parsed<Trace> {
    match ReadHeader(s)
    case Failed => Failed
    case Got(h, rest) =>
      match ReadPackets(rest, if h.packets >= 0 then h.packets else 0)
      case Failed => Failed
      case Got(ps, rest1) => Got(Trace(h, ps), rest1)
  }

  /* ---- what reading back gives ---- */

  /** An absent list stands for an empty one after reading. */
  function CanonHeader(h: Header): Header {
    if h.regions == Some([]) then h.(regions := None) else h
  }

  function CanonPacket(p: Packet): Packet {
    if p.deps == Some([]) then p.(deps := None) else p
  }

  function CanonPackets(ps: seq<Packet>): seq<Packet> {
    if ps == [] then [] else [CanonPacket(ps[0])] + CanonPackets(ps[1..])
  }

  function CanonTrace(t: Trace): Trace {
    Trace(CanonHeader(t.header), CanonPackets(t.packets))
  }

  /** Texts without trailing zero bytes that fit, and counts that agree with what they count. */
  predicate FaithfulHeader(h: Header) {
    && |h.name| <= 30 && NoTrailingNul(h.name)
    && h.notes.Some? && NoTrailingNul(h.notes.value)
    && h.notesLength == |h.notes.value| + 1 < 8192
    && h.numRegions <= 100
  }

  predicate FaithfulPacket(p: Packet) {
    p.numDeps == if p.deps.Some? then |p.deps.value| else 0
  }

  predicate Faithful(t: Trace) {
    && FaithfulHeader(t.header)
    && t.header.packets == |t.packets|
    && forall i :: 0 <= i < |t.packets| ==> FaithfulPacket(t.packets[i])
  }

  /** All that `Faithful` asks except that the notes length is right; it is only positive and below the limit. */
  predicate TextsAndCounts(t: Trace) {
    var h := t.header;
    && |h.name| <= 30 && NoTrailingNul(h.name)
    && h.notes.Some? && NoTrailingNul(h.notes.value)
    && 0 < h.notesLength < 8192 && h.numRegions <= 100
    && h.packets == |t.packets|
    && forall i :: 0 <= i < |t.packets| ==> FaithfulPacket(t.packets[i])
  }

  /** What a file needs in order to be read back: with nothing behind the notes their length may also be too large. */
  predicate Recoverable(t: Trace) {
    && TextsAndCounts(t)
    && (t.header.notesLength == |t.header.notes.value| + 1
        || (t.packets == [] && t.header.numRegions == 0 && t.header.notesLength >= |t.header.notes.value| + 1))
  }

  /* ---- reading back what was written ---- */

  /** Parses one field off the front. */
  lemma Field(v: int, k: nat, more: seq<Byte>, tail: seq<Byte>, s: seq<Byte>) returns (rest: seq<Byte>)
    requires Fits(v, k) && s == Put(v, k) + more + tail
    ensures |s| >= k && FromBytes(s[..k]) == v && s[k..] == more + tail == rest
  {
    Associate(Put(v, k), more, tail);
    FieldBack(v, k, more + tail);
    rest := more + tail;
  }

  lemma LastField(v: int, k: nat, tail: seq<Byte>, s: seq<Byte>)
    requires Fits(v, k) && s == Put(v, k) + tail
    ensures |s| >= k && FromBytes(s[..k]) == v && s[k..] == tail
  {
    FieldBack(v, k, tail);
  }

  lemma Raw(a: seq<Byte>, more: seq<Byte>, tail: seq<Byte>, s: seq<Byte>) returns (rest: seq<Byte>)
    requires s == a + more + tail
    ensures |s| >= |a| && s[..|a|] == a && s[|a|..] == more + tail == rest
  {
    Associate(a, more, tail);
    rest := more + tail;
  }

  lemma RecordBack(h: Header, tail: seq<Byte>)
    requires Dumpable(h)
    ensures ReadRecord(RecordBytes(h) + tail) ==
      Got(h.(name := StripNuls(Name30(h.name)), notes := None, regions := None), tail)
  {
    hide Put, Name30, StripNuls, FromBytes;
    var f9 := Put(h.numRegions, 4);
    var f8 := Put(h.notesLength, 4) + f9;
    var f7 := Put(h.packets, 8) + f8;
    var f6 := Put(h.cycles, 8) + f7;
    var f5 := [0] + f6;
    var f4 := Put(h.nodes, 1) + f5;
    var f3 := Name30(h.name) + f4;
    var f2 := Put(VERSION_ONE, 4) + f3;
    var s := RecordBytes(h) + tail;
    ConstantsFit();
    var s1 := Field(NTMAGIC, 4, f2, tail, s);
    var s2 := Field(VERSION_ONE, 4, f3, tail, s1);
    var s3 := Raw(Name30(h.name), f4, tail, s2);
    var s4 := Field(h.nodes, 1, f5, tail, s3);
    var s5 := Raw([0], f6, tail, s4);
    var s6 := Field(h.cycles, 8, f7, tail, s5);
    var s7 := Field(h.packets, 8, f8, tail, s6);
    var s8 := Field(h.notesLength, 4, f9, tail, s7);
    LastField(h.numRegions, 4, tail, s8);
  }

  lemma ConstantsFit()
    ensures Fits(NTMAGIC, 4) && Fits(VERSION_ONE, 4)
  {
    assert Pow256(4) == 256 * (256 * (256 * (256 * Pow256(0))));
  }

  lemma {:induction false} RegionsBack(rs: seq<Region>, tail: seq<Byte>)
    requires forall i :: 0 <= i < |rs| ==> RegionFits(rs[i])
    ensures ReadRegions(RegionsBytes(rs) + tail, |rs|) == Got(rs, tail)
  {
    if rs == [] {
      assert RegionsBytes(rs) + tail == tail;
    } else {
      var r, more := rs[0], RegionsBytes(rs[1..]);
      RegionsBack(rs[1..], tail);
      OneRegionBack(r, more + tail);
      Associate(RegionBytes(r), more, tail);
      assert [r] + rs[1..] == rs;
      hide Put, FromBytes, RegionBytes;
    }
  }

  lemma OneRegionBack(r: Region, rest: seq<Byte>)
    requires RegionFits(r)
    ensures var s := RegionBytes(r) + rest;
      |s| >= 24 && s[24..] == rest
      && Region(FromBytes(s[..8]), FromBytes(s[8..][..8]), FromBytes(s[8..][8..][..8])) == r
  {
    var s := RegionBytes(r) + rest;
    var s1 := Field(r.seekOffset, 8, Put(r.cycles, 8) + Put(r.packets, 8), rest, s);
    var s2 := Field(r.cycles, 8, Put(r.packets, 8), rest, s1);
    LastField(r.packets, 8, rest, s2);
    assert s[8..][8..][8..] == s[24..];
  }

  lemma HeaderBack(h: Header, tail: seq<Byte>)
    requires Dumpable(h) && FaithfulHeader(h)
    ensures ReadHeader(HeaderBytes(h) + tail) == Got(CanonHeader(h), tail)
  {
    hide RecordBytes, RegionsBytes, ReadRecord, ReadRegions, StripNuls, Name30, Fits;
    var regions := RegionsBytes(h.regions.value);
    var notes := h.notes.value + [0];
    var s := HeaderBytes(h) + tail;
    var body := Zeros(8) + (h.notes.value + ([0] + regions));
    Associate(RecordBytes(h), body, tail);
    RecordBack(h, body + tail);
    NameBack(h.name);
    var rest := notes + (regions + tail);
    assert body + tail == Zeros(8) + rest;
    assert After(body + tail, 8) == rest;
    StripZeros(h.notes.value, 1);
    assert Zeros(1) == [0];
    assert Chunk(rest, h.notesLength) == notes && After(rest, h.notesLength) == regions + tail;
    RegionsBack(h.regions.value, tail);
    if h.numRegions == 0 {
      assert regions == [] by { NoRegions(); }
      assert regions + tail == tail;
    }
  }

  lemma NoRegions()
    ensures RegionsBytes([]) == []
  {
  }

  lemma {:induction false} DepsBack(deps: seq<int>, tail: seq<Byte>)
    requires forall i :: 0 <= i < |deps| ==> Fits(deps[i], 4)
    ensures ReadDeps(DepsBytes(deps) + tail, |deps|) == Got(deps, tail)
  {
    if deps == [] {
      assert DepsBytes(deps) + tail == tail;
    } else {
      hide Put, FromBytes, Fits;
      var s := DepsBytes(deps) + tail;
      DepsBack(deps[1..], tail);
      var rest := Field(deps[0], 4, DepsBytes(deps[1..]), tail, s);
      assert [deps[0]] + deps[1..] == deps;
    }
  }

  lemma PacketRecordBack(p: Packet, tail: seq<Byte>)
    requires PacketDumpable(p)
    ensures ReadPacketRecord(PacketRecord(p) + tail) == Got(p.(deps := None), tail)
  {
    hide Put, FromBytes;
    var f8 := Put(p.numDeps, 1);
    var f7 := Put(p.nodeTypes, 1) + f8;
    var f6 := Put(p.dst, 1) + f7;
    var f5 := Put(p.src, 1) + f6;
    var f4 := Put(p.kind, 1) + f5;
    var f3 := Put(p.size, 4) + f4;
    var f2 := Put(p.id, 4) + f3;
    var s := PacketRecord(p) + tail;
    var s1 := Field(p.cycle, 8, f2, tail, s);
    var s2 := Field(p.id, 4, f3, tail, s1);
    var s3 := Field(p.size, 4, f4, tail, s2);
    var s4 := Field(p.kind, 1, f5, tail, s3);
    var s5 := Field(p.src, 1, f6, tail, s4);
    var s6 := Field(p.dst, 1, f7, tail, s5);
    var s7 := Field(p.nodeTypes, 1, f8, tail, s6);
    LastField(p.numDeps, 1, tail, s7);
  }

  lemma PacketBack(p: Packet, tail: seq<Byte>)
    requires PacketDumpable(p) && FaithfulPacket(p)
    ensures ReadPacket(PacketBytes(p) + tail) == Got(CanonPacket(p), tail)
  {
    hide PacketRecord, DepsBytes, ReadPacketRecord, ReadDeps, Fits;
    if p.numDeps > 0 {
      var deps := DepsBytes(p.deps.value);
      Associate(PacketRecord(p), deps, tail);
      PacketRecordBack(p, deps + tail);
      DepsBack(p.deps.value, tail);
    } else {
      assert PacketRecord(p) + [] == PacketRecord(p);
      PacketRecordBack(p, tail);
    }
  }

  lemma {:induction false} PacketsBack(ps: seq<Packet>, tail: seq<Byte>)
    requires forall i :: 0 <= i < |ps| ==> PacketDumpable(ps[i]) && FaithfulPacket(ps[i])
    ensures ReadPackets(PacketsBytes(ps) + tail, |ps|) == Got(CanonPackets(ps), tail)
  {
    if ps == [] {
      assert PacketsBytes(ps) + tail == tail;
    } else {
      hide PacketBytes, ReadPacket, CanonPacket, PacketDumpable, FaithfulPacket;
      Associate(PacketBytes(ps[0]), PacketsBytes(ps[1..]), tail);
      PacketBack(ps[0], PacketsBytes(ps[1..]) + tail);
      PacketsBack(ps[1..], tail);
    }
  }

  /** A faithful trace is read back, and reading stops exactly behind the written bytes. */
  lemma TraceBack(t: Trace, tail: seq<Byte>)
    requires TraceDumpable(t) && Faithful(t)
    ensures ReadTrace(TraceBytes(t) + tail) == Got(CanonTrace(t), tail)
  {
    hide HeaderBytes, PacketsBytes, ReadHeader, ReadPackets, Dumpable, FaithfulHeader, CanonPackets;
    Associate(HeaderBytes(t.header), PacketsBytes(t.packets), tail);
    HeaderBack(t.header, PacketsBytes(t.packets) + tail);
    PacketsBack(t.packets, tail);
  }

  /* ---- only faithful traces are read back ---- */

  function PacketLength(p: Packet): int {
    21 + 4 * p.numDeps
  }

  function PacketsLength(ps: seq<Packet>): int {
    if ps == [] then 0 else PacketLength(ps[0]) + PacketsLength(ps[1..])
  }

  lemma {:induction false} RegionsTaken(s: seq<Byte>, n: nat)
    requires ReadRegions(s, n).Got?
    ensures |ReadRegions(s, n).rest| == |s| - 24 * n
  {
    if n > 0 {
      RegionsTaken(s[24..], n - 1);
    }
  }

  lemma {:induction false} DepsTaken(s: seq<Byte>, n: nat)
    requires ReadDeps(s, n).Got?
    ensures |ReadDeps(s, n).value| == n && |ReadDeps(s, n).rest| == |s| - 4 * n
  {
    if n > 0 {
      DepsTaken(s[4..], n - 1);
    }
  }

  lemma PacketTaken(s: seq<Byte>)
    requires ReadPacket(s).Got?
    ensures FaithfulPacket(ReadPacket(s).value) && |ReadPacket(s).rest| == |s| - PacketLength(ReadPacket(s).value)
  {
    hide FromBytes, ReadDeps;
    var r := ReadPacketRecord(s);
    if r.value.numDeps > 0 {
      DepsTaken(r.rest, r.value.numDeps);
    }
  }

  lemma {:induction false} PacketsTaken(s: seq<Byte>, n: nat)
    requires ReadPackets(s, n).Got?
    ensures var r := ReadPackets(s, n);
      && |r.value| == n && |r.rest| == |s| - PacketsLength(r.value)
      && forall i :: 0 <= i < n ==> FaithfulPacket(r.value[i])
    decreases n
  {
    hide ReadPacket, FaithfulPacket, PacketLength;
    if n > 0 {
      PacketTaken(s);
      PacketsTaken(ReadPacket(s).rest, n - 1);
    }
  }

  lemma {:induction false} CanonIsFaithful(ps: seq<Packet>)
    ensures |CanonPackets(ps)| == |ps| && PacketsLength(CanonPackets(ps)) == PacketsLength(ps)
    ensures forall i :: 0 <= i < |ps| ==> (FaithfulPacket(CanonPackets(ps)[i]) <==> FaithfulPacket(ps[i]))
  {
    if ps != [] {
      CanonIsFaithful(ps[1..]);
    }
  }

  lemma {:induction false} PacketsWritten(ps: seq<Packet>)
    requires forall i :: 0 <= i < |ps| ==> PacketDumpable(ps[i]) && FaithfulPacket(ps[i])
    ensures |PacketsBytes(ps)| == PacketsLength(ps)
  {
    if ps != [] {
      PacketsWritten(ps[1..]);
    }
  }

  lemma {:induction false} RegionsWritten(rs: seq<Region>)
    ensures |RegionsBytes(rs)| == 24 * |rs|
  {
    if rs != [] {
      RegionsWritten(rs[1..]);
    }
  }

  /** What a header read back unchanged says about the written one, and where the packets start: at the distance of the
      recorded notes length, or at the end of the file when that lies behind it and no region follows. */
  lemma HeaderTaken(h: Header, tail: seq<Byte>)
    requires Dumpable(h)
    requires var r := ReadHeader(HeaderBytes(h) + tail); r.Got? && r.value == CanonHeader(h)
    ensures |h.name| <= 30 && NoTrailingNul(h.name) && NoTrailingNul(h.notes.value)
    ensures 0 < h.notesLength < NOTES_LIMIT && h.numRegions <= REGION_LIMIT && h.notesLength >= |h.notes.value|
    ensures var rest := ReadHeader(HeaderBytes(h) + tail).rest;
      || |rest| == |tail| + |h.notes.value| + 1 - h.notesLength
      || (rest == [] && h.numRegions == 0 && h.notesLength > |tail| + |h.notes.value| + 1)
  {
    hide RecordBytes, RegionsBytes, ReadRecord, ReadRegions, StripNuls, Name30, Fits;
    var regions := RegionsBytes(h.regions.value);
    var body := Zeros(8) + (h.notes.value + ([0] + regions));
    Associate(RecordBytes(h), body, tail);
    RecordBack(h, body + tail);
    NameBack(h.name);
    var rest := h.notes.value + ([0] + regions) + tail;
    assert body + tail == Zeros(8) + rest;
    assert After(body + tail, 8) == rest;
    StripResult(Chunk(rest, h.notesLength));
    RegionsWritten(h.regions.value);
    if h.numRegions > 0 {
      RegionsTaken(After(rest, h.notesLength), h.numRegions);
    }
  }

  /** A trace that comes back with reading stopping exactly behind it, whatever that is, has its texts and counts right, and its notes
      length is right unless it points behind everything that was written. */
  lemma ComesBackOnlyIf(t: Trace, tail: seq<Byte>)
    requires TraceDumpable(t) && ReadTrace(TraceBytes(t) + tail) == Got(CanonTrace(t), tail)
    ensures TextsAndCounts(t)
    ensures t.header.notesLength == |t.header.notes.value| + 1
         || (tail == [] && t.packets == [] && t.header.numRegions == 0 && t.header.notesLength > |t.header.notes.value| + 1)
  {
    hide HeaderBytes, PacketsBytes, ReadHeader, ReadPackets, CanonPackets, FaithfulPacket, PacketDumpable, NoTrailingNul;
    Associate(HeaderBytes(t.header), PacketsBytes(t.packets), tail);
    var r := ReadHeader(HeaderBytes(t.header) + (PacketsBytes(t.packets) + tail));
    PacketsTaken(r.rest, r.value.packets);
    CanonIsFaithful(t.packets);
    NonNegativeLength(t.packets);
    HeaderTaken(t.header, PacketsBytes(t.packets) + tail);
    PacketsWritten(t.packets);
    if t.packets != [] {
      LengthPositive(t.packets);
    }
  }

  lemma LengthPositive(ps: seq<Packet>)
    requires ps != [] && forall i :: 0 <= i < |ps| ==> PacketDumpable(ps[i])
    ensures PacketsLength(ps) > 0
  {
    assert PacketDumpable(ps[0]);
    NonNegativeLength(ps[1..]);
  }

  lemma {:induction false} NonNegativeLength(ps: seq<Packet>)
    requires forall i :: 0 <= i < |ps| ==> PacketDumpable(ps[i])
    ensures PacketsLength(ps) >= 0
  {
    if ps != [] {
      assert PacketDumpable(ps[0]);
      NonNegativeLength(ps[1..]);
    }
  }

  /** A written trace comes back, with reading stopping exactly behind it whatever follows, if and only if
      it is faithful. */
  lemma RoundTripIffFaithful(t: Trace)
    requires TraceDumpable(t)
    ensures (forall tail: seq<Byte> :: ReadTrace(TraceBytes(t) + tail) == Got(CanonTrace(t), tail)) <==> Faithful(t)
  {
    hide ReadTrace, TraceBytes, CanonTrace, TraceDumpable;
    if Faithful(t) {
      forall tail: seq<Byte> ensures ReadTrace(TraceBytes(t) + tail) == Got(CanonTrace(t), tail) {
        TraceBack(t, tail);
      }
    } else {
      var one: seq<Byte> := [1];
      if ReadTrace(TraceBytes(t) + one) == Got(CanonTrace(t), one) {
        ComesBackOnlyIf(t, one);
      }
    }
  }

  /** A header whose notes length points behind the end of a file that holds nothing else. */
  lemma LongNotesBack(t: Trace)
    requires TraceDumpable(t) && TextsAndCounts(t)
    requires t.packets == [] && t.header.numRegions == 0 && t.header.notesLength >= |t.header.notes.value| + 1
    ensures ReadTrace(TraceBytes(t)) == Got(CanonTrace(t), [])
  {
    hide RecordBytes, ReadRecord, StripNuls, Name30, Fits;
    var h := t.header;
    var notes := h.notes.value + [0];
    NoRegions();
    assert h.regions.value == [];
    assert PacketsBytes([]) == [];
    var body := Zeros(8) + (h.notes.value + ([0] + []));
    assert TraceBytes(t) == RecordBytes(h) + body;
    RecordBack(h, body);
    NameBack(h.name);
    assert After(body, 8) == notes;
    StripZeros(h.notes.value, 1);
    assert Zeros(1) == [0];
    assert Chunk(notes, h.notesLength) == notes && After(notes, h.notesLength) == [];
  }

  /** The file that is dumped holds the trace and nothing else. It gives the trace again and is read to its end if and only
      if texts and counts are right and the notes length is, or only the notes were written and their length is at least
      what was written of them. */
  lemma FileRoundTripIff(t: Trace)
    requires TraceDumpable(t)
    ensures ReadTrace(TraceBytes(t)) == Got(CanonTrace(t), []) <==> Recoverable(t)
  {
    hide ReadTrace, TraceBytes, CanonTrace, TraceDumpable;
    assert TraceBytes(t) + [] == TraceBytes(t);
    if Recoverable(t) {
      if t.header.notesLength == |t.header.notes.value| + 1 {
        TraceBack(t, []);
      } else {
        LongNotesBack(t);
      }
    } else if ReadTrace(TraceBytes(t)) == Got(CanonTrace(t), []) {
      ComesBackOnlyIf(t, []);
    }
  }

  /** An unfaithful trace whose file is read back all the same. */
  lemma LongNotesExample()
    ensures var t := Trace(Header([], 0, 0, 0, 100, 0, Some([]), Some([])), []);
      TraceDumpable(t) && !Faithful(t) && ReadTrace(TraceBytes(t)) == Got(CanonTrace(t), [])
  {
    var t := Trace(Header([], 0, 0, 0, 100, 0, Some([]), Some([])), []);
    assert Pow256(1) == 256 && Pow256(4) == 256 * (256 * (256 * Pow256(1)));
    assert Fits(100, 4) && Fits(0, 1) && Fits(0, 4) && Fits(0, 8);
    FileRoundTripIff(t);
    hide ReadTrace, TraceBytes;
  }

  /** Without a notes length no notes are read, whatever follows, so the header never comes back. */
  lemma NoNotesWithoutLength(t: Trace, tail: seq<Byte>)
    requires TraceDumpable(t) && t.header.notesLength == 0
    ensures ReadTrace(TraceBytes(t) + tail).Got? ==> ReadTrace(TraceBytes(t) + tail).value != CanonTrace(t)
  {
    hide HeaderBytes, PacketsBytes, ReadHeader, ReadPackets, CanonPackets, PacketDumpable;
    Associate(HeaderBytes(t.header), PacketsBytes(t.packets), tail);
    NoNotesRead(t.header, PacketsBytes(t.packets) + tail);
  }

  lemma NoNotesRead(h: Header, tail: seq<Byte>)
    requires Dumpable(h) && h.notesLength == 0
    ensures ReadHeader(HeaderBytes(h) + tail).Got? ==> ReadHeader(HeaderBytes(h) + tail).value.notes == None
  {
    hide RecordBytes, RegionsBytes, ReadRecord, ReadRegions, StripNuls, Name30, Fits;
    var body := Zeros(8) + (h.notes.value + ([0] + RegionsBytes(h.regions.value)));
    Associate(RecordBytes(h), body, tail);
    RecordBack(h, body + tail);
  }
}
