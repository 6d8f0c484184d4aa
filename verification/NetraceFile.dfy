/** The objects that write and read a netrace file through a cursor. */
module NetraceFile {
  import opened LittleEndian
  import opened Netrace
  import opened Wrappers

  class ByteFile {
    var data: seq<Byte>
    var pos: nat

    constructor ()
      ensures data == [] && pos == 0
    {
      data, pos := [], 0;
    }

    ghost predicate Valid()
      reads this
    {
      pos <= |data|
    }

    /** What is still to be read. */
    ghost function Ahead(): seq<Byte>
      requires Valid()
      reads this
    {
      data[pos..]
    }

    method Write(bytes: seq<Byte>)
      requires Valid() && pos == |data|
      modifies this
      ensures Valid() && data == old(data) + bytes && pos == |data|
    {
      data := data + bytes;
      pos := |data|;
    }

    /** Up to `n` bytes; fewer at the end of the file. */
    method Read(n: nat) returns (chunk: seq<Byte>)
      requires Valid()
      modifies this`pos
      ensures Valid() && chunk == Chunk(old(Ahead()), n) && Ahead() == After(old(Ahead()), n)
    {
      var end := if pos + n <= |data| then pos + n else |data|;
      chunk := data[pos..end];
      pos := end;
    }
  }

  class NTHeader {
    var fields: Header

    constructor (fields: Header)
      ensures this.fields == fields
    {
      this.fields := fields;
    }

    method Dump(fp: ByteFile) returns (ok: bool)
      requires fp.Valid() && fp.pos == |fp.data|
      modifies fp
      ensures fp.Valid() && fp.pos == |fp.data|
      ensures ok <==> Dumpable(fields)
      ensures ok ==> fp.data == old(fp.data) + HeaderBytes(fields)
    {
      hide RecordBytes, RegionsBytes, Fits, RegionFits;
      var h := fields;
      if !(Fits(h.nodes, 1) && Fits(h.cycles, 8) && Fits(h.packets, 8) && Fits(h.notesLength, 4) && Fits(h.numRegions, 4)) {
        return false;
      }
      fp.Write(RecordBytes(h));
      fp.Write(Zeros(8));
      if h.notes.None? {
        return false;
      }
      fp.Write(h.notes.value + [0]);
      if h.regions.None? || |h.regions.value| != h.numRegions {
        return false;
      }
      ghost var start := fp.data;
      var rs := h.regions.value;
      NoBytes();
      for i := 0 to |rs|
        invariant fp.Valid() && fp.pos == |fp.data|
        invariant forall j :: 0 <= j < i ==> RegionFits(rs[j])
        invariant fp.data == start + RegionsBytes(rs[..i])
      {
        if !RegionFits(rs[i]) {
          return false;
        }
        fp.Write(RegionBytes(rs[i]));
        RegionsLast(rs[..i], rs[i]);
        assert rs[..i + 1] == rs[..i] + [rs[i]];
      }
      assert rs[..|rs|] == rs;
      Joined(old(fp.data), RecordBytes(h), Zeros(8), h.notes.value, [0], RegionsBytes(rs));
      return true;
    }

    method Read(fp: ByteFile) returns (ok: bool)
      requires fp.Valid()
      modifies fp`pos, this
      ensures fp.Valid() && fp.data == old(fp.data)
      ensures ok <==> ReadHeader(old(fp.Ahead())).Got?
      ensures ok ==> ReadHeader(old(fp.Ahead())) == Got(fields, fp.Ahead())
    {
      hide ReadRecord, ReadRegions, StripNuls;
      ghost var s := fp.Ahead();
      var pack := fp.Read(64);
      if |pack| < 64 {
        return false;
      }
      RecordPrefix(s);
      var record := ReadRecord(pack);
      if record.Failed? {
        return false;
      }
      var h := record.value;
      var padding := fp.Read(8);
      if 0 < h.notesLength < NOTES_LIMIT {
        ghost var left := fp.Ahead();
        var notes := fp.Read(h.notesLength);
        if notes == [] {
          assert left == [];
          return false;
        }
        h := h.(notes := Some(StripNuls(notes)));
      }
      if h.numRegions > 0 {
        if h.numRegions > REGION_LIMIT {
          return false;
        }
        var regions: seq<Region> := [];
        ghost var all := fp.Ahead();
        PrependNothing(ReadRegions(all, h.numRegions));
        for i := 0 to h.numRegions
          invariant fp.Valid() && fp.data == old(fp.data)
          invariant Prepend(regions, ReadRegions(fp.Ahead(), h.numRegions - i)) == ReadRegions(all, h.numRegions)
        {
          RegionsUnfold(regions, fp.Ahead(), h.numRegions - i);
          ghost var here := fp.Ahead();
          var bytes := fp.Read(24);
          if |bytes| < 24 {
            return false;
          }
          SameRegion(here);
          regions := regions + [RegionOf(bytes)];
        }
        RegionsDone(regions, fp.Ahead());
        h := h.(regions := Some(regions));
      }
      fields := h;
      return true;
    }
  }

  /** The result of a loop that has collected `before` and still has to read the rest. */
  ghost function Prepend<T>(before: seq<T>, r: Parsed<seq<T>>): Parsed<seq<T>> {
    match r case Failed => Failed case Got(more, rest) => Got(before + more, rest)
  }

  lemma PrependNothing<T>(r: Parsed<seq<T>>)
    ensures Prepend([], r) == r
  {
    if r.Got? {
      assert [] + r.value == r.value;
    }
  }

  /** `struct.unpack` of one region. */
  function RegionOf(s: seq<Byte>): Region
    requires |s| >= 24
  {
    Region(FromBytes(s[..8]), FromBytes(s[8..][..8]), FromBytes(s[8..][8..][..8]))
  }

  lemma RegionsUnfold(before: seq<Region>, s: seq<Byte>, n: nat)
    requires n > 0
    ensures |s| < 24 ==> ReadRegions(s, n).Failed?
    ensures |s| >= 24 ==>
      Prepend(before, ReadRegions(s, n)) == Prepend(before + [RegionOf(s)], ReadRegions(s[24..], n - 1))
  {
    if |s| >= 24 && ReadRegions(s[24..], n - 1).Got? {
      var rs := ReadRegions(s[24..], n - 1).value;
      assert before + ([RegionOf(s)] + rs) == before + [RegionOf(s)] + rs;
    }
  }

  lemma RegionsDone(regions: seq<Region>, s: seq<Byte>)
    ensures Prepend(regions, ReadRegions(s, 0)) == Got(regions, s)
  {
    assert regions + [] == regions;
  }

  lemma SameRegion(s: seq<Byte>)
    requires |s| >= 24
    ensures RegionOf(s[..24]) == RegionOf(s)
  {
    assert s[..24][..8] == s[..8];
    assert s[..24][8..][..8] == s[8..][..8];
    assert s[..24][8..][8..][..8] == s[8..][8..][..8];
  }

  lemma NoBytes()
    ensures RegionsBytes([]) == []
  {
  }

  lemma {:induction false} RegionsLast(rs: seq<Region>, r: Region)
    ensures RegionsBytes(rs + [r]) == RegionsBytes(rs) + RegionBytes(r)
  {
    if rs == [] {
      assert [] + [r] == [r] && [r][1..] == [];
    } else {
      RegionsLast(rs[1..], r);
      assert (rs + [r])[1..] == rs[1..] + [r];
      Associate(RegionBytes(rs[0]), RegionsBytes(rs[1..]), RegionBytes(r));
    }
  }

  lemma Joined(a: seq<Byte>, b: seq<Byte>, c: seq<Byte>, d: seq<Byte>, e: seq<Byte>, f: seq<Byte>)
    ensures a + b + c + (d + e) + f == a + (b + (c + (d + (e + f))))
  {
  }

  lemma Shift(s: seq<Byte>, n: nat, k: nat)
    requires k <= n <= |s|
    ensures s[..n][..k] == s[..k] && s[..n][k..] == s[k..][..n - k]
  {
  }

  /** Unpacking looks at the 64 bytes only. */
  lemma RecordPrefix(s: seq<Byte>)
    requires |s| >= 64
    ensures ReadRecord(s) == match ReadRecord(s[..64]) case Failed => Failed case Got(h, _) => Got(h, s[64..])
  {
    hide FromBytes, StripNuls;
    var s1 := s[4..];
    var s2 := s1[4..];
    var s3 := s2[30..];
    var s4 := s3[1..];
    var s5 := s4[1..];
    var s6 := s5[8..];
    var s7 := s6[8..];
    var s8 := s7[4..];
    Shift(s, 64, 4);
    Shift(s1, 60, 4);
    Shift(s2, 56, 30);
    Shift(s3, 26, 1);
    Shift(s4, 25, 1);
    Shift(s5, 24, 8);
    Shift(s6, 16, 8);
    Shift(s7, 8, 4);
    Shift(s8, 4, 4);
    assert s8[4..] == s[64..];
  }

  class NTPacket {
    var fields: Packet

    constructor (fields: Packet)
      ensures this.fields == fields
    {
      this.fields := fields;
    }

    method Dump(fp: ByteFile) returns (ok: bool)
      requires fp.Valid() && fp.pos == |fp.data|
      modifies fp
      ensures fp.Valid() && fp.pos == |fp.data|
      ensures ok <==> PacketDumpable(fields)
      ensures ok ==> fp.data == old(fp.data) + PacketBytes(fields)
    {
      hide PacketRecord, DepsBytes, Fits;
      var p := fields;
      if !(Fits(p.cycle, 8) && Fits(p.id, 4) && Fits(p.size, 4) && Fits(p.kind, 1) && Fits(p.src, 1) && Fits(p.dst, 1)
           && Fits(p.nodeTypes, 1) && Fits(p.numDeps, 1)) {
        return false;
      }
      fp.Write(PacketRecord(p));
      if p.numDeps > 0 {
        if p.deps.None? {
          return false;
        }
        var deps := p.deps.value;
        ghost var start := fp.data;
        NoDeps();
        for i := 0 to |deps|
          invariant fp.Valid() && fp.pos == |fp.data|
          invariant forall j :: 0 <= j < i ==> Fits(deps[j], 4)
          invariant fp.data == start + DepsBytes(deps[..i])
        {
          if !Fits(deps[i], 4) {
            return false;
          }
          fp.Write(Put(deps[i], 4));
          DepsLast(deps[..i], deps[i]);
          assert deps[..i + 1] == deps[..i] + [deps[i]];
        }
        assert deps[..|deps|] == deps;
      }
      return true;
    }

    method Read(fp: ByteFile) returns (ok: bool)
      requires fp.Valid()
      modifies fp`pos, this
      ensures fp.Valid() && fp.data == old(fp.data)
      ensures ok <==> ReadPacket(old(fp.Ahead())).Got?
      ensures ok ==> ReadPacket(old(fp.Ahead())) == Got(fields, fp.Ahead())
    {
      hide ReadPacketRecord, ReadDeps;
      ghost var s := fp.Ahead();
      var pack := fp.Read(21);
      if |pack| < 21 {
        return false;
      }
      PacketPrefix(s);
      var record := ReadPacketRecord(pack);
      var p := record.value;
      if p.numDeps > 0 {
        var deps: seq<int> := [];
        ghost var all := fp.Ahead();
        PrependNothing(ReadDeps(all, p.numDeps));
        for i := 0 to p.numDeps
          invariant fp.Valid() && fp.data == old(fp.data)
          invariant Prepend(deps, ReadDeps(fp.Ahead(), p.numDeps - i)) == ReadDeps(all, p.numDeps)
        {
          DepsUnfold(deps, fp.Ahead(), p.numDeps - i);
          ghost var here := fp.Ahead();
          var bytes := fp.Read(4);
          if |bytes| < 4 {
            return false;
          }
          assert bytes[..4] == here[..4];
          deps := deps + [FromBytes(bytes[..4])];
        }
        DepsDone(deps, fp.Ahead());
        p := p.(deps := Some(deps));
      }
      fields := p;
      return true;
    }
  }

  lemma DepsUnfold(before: seq<int>, s: seq<Byte>, n: nat)
    requires n > 0
    ensures |s| < 4 ==> ReadDeps(s, n).Failed?
    ensures |s| >= 4 ==>
      Prepend(before, ReadDeps(s, n)) == Prepend(before + [FromBytes(s[..4])], ReadDeps(s[4..], n - 1))
  {
    if |s| >= 4 && ReadDeps(s[4..], n - 1).Got? {
      var d: int := FromBytes(s[..4]);
      var ds := ReadDeps(s[4..], n - 1).value;
      assert before + ([d] + ds) == before + [d] + ds;
    }
  }

  lemma DepsDone(deps: seq<int>, s: seq<Byte>)
    ensures Prepend(deps, ReadDeps(s, 0)) == Got(deps, s)
  {
    assert deps + [] == deps;
  }

  lemma NoDeps()
    ensures DepsBytes([]) == []
  {
  }

  lemma {:induction false} DepsLast(deps: seq<int>, d: int)
    ensures DepsBytes(deps + [d]) == DepsBytes(deps) + Put(d, 4)
  {
    if deps == [] {
      assert [] + [d] == [d] && [d][1..] == [];
    } else {
      DepsLast(deps[1..], d);
      assert (deps + [d])[1..] == deps[1..] + [d];
      Associate(Put(deps[0], 4), DepsBytes(deps[1..]), Put(d, 4));
    }
  }

  lemma PacketPrefix(s: seq<Byte>)
    requires |s| >= 21
    ensures ReadPacketRecord(s).Got? && ReadPacketRecord(s[..21]).Got?
    ensures ReadPacketRecord(s) == Got(ReadPacketRecord(s[..21]).value, s[21..])
  {
    hide FromBytes;
    var s1 := s[8..];
    var s2 := s1[4..];
    var s3 := s2[4..];
    var s4 := s3[1..];
    var s5 := s4[1..];
    var s6 := s5[1..];
    var s7 := s6[1..];
    Shift(s, 21, 8);
    Shift(s1, 13, 4);
    Shift(s2, 9, 4);
    Shift(s3, 5, 1);
    Shift(s4, 4, 1);
    Shift(s5, 3, 1);
    Shift(s6, 2, 1);
    Shift(s7, 1, 1);
    assert s7[1..] == s[21..];
  }

  /* ---- whole traces ---- */

  /** The trace object before any packet is added. Its notes are empty and their length is recorded as 0. */
  function EmptyTrace(name: seq<Byte>): Trace {
    Trace(Header(name, 0, 0, 0, 0, 0, Some([]), Some([])), [])
  }

  function AddPacket(t: Trace, p: Packet): Trace {
    Trace(t.header.(packets := t.header.packets + 1, cycles := if p.cycle > t.header.cycles then p.cycle else t.header.cycles),
          t.packets + [p])
  }

  function AddPackets(t: Trace, ps: seq<Packet>): Trace {
    if ps == [] then t else AddPacket(AddPackets(t, ps[..|ps| - 1]), ps[|ps| - 1])
  }

  /** Adding packets keeps the packet count right and records the largest cycle, but a trace built this way
      is never faithful: the terminator of its empty notes is written and not counted. */
  lemma {:induction false} BuiltTraceCounts(name: seq<Byte>, ps: seq<Packet>)
    ensures var t := AddPackets(EmptyTrace(name), ps);
      && t.packets == ps && t.header == Header(name, 0, t.header.cycles, |ps|, 0, 0, Some([]), Some([]))
      && t.header.cycles >= 0 && (forall i :: 0 <= i < |ps| ==> ps[i].cycle <= t.header.cycles)
      && (t.header.cycles == 0 || exists i :: 0 <= i < |ps| && ps[i].cycle == t.header.cycles)
      && !Faithful(t)
  {
    hide Faithful;
    NoLengthNotFaithful(AddPackets(EmptyTrace(name), ps));
    if ps != [] {
      var n := |ps| - 1;
      var before := AddPackets(EmptyTrace(name), ps[..n]);
      BuiltTraceCounts(name, ps[..n]);
      assert AddPackets(EmptyTrace(name), ps) == AddPacket(before, ps[n]);
      LargestSoFar(ps[..n], ps[n], before.header.cycles);
      assert ps[..n] + [ps[n]] == ps;
    }
  }

  lemma NoLengthNotFaithful(t: Trace)
    ensures t.header.notesLength == 0 ==> !Faithful(t)
  {
  }

  lemma LargestSoFar(before: seq<Packet>, p: Packet, most: int)
    requires most >= 0 && forall i :: 0 <= i < |before| ==> before[i].cycle <= most
    requires most == 0 || exists i :: 0 <= i < |before| && before[i].cycle == most
    ensures var ps := before + [p]; var more := if p.cycle > most then p.cycle else most;
      && (forall i :: 0 <= i < |ps| ==> ps[i].cycle <= more)
      && (more == 0 || exists i :: 0 <= i < |ps| && ps[i].cycle == more)
  {
    var ps := before + [p];
    if p.cycle > most {
      assert ps[|before|].cycle == p.cycle;
    } else if most != 0 {
      var i :| 0 <= i < |before| && before[i].cycle == most;
      assert ps[i].cycle == most;
    }
  }

  /** The file of a trace built by adding packets never gives that trace back, even with more bytes behind it. */
  lemma BuiltTraceIsNotReadBack(name: seq<Byte>, ps: seq<Packet>, tail: seq<Byte>)
    requires TraceDumpable(AddPackets(EmptyTrace(name), ps))
    ensures var t := AddPackets(EmptyTrace(name), ps); var r := ReadTrace(TraceBytes(t) + tail);
      r != Got(CanonTrace(t), tail) && (r.Got? ==> r.value != CanonTrace(t))
  {
    hide ReadTrace, TraceBytes, CanonTrace, TraceDumpable, AddPackets;
    BuiltTraceCounts(name, ps);
    NoNotesWithoutLength(AddPackets(EmptyTrace(name), ps), tail);
  }

  class NTTrace {
    var trace: Trace

    constructor (name: seq<Byte>)
      ensures trace == EmptyTrace(name)
    {
      trace := EmptyTrace(name);
    }

    method Add(p: Packet)
      modifies this
      ensures trace == AddPacket(old(trace), p)
    {
      var h := trace.header;
      h := h.(packets := h.packets + 1);
      if p.cycle > h.cycles {
        h := h.(cycles := p.cycle);
      }
      trace := Trace(h, trace.packets + [p]);
    }

    method Dump(fp: ByteFile) returns (ok: bool)
      requires fp.data == [] && fp.pos == 0
      modifies fp
      ensures ok <==> TraceDumpable(trace)
      ensures ok ==> fp.data == TraceBytes(trace)
    {
      hide HeaderBytes, PacketBytes, Dumpable, PacketDumpable;
      var header := new NTHeader(trace.header);
      ok := header.Dump(fp);
      if !ok {
        return;
      }
      ghost var start := fp.data;
      var ps := trace.packets;
      NoPackets();
      for i := 0 to |ps|
        invariant fp.Valid() && fp.pos == |fp.data|
        invariant forall j :: 0 <= j < i ==> PacketDumpable(ps[j])
        invariant fp.data == start + PacketsBytes(ps[..i])
      {
        var packet := new NTPacket(ps[i]);
        ok := packet.Dump(fp);
        if !ok {
          return;
        }
        PacketsLast(ps[..i], ps[i]);
        assert ps[..i + 1] == ps[..i] + [ps[i]];
      }
      assert ps[..|ps|] == ps;
    }

    /** The header is replaced, and the packets are added to those the trace already holds. */
    method Read(fp: ByteFile) returns (ok: bool)
      requires fp.Valid()
      modifies fp`pos, this
      ensures fp.Valid() && fp.data == old(fp.data)
      ensures ok <==> ReadTrace(old(fp.Ahead())).Got?
      ensures ok ==> old(trace.packets) <= trace.packets
      ensures ok ==> ReadTrace(old(fp.Ahead())) == Got(Trace(trace.header, trace.packets[|old(trace.packets)|..]), fp.Ahead())
    {
      hide ReadHeader, ReadPackets, ReadPacket;
      var header := new NTHeader(trace.header);
      ok := header.Read(fp);
      if !ok {
        return;
      }
      var h := header.fields;
      var n: nat := if h.packets >= 0 then h.packets else 0;
      ghost var before, ps := trace.packets, [];
      trace := trace.(header := h);
      assert before + [] == before;
      ghost var all := fp.Ahead();
      PrependNothing(ReadPackets(all, n));
      for i := 0 to n
        invariant fp.Valid() && fp.data == old(fp.data) && trace == Trace(h, before + ps)
        invariant Prepend(ps, ReadPackets(fp.Ahead(), n - i)) == ReadPackets(all, n)
      {
        PacketsUnfold(ps, fp.Ahead(), n - i);
        var packet := new NTPacket(Packet(0, 0, 0, 0, 0, 0, 0, 0, Some([])));
        ok := packet.Read(fp);
        if !ok {
          return;
        }
        trace := trace.(packets := trace.packets + [packet.fields]);
        Associate(before, ps, [packet.fields]);
        ps := ps + [packet.fields];
      }
      PacketsDone(ps, fp.Ahead());
      assert (before + ps)[|before|..] == ps;
    }
  }

  lemma NoPackets()
    ensures PacketsBytes([]) == []
  {
  }

  lemma {:induction false} PacketsLast(ps: seq<Packet>, p: Packet)
    requires PacketDumpable(p) && forall i :: 0 <= i < |ps| ==> PacketDumpable(ps[i])
    ensures PacketsBytes(ps + [p]) == PacketsBytes(ps) + PacketBytes(p)
  {
    hide PacketBytes, PacketDumpable;
    if ps == [] {
      assert [] + [p] == [p] && [p][1..] == [];
    } else {
      PacketsLast(ps[1..], p);
      assert (ps + [p])[1..] == ps[1..] + [p];
      Associate(PacketBytes(ps[0]), PacketsBytes(ps[1..]), PacketBytes(p));
    }
  }

  lemma PacketsUnfold(before: seq<Packet>, s: seq<Byte>, n: nat)
    requires n > 0
    ensures ReadPacket(s).Failed? ==> ReadPackets(s, n).Failed?
    ensures ReadPacket(s).Got? ==>
      Prepend(before, ReadPackets(s, n))
      == Prepend(before + [ReadPacket(s).value], ReadPackets(ReadPacket(s).rest, n - 1))
  {
    hide ReadPacket;
    if ReadPacket(s).Got? && ReadPackets(ReadPacket(s).rest, n - 1).Got? {
      var p := ReadPacket(s).value;
      var ps := ReadPackets(ReadPacket(s).rest, n - 1).value;
      assert before + ([p] + ps) == before + [p] + ps;
    }
  }

  lemma PacketsDone(ps: seq<Packet>, s: seq<Byte>)
    ensures Prepend(ps, ReadPackets(s, 0)) == Got(ps, s)
  {
    assert ps + [] == ps;
  }
}
