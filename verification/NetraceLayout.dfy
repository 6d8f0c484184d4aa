/** Where in the file each field of a header and of a packet is, and what the reader insists on. */
module NetraceLayout {
  import opened LittleEndian
  import opened Netrace
  import opened Wrappers

  /** The bytes of `s` from `at` on are those of `part`. */
  ghost predicate Holds(s: seq<Byte>, at: nat, part: seq<Byte>) {
    at + |part| <= |s| && s[at..at + |part|] == part
  }

  /** The number in the `k` bytes from `at` on, least significant first. */
  ghost predicate Number(s: seq<Byte>, at: nat, k: nat, v: int) {
    && at + k <= |s| && 0 <= v
    && forall i :: 0 <= i < k ==> s[at + i] == (v / Pow256(i)) % 256
  }

  lemma {:induction false} NumberWritten(v: nat, k: nat, i: nat)
    requires i < k
    ensures ToBytes(v, k)[i] == (v / Pow256(i)) % 256
  {
    if i > 0 {
      NumberWritten(v / 256, k - 1, i - 1);
      DivideTwice(v, Pow256(i - 1));
    }
  }

  lemma DivideTwice(v: nat, p: nat)
    requires p > 0
    ensures v / 256 / p == v / (256 * p)
  {
    var q, m := v / 256 / p, (v / 256) % p;
    assert v / 256 == q * p + m;
    assert v == (256 * p) * q + (256 * m + v % 256);
    Quotient(v, 256 * p, q, 256 * m + v % 256);
  }

  lemma Quotient(v: int, d: int, q: int, r: int)
    requires d > 0 && v == d * q + r && 0 <= r < d
    ensures v / d == q
  {
    Remainder(v, d, q, r);
    var x := v / d - q;
    assert d * x == 0;
  }

  lemma PutHolds(s: seq<Byte>, at: nat, v: int, k: nat)
    requires Holds(s, at, Put(v, k)) && Fits(v, k)
    ensures Number(s, at, k, v)
  {
    forall i | 0 <= i < k ensures s[at + i] == (v / Pow256(i)) % 256 {
      NumberWritten(v, k, i);
      assert s[at..at + k][i] == Put(v, k)[i];
    }
  }

  /** From `at` on the string is `t`. */
  ghost predicate Rest(s: seq<Byte>, at: nat, t: seq<Byte>) {
    at <= |s| && s[at..] == t
  }

  lemma Next(s: seq<Byte>, at: nat, a: seq<Byte>, t: seq<Byte>)
    requires Rest(s, at, a + t)
    ensures Holds(s, at, a) && Rest(s, at + |a|, t)
  {
    assert s[at..][..|a|] == a && s[at..][|a|..] == t;
    assert s[at..at + |a|] == s[at..][..|a|];
  }

  lemma NextNumber(s: seq<Byte>, at: nat, v: int, k: nat, t: seq<Byte>)
    requires Rest(s, at, Put(v, k) + t) && Fits(v, k)
    ensures Number(s, at, k, v) && Rest(s, at + k, t)
  {
    Next(s, at, Put(v, k), t);
    PutHolds(s, at, v, k);
  }

  lemma LastNumber(s: seq<Byte>, at: nat, v: int, k: nat)
    requires Rest(s, at, Put(v, k)) && Fits(v, k)
    ensures Number(s, at, k, v) && Rest(s, at + k, [])
  {
    assert Put(v, k) + [] == Put(v, k);
    NextNumber(s, at, v, k, []);
  }

  /* ---- the header ---- */

  lemma Magic()
    ensures Put(NTMAGIC, 4) == [0x55, 0x54, 0x4A, 0x48] && Put(VERSION_ONE, 4) == [0, 0, 0x80, 0x3F]
  {
    assert ToBytes(0x48, 1) == [0x48] + ToBytes(0, 0) && ToBytes(0x3F, 1) == [0x3F] + ToBytes(0, 0);
    assert ToBytes(0x484A, 2) == [0x4A] + ToBytes(0x48, 1) && ToBytes(0x3F80, 2) == [0x80] + ToBytes(0x3F, 1);
    assert ToBytes(0x484A54, 3) == [0x54] + ToBytes(0x484A, 2) && ToBytes(0x3F8000, 3) == [0] + ToBytes(0x3F80, 2);
    assert ToBytes(0x484A5455, 4) == [0x55] + ToBytes(0x484A54, 3) && ToBytes(0x3F800000, 4) == [0] + ToBytes(0x3F8000, 3);
  }

  /** Where the fields of the record are, with the byte that aligns the long ones. */
  lemma RecordLayout(h: Header, s: seq<Byte>, more: seq<Byte>)
    requires Dumpable(h) && s == RecordBytes(h) + more
    ensures Holds(s, 0, [0x55, 0x54, 0x4A, 0x48]) && Holds(s, 4, [0, 0, 0x80, 0x3F])
    ensures Holds(s, 8, Name30(h.name))
    ensures Number(s, 38, 1, h.nodes) && Holds(s, 39, [0])
    ensures Number(s, 40, 8, h.cycles) && Number(s, 48, 8, h.packets)
    ensures Number(s, 56, 4, h.notesLength) && Number(s, 60, 4, h.numRegions)
    ensures Rest(s, 64, more)
  {
    hide Put, Name30, Fits, Number, Holds;
    Magic();
    var t8 := Put(h.notesLength, 4) + Put(h.numRegions, 4);
    var t7 := Put(h.packets, 8) + t8;
    var t6 := Put(h.cycles, 8) + t7;
    var t5 := [0] + t6;
    var t4 := Put(h.nodes, 1) + t5;
    var t3 := Name30(h.name) + t4;
    var t2 := Put(VERSION_ONE, 4) + t3;
    var r := RecordBytes(h);
    assert r == Put(NTMAGIC, 4) + t2;
    assert Rest(r, 0, r);
    Next(r, 0, Put(NTMAGIC, 4), t2);
    Next(r, 4, Put(VERSION_ONE, 4), t3);
    Next(r, 8, Name30(h.name), t4);
    NextNumber(r, 38, h.nodes, 1, t5);
    Next(r, 39, [0], t6);
    NextNumber(r, 40, h.cycles, 8, t7);
    NextNumber(r, 48, h.packets, 8, t8);
    NextNumber(r, 56, h.notesLength, 4, Put(h.numRegions, 4));
    LastNumber(r, 60, h.numRegions, 4);
    InFront(r, more);
    assert s[64..] == more;
  }

  /** What the front of a string holds the whole string holds. */
  lemma InFront(a: seq<Byte>, b: seq<Byte>)
    ensures forall at: nat, part :: Holds(a, at, part) ==> Holds(a + b, at, part)
    ensures forall at: nat, k: nat, v: int :: Number(a, at, k, v) ==> Number(a + b, at, k, v)
  {
    forall at: nat, part | Holds(a, at, part) ensures Holds(a + b, at, part) {
      assert (a + b)[at..at + |part|] == a[at..at + |part|];
    }
  }

  /** A name that fits is followed by zero bytes up to thirty. */
  lemma NameLayout(name: seq<Byte>)
    ensures |Name30(name)| == 30
    ensures forall i :: 0 <= i < 30 ==> Name30(name)[i] == if i < |name| then name[i] else 0
  {
  }

  lemma {:induction false} RegionsLayout(rs: seq<Region>, s: seq<Byte>, at: nat, i: nat)
    requires Rest(s, at, RegionsBytes(rs)) && i < |rs| && forall j :: 0 <= j < |rs| ==> RegionFits(rs[j])
    ensures Number(s, at + 24 * i, 8, rs[i].seekOffset)
    ensures Number(s, at + 24 * i + 8, 8, rs[i].cycles)
    ensures Number(s, at + 24 * i + 16, 8, rs[i].packets)
    decreases i
  {
    hide Put, Fits, Number;
    var r, more := rs[0], RegionsBytes(rs[1..]);
    assert RegionFits(r);
    var t2, t3 := Put(r.cycles, 8) + Put(r.packets, 8), Put(r.packets, 8);
    Associate(Put(r.seekOffset, 8), t2, more);
    Associate(Put(r.cycles, 8), t3, more);
    NextNumber(s, at, r.seekOffset, 8, t2 + more);
    NextNumber(s, at + 8, r.cycles, 8, t3 + more);
    NextNumber(s, at + 16, r.packets, 8, more);
    if i > 0 {
      RegionsLayout(rs[1..], s, at + 24, i - 1);
    }
  }

  /** Behind the record: eight zero bytes, the notes, their terminator, and 24 bytes for each region. */
  lemma HeaderLayout(h: Header, i: nat)
    requires Dumpable(h)
    ensures var s, n := HeaderBytes(h), |h.notes.value|;
      && Holds(s, 0, [0x55, 0x54, 0x4A, 0x48]) && Holds(s, 4, [0, 0, 0x80, 0x3F]) && Holds(s, 8, Name30(h.name))
      && Number(s, 38, 1, h.nodes) && Holds(s, 39, [0]) && Number(s, 40, 8, h.cycles) && Number(s, 48, 8, h.packets)
      && Number(s, 56, 4, h.notesLength) && Number(s, 60, 4, h.numRegions)
      && Holds(s, 64, Zeros(8)) && Holds(s, 72, h.notes.value) && Holds(s, 72 + n, [0])
      && (i < |h.regions.value| ==>
          && Number(s, 73 + n + 24 * i, 8, h.regions.value[i].seekOffset)
          && Number(s, 81 + n + 24 * i, 8, h.regions.value[i].cycles)
          && Number(s, 89 + n + 24 * i, 8, h.regions.value[i].packets))
  {
    hide Number, Holds, RecordBytes, RegionsBytes, Zeros, Fits, Name30;
    var s, notes := HeaderBytes(h), h.notes.value;
    var t3 := [0] + RegionsBytes(h.regions.value);
    var t2 := notes + t3;
    RecordLayout(h, s, Zeros(8) + t2);
    assert |Zeros(8)| == 8;
    Next(s, 64, Zeros(8), t2);
    Next(s, 72, notes, t3);
    Next(s, 72 + |notes|, [0], RegionsBytes(h.regions.value));
    if i < |h.regions.value| {
      RegionsLayout(h.regions.value, s, 73 + |notes|, i);
    }
  }

  /* ---- packets ---- */

  lemma {:induction false} DepsLayout(deps: seq<int>, s: seq<Byte>, at: nat, i: nat)
    requires Rest(s, at, DepsBytes(deps)) && i < |deps| && forall j :: 0 <= j < |deps| ==> Fits(deps[j], 4)
    ensures Number(s, at + 4 * i, 4, deps[i])
    decreases i
  {
    hide Put, Fits, Number;
    NextNumber(s, at, deps[0], 4, DepsBytes(deps[1..]));
    if i > 0 {
      DepsLayout(deps[1..], s, at + 4, i - 1);
    }
  }

  /** 21 bytes, and four for each dependency when there are any. */
  lemma PacketLayout(p: Packet, i: nat)
    requires PacketDumpable(p)
    ensures var s := PacketBytes(p);
      && |s| == 21 + (if p.numDeps > 0 then 4 * |p.deps.value| else 0)
      && Number(s, 0, 8, p.cycle) && Number(s, 8, 4, p.id) && Number(s, 12, 4, p.size)
      && Number(s, 16, 1, p.kind) && Number(s, 17, 1, p.src) && Number(s, 18, 1, p.dst)
      && Number(s, 19, 1, p.nodeTypes) && Number(s, 20, 1, p.numDeps)
      && (p.numDeps > 0 && i < |p.deps.value| ==> Number(s, 21 + 4 * i, 4, p.deps.value[i]))
  {
    hide Put, Fits, Number;
    var r := PacketRecord(p);
    var t7 := Put(p.nodeTypes, 1) + Put(p.numDeps, 1);
    var t6 := Put(p.dst, 1) + t7;
    var t5 := Put(p.src, 1) + t6;
    var t4 := Put(p.kind, 1) + t5;
    var t3 := Put(p.size, 4) + t4;
    var t2 := Put(p.id, 4) + t3;
    assert Rest(r, 0, r);
    NextNumber(r, 0, p.cycle, 8, t2);
    NextNumber(r, 8, p.id, 4, t3);
    NextNumber(r, 12, p.size, 4, t4);
    NextNumber(r, 16, p.kind, 1, t5);
    NextNumber(r, 17, p.src, 1, t6);
    NextNumber(r, 18, p.dst, 1, t7);
    NextNumber(r, 19, p.nodeTypes, 1, Put(p.numDeps, 1));
    LastNumber(r, 20, p.numDeps, 1);
    var deps := if p.numDeps > 0 then DepsBytes(p.deps.value) else [];
    InFront(r, deps);
    assert (r + deps)[21..] == deps;
    if p.numDeps > 0 && i < |p.deps.value| {
      DepsLayout(p.deps.value, r + deps, 21, i);
    }
  }

  /* ---- what the reader insists on ---- */

  lemma RecordInsists(s: seq<Byte>)
    requires |s| >= 64 && ReadRecord(s).Got?
    ensures FromBytes(s[..4]) == NTMAGIC && FromBytes(s[4..][..4]) == VERSION_ONE
  {
    hide FromBytes, StripNuls;
  }

  /** Nothing is read that does not start with the magic number and version 1.0. */
  lemma ReaderInsists(s: seq<Byte>)
    requires ReadTrace(s).Got?
    ensures |s| >= 64 && Holds(s, 0, [0x55, 0x54, 0x4A, 0x48]) && Holds(s, 4, [0, 0, 0x80, 0x3F])
  {
    hide ReadRecord, ReadRegions, ReadPackets, FromBytes, ToBytes, StripNuls;
    RecordInsists(s);
    Magic();
    ToFromBytes(s[..4]);
    ToFromBytes(s[4..][..4]);
    assert Put(NTMAGIC, 4) == ToBytes(NTMAGIC, 4) && Put(VERSION_ONE, 4) == ToBytes(VERSION_ONE, 4);
    assert s[0..4] == s[..4] && s[4..8] == s[4..][..4];
  }
}
