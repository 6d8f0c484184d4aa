/** An array of unsigned numbers of a fixed width that can be regrouped to another width. */
module DataArray {
  import opened LittleEndian
  import opened Wrappers

  /** The bytes of all entries, each `width` bytes long. */
  function Flat(data: seq<nat>, width: nat): seq<Byte> {
    if data == [] then [] else Flat(data[..|data| - 1], width) + ToBytes(data[|data| - 1], width)
  }

  /** Numbers of `width` consecutive bytes; the last group may be shorter. */
  function Group(s: seq<Byte>, width: nat): seq<nat>
    requires width > 0
  {
    if s == [] then []
    else if |s| <= width then [FromBytes(s)]
    else [FromBytes(s[..width])] + Group(s[width..], width)
  }

  /** Bytes missing to a whole number of groups. */
  function Padding(n: nat, width: nat): (p: nat)
    requires width > 0
    ensures p < width
  {
    if n == 0 then 0 else if n <= width then width - n else Padding(n - width, width)
  }

  lemma {:induction false} FlatLength(data: seq<nat>, width: nat)
    ensures |Flat(data, width)| == |data| * width
  {
    if data != [] {
      FlatLength(data[..|data| - 1], width);
      assert |data| * width == (|data| - 1) * width + width;
    }
  }

  lemma {:induction false} FlatCons(x: nat, data: seq<nat>, width: nat)
    ensures Flat([x] + data, width) == ToBytes(x, width) + Flat(data, width)
  {
    if data == [] {
      FlatLast([], x, width);
      assert [x] + data == [] + [x];
    } else {
      hide Flat;
      var n := |data| - 1;
      FlatCons(x, data[..n], width);
      FlatLast(data[..n], data[n], width);
      FlatLast([x] + data[..n], data[n], width);
      assert data == data[..n] + [data[n]];
      assert [x] + data == [x] + data[..n] + [data[n]];
      Associate(ToBytes(x, width), Flat(data[..n], width), ToBytes(data[n], width));
    }
  }

  lemma FlatLast(data: seq<nat>, x: nat, width: nat)
    ensures Flat(data + [x], width) == Flat(data, width) + ToBytes(x, width)
  {
    assert (data + [x])[..|data|] == data;
  }

  /** Writing the groups back gives the same bytes, padded with zeros to whole groups. */
  lemma {:induction false} RegroupPads(s: seq<Byte>, width: nat)
    requires width > 0
    ensures AllFit(Group(s, width), width)
    ensures Flat(Group(s, width), width) == s + Zeros(Padding(|s|, width))
  {
    hide Flat, FromBytes, Zeros, Pow256, ToBytes;
    if s == [] {
      NothingPads(width);
    } else if |s| <= width {
      ShortGroup(s, width);
    } else {
      var head, tail := s[..width], s[width..];
      RegroupPads(tail, width);
      ToFromBytes(head);
      FlatCons(FromBytes(head), Group(tail, width), width);
      assert s == head + tail;
      Associate(head, tail, Zeros(Padding(|tail|, width)));
    }
  }

  lemma NothingPads(width: nat)
    requires width > 0
    ensures Flat([], width) == [] + Zeros(Padding(0, width))
  {
  }

  lemma ShortGroup(s: seq<Byte>, width: nat)
    requires 0 < |s| <= width
    ensures FromBytes(s) < Pow256(width)
    ensures Flat([FromBytes(s)], width) == s + Zeros(width - |s|)
    ensures Padding(|s|, width) == width - |s|
  {
    var z := Zeros(width - |s|);
    ZerosAreNothing(s, width - |s|);
    ToFromBytes(s + z);
    assert [FromBytes(s)][..0] == [];
  }

  /** After regrouping, the array still denotes the same little-endian number, every entry fits, and its
      length is the least number of groups that holds the bytes. */
  lemma RegroupKeepsNumber(s: seq<Byte>, width: nat)
    requires width > 0
    ensures FromBytes(Flat(Group(s, width), width)) == FromBytes(s)
    ensures |s| <= |Group(s, width)| * width < |s| + width
  {
    RegroupPads(s, width);
    FlatLength(Group(s, width), width);
    ZerosAreNothing(s, Padding(|s|, width));
  }

  predicate AllFit(data: seq<nat>, width: nat) {
    forall i :: 0 <= i < |data| ==> data[i] < Pow256(width)
  }

  /** The entries and the width that each of them is written with. */
  datatype Entries = Entries(data: seq<int>, width: int)

  /** Entries that can be written; nothing can be written with a negative width. */
  predicate Writable(e: Entries) {
    && (e.data != [] ==> e.width >= 0)
    && forall i :: 0 <= i < |e.data| ==> 0 <= e.data[i] < Pow256(e.width)
  }

  function BytesOf(e: Entries): seq<Byte>
    requires Writable(e)
  {
    if e.data == [] then [] else Flat(e.data, e.width)
  }

  /** Reading with a negative width finds nothing, without an error. */
  function GroupsOf(s: seq<Byte>, width: int): seq<nat>
    requires width != 0
  {
    if width < 0 then [] else Group(s, width)
  }

  /** One call of `to_bytes_per_entry`; no result when an entry cannot be written or the new width is zero. */
  function Regroup(e: Entries, width: int): Option<Entries> {
    if !Writable(e) || width == 0 then None else Some(Entries(GroupsOf(BytesOf(e), width), width))
  }

  function RegroupAll(e: Entries, widths: seq<int>): Option<Entries> {
    if widths == [] then Some(e) else
      match RegroupAll(e, widths[..|widths| - 1])
      case None => None
      case Some(r) => Regroup(r, widths[|widths| - 1])
  }

  /** The number that the array denotes. */
  function Denoted(e: Entries): nat
    requires Writable(e)
  {
    FromBytes(BytesOf(e))
  }

  /** A regrouping to a positive width. */
  lemma RegroupOnce(e: Entries, width: int) returns (pad: nat)
    requires Writable(e) && width > 0
    ensures Regroup(e, width).Some?
    ensures var r := Regroup(e, width).value;
      Writable(r) && BytesOf(r) == BytesOf(e) + Zeros(pad) && Denoted(r) == Denoted(e)
  {
    var s := BytesOf(e);
    RegroupPads(s, width);
    RegroupKeepsNumber(s, width);
    NothingFlat(width);
    hide Flat, Group, FromBytes, Padding, Pow256;
    pad := Padding(|s|, width);
  }

  ghost predicate HasZero(widths: seq<int>) {
    exists i :: 0 <= i < |widths| && widths[i] == 0
  }

  ghost predicate HasNegative(widths: seq<int>) {
    exists i :: 0 <= i < |widths| && widths[i] < 0
  }

  lemma OneMoreWidth(widths: seq<int>)
    requires widths != []
    ensures HasZero(widths) <==> HasZero(widths[..|widths| - 1]) || widths[|widths| - 1] == 0
    ensures HasNegative(widths) <==> HasNegative(widths[..|widths| - 1]) || widths[|widths| - 1] < 0
  {
    var n := |widths| - 1;
    assert forall i :: 0 <= i < n ==> widths[..n][i] == widths[i];
  }

  lemma NoWidth()
    ensures !HasZero([]) && !HasNegative([])
  {
  }

  /** Any series of regroupings of an array that can be written succeeds if and only if no width is zero. Positive
      widths only append zero bytes and keep the denoted number; one negative width loses all entries for good, and so
      keeps the number only if it is zero. */
  lemma {:induction false} SeriesKeepsNumber(e: Entries, widths: seq<int>) returns (pad: nat)
    requires Writable(e)
    ensures RegroupAll(e, widths).Some? <==> !HasZero(widths)
    ensures RegroupAll(e, widths).Some? ==>
      var r := RegroupAll(e, widths).value;
      && Writable(r)
      && BytesOf(r) == (if HasNegative(widths) then [] else BytesOf(e)) + Zeros(pad)
      && Denoted(r) == (if HasNegative(widths) then 0 else Denoted(e))
    decreases |widths|
  {
    hide Writable, BytesOf, Denoted, HasZero, HasNegative, Regroup, Zeros;
    pad := 0;
    NoWidth();
    NoZeros();
    if widths == [] {
      assert BytesOf(e) + [] == BytesOf(e);
    } else {
      var n := |widths| - 1;
      var before := SeriesKeepsNumber(e, widths[..n]);
      OneMoreWidth(widths);
      if RegroupAll(e, widths[..n]).Some? {
        var r := RegroupAll(e, widths[..n]).value;
        if widths[n] < 0 {
          RegroupLoses(r, widths[n]);
        } else if widths[n] > 0 {
          var more := RegroupOnce(r, widths[n]);
          pad := before + more;
          ZerosJoin(before, more);
          Associate(if HasNegative(widths[..n]) then [] else BytesOf(e), Zeros(before), Zeros(more));
        } else {
          RegroupFails(r);
        }
      }
    }
  }

  lemma NoZeros()
    ensures Zeros(0) == []
  {
  }

  lemma RegroupFails(e: Entries)
    ensures Regroup(e, 0) == None
  {
  }

  lemma RegroupLoses(e: Entries, width: int)
    requires Writable(e) && width < 0
    ensures Regroup(e, width) == Some(Entries([], width)) && Writable(Entries([], width))
    ensures BytesOf(Entries([], width)) == [] + Zeros(0) && Denoted(Entries([], width)) == 0
  {
  }

  lemma {:induction false} ZerosJoin(m: nat, n: nat)
    ensures Zeros(m) + Zeros(n) == Zeros(m + n)
  {
    if m > 0 {
      ZerosJoin(m - 1, n);
    }
  }

  /* ---- the program ---- */

  lemma NothingFlat(width: nat)
    ensures Flat([], width) == []
  {
  }

  /** The bytes from `i` on; the last step of the loop may lead behind the end. */
  ghost function Rest(bytes: seq<Byte>, i: nat): seq<Byte> {
    if i <= |bytes| then bytes[i..] else []
  }

  lemma GroupingStarts(bytes: seq<Byte>, width: nat)
    requires width > 0
    ensures [] + Group(Rest(bytes, 0), width) == Group(bytes, width)
  {
    assert bytes[0..] == bytes;
  }

  lemma GroupingGoesOn(data: seq<nat>, bytes: seq<Byte>, i: nat, width: nat)
    requires width > 0 && i < |bytes|
    ensures var end := if i + width < |bytes| then i + width else |bytes|;
      data + [FromBytes(bytes[i..end])] + Group(Rest(bytes, i + width), width) == data + Group(Rest(bytes, i), width)
  {
    var end := if i + width < |bytes| then i + width else |bytes|;
    GroupStep(bytes[i..], width);
    hide Group, FromBytes;
    assert bytes[i..][..end - i] == bytes[i..end] && bytes[i..][end - i..] == bytes[end..] == Rest(bytes, i + width);
    Associate(data, [FromBytes(bytes[i..end])], Group(bytes[end..], width));
  }

  lemma GroupingEnds(data: seq<nat>, bytes: seq<Byte>, i: nat, width: nat)
    requires width > 0 && i >= |bytes|
    ensures data + Group(Rest(bytes, i), width) == data
  {
    assert Rest(bytes, i) == [];
  }

  lemma GroupStep(s: seq<Byte>, width: nat)
    requires width > 0 && s != []
    ensures var n := if width < |s| then width else |s|;
      Group(s, width) == [FromBytes(s[..n])] + Group(s[n..], width)
  {
    assert s[..|s|] == s;
  }

  class NumberArray {
    var data: seq<int>
    var bytesPerEntry: int

    constructor (bytesPerEntry: int)
      ensures this.bytesPerEntry == bytesPerEntry && data == []
    {
      this.bytesPerEntry := bytesPerEntry;
      data := [];
    }

    method Bytes() returns (dest: seq<Byte>, ok: bool)
      ensures ok <==> Writable(Entries(data, bytesPerEntry))
      ensures ok ==> dest == BytesOf(Entries(data, bytesPerEntry))
    {
      hide Flat, ToBytes, Pow256;
      dest := [];
      if data == [] {
        return dest, true;
      } else if bytesPerEntry < 0 {
        return dest, false;
      }
      NothingFlat(bytesPerEntry);
      for i := 0 to |data|
        invariant Writable(Entries(data[..i], bytesPerEntry)) && dest == Flat(data[..i], bytesPerEntry)
      {
        if data[i] < 0 || data[i] >= Pow256(bytesPerEntry) {
          return dest, false;
        }
        FlatLast(data[..i], data[i], bytesPerEntry);
        assert data[..i + 1] == data[..i] + [data[i]];
        dest := dest + ToBytes(data[i], bytesPerEntry);
      }
      assert data[..|data|] == data;
      return dest, true;
    }

    method FromByteString(bytes: seq<Byte>) returns (ok: bool)
      modifies this`data
      ensures ok <==> bytesPerEntry != 0
      ensures ok ==> data == GroupsOf(bytes, bytesPerEntry)
      ensures !ok ==> data == []
    {
      data := [];
      if bytesPerEntry <= 0 {
        return bytesPerEntry < 0;
      }
      data := ReadGroups(bytes, bytesPerEntry);
      return true;
    }

    static method ReadGroups(bytes: seq<Byte>, width: nat) returns (groups: seq<nat>)
      requires width > 0
      ensures groups == Group(bytes, width)
    {
      hide Group, FromBytes, Rest;
      groups := [];
      var i := 0;
      GroupingStarts(bytes, width);
      while i < |bytes|
        invariant i >= 0 && groups + Group(Rest(bytes, i), width) == Group(bytes, width)
        decreases |bytes| - i
      {
        var end := if i + width < |bytes| then i + width else |bytes|;
        GroupingGoesOn(groups, bytes, i, width);
        groups := groups + [FromBytes(bytes[i..end])];
        i := i + width;
      }
      GroupingEnds(groups, bytes, i, width);
    }

    /** The regrouped entries; a failure leaves the entries alone if one cannot be written and loses them if the new
        width is zero, and leaves the width alone. */
    method ToBytesPerEntry(width: int) returns (ok: bool)
      modifies this
      ensures ok <==> Regroup(Entries(old(data), old(bytesPerEntry)), width).Some?
      ensures ok ==> Entries(data, bytesPerEntry) == Regroup(Entries(old(data), old(bytesPerEntry)), width).value
      ensures !ok ==>
        && bytesPerEntry == old(bytesPerEntry)
        && data == if Writable(Entries(old(data), old(bytesPerEntry))) then [] else old(data)
    {
      var dest, fits := Bytes();
      if !fits {
        return false;
      }
      if width == 0 {
        data := [];
        return false;
      }
      bytesPerEntry := width;
      ok := FromByteString(dest);
    }
  }
}
