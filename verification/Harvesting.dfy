/** Row maps of a device with harvested rows: the translated rows, the netlist rows and the way back. */
module Harvesting {

  import opened Wrappers

  /* ---- masks ---- */

  /** `mask >> k` */
  function Shifted(mask: nat, k: nat): nat {
    if k == 0 then mask else Shifted(mask, k - 1) / 2
  }

  /** `(1 << k) & mask` */
  predicate Bit(mask: nat, k: nat) {
    Shifted(mask, k) % 2 == 1
  }

  function PopCount(mask: nat): nat {
    if mask == 0 then 0 else mask % 2 + PopCount(mask / 2)
  }

  function BitsBelow(mask: nat, k: nat): nat {
    if k == 0 then 0 else BitsBelow(mask, k - 1) + (if Bit(mask, k - 1) then 1 else 0)
  }

  lemma {:induction false} BitsSplit(mask: nat, k: nat)
    ensures PopCount(mask) == BitsBelow(mask, k) + PopCount(Shifted(mask, k))
  {
    if k > 0 {
      BitsSplit(mask, k - 1);
    }
  }

  lemma NoBitsIffZero(mask: nat)
    ensures PopCount(mask) == 0 <==> mask == 0
  {
  }

  lemma {:induction false} BitsGrow(mask: nat, j: nat, k: nat)
    requires j <= k
    ensures BitsBelow(mask, j) <= BitsBelow(mask, k)
  {
    if j < k {
      BitsGrow(mask, j, k - 1);
    }
  }

  /** The mask in which bit `k` is set exactly if `bits[k]` holds. */
  function MaskOf(bits: seq<bool>): nat {
    if bits == [] then 0 else (if bits[0] then 1 else 0) + 2 * MaskOf(bits[1..])
  }

  lemma {:induction false} ShiftedHalf(mask: nat, k: nat)
    ensures Shifted(mask, k + 1) == Shifted(mask / 2, k)
  {
    if k > 0 {
      ShiftedHalf(mask, k - 1);
    }
  }

  lemma {:induction false} BitsAreRead(bits: seq<bool>, k: nat)
    ensures Bit(MaskOf(bits), k) <==> k < |bits| && bits[k]
    decreases |bits|, k
  {
    var mask := MaskOf(bits);
    if bits == [] {
      if k > 0 {
        ShiftedHalf(0, k - 1);
        BitsAreRead(bits, k - 1);
      }
    } else {
      assert mask / 2 == MaskOf(bits[1..]);
      if k > 0 {
        ShiftedHalf(mask, k - 1);
        BitsAreRead(bits[1..], k - 1);
      }
    }
  }

  lemma {:induction false} BitsAreCounted(bits: seq<bool>)
    ensures PopCount(MaskOf(bits)) == multiset(bits)[true]
  {
    if bits != [] {
      BitsAreCounted(bits[1..]);
      assert MaskOf(bits) / 2 == MaskOf(bits[1..]);
      assert bits == [bits[0]] + bits[1..];
    }
  }

  /* ---- the rows ---- */

  /** Rows that carry Ethernet cores and are never harvested. */
  predicate Ethernet(y: int) {
    y == 0 || y == 6
  }

  /** Harvested rows in mask order; a set bit beyond the location table is an error. */
  function HarvestedRows(locations: seq<int>, mask: nat, k: nat): Option<seq<int>> {
    if k == 0 then Some([]) else
      var before := HarvestedRows(locations, mask, k - 1);
      if before.None? || !Bit(mask, k - 1) then before
      else if k - 1 < |locations| then Some(before.value + [locations[k - 1]])
      else None
  }

  /** Rows below `y` that are neither Ethernet nor harvested, ascending. */
  function Survivors(harvested: seq<int>, y: nat): seq<int> {
    if y == 0 then []
    else if y - 1 in harvested || Ethernet(y - 1) then Survivors(harvested, y - 1)
    else Survivors(harvested, y - 1) + [y - 1]
  }

  /** What the table promises: distinct rows of the device, none of them an Ethernet row. */
  ghost predicate GoodTable(rowCount: nat, locations: seq<int>) {
    && rowCount > 6
    && (forall i :: 0 <= i < |locations| ==> 0 <= locations[i] < rowCount && !Ethernet(locations[i]))
    && NoDup(locations)
  }

  ghost predicate RowsOf(rowCount: nat, s: seq<int>) {
    forall i :: 0 <= i < |s| ==> 0 <= s[i] < rowCount && !Ethernet(s[i])
  }

  lemma {:induction false} HarvestedIsDistinct(rowCount: nat, locations: seq<int>, mask: nat, k: nat)
    requires GoodTable(rowCount, locations) && HarvestedRows(locations, mask, k).Some?
    ensures var h := HarvestedRows(locations, mask, k).value;
      NoDup(h) && RowsOf(rowCount, h) && |h| == BitsBelow(mask, k)
      && forall i :: 0 <= i < |h| ==> exists j :: 0 <= j < k && j < |locations| && locations[j] == h[i]
  {
    if k > 0 {
      HarvestedIsDistinct(rowCount, locations, mask, k - 1);
      var before := HarvestedRows(locations, mask, k - 1).value;
      if Bit(mask, k - 1) {
        var h := before + [locations[k - 1]];
        forall i | 0 <= i < |h| ensures exists j :: 0 <= j < k && j < |locations| && locations[j] == h[i] {
          if i == |before| {
            assert locations[k - 1] == h[i];
          } else {
            assert h[i] == before[i];
          }
        }
      }
    }
  }

  lemma {:induction false} HarvestedSucceeds(locations: seq<int>, mask: nat, k: nat)
    ensures var h := HarvestedRows(locations, mask, k);
      && (h.Some? <==> k <= |locations| || BitsBelow(mask, k) == BitsBelow(mask, |locations|))
      && (h.Some? ==> |h.value| == BitsBelow(mask, k))
  {
    if k > 0 {
      HarvestedSucceeds(locations, mask, k - 1);
      if k - 1 >= |locations| {
        BitsGrow(mask, |locations|, k - 1);
      }
    }
  }

  /** The map is built without an error exactly when every set bit names both a row and a table entry. */
  predicate Builds(rowCount: nat, locations: seq<int>, mask: nat) {
    var h := HarvestedRows(locations, mask, rowCount);
    h.Some? && PopCount(mask) <= |h.value|
  }

  lemma BuildsIffMaskFits(rowCount: nat, locations: seq<int>, mask: nat)
    ensures Builds(rowCount, locations, mask)
        <==> Shifted(mask, if rowCount < |locations| then rowCount else |locations|) == 0
  {
    hide BitsBelow, PopCount, Shifted, HarvestedRows;
    var n := if rowCount < |locations| then rowCount else |locations|;
    HarvestedSucceeds(locations, mask, rowCount);
    BitsSplit(mask, rowCount);
    BitsSplit(mask, n);
    BitsGrow(mask, n, rowCount);
    NoBitsIffZero(Shifted(mask, n));
  }

  lemma {:induction false} SurvivorIff(harvested: seq<int>, y: nat)
    ensures var s := Survivors(harvested, y);
      && (forall r :: r in s <==> 0 <= r < y && r !in harvested && !Ethernet(r))
      && (forall i, j :: 0 <= i < j < |s| ==> s[i] < s[j])
  {
    if y > 0 {
      SurvivorIff(harvested, y - 1);
      var s, before := Survivors(harvested, y), Survivors(harvested, y - 1);
      forall i, j | 0 <= i < j < |s| ensures s[i] < s[j] {
        assert s[i] == before[i] && before[i] in before;
      }
    }
  }

  /** The translated rows from 16 up, in order: Ethernet, working, harvested. */
  function Table(rowCount: nat, harvested: seq<int>): seq<int> {
    [0, 6] + Survivors(harvested, rowCount) + harvested
  }

  lemma TableIsDistinct(rowCount: nat, harvested: seq<int>)
    requires rowCount > 6 && NoDup(harvested) && RowsOf(rowCount, harvested)
    ensures NoDup(Table(rowCount, harvested))
    ensures forall y :: y in Table(rowCount, harvested) <==> 0 <= y < rowCount
  {
    SurvivorIff(harvested, rowCount);
    hide Survivors;
    var s, t := Survivors(harvested, rowCount), Table(rowCount, harvested);
    assert forall y :: y in t <==> y in [0, 6] || y in s || y in harvested;
    forall y ensures y in t <==> 0 <= y < rowCount {
      assert y in harvested ==> exists i :: 0 <= i < |harvested| && harvested[i] == y;
      assert y in [0, 6] <==> Ethernet(y);
    }
    forall i, j | 0 <= i < j < |t| ensures t[i] != t[j] {
      TableAt(harvested, s, i);
      TableAt(harvested, s, j);
    }
  }

  lemma TableAt(harvested: seq<int>, s: seq<int>, i: nat)
    requires i < 2 + |s| + |harvested|
    ensures var t := [0, 6] + s + harvested;
      if i < 2 then t[i] == 6 * i && Ethernet(t[i])
      else if i < 2 + |s| then t[i] == s[i - 2] && t[i] in s
      else t[i] == harvested[i - 2 - |s|] && t[i] in harvested
  {
  }

  lemma {:induction false} DistinctCard(s: seq<int>)
    requires NoDup(s)
    ensures |set r | r in s| == |s|
  {
    if s != [] {
      var n := |s| - 1;
      DistinctCard(s[..n]);
      assert (set r | r in s) == (set r | r in s[..n]) + {s[n]};
    }
  }

  /** Every row of the device appears exactly once in the table. */
  lemma TableIsPermutation(rowCount: nat, harvested: seq<int>)
    requires rowCount > 6 && NoDup(harvested) && RowsOf(rowCount, harvested)
    ensures var t := Table(rowCount, harvested);
      |t| == rowCount && NoDup(t) && forall y :: y in t <==> 0 <= y < rowCount
  {
    TableIsDistinct(rowCount, harvested);
    var t := Table(rowCount, harvested);
    DistinctCard(t);
    BelowIs(rowCount);
    hide Table, Below, NoDup;
    var rows := set r | r in t;
    forall y ensures y in rows <==> y in Below(rowCount) {
      assert y in t <==> 0 <= y < rowCount;
    }
    assert rows == Below(rowCount);
  }
}
