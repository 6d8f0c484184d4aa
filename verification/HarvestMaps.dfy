/** The dictionaries a device builds from its harvested rows, and the coordinate conversions that use them. */
module HarvestMaps {

  import opened Harvesting
  import opened Wrappers

  /* ---- dictionaries that remember the order of insertion ---- */

  datatype Dict = Dict(keys: seq<int>, items: map<int, int>)

  /** Writing to a key that is present keeps its place in the order. */
  function Put(d: Dict, k: int, v: int): Dict {
    Dict(if k in d.items then d.keys else d.keys + [k], d.items[k := v])
  }

  function PutAll(d: Dict, start: int, values: seq<int>): Dict {
    if values == [] then d else
      var n := |values| - 1;
      Put(PutAll(d, start, values[..n]), start + n, values[n])
  }

  function Identity(n: nat): Dict {
    if n == 0 then Dict([], map[]) else Put(Identity(n - 1), n - 1, n - 1)
  }

  predicate Present(d: Dict) {
    forall i :: 0 <= i < |d.keys| ==> d.keys[i] in d.items
  }

  /** The reverse of the first `k` entries in order; a later entry replaces an earlier one. */
  function Reverse(d: Dict, k: nat): map<int, int>
    requires k <= |d.keys| && Present(d)
  {
    if k == 0 then map[] else Reverse(d, k - 1)[d.items[d.keys[k - 1]] := d.keys[k - 1]]
  }

  /** Identity below the row count, then Ethernet, working and harvested rows, each at its own start. */
  function NocTrRows(rowCount: nat, harvested: seq<int>, count: nat): Dict
    requires count <= |harvested|
  {
    PutAll(PutAll(PutAll(Identity(rowCount), 16, [0, 6]), 18, Survivors(harvested, rowCount)),
           16 + rowCount - count, harvested[..count])
  }

  ghost predicate Ordered(d: Dict) {
    && Present(d)
    && (forall k :: k in d.items ==> k in d.keys)
    && (forall i, j :: 0 <= i < j < |d.keys| ==> d.keys[i] < d.keys[j])
  }

  lemma PutKeepsOrder(d: Dict, k: int, v: int)
    requires Ordered(d) && (k in d.items || forall x :: x in d.items ==> x < k)
    ensures Ordered(Put(d, k, v))
  {
  }

  /** The identity below the row count, with `values` from 16 up on top of it. */
  ghost predicate Written(d: Dict, rowCount: nat, values: seq<int>) {
    && (forall k :: k in d.items <==> 0 <= k < rowCount || 16 <= k < 16 + |values|)
    && (forall k :: k in d.items ==> d.items[k] == if 16 <= k < 16 + |values| then values[k - 16] else k)
  }

  lemma {:induction false} IdentityWritten(n: nat)
    ensures Ordered(Identity(n)) && Written(Identity(n), n, [])
  {
    hide Ordered, Written, Put, Identity;
    IdentityUnfolds(n);
    if n == 0 {
      NothingIsWritten();
    } else {
      IdentityWritten(n - 1);
      IdentityNext(Identity(n - 1), n - 1);
    }
  }

  lemma IdentityUnfolds(n: nat)
    ensures Identity(n) == if n == 0 then Dict([], map[]) else Put(Identity(n - 1), n - 1, n - 1)
  {
  }

  lemma NothingIsWritten()
    ensures Ordered(Dict([], map[])) && Written(Dict([], map[]), 0, [])
  {
  }

  lemma IdentityNext(d: Dict, n: nat)
    requires Ordered(d) && Written(d, n, [])
    ensures Ordered(Put(d, n, n)) && Written(Put(d, n, n), n + 1, [])
  {
    PutKeepsOrder(d, n, n);
    hide Ordered;
  }

  lemma {:induction false} PutAllConcat(d: Dict, start: int, xs: seq<int>, ys: seq<int>)
    ensures PutAll(PutAll(d, start, xs), start + |xs|, ys) == PutAll(d, start, xs + ys)
    decreases |ys|
  {
    hide Put;
    if ys == [] {
      assert xs + ys == xs;
    } else {
      var n := |ys| - 1;
      PutAllConcat(d, start, xs, ys[..n]);
      OneWritten(d, start, xs + ys[..n], ys[n]);
      assert xs + ys == xs + ys[..n] + [ys[n]];
      OneWritten(PutAll(d, start, xs), start + |xs|, ys[..n], ys[n]);
      assert ys == ys[..n] + [ys[n]];
    }
  }

  lemma PutNext(d: Dict, rowCount: nat, values: seq<int>, v: int)
    requires Ordered(d) && Written(d, rowCount, values)
    ensures var e := Put(d, 16 + |values|, v); Ordered(e) && Written(e, rowCount, values + [v])
  {
    PutKeepsOrder(d, 16 + |values|, v);
    hide Ordered;
  }

  lemma {:induction false} WrittenFrom16(rowCount: nat, values: seq<int>)
    ensures var d := PutAll(Identity(rowCount), 16, values); Ordered(d) && Written(d, rowCount, values)
    decreases |values|
  {
    hide Ordered, Written, Put;
    if values == [] {
      hide Identity;
      IdentityWritten(rowCount);
    } else {
      var n := |values| - 1;
      WrittenFrom16(rowCount, values[..n]);
      PutNext(PutAll(Identity(rowCount), 16, values[..n]), rowCount, values[..n], values[n]);
      assert values[..n] + [values[n]] == values;
    }
  }

  /** In an ordered dictionary the reverse map holds the largest key of each value. */
  lemma {:induction false} ReverseHoldsLast(d: Dict, at: nat, k: nat)
    requires Ordered(d) && at < k <= |d.keys|
    requires forall i :: at < i < k ==> d.items[d.keys[i]] != d.items[d.keys[at]]
    ensures var v := d.items[d.keys[at]]; v in Reverse(d, k) && Reverse(d, k)[v] == d.keys[at]
  {
    if k > at + 1 {
      ReverseHoldsLast(d, at, k - 1);
    }
  }

  /** A row from 16 up is what the reverse map gives back, although the identity entries were inserted first. */
  lemma ReverseUndoes(rowCount: nat, table: seq<int>, k: int)
    requires |table| == rowCount && NoDup(table) && (forall y :: y in table <==> 0 <= y < rowCount)
    requires 16 <= k < 16 + rowCount
    ensures var d := PutAll(Identity(rowCount), 16, table);
      Ordered(d) && k in d.items && var r := Reverse(d, |d.keys|); d.items[k] in r && r[d.items[k]] == k
  {
    WrittenFrom16(rowCount, table);
    hide PutAll, Identity, Reverse;
    var d := PutAll(Identity(rowCount), 16, table);
    assert k in d.items && k in d.keys;
    var at :| 0 <= at < |d.keys| && d.keys[at] == k;
    forall i | at < i < |d.keys| ensures d.items[d.keys[i]] != d.items[k] {
      var later: int := d.keys[i];
      assert later > k && later in d.items;
    }
    ReverseHoldsLast(d, at, |d.keys|);
  }

  /** The rows from 16 up map one to one onto all device rows, and `back` leads to them. */
  ghost predicate Bijection(rowCount: nat, d: Dict, back: map<int, int>) {
    && (forall k :: 16 <= k < 16 + rowCount ==>
      k in d.items && 0 <= d.items[k] < rowCount && d.items[k] in back && back[d.items[k]] == k)
    && (forall y :: 0 <= y < rowCount ==> y in back && 16 <= back[y] < 16 + rowCount && d.items[back[y]] == y)
  }

  lemma WrittenIsBijection(rowCount: nat, t: seq<int>)
    requires |t| == rowCount && NoDup(t) && (forall y :: y in t <==> 0 <= y < rowCount)
    ensures var d := PutAll(Identity(rowCount), 16, t);
      Ordered(d) && Written(d, rowCount, t) && Bijection(rowCount, d, Reverse(d, |d.keys|))
  {
    WrittenFrom16(rowCount, t);
    var d := PutAll(Identity(rowCount), 16, t);
    var back := Reverse(d, |d.keys|);
    hide Ordered, Written, PutAll, Identity, Reverse, NoDup;
    forall k | 16 <= k < 16 + rowCount
      ensures k in d.items && 0 <= d.items[k] < rowCount && d.items[k] in back && back[d.items[k]] == k
    {
      ReverseUndoes(rowCount, t, k);
      WrittenAt(d, rowCount, t, k);
      assert t[k - 16] in t;
    }
    forall y | 0 <= y < rowCount ensures y in back && 16 <= back[y] < 16 + rowCount && d.items[back[y]] == y {
      assert y in t;
      var j :| 0 <= j < |t| && t[j] == y;
      var k: int := 16 + j;
      WrittenAt(d, rowCount, t, k);
    }
  }

  lemma WrittenAt(d: Dict, rowCount: nat, t: seq<int>, k: int)
    requires Written(d, rowCount, t) && 16 <= k < 16 + |t|
    ensures k in d.items && d.items[k] == t[k - 16]
  {
  }

  /** For any good table and any mask the device accepts, the rows from 16 up are, in order, the Ethernet, the working
      and the harvested rows; they map one to one onto all device rows and the reverse map leads back to them. */
  lemma RowsFrom16AreABijection(rowCount: nat, locations: seq<int>, mask: nat)
    requires GoodTable(rowCount, locations) && Builds(rowCount, locations, mask)
    ensures var h := HarvestedRows(locations, mask, rowCount).value; var d := NocTrRows(rowCount, h, PopCount(mask));
      && |Table(rowCount, h)| == rowCount && Ordered(d) && Written(d, rowCount, Table(rowCount, h))
      && Bijection(rowCount, d, Reverse(d, |d.keys|))
  {
    var h := HarvestedRows(locations, mask, rowCount).value;
    HarvestedIsDistinct(rowCount, locations, mask, rowCount);
    TableIsPermutation(rowCount, h);
    WholeTableWritten(rowCount, locations, mask);
    WrittenIsBijection(rowCount, Table(rowCount, h));
  }

  /** The three runs of writes meet without a gap. */
  lemma WholeTableWritten(rowCount: nat, locations: seq<int>, mask: nat)
    requires GoodTable(rowCount, locations) && Builds(rowCount, locations, mask)
    ensures var h := HarvestedRows(locations, mask, rowCount).value;
      PopCount(mask) == |h| && NocTrRows(rowCount, h, PopCount(mask)) == PutAll(Identity(rowCount), 16, Table(rowCount, h))
  {
    var h := HarvestedRows(locations, mask, rowCount).value;
    HarvestedIsDistinct(rowCount, locations, mask, rowCount);
    BitsSplit(mask, rowCount);
    TableIsPermutation(rowCount, h);
    hide HarvestedRows, PutAll, Identity, PopCount, BitsBelow, NoDup, RowsOf, Survivors, GoodTable;
    var s := Survivors(h, rowCount);
    assert PopCount(mask) == |h| && h[..|h|] == h;
    RunsMeet(rowCount, s, h);
  }

  lemma RunsMeet(rowCount: nat, s: seq<int>, h: seq<int>)
    requires 2 + |s| + |h| == rowCount
    ensures PutAll(PutAll(PutAll(Identity(rowCount), 16, [0, 6]), 18, s), 16 + rowCount - |h|, h)
         == PutAll(Identity(rowCount), 16, [0, 6] + s + h)
  {
    hide PutAll, Identity;
    var d := Identity(rowCount);
    PutAllConcat(d, 16, [0, 6], s);
    PutAllConcat(d, 16, [0, 6] + s, h);
  }

  /* ---- rows of the netlist ---- */

  /** The tensix row of a device row that is not an Ethernet row. */
  function TensixRow(y: int): int {
    if y > 6 then y - 2 else y - 1
  }

  /** Netlist row `k` is the tensix row of the `k`-th working row, and back; there are no other entries. */
  ghost predicate NetlistMaps(working: seq<int>, netlist: map<int, int>, tensix: map<int, int>) {
    && (forall k :: k in netlist <==> 0 <= k < |working|)
    && (forall k :: 0 <= k < |working| ==> netlist[k] == TensixRow(working[k]))
    && (forall k :: 0 <= k < |working| ==> TensixRow(working[k]) in tensix && tensix[TensixRow(working[k])] == k)
    && (forall r :: r in tensix ==> 0 <= tensix[r] < |working| && TensixRow(working[tensix[r]]) == r)
  }

  type Location = (int, int)

  function Noc0ToTensix(x: int, y: int): Option<Location> {
    if x == 0 || x == 5 then None
    else if y == 0 || y == 6 then None
    else Some((if y > 6 then y - 1 - 1 else y - 1, if x > 5 then x - 1 - 1 else x - 1))
  }

  function TensixToNoc0(row: int, col: int): Location {
    (if col + 1 >= 5 then col + 2 else col + 1, if row + 1 >= 6 then row + 2 else row + 1)
  }

  /** Leaving and coming back: the conversions are inverse wherever they are defined, for all integers. */
  lemma TensixRoundTrip(x: int, y: int, row: int, col: int)
    ensures Noc0ToTensix(x, y).Some? <==> x != 0 && x != 5 && !Ethernet(y)
    ensures Noc0ToTensix(x, y).Some? ==> var t := Noc0ToTensix(x, y).value; TensixToNoc0(t.0, t.1) == (x, y) && t.0 == TensixRow(y)
    ensures var n := TensixToNoc0(row, col);
      Noc0ToTensix(n.0, n.1) == if row == -1 || col == -1 then None else Some((row, col))
  {
  }

  class WormholeDevice {
    const rowCount: nat
    const locations: seq<int>
    const mask: nat
    const columns: map<int, int>
    const columnsBack: map<int, int>
    var tensixRowToNetlistRow: map<int, int>
    var netlistRowToTensixRow: map<int, int>
    var nocTrYToNoc0Y: Dict
    var noc0YToNocTrY: map<int, int>

    constructor (rowCount: nat, locations: seq<int>, mask: nat, columns: map<int, int>, columnsBack: map<int, int>)
      ensures this.rowCount == rowCount && this.locations == locations && this.mask == mask
      ensures this.columns == columns && this.columnsBack == columnsBack
    {
      this.rowCount, this.locations, this.mask, this.columns, this.columnsBack := rowCount, locations, mask, columns, columnsBack;
      tensixRowToNetlistRow, netlistRowToTensixRow, nocTrYToNoc0Y, noc0YToNocTrY := map[], map[], Dict([], map[]), map[];
    }

    method GetHarvestedNoc0YRows() returns (rows: Option<seq<int>>)
      ensures rows == HarvestedRows(locations, mask, rowCount)
    {
      rows := Some([]);
      for h := 0 to rowCount
        invariant rows.Some? && rows == HarvestedRows(locations, mask, h)
      {
        if Bit(mask, h) {
          if h >= |locations| {
            NeverRecovers(locations, mask, h + 1, rowCount);
            return None;
          }
          rows := Some(rows.value + [locations[h]]);
        }
      }
    }

    method CreateTensixNetlistHarvestingMap() returns (ok: bool)
      modifies `tensixRowToNetlistRow, `netlistRowToTensixRow
      ensures ok == HarvestedRows(locations, mask, rowCount).Some?
      ensures ok ==> NetlistMaps(Survivors(HarvestedRows(locations, mask, rowCount).value, rowCount),
                                 netlistRowToTensixRow, tensixRowToNetlistRow)
    {
      var tensixRow, netlistRow := 0, 0;
      tensixRowToNetlistRow, netlistRowToTensixRow := map[], map[];
      var rows := GetHarvestedNoc0YRows();
      if rows.None? {
        return false;
      }
      var harvested := rows.value;
      hide HarvestedRows, NetlistMaps;
      assert NetlistMaps([], netlistRowToTensixRow, tensixRowToNetlistRow) by { NoRows(); }
      for y := 0 to rowCount
        invariant tensixRow == TensixRow(y) + (if y == 0 then 1 else 0)
        invariant netlistRow == |Survivors(harvested, y)|
        invariant NetlistMaps(Survivors(harvested, y), netlistRowToTensixRow, tensixRowToNetlistRow)
      {
        if y == 0 || y == 6 {
        } else {
          if y in harvested {
          } else {
            SurvivorIff(harvested, y);
            NextRow(Survivors(harvested, y), netlistRowToTensixRow, tensixRowToNetlistRow, y);
            netlistRowToTensixRow := netlistRowToTensixRow[netlistRow := tensixRow];
            tensixRowToNetlistRow := tensixRowToNetlistRow[tensixRow := netlistRow];
            netlistRow := netlistRow + 1;
          }
          tensixRow := tensixRow + 1;
        }
      }
      return true;
    }

    method HandleHarvestingForNocTrNoc0Map(count: nat) returns (ok: bool)
      modifies `nocTrYToNoc0Y
      requires nocTrYToNoc0Y == Identity(rowCount)
      ensures var h := HarvestedRows(locations, mask, rowCount);
        && (ok <==> h.Some? && count <= |h.value|)
        && (ok ==> nocTrYToNoc0Y == NocTrRows(rowCount, h.value, count))
    {
      hide HarvestedRows, PutAll, Put, Identity, Survivors;
      ghost var d := nocTrYToNoc0Y;
      nocTrYToNoc0Y := Put(nocTrYToNoc0Y, 16, 0);
      nocTrYToNoc0Y := Put(nocTrYToNoc0Y, 17, 6);
      EthernetWritten(d);
      d := nocTrYToNoc0Y;
      var rows := GetHarvestedNoc0YRows();
      if rows.None? {
        return false;
      }
      var harvested := rows.value;
      var nocTrY := 18;
      NothingWritten(d, 18);
      NoSurvivors(harvested);
      for y := 0 to rowCount
        invariant nocTrY == 18 + |Survivors(harvested, y)|
        invariant nocTrYToNoc0Y == PutAll(d, 18, Survivors(harvested, y))
      {
        SurvivorsNext(harvested, y);
        if y in harvested || y == 0 || y == 6 {
        } else {
          OneWritten(d, 18, Survivors(harvested, y), y);
          nocTrYToNoc0Y := Put(nocTrYToNoc0Y, nocTrY, y);
          nocTrY := nocTrY + 1;
        }
      }
      d := nocTrYToNoc0Y;
      var start := 16 + rowCount - count;
      NothingWritten(d, start);
      assert harvested[..0] == [];
      for j := 0 to count
        invariant j <= |harvested| && nocTrYToNoc0Y == PutAll(d, start, harvested[..j])
      {
        if j >= |harvested| {
          return false;
        }
        OneWritten(d, start, harvested[..j], harvested[j]);
        assert harvested[..j + 1] == harvested[..j] + [harvested[j]];
        nocTrYToNoc0Y := Put(nocTrYToNoc0Y, start + j, harvested[j]);
      }
      return true;
    }

    /** Succeeds exactly for masks that fit; then the row map is complete and the other one its reverse. */
    method CreateNocTrNoc0HarvestingMap() returns (ok: bool)
      modifies `nocTrYToNoc0Y, `noc0YToNocTrY
      ensures ok <==> Builds(rowCount, locations, mask)
      ensures ok ==>
        && nocTrYToNoc0Y == NocTrRows(rowCount, HarvestedRows(locations, mask, rowCount).value, PopCount(mask))
        && Present(nocTrYToNoc0Y) && noc0YToNocTrY == Reverse(nocTrYToNoc0Y, |nocTrYToNoc0Y.keys|)
    {
      hide HarvestedRows, NocTrRows, PopCount;
      nocTrYToNoc0Y := Dict([], map[]);
      noc0YToNocTrY := map[];
      for y := 0 to rowCount
        invariant nocTrYToNoc0Y == Identity(y) && noc0YToNocTrY == map[]
      {
        nocTrYToNoc0Y := Put(nocTrYToNoc0Y, y, y);
      }
      var count := PopCount(mask);
      ok := HandleHarvestingForNocTrNoc0Map(count);
      if !ok {
        return;
      }
      KeysArePresent(rowCount, HarvestedRows(locations, mask, rowCount).value, count);
      var d := nocTrYToNoc0Y;
      for i := 0 to |d.keys|
        invariant nocTrYToNoc0Y == d && noc0YToNocTrY == Reverse(d, i)
      {
        var k: int := d.keys[i];
        noc0YToNocTrY := noc0YToNocTrY[d.items[k] := k];
      }
    }

    function NocTrToNoc0(x: int, y: int): Option<Location>
      reads `nocTrYToNoc0Y
    {
      if y !in nocTrYToNoc0Y.items then None
      else if x < 16 then Some((x, nocTrYToNoc0Y.items[y]))
      else if x in columnsBack then Some((columnsBack[x], nocTrYToNoc0Y.items[y]))
      else None
    }

    function Noc0ToNocTr(x: int, y: int): Option<Location>
      reads `noc0YToNocTrY
    {
      if y in noc0YToNocTrY && x in columns then Some((columns[x], noc0YToNocTrY[y])) else None
    }

    function Noc0ToNetlist(x: int, y: int): Option<Location>
      reads `tensixRowToNetlistRow
    {
      match Noc0ToTensix(x, y)
      case None => None
      case Some(t) => if t.0 in tensixRowToNetlistRow then Some((tensixRowToNetlistRow[t.0], t.1)) else None
    }

    function NetlistToNoc0(row: int, col: int): Option<Location>
      reads `netlistRowToTensixRow
    {
      if row in netlistRowToTensixRow then Some(TensixToNoc0(netlistRowToTensixRow[row], col)) else None
    }

    /** A device location has a netlist location exactly on a working row off the DRAM columns, and leads back. */
    lemma Noc0ToNetlistAndBack(working: seq<int>, x: int, y: int)
      requires NetlistMaps(working, netlistRowToTensixRow, tensixRowToNetlistRow)
      requires forall i :: 0 <= i < |working| ==> !Ethernet(working[i])
      ensures var n := Noc0ToNetlist(x, y);
        && (n.Some? <==> x != 0 && x != 5 && y in working)
        && (n.Some? ==> NetlistToNoc0(n.value.0, n.value.1) == Some((x, y)))
    {
      TensixRoundTrip(x, y, 0, 0);
      if Noc0ToTensix(x, y).Some? {
        var t := Noc0ToTensix(x, y).value;
        if t.0 in tensixRowToNetlistRow {
          var k: int := tensixRowToNetlistRow[t.0];
          SameRow(working[k], y);
        }
      }
    }

    /** Every netlist row has a device location; the way back works except for the column left of the first. */
    lemma NetlistToNoc0AndBack(working: seq<int>, row: int, col: int)
      requires NetlistMaps(working, netlistRowToTensixRow, tensixRowToNetlistRow)
      requires forall i :: 0 <= i < |working| ==> !Ethernet(working[i]) && working[i] >= 0
      ensures var n := NetlistToNoc0(row, col);
        && (n.Some? <==> 0 <= row < |working|)
        && (n.Some? ==> n.value.1 == working[row] &&
                        Noc0ToNetlist(n.value.0, n.value.1) == if col == -1 then None else Some((row, col)))
    {
      if 0 <= row < |working| {
        var t: int := netlistRowToTensixRow[row];
        TensixRoundTrip(0, 0, t, col);
        TensixRoundTrip(1, working[row], t, col);
      }
    }

    /** Translated and device locations correspond one to one from 16 up; lower columns are not translated. */
    lemma NocTrRoundTrip(x: int, y: int, k: int, low: int)
      requires GoodTable(rowCount, locations) && Builds(rowCount, locations, mask)
      requires nocTrYToNoc0Y == NocTrRows(rowCount, HarvestedRows(locations, mask, rowCount).value, PopCount(mask))
      requires Present(nocTrYToNoc0Y) && noc0YToNocTrY == Reverse(nocTrYToNoc0Y, |nocTrYToNoc0Y.keys|)
      requires Columns(columns, columnsBack)
      ensures x in columns && 0 <= y < rowCount ==> var t := Noc0ToNocTr(x, y);
        t.Some? && t.value.0 >= 16 && t.value.1 >= 16 && NocTrToNoc0(t.value.0, t.value.1) == Some((x, y))
      ensures k in columnsBack && 16 <= y < 16 + rowCount ==> var n := NocTrToNoc0(k, y);
        n.Some? && Noc0ToNocTr(n.value.0, n.value.1) == Some((k, y))
      ensures low < 16 && 16 <= y < 16 + rowCount ==>
        NocTrToNoc0(low, y).Some? && NocTrToNoc0(low, y).value.0 == low
    {
      RowsFrom16AreABijection(rowCount, locations, mask);
      hide HarvestedRows, NocTrRows, PopCount, Reverse, Table;
    }
  }

  /** The column tables are inverse to each other and translated columns start at 16. */
  ghost predicate Columns(columns: map<int, int>, back: map<int, int>) {
    && (forall x :: x in columns ==> columns[x] >= 16 && columns[x] in back && back[columns[x]] == x)
    && (forall k :: k in back ==> k >= 16 && back[k] in columns && columns[back[k]] == k)
  }

  const HARVESTING_NOC_LOCATIONS := [11, 1, 10, 2, 9, 3, 8, 4, 7, 5]

  const NOC0_X_TO_NOCTR_X := map[0 := 16, 1 := 18, 2 := 19, 3 := 20, 4 := 21, 5 := 17, 6 := 22, 7 := 23, 8 := 24, 9 := 25]

  const NOCTR_X_TO_NOC0_X := map[16 := 0, 18 := 1, 19 := 2, 20 := 3, 21 := 4, 17 := 5, 22 := 6, 23 := 7, 24 := 8, 25 := 9]

  lemma WormholeRows()
    ensures GoodTable(12, HARVESTING_NOC_LOCATIONS)
  {
  }

  /** Bits stand for rows from the outside in: 11, 1, 10, 2, and so on. */
  lemma WormholeLocations(k: nat)
    ensures |HARVESTING_NOC_LOCATIONS| == 10
    ensures k < 10 ==> HARVESTING_NOC_LOCATIONS[k] == if k % 2 == 0 then 11 - k / 2 else (k + 1) / 2
  {
  }

  /** Columns 0 and 5, which are no tensix columns, come first, and the others follow in order. */
  lemma WormholeTranslation(x: int)
    ensures x in NOC0_X_TO_NOCTR_X <==> 0 <= x <= 9
    ensures x in NOC0_X_TO_NOCTR_X ==>
      NOC0_X_TO_NOCTR_X[x] == if x == 0 then 16 else if x == 5 then 17 else if x < 5 then x + 17 else x + 16
  {
  }

  /** Mask 5 stands for the rows 11 and 10. */
  lemma MaskFive()
    ensures HarvestedRows(HARVESTING_NOC_LOCATIONS, 5, 12) == Some([11, 10])
  {
    assert MaskOf([true, false, true]) == 5 by {
      assert [true, false, true][1..] == [false, true] && [false, true][1..] == [true] && [true][1..] == [];
    }
    hide Bit;
    var locations := HARVESTING_NOC_LOCATIONS;
    forall k: nat ensures Bit(5, k) <==> k == 0 || k == 2 {
      BitsAreRead([true, false, true], k);
    }
    assert Bit(5, 0) && !Bit(5, 1) && Bit(5, 2) && locations[0] == 11 && locations[2] == 10;
    assert [11] + [10] == [11, 10] && [] + [11] == [11];
    assert HarvestedRows(locations, 5, 0) == Some([]);
    assert HarvestedRows(locations, 5, 1) == Some([11]);
    assert HarvestedRows(locations, 5, 2) == Some([11]);
    assert HarvestedRows(locations, 5, 3) == Some([11, 10]);
    NoMoreRows(locations, 5, 3, 12);
  }

  lemma {:induction false} NoMoreRows(locations: seq<int>, mask: nat, k: nat, n: nat)
    requires k <= n && forall j: nat :: k <= j < n ==> !Bit(mask, j)
    ensures HarvestedRows(locations, mask, n) == HarvestedRows(locations, mask, k)
    decreases n - k
  {
    if k < n {
      NoMoreRows(locations, mask, k, n - 1);
    }
  }

  lemma WormholeColumns()
    ensures Columns(NOC0_X_TO_NOCTR_X, NOCTR_X_TO_NOC0_X)
  {
    ColumnsOut();
    ColumnsIn();
  }

  lemma ColumnsOut()
    ensures forall x :: x in NOC0_X_TO_NOCTR_X ==> var k := NOC0_X_TO_NOCTR_X[x];
      k >= 16 && k in NOCTR_X_TO_NOC0_X && NOCTR_X_TO_NOC0_X[k] == x
  {
  }

  lemma ColumnsIn()
    ensures forall k :: k in NOCTR_X_TO_NOC0_X ==> var x := NOCTR_X_TO_NOC0_X[k];
      k >= 16 && x in NOC0_X_TO_NOCTR_X && NOC0_X_TO_NOCTR_X[x] == k
  {
  }

  /** With the shipped tables the device accepts exactly the masks below 2 to the power 10. */
  lemma WormholeMasks(mask: nat)
    ensures Builds(12, HARVESTING_NOC_LOCATIONS, mask) <==> mask < 1024
  {
    hide Builds, Shifted;
    BuildsIffMaskFits(12, HARVESTING_NOC_LOCATIONS, mask);
    TenBits(mask);
  }

  lemma TenBits(mask: nat)
    ensures Shifted(mask, 10) == mask / 1024
  {
    FiveBits(mask, 0);
    FiveBits(mask, 5);
    assert (mask / 32) / 32 == mask / 1024;
  }

  lemma FiveBits(mask: nat, k: nat)
    ensures Shifted(mask, k + 5) == Shifted(mask, k) / 32
  {
    var m := Shifted(mask, k);
    assert Shifted(mask, k + 1) == m / 2;
    assert Shifted(mask, k + 2) == m / 2 / 2;
    assert Shifted(mask, k + 3) == m / 2 / 2 / 2;
    assert Shifted(mask, k + 4) == m / 2 / 2 / 2 / 2;
    assert Shifted(mask, k + 5) == m / 2 / 2 / 2 / 2 / 2;
  }

  lemma {:induction false} NeverRecovers(locations: seq<int>, mask: nat, k: nat, n: nat)
    requires k <= n && HarvestedRows(locations, mask, k).None?
    ensures HarvestedRows(locations, mask, n).None?
    decreases n - k
  {
    if k < n {
      NeverRecovers(locations, mask, k + 1, n);
    }
  }

  lemma NoRows()
    ensures NetlistMaps([], map[], map[])
  {
  }

  lemma SameRow(y: int, z: int)
    requires !Ethernet(y) && !Ethernet(z) && TensixRow(y) == TensixRow(z)
    ensures y == z
  {
  }

  lemma NextRow(working: seq<int>, netlist: map<int, int>, tensix: map<int, int>, y: int)
    requires NetlistMaps(working, netlist, tensix) && !Ethernet(y) && y !in working
    requires forall r :: r in working ==> !Ethernet(r)
    ensures NetlistMaps(working + [y], netlist[|working| := TensixRow(y)], tensix[TensixRow(y) := |working|])
  {
    var more := working + [y];
    forall k | 0 <= k < |working| ensures TensixRow(working[k]) != TensixRow(y) {
      if TensixRow(working[k]) == TensixRow(y) {
        SameRow(working[k], y);
        assert false;
      }
    }
  }

  lemma NoSurvivors(harvested: seq<int>)
    ensures Survivors(harvested, 0) == []
  {
  }

  lemma SurvivorsNext(harvested: seq<int>, y: nat)
    ensures Survivors(harvested, y + 1)
         == if y in harvested || y == 0 || y == 6 then Survivors(harvested, y) else Survivors(harvested, y) + [y]
  {
  }

  lemma EthernetWritten(d: Dict)
    ensures Put(Put(d, 16, 0), 17, 6) == PutAll(d, 16, [0, 6])
  {
    assert [0, 6][..1] == [0];
    NothingWritten(d, 16);
    OneWritten(d, 16, [], 0);
    OneWritten(d, 16, [0], 6);
  }

  lemma NothingWritten(d: Dict, start: int)
    ensures PutAll(d, start, []) == d
  {
  }

  lemma OneWritten(d: Dict, start: int, values: seq<int>, v: int)
    ensures PutAll(d, start, values + [v]) == Put(PutAll(d, start, values), start + |values|, v)
  {
    assert (values + [v])[..|values|] == values;
  }

  lemma {:induction false} PutAllPresent(d: Dict, start: int, values: seq<int>)
    requires Present(d)
    ensures Present(PutAll(d, start, values))
    decreases |values|
  {
    if values != [] {
      PutAllPresent(d, start, values[..|values| - 1]);
    }
  }

  lemma KeysArePresent(rowCount: nat, harvested: seq<int>, count: nat)
    requires count <= |harvested|
    ensures Present(NocTrRows(rowCount, harvested, count))
  {
    IdentityWritten(rowCount);
    var a := PutAll(Identity(rowCount), 16, [0, 6]);
    var b := PutAll(a, 18, Survivors(harvested, rowCount));
    hide PutAll, Identity, Survivors;
    PutAllPresent(Identity(rowCount), 16, [0, 6]);
    PutAllPresent(a, 18, Survivors(harvested, rowCount));
    PutAllPresent(b, 16 + rowCount - count, harvested[..count]);
  }
}
