/** Offsets of (sub)arrays inside a multidimensional array stored row by row. */
module ArrayLayout {

  function Prod(dims: seq<int>): int {
    if dims == [] then 1 else dims[0] * Prod(dims[1..])
  }

  ghost predicate Positive(dims: seq<int>) {
    forall i :: 0 <= i < |dims| ==> dims[i] > 0
  }

  /** No index reaches its dimension. This is all that the program checks. */
  ghost predicate BelowDims(idx: seq<int>, dims: seq<int>) {
    |idx| <= |dims| && forall i :: 0 <= i < |idx| ==> idx[i] < dims[i]
  }

  ghost predicate InBounds(idx: seq<int>, dims: seq<int>) {
    |idx| <= |dims| && forall i :: 0 <= i < |idx| ==> 0 <= idx[i] < dims[i]
  }

  /** Row-major position: each index skips that many subarrays of the remaining dimensions. */
  function Offset(idx: seq<int>, dims: seq<int>): int
    requires |idx| <= |dims|
  {
    if idx == [] then 0 else idx[0] * Prod(dims[1..]) + Offset(idx[1..], dims[1..])
  }

  /** Number of elements below an index prefix of length `k`. */
  ghost function Block(k: nat, dims: seq<int>): int
    requires k <= |dims|
  {
    Prod(dims[k..])
  }

  lemma {:induction false} ProdPositive(dims: seq<int>)
    requires Positive(dims)
    ensures Prod(dims) > 0
  {
    if dims != [] {
      ProdPositive(dims[1..]);
    }
  }

  lemma BlockStep(k: nat, dims: seq<int>)
    requires 0 < k <= |dims|
    ensures Block(k, dims) == Block(k - 1, dims[1..])
  {
    assert dims[1..][k - 1..] == dims[k..];
  }

  lemma {:induction false} UpperEnd(idx: seq<int>, dims: seq<int>)
    requires Positive(dims) && BelowDims(idx, dims)
    ensures Offset(idx, dims) + Block(|idx|, dims) <= Prod(dims)
  {
    if idx == [] {
      assert dims[0..] == dims;
    } else {
      BlockStep(|idx|, dims);
      UpperEnd(idx[1..], dims[1..]);
      ProdPositive(dims[1..]);
      assert (idx[0] + 1) * Prod(dims[1..]) <= dims[0] * Prod(dims[1..]) by {
        MulMono(idx[0] + 1, dims[0], Prod(dims[1..]));
      }
    }
  }

  lemma MulMono(a: int, b: int, c: int)
    requires a <= b && c >= 0
    ensures a * c <= b * c
  {
    assert (b - a) * c >= 0;
  }

  lemma {:induction false} LowerEnd(idx: seq<int>, dims: seq<int>)
    requires Positive(dims) && InBounds(idx, dims)
    ensures Offset(idx, dims) >= 0
  {
    if idx != [] {
      LowerEnd(idx[1..], dims[1..]);
      ProdPositive(dims[1..]);
      MulMono(0, idx[0], Prod(dims[1..]));
    }
  }

  /* ---- negative indices, which the program's check lets through ---- */

  /** What the first digit overflows or borrows when the indices are read as digits of a mixed-radix number and
      normalized from the last one forward. */
  function Carry(idx: seq<int>, dims: seq<int>): int
    requires |idx| <= |dims| && forall i :: 0 <= i < |idx| ==> dims[i] > 0
  {
    if idx == [] then 0 else (idx[0] + Carry(idx[1..], dims[1..])) / dims[0]
  }

  ghost predicate InsideArray(idx: seq<int>, dims: seq<int>)
    requires |idx| <= |dims|
  {
    0 <= Offset(idx, dims) && Offset(idx, dims) + Block(|idx|, dims) <= Prod(dims)
  }

  /** The range starts `Carry` whole arrays away from a range inside the array. */
  lemma {:induction false} CarrySplits(idx: seq<int>, dims: seq<int>) returns (r: int)
    requires Positive(dims) && |idx| <= |dims|
    ensures Offset(idx, dims) == Carry(idx, dims) * Prod(dims) + r
    ensures 0 <= r && r + Block(|idx|, dims) <= Prod(dims)
  {
    if idx == [] {
      assert dims[0..] == dims;
      ProdPositive(dims);
      r := 0;
    } else {
      hide Offset, Prod, Block, Carry, Positive;
      PositiveTail(dims);
      var p, c := Prod(dims[1..]), Carry(idx[1..], dims[1..]);
      var s := CarrySplits(idx[1..], dims[1..]);
      BlockStep(|idx|, dims);
      ProdPositive(dims[1..]);
      Unfolded(idx, dims);
      r := Normalize(idx[0], c, p, s, dims[0], Block(|idx|, dims));
    }
  }

  lemma PositiveTail(dims: seq<int>)
    requires Positive(dims) && dims != []
    ensures Positive(dims[1..]) && dims[0] > 0
  {
  }

  lemma Unfolded(idx: seq<int>, dims: seq<int>)
    requires Positive(dims) && idx != [] && |idx| <= |dims|
    ensures Offset(idx, dims) == idx[0] * Prod(dims[1..]) + Offset(idx[1..], dims[1..])
    ensures Prod(dims) == dims[0] * Prod(dims[1..])
    ensures Carry(idx, dims) == (idx[0] + Carry(idx[1..], dims[1..])) / dims[0]
  {
    OffsetUnfolded(idx, dims);
    CarryUnfolded(idx, dims);
    hide Offset, Carry;
  }

  lemma OffsetUnfolded(idx: seq<int>, dims: seq<int>)
    requires idx != [] && |idx| <= |dims|
    ensures Offset(idx, dims) == idx[0] * Prod(dims[1..]) + Offset(idx[1..], dims[1..])
  {
    hide Prod;
  }

  lemma CarryUnfolded(idx: seq<int>, dims: seq<int>)
    requires Positive(dims) && idx != [] && |idx| <= |dims|
    ensures Carry(idx, dims) == (idx[0] + Carry(idx[1..], dims[1..])) / dims[0]
  {
  }

  /** One digit: what does not fit below `d` is carried on. */
  lemma Normalize(i: int, c: int, p: int, s: int, d: int, b: int) returns (r: int)
    requires d > 0 && p > 0 && 0 <= s && s + b <= p
    ensures i * p + (c * p + s) == ((i + c) / d) * (d * p) + r
    ensures 0 <= r && r + b <= d * p
  {
    var q, m := (i + c) / d, (i + c) % d;
    r := m * p + s;
    Regroup(i, c, p, s, q, d, m);
    MulMono(m + 1, d, p);
    MulMono(0, m, p);
    OneLess(m, p);
  }

  lemma OneLess(m: int, p: int)
    ensures (m + 1) * p == m * p + p
  {
  }

  lemma Regroup(i: int, c: int, p: int, s: int, q: int, d: int, m: int)
    requires i + c == q * d + m
    ensures i * p + (c * p + s) == q * (d * p) + (m * p + s)
  {
    assert (i + c) * p == i * p + c * p;
    assert (q * d + m) * p == q * (d * p) + m * p;
  }

  /** For any indices at all, the range is inside the array if and only if normalizing them carries nothing over. */
  lemma InsideIffNoCarry(idx: seq<int>, dims: seq<int>)
    requires Positive(dims) && |idx| <= |dims|
    ensures InsideArray(idx, dims) <==> Carry(idx, dims) == 0
  {
    hide Offset, Prod, Carry;
    var r := CarrySplits(idx, dims);
    var c, p, b := Carry(idx, dims), Prod(dims), Block(|idx|, dims);
    ProdPositive(dims[|idx|..]);
    if c >= 1 {
      MulMono(1, c, p);
    } else if c <= -1 {
      MulMono(c, -1, p);
    }
  }

  /** A negative first index always leads out of the array, whatever follows. */
  lemma NegativeFirstIndexEscapes(idx: seq<int>, dims: seq<int>)
    requires Positive(dims) && BelowDims(idx, dims) && idx != [] && idx[0] < 0
    ensures !InsideArray(idx, dims) && Offset(idx, dims) < 0
  {
    UpperEnd(idx[1..], dims[1..]);
    ProdPositive(dims[1..]);
    ProdPositive(dims[1..][|idx| - 1..]);
    MulMono(idx[0], -1, Prod(dims[1..]));
  }

  /** Indices whose size stays below the dimension. */
  ghost predicate Moderate(idx: seq<int>, dims: seq<int>) {
    |idx| <= |dims| && forall i :: 0 <= i < |idx| ==> -dims[i] < idx[i] < dims[i]
  }

  /** The sign of the first index that is not zero. */
  function LeadingSign(idx: seq<int>): int {
    if idx == [] then 0 else if idx[0] > 0 then 1 else if idx[0] < 0 then -1 else LeadingSign(idx[1..])
  }

  function Negated(idx: seq<int>): seq<int> {
    seq(|idx|, i requires 0 <= i < |idx| => -idx[i])
  }

  lemma {:induction false} OffsetNegated(idx: seq<int>, dims: seq<int>)
    requires |idx| <= |dims|
    ensures Offset(Negated(idx), dims) == -Offset(idx, dims)
    decreases |idx|
  {
    if idx != [] {
      OffsetNegated(idx[1..], dims[1..]);
      assert Negated(idx)[1..] == Negated(idx[1..]);
      assert (-idx[0]) * Prod(dims[1..]) == -(idx[0] * Prod(dims[1..]));
    }
  }

  /** With moderate indices the first one that is not zero decides. */
  lemma {:induction false} SignDecides(idx: seq<int>, dims: seq<int>)
    requires Positive(dims) && Moderate(idx, dims)
    ensures Offset(idx, dims) < 0 <==> LeadingSign(idx) < 0
  {
    if idx != [] {
      var tail, ds := idx[1..], dims[1..];
      ProdPositive(ds);
      ProdPositive(ds[|tail|..]);
      if idx[0] == 0 {
        SignDecides(tail, ds);
      } else if idx[0] < 0 {
        NegativeFirstIndexEscapes(idx, dims);
      } else {
        OffsetNegated(tail, ds);
        UpperEnd(Negated(tail), ds);
        MulMono(1, idx[0], Prod(ds));
      }
    }
  }

  /** With indices below the dimensions in size the range is inside if and only if the first index that is not zero
      is positive, or all are zero. */
  lemma InsideIffLeadingSign(idx: seq<int>, dims: seq<int>)
    requires Positive(dims) && Moderate(idx, dims)
    ensures InsideArray(idx, dims) <==> LeadingSign(idx) >= 0
  {
    UpperEnd(idx, dims);
    SignDecides(idx, dims);
  }

  /** Negative indices are accepted: one starts before the array, the other one stays inside. */
  lemma NegativeIndexEscapes()
    ensures BelowDims([-1], [2, 3]) && Offset([-1], [2, 3]) == -3 && !InsideArray([-1], [2, 3])
    ensures BelowDims([1, -1], [2, 3]) && Offset([1, -1], [2, 3]) == 2 && InsideArray([1, -1], [2, 3])
  {
    assert [2, 3][1..] == [3];
    assert [3][1..] == [];
    assert Prod([3]) == 3;
    assert [-1][1..] == [];
    assert [1, -1][1..] == [-1];
    assert Offset([-1], [3]) == -1;
  }

  /** The ranges of two different index prefixes of the same length do not meet, and they lie in the
      order of their first differing index. */
  lemma {:induction false} RangesDisjoint(a: seq<int>, b: seq<int>, dims: seq<int>) returns (d: nat)
    requires Positive(dims) && InBounds(a, dims) && InBounds(b, dims) && |a| == |b| && a != b
    ensures d < |a| && a[..d] == b[..d] && a[d] != b[d]
    ensures a[d] < b[d] ==> Offset(a, dims) + Block(|a|, dims) <= Offset(b, dims)
    ensures a[d] > b[d] ==> Offset(b, dims) + Block(|a|, dims) <= Offset(a, dims)
  {
    hide Prod;
    BlockStep(|a|, dims);
    if a[0] == b[0] {
      assert a == [a[0]] + a[1..] && b == [b[0]] + b[1..];
      var e := RangesDisjoint(a[1..], b[1..], dims[1..]);
      d := e + 1;
      assert a[..d] == [a[0]] + a[1..][..e] && b[..d] == [b[0]] + b[1..][..e];
    } else {
      d := 0;
      if a[0] < b[0] {
        FirstDiffers(a, b, dims);
      } else {
        FirstDiffers(b, a, dims);
      }
    }
  }

  lemma FirstDiffers(a: seq<int>, b: seq<int>, dims: seq<int>)
    requires Positive(dims) && InBounds(a, dims) && InBounds(b, dims) && |a| == |b| > 0 && a[0] < b[0]
    ensures Offset(a, dims) + Block(|a|, dims) <= Offset(b, dims)
  {
    BlockStep(|a|, dims);
    UpperEnd(a[1..], dims[1..]);
    LowerEnd(b[1..], dims[1..]);
    ProdPositive(dims[1..]);
    assert Offset(a, dims) == a[0] * Prod(dims[1..]) + Offset(a[1..], dims[1..]);
    assert Offset(b, dims) == b[0] * Prod(dims[1..]) + Offset(b[1..], dims[1..]);
    hide Offset, Prod, Block;
    Apart(a[0], b[0], Prod(dims[1..]), Offset(a[1..], dims[1..]), Offset(b[1..], dims[1..]), Block(|a|, dims));
  }

  lemma Apart(x: int, y: int, size: int, p: int, q: int, block: int)
    requires x < y && p + block <= size && q >= 0 && size >= 0
    ensures x * size + p + block <= y * size + q
  {
    MulMono(x + 1, y, size);
    assert (x + 1) * size == x * size + size;
  }

  lemma QuotientBelow(e: int, size: int, n: int) returns (q: int, r: int)
    requires size > 0 && 0 <= e < n * size
    ensures e == q * size + r && 0 <= r < size && 0 <= q < n
  {
    q, r := e / size, e % size;
    if q >= n {
      MulMono(n, q, size);
    }
  }

  /** Every element lies in the range of some index prefix of length `k`. */
  lemma {:induction false} RangesCover(k: nat, dims: seq<int>, e: int) returns (idx: seq<int>)
    requires Positive(dims) && k <= |dims| && 0 <= e < Prod(dims)
    ensures |idx| == k && InBounds(idx, dims)
    ensures Offset(idx, dims) <= e < Offset(idx, dims) + Block(k, dims)
    decreases k
  {
    if k == 0 {
      idx := [];
      assert dims[0..] == dims;
    } else {
      var size := Prod(dims[1..]);
      ProdPositive(dims[1..]);
      var q, r := QuotientBelow(e, size, dims[0]);
      var rest := RangesCover(k - 1, dims[1..], r);
      idx := [q] + rest;
      assert idx[1..] == rest;
      BlockStep(k, dims);
    }
  }

  /** For a fixed prefix length the ranges tile the array: all inside, all of one length, and every
      element in exactly one of them. */
  lemma RangesTile(k: nat, dims: seq<int>, e: int)
    requires Positive(dims) && k <= |dims| && 0 <= e < Prod(dims)
    ensures exists idx :: Holds(idx, k, dims, e)
    ensures forall a, b :: Holds(a, k, dims, e) && Holds(b, k, dims, e) ==> a == b
  {
    var idx := RangesCover(k, dims, e);
    assert Holds(idx, k, dims, e);
    forall a, b | Holds(a, k, dims, e) && Holds(b, k, dims, e) ensures a == b {
      if a != b {
        var d := RangesDisjoint(a, b, dims);
      }
    }
  }

  ghost predicate Holds(idx: seq<int>, k: nat, dims: seq<int>, e: int) {
    |idx| == k && InBounds(idx, dims) && Offset(idx, dims) <= e < Offset(idx, dims) + Block(k, dims)
  }
}
