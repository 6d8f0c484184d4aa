/** A vector that keeps few elements in its own storage and many in a heap vector built inside that storage. */
module SmallVector {

  datatype Operation<T> =
    | PushBack(value: T)
    | PopBack
    | Insert(position: nat, value: T)
    | Erase(position: nat)
    | Resize(count: nat, value: T)
    | Clear

  /* ---- the plain sequence ---- */

  function InsertedAt<T>(s: seq<T>, position: nat, value: T): seq<T> {
    if position >= |s| then s + [value] else s[..position] + [value] + s[position..]
  }

  function ErasedAt<T>(s: seq<T>, position: nat): seq<T>
    requires position < |s|
  {
    s[..position] + s[position + 1..]
  }

  function Copies<T>(n: nat, value: T): seq<T> {
    seq(n, _ => value)
  }

  /** Erasing needs a position inside; popping an empty vector is refused and changes nothing. */
  predicate Allowed<T>(s: seq<T>, op: Operation<T>) {
    op.Erase? ==> op.position < |s|
  }

  function Apply<T>(s: seq<T>, op: Operation<T>): seq<T>
    requires Allowed(s, op)
  {
    match op
    case PushBack(v) => s + [v]
    case PopBack => if s == [] then s else s[..|s| - 1]
    case Insert(p, v) => InsertedAt(s, p, v)
    case Erase(p) => ErasedAt(s, p)
    case Resize(n, v) => s + Copies(n, v)
    case Clear => []
  }

  ghost predicate AllAllowed<T>(s: seq<T>, ops: seq<Operation<T>>)
    decreases |ops|, 0
  {
    ops == [] || (AllAllowed(s, ops[..|ops| - 1]) && Allowed(Run(s, ops[..|ops| - 1]), ops[|ops| - 1]))
  }

  ghost function Run<T>(s: seq<T>, ops: seq<Operation<T>>): seq<T>
    requires AllAllowed(s, ops)
    decreases |ops|, 1
  {
    if ops == [] then s else Apply(Run(s, ops[..|ops| - 1]), ops[|ops| - 1])
  }

  /** Erasing where an insertion landed gives the vector back, also past the end, where insertion appends. */
  lemma InsertThenErase<T>(s: seq<T>, position: nat, value: T)
    ensures var landed := if position < |s| then position else |s|; var t := InsertedAt(s, position, value);
      t[landed] == value && ErasedAt(t, landed) == s
  {
    var landed := if position < |s| then position else |s|;
    var t := InsertedAt(s, position, value);
    assert t[..landed] == s[..landed] && t[landed + 1..] == s[landed..];
  }

  /** Resizing gives the requested length exactly when the vector was empty: the elements already there stay. */
  lemma ResizeLengthIffEmpty<T>(s: seq<T>, n: nat, value: T)
    ensures |Apply(s, Resize(n, value))| == n <==> s == []
  {
    assert |Copies(n, value)| == n;
  }

  /* ---- the two storages ---- */

  class SmallVector<T(0)> {
    const capacity: nat
    const cells: array<T>
    var vec: seq<T>
    var currSize: nat
    /** Whether the storage holds a heap vector instead of elements. */
    ghost var alive: bool
    /** Heap vectors that were overwritten without being destroyed. */
    ghost var lost: nat

    /** Elements sit inline exactly when they fit; otherwise the heap vector holds all of them. */
    ghost predicate Valid()
      reads this, cells
    {
      cells.Length == capacity && (alive <==> currSize > capacity) && (alive ==> |vec| == currSize)
    }

    ghost function Contents(): seq<T>
      requires Valid()
      reads this, cells
    {
      if currSize <= capacity then cells[..currSize] else vec
    }

    constructor (capacity: nat)
      ensures Valid() && fresh(cells) && this.capacity == capacity && Contents() == [] && lost == 0
    {
      this.capacity := capacity;
      cells := new T[capacity];
      vec := [];
      currSize := 0;
      alive := false;
      lost := 0;
    }

    /** Moves the elements out of the storage, which then holds the heap vector; the cells mean nothing any more. */
    method FromArrToVec()
      requires !alive && cells.Length == capacity
      modifies `vec, `alive, cells
      ensures alive && vec == old(cells[..])
    {
      vec := cells[..];
      alive := true;
      for i := 0 to capacity
        modifies cells
      {
        cells[i] := *;
      }
    }

    /** Destroys the heap vector and copies its first elements, as many as fit, back into the storage. */
    method FromVecToArr()
      requires alive && cells.Length == capacity && capacity <= |vec|
      modifies `vec, `alive, cells
      ensures !alive && cells[..] == old(vec)[..capacity]
    {
      var elements := vec[..capacity];
      alive := false;
      vec := [];
      for i := 0 to capacity
        invariant cells[..i] == elements[..i]
        modifies cells
      {
        cells[i] := elements[i];
      }
      assert cells[..] == cells[..capacity];
    }

    method Push(t: T)
      requires Valid()
      modifies this, cells
      ensures Valid() && Contents() == Apply(old(Contents()), PushBack(t)) && lost == old(lost)
    {
      var i := currSize;
      currSize := currSize + 1;
      if i < capacity {
        assert !alive;
        cells[i] := t;
        return;
      }
      if i == capacity {
        FromArrToVec();
      }
      vec := vec + [t];
      assert currSize == |vec|;
    }

    /** The end that popping and erasing share. */
    method DropLast()
      requires Valid() && currSize > 0
      modifies this, cells
      ensures Valid() && Contents() == old(Contents())[..old(currSize) - 1] && lost == old(lost)
    {
      currSize := currSize - 1;
      if currSize > capacity {
        vec := vec[..|vec| - 1];
        assert currSize == |vec|;
      } else if currSize == capacity {
        FromVecToArr();
      }
    }

    method Pop() returns (ok: bool)
      requires Valid()
      modifies this, cells
      ensures Valid() && Contents() == Apply(old(Contents()), PopBack) && lost == old(lost)
      ensures ok == (old(Contents()) != [])
    {
      if currSize == 0 {
        return false;
      }
      DropLast();
      return true;
    }

    method Get(i: nat) returns (r: T)
      requires Valid() && i < currSize
      ensures r == Contents()[i]
    {
      if currSize <= capacity {
        r := cells[i];
      } else {
        r := vec[i];
      }
    }

    method Set(i: nat, t: T)
      requires Valid() && i < currSize
      modifies this`vec, cells
      ensures Valid() && Contents() == old(Contents())[i := t]
    {
      if currSize <= capacity {
        cells[i] := t;
      } else {
        vec := vec[i := t];
      }
    }

    /** Appends, then swaps the new element down to its place. */
    method InsertAt(position: nat, v: T)
      requires Valid()
      modifies this, cells
      ensures Valid() && Contents() == Apply(old(Contents()), Insert(position, v)) && lost == old(lost)
    {
      hide Valid, Contents, Sinking;
      ghost var s := Contents();
      Push(v);
      SizeIsLength();
      var i := currSize - 1;
      SinkingEnds(s, v, position);
      while i > position
        invariant 0 <= i <= |s| && currSize == |s| + 1 && (i >= position || i == |s|)
        invariant Valid() && Contents() == Sinking(s, v, i) && lost == old(lost)
      {
        var x := Get(i - 1);
        var y := Get(i);
        SinkingStep(s, v, i);
        Set(i - 1, y);
        Set(i, x);
        i := i - 1;
      }
    }

    /** Moves every later element one place down, then drops the last place. */
    method EraseAt(position: nat)
      requires Valid() && position < currSize
      modifies this, cells
      ensures Valid() && Contents() == Apply(old(Contents()), Erase(position)) && lost == old(lost)
    {
      hide Valid, Contents, Moving;
      ghost var s := Contents();
      SizeIsLength();
      var at := position;
      var from := position + 1;
      MovingEnds(s, position);
      while from != currSize
        invariant position <= at && from == at + 1 <= currSize == |s|
        invariant Valid() && Contents() == Moving(s, position, at) && lost == old(lost)
      {
        var x := Get(from);
        MovingStep(s, position, at);
        Set(at, x);
        from, at := from + 1, at + 1;
      }
      DropLast();
    }

    lemma SizeIsLength()
      requires Valid()
      ensures |Contents()| == currSize
    {
    }

    method ResizeBy(count: nat, v: T)
      requires Valid()
      modifies this, cells
      ensures Valid() && Contents() == Apply(old(Contents()), Resize(count, v)) && lost == old(lost)
    {
      ghost var s := Contents();
      for i := 0 to count
        invariant Valid() && Contents() == s + Copies(i, v) && lost == old(lost)
      {
        Push(v);
      }
    }

    method ClearAll()
      requires Valid()
      modifies this
      ensures Valid() && Contents() == Apply(old(Contents()), Clear) && lost == old(lost)
    {
      if currSize > capacity {
        vec := [];
        alive := false;
      }
      currSize := 0;
    }

    /** Copying a vector over this one always yields its elements, and the copy is independent of another vector; a heap
        vector is lost exactly when this one was heap-backed. A heap-backed vector may not be copied over itself: that
        would construct the new heap vector in the place of the one it is copied from. */
    method Assign(other: SmallVector<T>)
      requires Valid() && other.Valid() && other.capacity == capacity
      requires if other == this then |Contents()| <= capacity else other.cells != cells
      modifies this, cells
      ensures Valid() && Contents() == other.Contents() == old(other.Contents())
      ensures lost == old(lost) + (if |old(Contents())| > capacity then 1 else 0)
    {
      if alive {
        lost := lost + 1;
      }
      currSize := other.currSize;
      if other.currSize <= capacity {
        alive := false;
        for i := 0 to currSize
          invariant cells[..i] == other.cells[..i] && other.cells[..] == old(other.cells[..])
          modifies cells
        {
          cells[i] := other.cells[i];
        }
      } else {
        vec := other.vec;
        alive := true;
      }
    }

    method Perform(op: Operation<T>)
      requires Valid() && Allowed(Contents(), op)
      modifies this, cells
      ensures Valid() && Contents() == Apply(old(Contents()), op) && lost == old(lost)
    {
      match op
      case PushBack(v) => Push(v);
      case PopBack => var _ := Pop();
      case Insert(p, v) => InsertAt(p, v);
      case Erase(p) => EraseAt(p);
      case Resize(n, v) => ResizeBy(n, v);
      case Clear => ClearAll();
    }

    /** Every run of operations behaves as the same run on a plain sequence, for any inline capacity,
        and loses no heap vector. */
    method PerformAll(ops: seq<Operation<T>>)
      requires Valid() && AllAllowed(Contents(), ops)
      modifies this, cells
      ensures Valid() && Contents() == Run(old(Contents()), ops) && lost == old(lost)
    {
      ghost var s := Contents();
      assert ops[..|ops|] == ops;
      for i := 0 to |ops|
        invariant Valid() && lost == old(lost)
        invariant AllAllowed(s, ops[..i]) && Contents() == Run(s, ops[..i])
      {
        NextAllowed(s, ops, i);
        Perform(ops[i]);
      }
    }
  }

  /** The new element on its way down, now at `i`. */
  function Sinking<T>(s: seq<T>, v: T, i: nat): seq<T>
    requires i <= |s|
  {
    s[..i] + [v] + s[i..]
  }

  lemma SinkingEnds<T>(s: seq<T>, v: T, position: nat)
    ensures Sinking(s, v, |s|) == s + [v]
    ensures Sinking(s, v, if position < |s| then position else |s|) == InsertedAt(s, position, v)
  {
  }

  lemma SinkingStep<T>(s: seq<T>, v: T, i: nat)
    requires 0 < i <= |s|
    ensures var t := Sinking(s, v, i);
      |t| == |s| + 1 && t[i - 1] == s[i - 1] && t[i] == v && t[i - 1 := v][i := s[i - 1]] == Sinking(s, v, i - 1)
  {
    var t := Sinking(s, v, i);
    assert t[i - 1] == s[i - 1] && t[i] == v;
  }

  /** The erased vector while it closes the gap: everything up to `at` has moved. */
  function Moving<T>(s: seq<T>, position: nat, at: nat): seq<T>
    requires position <= at < |s|
  {
    s[..position] + s[position + 1..at + 1] + s[at..]
  }

  lemma MovingEnds<T>(s: seq<T>, position: nat)
    requires position < |s|
    ensures Moving(s, position, position) == s
    ensures |Moving(s, position, |s| - 1)| == |s| && Moving(s, position, |s| - 1)[..|s| - 1] == ErasedAt(s, position)
  {
  }

  lemma MovingStep<T>(s: seq<T>, position: nat, at: nat)
    requires position <= at && at + 1 < |s|
    ensures var t := Moving(s, position, at);
      |t| == |s| && t[at + 1] == s[at + 1] && t[at := s[at + 1]] == Moving(s, position, at + 1)
  {
  }

  lemma {:induction false} PrefixAllowed<T>(s: seq<T>, ops: seq<Operation<T>>, i: nat)
    requires AllAllowed(s, ops) && i <= |ops|
    ensures AllAllowed(s, ops[..i])
    decreases |ops|
  {
    if i == |ops| {
      assert ops[..i] == ops;
    } else {
      PrefixAllowed(s, ops[..|ops| - 1], i);
      assert ops[..|ops| - 1][..i] == ops[..i];
    }
  }

  lemma NextAllowed<T>(s: seq<T>, ops: seq<Operation<T>>, i: nat)
    requires AllAllowed(s, ops) && i < |ops|
    ensures AllAllowed(s, ops[..i]) && Allowed(Run(s, ops[..i]), ops[i])
    ensures AllAllowed(s, ops[..i + 1]) && Run(s, ops[..i + 1]) == Apply(Run(s, ops[..i]), ops[i])
  {
    PrefixAllowed(s, ops, i + 1);
    assert ops[..i + 1][..i] == ops[..i];
  }
}
