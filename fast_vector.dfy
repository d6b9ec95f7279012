// The FastVector gap buffer: a sequence stored in one flat array with at most
// one movable gap, so that repeated insertions and deletions at the same place
// cost no more than a shift of the elements between the old and new place.
//
// The array `items` has `size` slots. The logical sequence (`Contents`) is the
// `count` elements before and after the gap; `gapStart == -1` means there is
// no gap, otherwise `gapLength` slots starting at `gapStart` are unused.
// `memmove` becomes a simultaneous array assignment (`MoveBlock`), `malloc`
// and `realloc` become a fresh array holding the preserved prefix.
module FastVectors {

  /** The smallest capacity the vector shrinks back to (`minSize()`). */
  const MinSize: int := 8

  function Pow2(k: nat): (r: int)
    ensures r >= 1
  {
    if k == 0 then 1 else 2 * Pow2(k - 1)
  }

  /** The capacity policy (`bestNewCount`): the first allocation is 8 slots
      or exactly `n`, whichever is larger; later the current capacity is
      halved when it exceeds `2n`, and otherwise doubled until it exceeds `n`.
      Whatever the case, the new capacity holds `n` elements. */
  method BestNewCount(capacity: int, n: int) returns (r: int)
    requires capacity >= 0
    ensures r >= n
    ensures capacity == 0 ==> r == (if n < MinSize then MinSize else n)
    ensures capacity > 0 && capacity > 2 * n ==> r == capacity / 2
    ensures capacity > 0 && capacity <= 2 * n ==>
      r > n && r / 2 <= n && exists k: nat :: r == capacity * Pow2(k)
  {
    if capacity == 0 {
      if n < MinSize {
        return MinSize;
      } else {
        return n;
      }
    }
    var s := capacity;
    if s > n * 2 {
      return s / 2;
    }
    ghost var k: nat := 0;
    while s <= n
      invariant s == capacity * Pow2(k)
      invariant capacity <= s && s / 2 <= n
      decreases n - s
    {
      s := s * 2;
      k := k + 1;
    }
    return s;
  }

  /** The array after `memmove(&a[dst], &a[src], len)`: the block is read
      before any slot is written, so overlapping ranges are handled. */
  ghost function Moved<T>(s: seq<T>, src: int, dst: int, len: int): (r: seq<T>)
    requires 0 <= len && 0 <= src && src + len <= |s| && 0 <= dst && dst + len <= |s|
  {
    seq(|s|, k requires 0 <= k < |s| => if dst <= k < dst + len then s[k - dst + src] else s[k])
  }

  method MoveBlock<T>(a: array<T>, src: int, dst: int, len: int)
    requires 0 <= len && 0 <= src && src + len <= a.Length && 0 <= dst && dst + len <= a.Length
    modifies a
    ensures a[..] == Moved(old(a[..]), src, dst, len)
  {
    forall k | dst <= k < dst + len {
      a[k] := a[k - dst + src];
    }
  }

  /** `externalToInternal` on the gap's coordinates. */
  function Internal(gapStart: int, gapLength: int, index: int): int {
    if index < gapStart || gapStart < 0 then index else index + gapLength
  }

  /** The layout conditions on a raw array snapshot. */
  ghost predicate Laid(length: int, count: int, gapStart: int, gapLength: int) {
    0 <= count && -1 <= gapStart <= count &&
    (gapStart < 0 ==> count <= length) &&
    (gapStart >= 0 ==> 1 <= gapLength && count + gapLength <= length)
  }

  /** The logical sequence held by an array snapshot: the `count` elements
      around the gap. */
  ghost function View<T>(a: seq<T>, count: int, gapStart: int, gapLength: int): (c: seq<T>)
    requires Laid(|a|, count, gapStart, gapLength)
    ensures |c| == count
  {
    if gapStart < 0 then a[..count]
    else a[..gapStart] + a[gapStart + gapLength..count + gapLength]
  }

  lemma ViewAt<T>(a: seq<T>, count: int, gapStart: int, gapLength: int, i: int)
    requires Laid(|a|, count, gapStart, gapLength) && 0 <= i < count
    ensures 0 <= Internal(gapStart, gapLength, i) < |a|
    ensures View(a, count, gapStart, gapLength)[i] == a[Internal(gapStart, gapLength, i)]
  {
  }

  /** The array after `moveGapTo(index)`: the elements between the gap and
      `index` cross the gap. */
  ghost function GapMoved<T>(a: seq<T>, gapStart: int, gapLength: int, index: int): seq<T>
    requires 0 <= gapStart && 0 <= index && 0 <= gapLength
    requires gapStart + gapLength <= |a| && index + gapLength <= |a|
  {
    if gapStart < index then Moved(a, gapStart + gapLength, gapStart, index - gapStart)
    else if gapStart > index then Moved(a, index, index + gapLength, gapStart - index)
    else a
  }

  /** The `memmove` of `moveGapTo`. */
  method MoveGap<T>(a: array<T>, gapStart: int, gapLength: int, index: int)
    requires 0 <= gapStart && 0 <= index && 0 <= gapLength
    requires gapStart + gapLength <= a.Length && index + gapLength <= a.Length
    modifies a
    ensures a[..] == GapMoved(old(a[..]), gapStart, gapLength, index)
  {
    ghost var a0 := a[..];
    if gapStart < index {
      assert GapMoved(a0, gapStart, gapLength, index) == Moved(a0, gapStart + gapLength, gapStart, index - gapStart);
      MoveBlock(a, gapStart + gapLength, gapStart, index - gapStart);
    } else if gapStart > index {
      assert GapMoved(a0, gapStart, gapLength, index) == Moved(a0, index, index + gapLength, gapStart - index);
      MoveBlock(a, index, index + gapLength, gapStart - index);
    }
  }

  /** Moving the gap never changes the logical sequence. */
  lemma GapMovedView<T>(a: seq<T>, count: int, gapStart: int, gapLength: int, index: int)
    requires Laid(|a|, count, gapStart, gapLength) && 0 <= gapStart && 0 <= index <= count
    ensures View(GapMoved(a, gapStart, gapLength, index), count, index, gapLength)
         == View(a, count, gapStart, gapLength)
  {
    var b := GapMoved(a, gapStart, gapLength, index);
    forall i | 0 <= i < count
      ensures View(b, count, index, gapLength)[i] == View(a, count, gapStart, gapLength)[i]
    {
      ViewAt(b, count, index, gapLength, i);
      ViewAt(a, count, gapStart, gapLength, i);
    }
  }

  /** Appending writes the slot right after the last element, past the gap. */
  lemma AppendView<T>(a: seq<T>, count: int, gapStart: int, gapLength: int, t: T)
    requires Laid(|a|, count, gapStart, gapLength) && gapStart < count
    requires Internal(gapStart, gapLength, count) < |a|
    ensures Laid(|a|, count + 1, gapStart, gapLength)
    ensures View(a[Internal(gapStart, gapLength, count) := t], count + 1, gapStart, gapLength)
         == View(a, count, gapStart, gapLength) + [t]
  {
    var b := a[Internal(gapStart, gapLength, count) := t];
    var want := View(a, count, gapStart, gapLength) + [t];
    forall i | 0 <= i < count + 1
      ensures View(b, count + 1, gapStart, gapLength)[i] == want[i]
    {
      ViewAt(b, count + 1, gapStart, gapLength, i);
      if i < count {
        ViewAt(a, count, gapStart, gapLength, i);
      }
    }
  }

  /** The `memmove` and store of `insert` without a gap: the tail moves
      right by `gapLength + 1` slots and `t` fills slot `index`. */
  method ShiftInsert<T>(a: array<T>, count: int, index: int, gapLength: int, t: T)
    requires 0 <= index < count && 0 <= gapLength && count + 1 + gapLength <= a.Length
    modifies a
    ensures a[..] == Moved(old(a[..]), index, index + 1 + gapLength, count - index)[index := t]
  {
    MoveBlock(a, index, index + 1 + gapLength, count - index);
    a[index] := t;
  }

  /** Inserting at `index` with no gap: the tail moves right, either by one
      slot or past a new gap of `gapLength` slots that starts after the new
      element. */
  lemma ShiftInsertView<T>(a: seq<T>, b: seq<T>, count: int, index: int, gapLength: int, t: T)
    requires 0 <= index < count && 0 <= gapLength && count + 1 + gapLength <= |a|
    requires b == Moved(a, index, index + 1 + gapLength, count - index)[index := t]
    ensures Laid(|b|, count + 1, if gapLength == 0 then -1 else index + 1, gapLength)
    ensures View(b, count + 1, if gapLength == 0 then -1 else index + 1, gapLength)
         == a[..count][..index] + [t] + a[..count][index..]
  {
    var gs := if gapLength == 0 then -1 else index + 1;
    var v := a[..count];
    var want := v[..index] + [t] + v[index..];
    forall i | 0 <= i < count + 1
      ensures View(b, count + 1, gs, gapLength)[i] == want[i]
    {
      ViewAt(b, count + 1, gs, gapLength, i);
    }
  }

  /** Inserting at the start of a gap fills its first slot; the gap shrinks
      by one and disappears when it was one slot long. */
  lemma GapInsertView<T>(a: seq<T>, count: int, index: int, gapLength: int, t: T)
    requires Laid(|a|, count, index, gapLength) && 0 <= index
    ensures Laid(|a|, count + 1, if gapLength == 1 then -1 else index + 1, gapLength - 1)
    ensures View(a[index := t], count + 1, if gapLength == 1 then -1 else index + 1, gapLength - 1)
         == View(a, count, index, gapLength)[..index] + [t] + View(a, count, index, gapLength)[index..]
  {
    var gs := if gapLength == 1 then -1 else index + 1;
    var b := a[index := t];
    var v := View(a, count, index, gapLength);
    var want := v[..index] + [t] + v[index..];
    forall i | 0 <= i < count + 1
      ensures View(b, count + 1, gs, gapLength - 1)[i] == want[i]
    {
      ViewAt(b, count + 1, gs, gapLength - 1, i);
      if i < index {
        ViewAt(a, count, index, gapLength, i);
      } else if i > index {
        ViewAt(a, count, index, gapLength, i - 1);
      }
    }
  }

  /** Removing the last element: only the count shrinks, and a gap right
      before it is dropped. */
  lemma RemoveLastView<T>(a: seq<T>, count: int, gapStart: int, gapLength: int)
    requires Laid(|a|, count, gapStart, gapLength) && gapStart < count && 1 <= count
    ensures Laid(|a|, count - 1, if gapStart == count - 1 then -1 else gapStart, gapLength)
    ensures View(a, count - 1, if gapStart == count - 1 then -1 else gapStart, gapLength)
         == View(a, count, gapStart, gapLength)[..count - 1]
  {
    var gs := if gapStart == count - 1 then -1 else gapStart;
    forall i | 0 <= i < count - 1
      ensures View(a, count - 1, gs, gapLength)[i] == View(a, count, gapStart, gapLength)[i]
    {
      ViewAt(a, count - 1, gs, gapLength, i);
      ViewAt(a, count, gapStart, gapLength, i);
    }
  }

  /** Removing the element just after a gap at `index` widens the gap by
      one slot. */
  lemma WidenGapView<T>(a: seq<T>, count: int, index: int, gapLength: int)
    requires 0 <= index < count - 1 && 1 <= gapLength && count + gapLength <= |a|
    ensures Laid(|a|, count, index, gapLength) && Laid(|a|, count - 1, index, gapLength + 1)
    ensures View(a, count - 1, index, gapLength + 1)
         == View(a, count, index, gapLength)[..index] + View(a, count, index, gapLength)[index + 1..]
  {
    var v := View(a, count, index, gapLength);
    var want := v[..index] + v[index + 1..];
    forall i | 0 <= i < count - 1
      ensures View(a, count - 1, index, gapLength + 1)[i] == want[i]
    {
      ViewAt(a, count - 1, index, gapLength + 1, i);
      if i < index {
        ViewAt(a, count, index, gapLength, i);
      } else {
        ViewAt(a, count, index, gapLength, i + 1);
      }
    }
  }

  /** Removing an element from a vector without a gap opens a one-slot gap
      over it. */
  lemma OpenGapView<T>(a: seq<T>, count: int, index: int)
    requires 0 <= index < count - 1 && count <= |a|
    ensures Laid(|a|, count, -1, 0) && Laid(|a|, count - 1, index, 1)
    ensures View(a, count - 1, index, 1)
         == View(a, count, -1, 0)[..index] + View(a, count, -1, 0)[index + 1..]
  {
    var v := View(a, count, -1, 0);
    var want := v[..index] + v[index + 1..];
    forall i | 0 <= i < count - 1
      ensures View(a, count - 1, index, 1)[i] == want[i]
    {
      ViewAt(a, count - 1, index, 1, i);
      if i < index {
        ViewAt(a, count, -1, 0, i);
      } else {
        ViewAt(a, count, -1, 0, i + 1);
      }
    }
  }

  /** `realloc`: a fresh array of `n` slots whose first `keep` slots are
      those of `a`. */
  method Reallocated<T(0)>(a: array<T>, n: int, keep: int) returns (b: array<T>)
    requires 0 <= keep <= a.Length && keep <= n
    ensures fresh(b) && b.Length == n && b[..keep] == a[..keep]
  {
    b := new T[n];
    forall k | 0 <= k < keep {
      b[k] := a[k];
    }
  }

  /** Two snapshots agreeing on every slot in use hold the same sequence. */
  lemma SamePrefixView<T>(a: seq<T>, b: seq<T>, count: int, gapStart: int, gapLength: int, keep: int)
    requires Laid(|a|, count, gapStart, gapLength) && Laid(|b|, count, gapStart, gapLength)
    requires 0 <= keep <= |a| && keep <= |b| && a[..keep] == b[..keep]
    requires (if gapStart < 0 then count else count + gapLength) <= keep
    ensures View(a, count, gapStart, gapLength) == View(b, count, gapStart, gapLength)
  {
    forall i | 0 <= i < count
      ensures View(a, count, gapStart, gapLength)[i] == View(b, count, gapStart, gapLength)[i]
    {
      ViewAt(a, count, gapStart, gapLength, i);
      ViewAt(b, count, gapStart, gapLength, i);
      var k := Internal(gapStart, gapLength, i);
      assert k < keep;
      assert a[..keep][k] == b[..keep][k];
    }
  }

  lemma PrefixStep<T>(s: seq<T>, i: int)
    requires 0 <= i < |s|
    ensures s[..i + 1] == s[..i] + [s[i]]
  {
  }

  /** Removing position `first` from `c[..first] + c[k..]` leaves
      `c[..first] + c[k + 1..]`. */
  lemma EraseStep<T>(c: seq<T>, first: int, k: int)
    requires 0 <= first <= k < |c|
    ensures var cur := c[..first] + c[k..];
      cur[..first] + cur[first + 1..] == c[..first] + c[k + 1..]
  {
    var cur := c[..first] + c[k..];
    assert cur[..first] == c[..first];
    assert cur[first + 1..] == c[k + 1..];
  }

  class FastVector<T(0)> {
    var items: array<T>
    var count: int
    var gapStart: int
    var gapLength: int
    var size: int

    /** The array layout every operation relies on: the elements and the gap
        fit in the allocated capacity, and a gap, when there is one, is
        non-empty and starts at or before the end of the elements. */
    ghost predicate Layout()
      reads this
    {
      items.Length == size && Laid(size, count, gapStart, gapLength)
    }

    /** Between public operations a gap always has elements after it, so an
        empty vector has no gap. */
    ghost predicate Valid()
      reads this
    {
      Layout() && (gapStart >= 0 ==> gapStart < count)
    }

    /** Number of array slots in use, the gap included. */
    ghost function Extent(): int
      reads this
    {
      if gapStart < 0 then count else count + gapLength
    }

    /** The logical sequence the array holds. */
    ghost function Contents(): (c: seq<T>)
      requires Layout()
      reads this, items
      ensures |c| == count
    {
      View(items[..], count, gapStart, gapLength)
    }

    /** `externalToInternal`: the array slot that holds logical position `index`. */
    function ExternalToInternal(index: int): int
      reads this
    {
      Internal(gapStart, gapLength, index)
    }

    /** Logical position `i` is stored in slot `ExternalToInternal(i)`, which
        is `i` itself before the gap or when there is none, and `i + gapLength`
        after it. */
    lemma ContentsAt(i: int)
      requires Layout() && 0 <= i < count
      ensures 0 <= ExternalToInternal(i) < size
      ensures ExternalToInternal(i) == (if gapStart < 0 || i < gapStart then i else i + gapLength)
      ensures Contents()[i] == items[ExternalToInternal(i)]
    {
      ViewAt(items[..], count, gapStart, gapLength, i);
    }

    constructor ()
      ensures Valid() && fresh(items) && size == 0 && Contents() == []
    {
      items := new T[0];
      count := 0;
      gapStart := -1;
      gapLength := 0;
      size := 0;
    }

    /** `at(index)`: the element at a logical position. */
    function At(index: int): (r: T)
      requires Valid() && 0 <= index < count
      reads this, items
      ensures r == Contents()[index]
    {
      ContentsAt(index);
      items[ExternalToInternal(index)]
    }

    /** `size()`. */
    function Size(): (n: int)
      requires Valid()
      reads this, items
      ensures n == |Contents()|
    {
      count
    }

    /** `resize(needed)`: reallocates to the capacity the policy chooses for
        `needed` slots, keeping every slot in use. */
    method Resize(needed: int)
      requires Layout() && needed >= Extent()
      modifies this`items, this`size
      ensures Layout() && fresh(items) && size >= needed
      ensures old(size) > 0 && old(size) > 2 * needed ==> size == old(size) / 2
      ensures count == old(count) && gapStart == old(gapStart) && gapLength == old(gapLength)
      ensures Contents() == old(Contents())
    {
      var newSize := BestNewCount(size, needed);
      var keep := if size < newSize then size else newSize;
      ghost var was := items[..];
      items := Reallocated(items, newSize, keep);
      size := newSize;
      SamePrefixView(was, items[..], count, gapStart, gapLength, keep);
    }

    /** `moveGapTo(index)`: shifts the elements between the gap and `index`
        across the gap so that the gap starts at `index`. */
    method MoveGapTo(index: int)
      requires Layout() && gapStart >= 0 && 0 <= index <= count
      modifies items, this`gapStart
      ensures Layout() && gapStart == index
      ensures items[..] == GapMoved(old(items[..]), old(gapStart), gapLength, index)
      ensures Contents() == old(Contents())
    {
      ghost var a0 := items[..];
      MoveGap(items, gapStart, gapLength, index);
      GapMovedView(a0, count, gapStart, gapLength, index);
      gapStart := index;
    }

    /** `closeGap()`: moves the gap to the end and forgets it. */
    method CloseGap()
      requires Layout()
      modifies items, this`gapStart
      ensures Layout() && gapStart == -1
      ensures Contents() == old(Contents())
    {
      if gapStart >= 0 {
        MoveGapTo(count);
        assert items[..count + gapLength][..count] == items[..count];
      }
      gapStart := -1;
    }

    /** `insert(index, t)`: appends without touching the gap, opens room at
        `index` when there is no gap, or reuses the existing gap after moving
        it to `index`. */
    method Insert(index: int, t: T)
      requires Valid() && 0 <= index <= count
      modifies this, items
      ensures Valid() && (items == old(items) || fresh(items))
      ensures Contents() == old(Contents()[..index]) + [t] + old(Contents()[index..])
    {
      if index == count {
        InsertAtEnd(t);
      } else if gapStart < 0 {
        if count >= size {
          Resize(size + 1);
        }
        InsertWithoutGap(index, t);
      } else {
        InsertAtGap(index, t);
      }
    }

    /** The appending branch of `insert`: the gap is left where it is, and the
        array grows when the slot after the last element is past its end. */
    method InsertAtEnd(t: T)
      requires Valid()
      modifies this, items
      ensures Valid() && (items == old(items) || fresh(items))
      ensures Contents() == old(Contents()) + [t]
    {
      if ExternalToInternal(count) >= size || size == 0 {
        Resize(size + 1);
      }
      ghost var a0 := items[..];
      items[ExternalToInternal(count)] := t;
      AppendView(a0, count, gapStart, gapLength, t);
      assert items[..] == a0[Internal(gapStart, gapLength, count) := t];
      count := count + 1;
    }

    /** The branch of `insert` with no gap to reuse, once the array has a
        free slot: with more than two free slots, the tail moves right past a
        new gap of half the free slots that starts after the new element, and
        otherwise the tail moves right by one slot. */
    method InsertWithoutGap(index: int, t: T)
      requires Valid() && 0 <= index < count && gapStart < 0 && count < size
      modifies items, this`gapStart, this`gapLength, this`count
      ensures Valid() && items == old(items)
      ensures Contents() == old(Contents()[..index]) + [t] + old(Contents()[index..])
    {
      ghost var a0 := items[..];
      var newGap := if count < size - 2 then (size - count) / 2 else 0;
      ShiftInsert(items, count, index, newGap, t);
      ShiftInsertView(a0, items[..], count, index, newGap, t);
      if newGap > 0 {
        gapStart := index + 1;
        gapLength := newGap;
      }
      count := count + 1;
    }

    /** The branch of `insert` with a gap: the gap moves to `index`, its first
        slot takes the new element, and it disappears once used up. */
    method InsertAtGap(index: int, t: T)
      requires Valid() && 0 <= index < count && gapStart >= 0
      modifies items, this`gapStart, this`gapLength, this`count
      ensures Valid()
      ensures Contents() == old(Contents()[..index]) + [t] + old(Contents()[index..])
    {
      if index != gapStart {
        MoveGapTo(index);
      }
      FillGap(t);
    }

    /** The gap's first slot takes `t`, which lands at the gap's logical
        position; the gap shrinks by one and disappears once used up. */
    method FillGap(t: T)
      requires Valid() && gapStart >= 0
      modifies items, this`gapStart, this`gapLength, this`count
      ensures Valid()
      ensures Contents() == old(Contents()[..gapStart]) + [t] + old(Contents()[gapStart..])
    {
      ghost var a0 := items[..];
      items[gapStart] := t;
      GapInsertView(a0, count, gapStart, gapLength, t);
      assert items[..] == a0[gapStart := t];
      if gapLength == 1 {
        gapStart := -1;
      } else {
        gapStart := gapStart + 1;
      }
      gapLength := gapLength - 1;
      count := count + 1;
    }

    /** `remove(index)`: drops the last element in place, otherwise widens the
        gap over the removed element (creating a one-slot gap when there is
        none); an emptied vector loses its gap, and a vector filled to less
        than a third of a capacity above 8 is compacted and shrunk. */
    method Remove(index: int)
      requires Valid() && 0 <= index < count
      modifies this, items
      ensures Valid() && (items == old(items) || fresh(items))
      ensures Contents() == old(Contents()[..index]) + old(Contents()[index + 1..])
    {
      ghost var c := Contents();
      if index == count - 1 {
        RemoveLast();
        assert c[..index] + c[index + 1..] == c[..index];
      } else if gapStart >= 0 {
        MoveGapTo(index);
        WidenGap();
      } else {
        OpenGap(index);
      }
      if count == 0 {
        gapStart := -1;
      }
      ShrinkIfSparse();
    }

    /** The last element goes: only the count shrinks, and a gap right
        before it is dropped. */
    method RemoveLast()
      requires Valid() && 1 <= count
      modifies this`count, this`gapStart
      ensures Valid() && count == old(count) - 1
      ensures Contents() == old(Contents())[..count]
    {
      RemoveLastView(items[..], count, gapStart, gapLength);
      if gapStart == count - 1 {
        gapStart := -1;
      }
      count := count - 1;
    }

    /** The element right after the gap goes: the gap grows by one slot. */
    method WidenGap()
      requires Valid() && 0 <= gapStart < count - 1
      modifies this`count, this`gapLength
      ensures Valid() && count == old(count) - 1
      ensures Contents() == old(Contents()[..gapStart]) + old(Contents()[gapStart + 1..])
    {
      WidenGapView(items[..], count, gapStart, gapLength);
      gapLength := gapLength + 1;
      count := count - 1;
    }

    /** With no gap, the element at `index` goes by becoming a one-slot
        gap. */
    method OpenGap(index: int)
      requires Valid() && gapStart < 0 && 0 <= index < count - 1
      modifies this`count, this`gapStart, this`gapLength
      ensures Valid() && count == old(count) - 1
      ensures Contents() == old(Contents()[..index]) + old(Contents()[index + 1..])
    {
      OpenGapView(items[..], count, index);
      gapStart := index;
      gapLength := 1;
      count := count - 1;
    }

    /** The tail of `remove`: a vector holding fewer than a third of a
        capacity above 8 closes its gap and is reallocated for its count. */
    method ShrinkIfSparse()
      requires Valid()
      modifies this, items
      ensures Valid() && (items == old(items) || fresh(items))
      ensures Contents() == old(Contents())
      ensures old(count < size / 3 && size > MinSize) ==> gapStart == -1 && size < old(size)
    {
      if count < size / 3 && size > MinSize {
        CloseGap();
        Resize(count);
      }
    }

    /** `push_front(item)` is `insert(0, item)`. */
    method PushFront(item: T)
      requires Valid()
      modifies this, items
      ensures Valid() && (items == old(items) || fresh(items))
      ensures Contents() == [item] + old(Contents())
    {
      Insert(0, item);
    }

    /** `push_back(item)` is `insert(size(), item)`. */
    method PushBack(item: T)
      requires Valid()
      modifies this, items
      ensures Valid() && (items == old(items) || fresh(items))
      ensures Contents() == old(Contents()) + [item]
    {
      Insert(count, item);
    }

    /** `erase(iterator)`: removes one element; the returned position is the
        one erased, which now holds its successor. */
    method Erase(index: int) returns (next: int)
      requires Valid() && 0 <= index < count
      modifies this, items
      ensures Valid() && (items == old(items) || fresh(items))
      ensures Contents() == old(Contents()[..index]) + old(Contents()[index + 1..])
      ensures next == index
    {
      Remove(index);
      next := index;
    }

    /** `erase(first, last)`: removes the elements at positions
        `first .. last-1` by removing position `first` that many times. */
    method EraseRange(first: int, last: int) returns (next: int)
      requires Valid() && 0 <= first <= last <= count
      modifies this, items
      ensures Valid() && (items == old(items) || fresh(items))
      ensures Contents() == old(Contents()[..first]) + old(Contents()[last..])
      ensures next == first
    {
      ghost var c := Contents();
      var k := first;
      while k < last
        invariant first <= k <= last && Valid()
        invariant items == old(items) || fresh(items)
        invariant Contents() == c[..first] + c[k..]
      {
        Remove(first);
        EraseStep(c, first, k);
        k := k + 1;
      }
      next := first;
    }

    /** `clear()`: erases everything. */
    method Clear()
      requires Valid()
      modifies this, items
      ensures Valid() && (items == old(items) || fresh(items))
      ensures Contents() == []
    {
      var _ := EraseRange(0, count);
    }

    /** The copy constructor: allocates for `l.size()` elements and pushes
        them one by one. */
    constructor Copy(l: FastVector<T>)
      requires l.Valid()
      ensures Valid() && fresh(items) && Contents() == l.Contents()
    {
      items := new T[0];
      count := 0;
      gapStart := -1;
      gapLength := 0;
      size := 0;
      new;
      Resize(l.count);
      ghost var lc := l.Contents();
      var i := 0;
      while i < l.count
        invariant 0 <= i <= l.count && Valid() && fresh(items)
        invariant Contents() == lc[..i]
      {
        PushBack(l.At(i));
        PrefixStep(lc, i);
        i := i + 1;
      }
      assert lc[..i] == lc;
    }

    /** `operator=`: self-assignment changes nothing; otherwise the vector is
        cleared, grown to `l.size()` when that is at least the current
        capacity, and refilled with `l`'s elements in order. */
    method Assign(l: FastVector<T>)
      requires Valid() && l.Valid() && (l != this ==> l.items != items)
      modifies this, items
      ensures Valid() && (items == old(items) || fresh(items))
      ensures Contents() == old(l.Contents())
    {
      if l == this {
        return;
      }
      Clear();
      if l.count >= size {
        Resize(l.count);
      }
      ghost var lc := l.Contents();
      var i := 0;
      while i < l.count
        invariant 0 <= i <= l.count && Valid()
        invariant items == old(items) || fresh(items)
        invariant Contents() == lc[..i]
      {
        PushBack(l.At(i));
        PrefixStep(lc, i);
        i := i + 1;
      }
      assert lc[..i] == lc;
    }

    /** `array(index, n)`: the offset of a contiguous run of slots holding
        logical positions `index .. index+n-1`; the gap is closed only when it
        splits that run. */
    method Array(index: int, n: int) returns (offset: int)
      requires Valid() && 0 <= index && n > 0 && index + n <= count
      modifies this, items
      ensures Valid() && items == old(items) && Contents() == old(Contents())
      ensures 0 <= offset && offset + n <= size
      ensures items[offset..offset + n] == Contents()[index..index + n]
    {
      if gapStart < 0 || index + n <= gapStart {
        offset := index;
      } else if index >= gapStart {
        offset := index + gapLength;
      } else {
        CloseGap();
        offset := index;
      }
      ghost var run := items[offset..offset + n];
      ghost var want := Contents()[index..index + n];
      forall j | 0 <= j < n ensures run[j] == want[j] {
        ContentsAt(index + j);
      }
    }
  }

  /** `operator==`: equal sizes and equal elements position by position. */
  method Equal<T(0,==)>(a: FastVector<T>, b: FastVector<T>) returns (eq: bool)
    requires a.Valid() && b.Valid()
    ensures eq <==> a.Contents() == b.Contents()
  {
    if a.Size() != b.Size() {
      return false;
    }
    var i := 0;
    while i < a.Size()
      invariant 0 <= i <= a.count
      invariant a.Contents()[..i] == b.Contents()[..i]
    {
      if a.At(i) != b.At(i) {
        return false;
      }
      i := i + 1;
    }
    assert a.Contents() == a.Contents()[..i];
    return true;
  }
}
