/** The growable ring buffer of include/circular_queue.h, which the scheduler runs on. */
module CircularQueue {
  import Arithmetic

  /** The place of the `i`-th element from index `head` in a ring of `capacity` cells. */
  function Slot(head: nat, i: nat, capacity: nat): nat
  {
    if head + i < capacity then head + i else head + i - capacity
  }

  lemma {:induction false} SlotIsRemainder(head: nat, i: nat, capacity: nat)
    requires head < capacity && i <= capacity
    ensures (head + i) % capacity == Slot(head, i, capacity) < capacity
  {
    if head + i >= capacity {
      Arithmetic.RemainderIs(capacity, 1, head + i - capacity);
    } else {
      Arithmetic.RemainderIs(capacity, 0, head + i);
    }
  }

  /** The first `cnt` elements of a ring, in order. */
  ghost function Unroll<T>(ring: seq<T>, head: nat, cnt: nat): (r: seq<T>)
    requires cnt <= |ring| && (cnt > 0 ==> head < |ring|)
    ensures |r| == cnt
    ensures forall i :: 0 <= i < cnt ==> r[i] == ring[Slot(head, i, |ring|)]
  {
    seq(cnt, (i: nat) requires i < cnt => ring[Slot(head, i, |ring|)])
  }

  class CircularQueue<T(0)> {
    var vec: array<T>
    var head: nat
    var cnt: nat
    var capacity: nat

    ghost predicate Valid()
      reads this
    {
      && capacity == vec.Length && cnt <= capacity
      && (capacity > 0 ==> head < capacity)
    }

    ghost function Contents(): seq<T>
      requires Valid()
      reads this, vec
    {
      Unroll(vec[..], head, cnt)
    }

    constructor (initial: nat)
      ensures Valid() && fresh(vec) && capacity == initial && Contents() == []
    {
      vec := new T[initial];
      head, cnt, capacity := 0, 0, initial;
    }

    /** The elements copied to the start of a larger array. */
    method Relocate(newCapacity: nat) returns (newVec: array<T>)
      requires Valid() && 1 <= cnt == capacity <= newCapacity
      ensures fresh(newVec) && newVec.Length == newCapacity
      ensures newVec[..capacity] == Contents()
    {
      newVec := new T[newCapacity];
      var end := 0;
      var idx := head;
      while idx < capacity
        invariant head <= idx <= capacity && end == idx - head
        invariant forall i :: 0 <= i < end ==> newVec[i] == vec[head + i]
      {
        newVec[end] := vec[idx];
        idx, end := idx + 1, end + 1;
      }
      idx := 0;
      while idx < head
        invariant 0 <= idx <= head && end == capacity - head + idx
        invariant forall i :: 0 <= i < end ==> newVec[i] == vec[Slot(head, i, capacity)]
      {
        newVec[end] := vec[idx];
        idx, end := idx + 1, end + 1;
      }
    }

    /** The item is written into an empty queue or into the cell after the last element. */
    method Append(item: T)
      requires Valid() && cnt < capacity
      modifies this, vec
      ensures Valid() && vec == old(vec) && capacity == old(capacity)
      ensures Contents() == old(Contents()) + [item]
    {
      if cnt == 0 {
        vec[0] := item;
        head, cnt := 0, 1;
      } else {
        SlotIsRemainder(head, cnt, capacity);
        var tail := (head + cnt) % capacity;
        vec[tail] := item;
        cnt := cnt + 1;
      }
      assert forall i :: 0 <= i < cnt ==> Contents()[i] == (old(Contents()) + [item])[i];
    }

    /** `Enqueue(const T &)`: a full queue doubles. */
    method Enqueue(item: T)
      requires Valid() && capacity >= 1
      modifies this, vec
      ensures Valid() && (vec == old(vec) || fresh(vec))
      ensures capacity == if old(cnt) == old(capacity) then 2 * old(capacity) else old(capacity)
      ensures Contents() == old(Contents()) + [item]
    {
      if cnt == capacity {
        Grow(2 * capacity);
      }
      Append(item);
    }

    /**
     `Enqueue(T &&)`: a full queue grows by half, which makes room only from capacity 2 on;
     otherwise the item would be written past the array, and the model stops there.
     */
    method EnqueueMoved(item: T) returns (ok: bool)
      requires Valid()
      modifies this, vec
      ensures Valid() && (vec == old(vec) || fresh(vec))
      ensures ok <==> (old(cnt) == old(capacity) ==> old(capacity) >= 2)
      ensures ok ==> capacity == if old(cnt) == old(capacity) then GrownByHalf(old(capacity)) else old(capacity)
      ensures Contents() == old(Contents()) + if ok then [item] else []
    {
      if cnt == capacity {
        if GrownByHalf(capacity) <= capacity {
          return false;
        }
        Grow(GrownByHalf(capacity));
      }
      Append(item);
      return true;
    }

    method Grow(newCapacity: nat)
      requires Valid() && 1 <= cnt == capacity < newCapacity
      modifies this
      ensures Valid() && fresh(vec) && capacity == newCapacity && cnt == old(cnt) && head == 0
      ensures Contents() == old(Contents())
    {
      var newVec := Relocate(newCapacity);
      vec, head, capacity := newVec, 0, newCapacity;
      assert forall i :: 0 <= i < cnt ==> Contents()[i] == newVec[..old(capacity)][i];
    }

    /**
     A full queue grows by half and the item goes to the end of the new array. At capacity 1
     that is where the only element has just been copied to: the element is lost, and the
     counter says 2.
     */
    method EnqueueAsFirst(item: T)
      requires Valid() && capacity >= 1
      modifies this, vec
      ensures vec == old(vec) || fresh(vec)
      ensures capacity == if old(cnt) == old(capacity) then GrownByHalf(old(capacity)) else old(capacity)
      ensures Valid() <==> !(old(cnt) == old(capacity) == 1)
      ensures Valid() ==> Contents() == [item] + old(Contents())
      ensures !Valid() ==> cnt == 2 && head == 0 && vec[..] == [item]
    {
      if cnt == capacity {
        GrowInFront(item);
      } else {
        Prepend(item);
      }
    }

    method GrowInFront(item: T)
      requires Valid() && 1 <= cnt == capacity
      modifies this
      ensures fresh(vec) && capacity == GrownByHalf(old(capacity))
      ensures old(capacity) >= 2 ==> Valid() && Contents() == [item] + old(Contents())
      ensures old(capacity) == 1 ==> cnt == 2 && head == 0 && vec[..] == [item]
    {
      var newVec := Relocate(GrownByHalf(capacity));
      newVec[newVec.Length - 1] := item;
      ghost var copied := newVec[..if capacity >= 2 then capacity else 0];
      vec, head, cnt, capacity := newVec, newVec.Length - 1, capacity + 1, newVec.Length;
      if old(capacity) >= 2 {
        assert copied == old(Contents());
        assert forall i :: 0 <= i < cnt ==> Contents()[i] == ([item] + copied)[i];
      }
    }

    method Prepend(item: T)
      requires Valid() && cnt < capacity
      modifies this, vec
      ensures Valid() && vec == old(vec) && capacity == old(capacity)
      ensures Contents() == [item] + old(Contents())
    {
      if cnt == 0 {
        vec[0] := item;
        head, cnt := 0, 1;
      } else {
        head := if head != 0 then head - 1 else capacity - 1;
        vec[head] := item;
        cnt := cnt + 1;
      }
      assert forall i :: 0 <= i < cnt ==> Contents()[i] == ([item] + old(Contents()))[i];
    }

    /** Does nothing to an empty queue. */
    method Dequeue()
      requires Valid()
      modifies this
      ensures Valid() && vec == old(vec) && capacity == old(capacity)
      ensures Contents() == if old(Contents()) == [] then [] else old(Contents())[1..]
    {
      if cnt > 0 {
        head := head + 1;
        if head == capacity {
          head := 0;
        }
        cnt := cnt - 1;
      }
    }

    method Peek() returns (item: T)
      requires Valid() && cnt > 0
      ensures item == Contents()[0]
    {
      item := vec[head];
    }

    method Get(index: nat) returns (item: T)
      requires Valid() && index < cnt
      ensures item == Contents()[index]
    {
      SlotIsRemainder(head, index, capacity);
      item := vec[(head + index) % capacity];
    }

    /** Copies the element after the `i`-th onto it. */
    method CopyBack(i: nat)
      requires Valid() && i + 1 < cnt
      modifies vec
      ensures Contents() == old(Contents())[i := old(Contents())[i + 1]]
    {
      SlotIsRemainder(head, i, capacity);
      SlotIsRemainder(head, i + 1, capacity);
      vec[(head + i) % capacity] := vec[(head + i + 1) % capacity];
    }

    method ShiftOne(ghost before: seq<T>, ghost index: nat, k: nat)
      requires Valid() && index <= k && k + 1 < cnt == |before| && Contents() == Shifted(before, index, k)
      modifies vec
      ensures Contents() == Shifted(before, index, k + 1)
    {
      ShiftedAt(before, index, k, k + 1);
      CopyBack(k);
    }

    /** Moves every element after `index` one place forward. */
    method CloseGap(index: nat)
      requires Valid() && cnt > 0
      modifies vec
      ensures Contents()[..cnt - 1] == Without(old(Contents()), index)
    {
      ghost var before := Contents();
      if index >= cnt {
        return;
      }
      var k := index;
      while k < cnt - 1
        invariant index <= k < cnt == |before|
        invariant Contents() == Shifted(before, index, k)
      {
        ShiftOne(before, index, k);
        k := k + 1;
      }
      ShiftEnds(before, index);
    }

    /** An index past the end removes the last element. */
    method Erase(index: nat)
      requires Valid() && cnt > 0
      modifies this, vec
      ensures Valid() && vec == old(vec) && capacity == old(capacity)
      ensures Contents() == Without(old(Contents()), index)
    {
      ghost var before := Contents();
      CloseGap(index);
      ghost var closed := Contents();
      cnt := cnt - 1;
      assert Contents() == closed[..cnt];
      assert closed[..cnt] == Without(before, index);
      if cnt == 0 {
        head := 0;
      }
    }
  }

  /** `s` without its element at `index`, or without its last one if there is none there. */
  ghost function Without<T>(s: seq<T>, index: nat): seq<T>
    requires s != []
  {
    if index < |s| then s[..index] + s[index + 1..] else s[..|s| - 1]
  }

  /** `s` after each element behind `index`, up to position `k`, has been copied one place forward. */
  ghost function Shifted<T>(s: seq<T>, index: nat, k: nat): (r: seq<T>)
    requires index <= k < |s|
    ensures |r| == |s|
  {
    if k == index then s else Shifted(s, index, k - 1)[k - 1 := s[k]]
  }

  lemma {:induction false} ShiftedAt<T>(s: seq<T>, index: nat, k: nat, i: nat)
    requires index <= k < |s| && i < |s|
    ensures Shifted(s, index, k)[i] == s[if index <= i < k then i + 1 else i]
  {
    if k > index { ShiftedAt(s, index, k - 1, i); }
  }

  lemma {:induction false} ShiftEnds<T>(s: seq<T>, index: nat)
    requires index < |s|
    ensures Shifted(s, index, |s| - 1)[..|s| - 1] == Without(s, index)
  {
    var end := Shifted(s, index, |s| - 1);
    forall i | 0 <= i < |s| - 1 ensures end[i] == Without(s, index)[i] {
      ShiftedAt(s, index, |s| - 1, i);
    }
  }

  /** `static_cast<size_t>(capacity * 1.5)` */
  function GrownByHalf(capacity: nat): nat
  {
    capacity * 3 / 2
  }

  lemma {:induction false} HalfGrowthMakesRoom(capacity: nat)
    ensures GrownByHalf(capacity) > capacity <==> capacity >= 2
  {
  }
}
