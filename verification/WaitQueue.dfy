/** The UART input wait queue of kernel/sched/scheduler.c: a circular array of thread
    slots, and the plain sequence of waiters it stands for. */
module WaitQueue {
  import opened Tasks

  /** Append t unless it is already waiting or the queue is full. */
  function Enqueue(q: seq<nat>, t: nat, cap: nat): (r: seq<nat>)
    ensures NoDup(q) ==> NoDup(r)
    ensures |q| <= cap ==> |r| <= cap
  {
    if t in q || |q| >= cap then q else q + [t]
  }

  class Queue {
    const slots: array<Option<nat>>
    var head: nat
    var count: nat

    ghost predicate Valid()
      reads this, slots
    {
      && slots.Length > 0
      && head < slots.Length
      && count <= slots.Length
      && forall i :: 0 <= i < count ==> slots[Slot(head, i, slots.Length)].Some?
    }

    ghost function Contents(): (q: seq<nat>)
      requires Valid()
      reads this, slots
      ensures |q| == count
    {
      seq(count, i requires 0 <= i < count && Valid() reads this, slots =>
        slots[Slot(head, i, slots.Length)].value)
    }

    constructor (cap: nat)
      requires cap > 0
      ensures Valid() && fresh(slots) && slots.Length == cap
      ensures Contents() == []
    {
      slots := new Option<nat>[cap](_ => None);
      head, count := 0, 0;
    }

    method Push(t: nat)
      requires Valid()
      modifies this, slots
      ensures Valid()
      ensures Contents() == Enqueue(old(Contents()), t, slots.Length)
    {
      for i := 0 to count
        invariant Valid() && Contents() == old(Contents())
        invariant forall j :: 0 <= j < i ==> Contents()[j] != t
      {
        if slots[Slot(head, i, slots.Length)] == Some(t) {
          assert Contents()[i] == t;
          return;
        }
      }
      if count >= slots.Length {
        return;
      }
      ghost var n, cap, h, was := count, slots.Length, head, slots[..];
      SlotsDistinct(h, n, cap);
      slots[Slot(head, count, slots.Length)] := Some(t);
      count := count + 1;
      assert forall i :: 0 <= i < n ==> slots[Slot(h, i, cap)] == was[Slot(h, i, cap)];
      assert Contents() == old(Contents()) + [t];
    }

    method Pop() returns (t: Option<nat>)
      requires Valid()
      modifies this, slots
      ensures Valid()
      ensures old(Contents()) == [] ==> t == None && Contents() == []
      ensures old(Contents()) != [] ==>
                t == Some(old(Contents())[0]) && Contents() == old(Contents())[1..]
    {
      if count == 0 {
        return None;
      }
      ghost var n, cap, h, was := count, slots.Length, head, slots[..];
      assert Slot(h, 0, cap) == h;
      t := slots[head];
      assert t.value == Contents()[0];
      slots[head] := None;
      head := Slot(head, 1, slots.Length);
      count := count - 1;
      forall i | 0 <= i < n - 1
        ensures Slot(head, i, cap) == Slot(h, i + 1, cap) != h
      {
        SlotStep(h, i, cap);
      }
      assert forall i :: 0 <= i < n - 1 ==> slots[Slot(head, i, cap)] == was[Slot(h, i + 1, cap)];
      assert Contents() == old(Contents())[1..];
    }
  }

  /** (head + i) % WAITQ_CAP */
  function Slot(head: nat, i: nat, cap: nat): (r: nat)
    requires cap > 0
    ensures r < cap
  {
    (head + i) % cap
  }

  lemma SlotValue(head: nat, i: nat, cap: nat)
    requires head < cap && i <= cap
    ensures Slot(head, i, cap) == if head + i < cap then head + i else head + i - cap
  {
    ModOnce(head + i, cap);
  }

  /** Slots in use never coincide with the next free one. */
  lemma SlotsDistinct(head: nat, n: nat, cap: nat)
    requires head < cap && n < cap
    ensures forall i :: 0 <= i < n ==> Slot(head, i, cap) != Slot(head, n, cap)
  {
    forall i | 0 <= i < n
      ensures Slot(head, i, cap) != Slot(head, n, cap)
    {
      SlotValue(head, i, cap);
      SlotValue(head, n, cap);
    }
  }

  lemma SlotStep(head: nat, i: nat, cap: nat)
    requires head < cap && i + 1 < cap
    ensures Slot(Slot(head, 1, cap), i, cap) == Slot(head, i + 1, cap) != head
  {
    SlotValue(head, 1, cap);
    SlotValue(Slot(head, 1, cap), i, cap);
    SlotValue(head, i + 1, cap);
  }
}
