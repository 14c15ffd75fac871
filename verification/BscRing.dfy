/** The ring of receive slots as the bounded queue it implements. */
module BscRing {
  import opened Bytes
  import opened BscWorld

  /** The slot `i` places after `head`, around the end of the array. */
  function Slot(head: nat, i: nat): (slot: nat)
    ensures slot < RX_SLOTS
  {
    (head + i) % RX_SLOTS
  }

  /** The `count` slots from `head` on, around the end of the array. */
  function Ring(slots: seq<seq<byte>>, head: nat, count: nat): (queue: seq<seq<byte>>)
    requires |slots| == RX_SLOTS && head < RX_SLOTS && count <= RX_SLOTS
    ensures |queue| == count
  {
    seq(count, i requires 0 <= i < count => slots[Slot(head, i)])
  }

  /** The slot after the last waiting record. */
  predicate TailOk(head: nat, count: nat, tail: nat) {
    tail == Slot(head, count)
  }

  lemma EmptyRing()
    ensures TailOk(0, 0, 0)
  {
  }

  function Next(index: nat): (next: nat)
    ensures next < RX_SLOTS
  {
    (index + 1) % RX_SLOTS
  }

  lemma SlotWraps(head: nat, i: nat)
    requires head < RX_SLOTS && i <= RX_SLOTS
    ensures Slot(head, i) == if head + i < RX_SLOTS then head + i else head + i - RX_SLOTS
  {
    if head + i >= RX_SLOTS {
      assert head + i == RX_SLOTS + (head + i - RX_SLOTS);
    }
  }

  lemma SlotsDiffer(head: nat, i: nat, j: nat)
    requires head < RX_SLOTS && i < j < RX_SLOTS
    ensures Slot(head, i) != Slot(head, j)
  {
    hide Slot;
    SlotWraps(head, i);
    SlotWraps(head, j);
  }

  lemma NextSlot(head: nat, i: nat)
    requires head < RX_SLOTS && i < RX_SLOTS
    ensures Slot(Next(head), i) == Slot(head, i + 1) == Next(Slot(head, i)) && Slot(head, 0) == head
  {
    hide Slot, Next;
    NextWraps(head);
    NextWraps(Slot(head, i));
    SlotWraps(head, 0);
    SlotWraps(head, i);
    SlotWraps(head, i + 1);
    SlotWraps(Next(head), i);
  }

  lemma NextWraps(index: nat)
    requires index < RX_SLOTS
    ensures Next(index) == if index + 1 < RX_SLOTS then index + 1 else 0
  {
  }

  /** The tail slot is free while the ring is not full: storing there appends. */
  lemma StoreAppends(slots: seq<seq<byte>>, head: nat, count: nat, record: seq<byte>)
    requires |slots| == RX_SLOTS && head < RX_SLOTS && count < RX_SLOTS
    ensures var tail := Slot(head, count);
            && Ring(slots[tail := record], head, count + 1) == Ring(slots, head, count) + [record]
            && TailOk(head, count + 1, Next(tail))
  {
    hide Slot, Next;
    NextSlot(head, count);
    forall i | 0 <= i < count ensures Slot(head, i) != Slot(head, count) {
      SlotsDiffer(head, i, count);
    }
  }

  /** Advancing the head removes the oldest record; storing in a full ring after that overwrites its slot. */
  lemma AdvanceRemoves(slots: seq<seq<byte>>, head: nat, count: nat)
    requires |slots| == RX_SLOTS && head < RX_SLOTS && 0 < count <= RX_SLOTS
    ensures Ring(slots, Next(head), count - 1) == Ring(slots, head, count)[1..]
    ensures forall tail :: TailOk(head, count, tail) ==> TailOk(Next(head), count - 1, tail)
    ensures Ring(slots, head, count)[0] == slots[head]
  {
    hide Slot, Next;
    NextSlot(head, count - 1);
    forall i | 0 <= i < count - 1 ensures Slot(Next(head), i) == Slot(head, i + 1) {
      NextSlot(head, i);
    }
  }
}
