/**
 event_set.c: a wait event set whose positions can be given back.  Free positions
 queue up in a ring, so the position freed longest ago is reused first.
 */
module EventSet {
  import opened Base
  import opened Ring
  import opened MasterModel

  /** Every position below `n` is either live or free, and free once. */
  ghost predicate Partition(free: seq<nat>, live: set<nat>, n: nat) {
    && Distinct(free)
    && (forall p: nat :: p in live || p in free <==> p < n)
    && (forall p: nat :: !(p in live && p in free))
  }

  lemma TakeFirst(free: seq<nat>, live: set<nat>, n: nat)
    requires Partition(free, live, n) && free != []
    ensures free[0] !in live
    ensures Partition(free[1..], live + {free[0]}, n)
  {
    forall p: nat ensures p in free <==> p == free[0] || p in free[1..] {
    }
  }

  lemma GiveBack(free: seq<nat>, live: set<nat>, p: nat, n: nat)
    requires Partition(free, live, n) && p in live
    ensures Partition(free + [p], live - {p}, n)
  {
    assert p !in free;
    forall q: nat ensures q in free + [p] <==> q in free || q == p {
    }
  }

  class WaitEventSetEx {
    const slots: array<nat>
    var head: nat
    var tail: nat
    var used: nat
    // The underlying set: what each position is armed for, and the counter that
    // decides where the next addition goes
    const masks: array<Interest>
    var nevents: nat
    /** The positions handed out and not given back. */
    ghost var live: set<nat>

    ghost predicate Valid()
      reads this, slots, masks
    {
      Intact() && nevents == used
    }

    /** Everything but the underlying set's counter, which an addition moves. */
    ghost predicate Intact()
      reads this`head, this`tail, this`used, this`live, slots
    {
      && 0 < slots.Length == masks.Length
      && head < slots.Length
      && used <= slots.Length
      && tail == Tail(head, slots.Length - used, slots.Length)
      && Partition(Free(), live, slots.Length)
      && |live| == used
    }

    /** The free positions in the order they will be handed out. */
    ghost function Free(): (r: seq<nat>)
      requires 0 < slots.Length && head < slots.Length && used <= slots.Length
      reads this`head, this`used, slots
    {
      Segment(slots[..], head, slots.Length - used)
    }

    constructor (n: nat)
      requires n > 0
      ensures Valid() && fresh(slots) && fresh(masks)
      ensures slots.Length == n
      ensures Free() == seq(n, i => i) && live == {}
      ensures forall i :: 0 <= i < n ==> masks[i] == LATCH_ONLY
    {
      slots := new nat[n](i => i);
      masks := new Interest[n](i => LATCH_ONLY);
      head, tail, used, nevents := 0, 0, 0, 0;
      live := {};
      new;
      assert slots[..] == seq(n, i => i);
      forall p: nat | p < n ensures p in Free() {
        assert Free()[p] == p;
      }
    }

    /** AddWaitEventToSet of the underlying set, which appends. */
    method Append(events: Interest) returns (pos: nat)
      requires nevents < masks.Length
      modifies this`nevents, masks
      ensures pos == old(nevents) && nevents == old(nevents) + 1
      ensures masks[..] == old(masks[..])[pos := events]
    {
      pos := nevents;
      masks[pos] := events;
      nevents := nevents + 1;
    }

    method Add(events: Interest) returns (pos: int)
      requires Valid()
      modifies this, masks
      ensures Valid()
      ensures old(Free()) == [] ==> pos == -1 && Free() == [] && live == old(live) && masks[..] == old(masks[..])
      ensures old(Free()) != [] ==>
        && pos == old(Free())[0]
        && pos !in old(live) && live == old(live) + {pos}
        && Free() == old(Free())[1..]
        && masks[..] == old(masks[..])[pos := events]
    {
      if used == slots.Length {
        return -1;
      }
      pos := AddAtHead(events);
    }

    lemma HeadIsFree()
      requires Intact() && Free() != []
      ensures slots[head] == Free()[0] < slots.Length
    {
      Pop(slots[..], head, slots.Length - used);
      assert Free()[0] in Free();
    }

    /** The underlying set appends where its counter points: at the head of the ring. */
    method AddAtHead(events: Interest) returns (pos: nat)
      requires Valid() && Free() != []
      modifies this`head, this`used, this`live, this`nevents, masks
      ensures Valid() && Free() == old(Free())[1..] && pos == old(Free())[0]
      ensures pos !in old(live) && live == old(live) + {pos}
      ensures masks[..] == old(masks[..])[pos := events]
    {
      HeadIsFree();
      nevents := slots[head];
      pos := Append(events);
      Advance();
      nevents := used;
    }

    /** The head of the ring becomes live. */
    method Advance()
      requires Intact() && Free() != []
      modifies this`head, this`used, this`live
      ensures Intact() && Free() == old(Free())[1..]
      ensures old(Free())[0] !in old(live) && live == old(live) + {old(Free())[0]}
    {
      ghost var free := Free();
      Pop(slots[..], head, slots.Length - used);
      TakeFirst(free, live, slots.Length);
      live := live + {slots[head]};
      head := Next(head, slots.Length);
      used := used + 1;
      assert Free() == free[1..];
    }

    method NextPos() returns (pos: int)
      requires Valid()
      ensures pos == if Free() == [] then -1 else Free()[0]
    {
      if used == slots.Length {
        return -1;
      }
      Pop(slots[..], head, slots.Length - used);
      return slots[head];
    }

    method Modify(pos: nat, events: Interest)
      requires Valid() && pos < masks.Length
      modifies masks
      ensures Valid() && Free() == old(Free())
      ensures masks[..] == old(masks[..])[pos := events]
    {
      masks[pos] := events;
    }

    method Delete(pos: nat)
      requires Valid() && pos in live
      modifies this, slots
      ensures Valid()
      ensures Free() == old(Free()) + [pos] && live == old(live) - {pos}
    {
      ghost var free := Free();
      Push(slots[..], head, slots.Length - used, pos);
      GiveBack(free, live, pos, slots.Length);
      slots[tail] := pos;
      assert slots[..] == old(slots[..])[tail := pos];
      tail := Next(tail, slots.Length);
      used := used - 1;
      nevents := used;
      live := live - {pos};
      assert Free() == free + [pos];
    }
  }
}
