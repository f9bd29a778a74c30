/** src/queue.c: a fixed array used as a ring, changed in place under a lock.
    The lock makes every method one atomic step. */
module RingQueue {
  import opened DropOldest
  import opened Numbers

  const MAX_EVENT_SIZE: nat := 4096

  /** The size test of queue_enqueue. */
  predicate Accepted(event: string) {
    0 < |event| < MAX_EVENT_SIZE
  }

  /** queue_enqueue on the plain queue: events that fail the size test are refused and change nothing. */
  function Offer(q: Fifo<string>, capacity: nat, event: string): Fifo<string>
    requires capacity > 0
  {
    if Accepted(event) then Put(q, capacity, event) else q
  }

  class EventQueue {
    var entries: array<string>
    var head: int
    var tail: int
    var count: int
    var droppedCount: nat
    var emittedCount: nat
    /** The plain queue this object stands for. */
    ghost var model: Fifo<string>

    ghost predicate Valid()
      reads this, entries
    {
      && entries.Length > 0
      && 0 <= head < entries.Length
      && 0 <= count <= entries.Length
      && tail == Slot(head, count, entries.Length)
      && |model.items| == count
      && (forall i :: 0 <= i < count ==> entries[Slot(head, i, entries.Length)] == model.items[i])
      && droppedCount == |model.lost|
      && emittedCount == |model.log|
      && emittedCount == droppedCount + |model.taken| + count
    }

    constructor (capacity: nat)
      requires capacity > 0
      ensures Valid() && fresh(entries) && entries.Length == capacity
      ensures model == Empty()
    {
      entries := new string[capacity](_ => "");
      head, tail, count := 0, 0, 0;
      droppedCount, emittedCount := 0, 0;
      model := Empty();
    }

    /** queue_enqueue: 0 when accepted, -1 for an empty or oversized event. */
    method Enqueue(event: string) returns (rc: int)
      requires Valid()
      modifies this, entries
      ensures Valid() && entries == old(entries)
      ensures rc == if Accepted(event) then 0 else -1
      ensures rc == 0 <==> 1 <= |event| <= 4095
      ensures model == Offer(old(model), entries.Length, event)
    {
      if |event| == 0 || |event| >= MAX_EVENT_SIZE {
        return -1;
      }
      if count >= entries.Length {
        EvictOldest();
      }
      Append(event);
      return 0;
    }

    /** The overflow half of queue_enqueue. */
    method EvictOldest()
      requires Valid() && count > 0
      modifies `head, `count, `droppedCount, `model
      ensures Valid() && count == old(count) - 1
      ensures model == old(model).(items := old(model).items[1..], lost := old(model).lost + [old(model).items[0]])
    {
      SlotIsRemainder(head, 1, entries.Length);
      head := (head + 1) % entries.Length;
      count := count - 1;
      droppedCount := droppedCount + 1;
      model := model.(items := model.items[1..], lost := model.lost + [model.items[0]]);
    }

    /** The half of queue_enqueue that writes at the tail. */
    method Append(event: string)
      requires Valid() && count < entries.Length
      modifies `tail, `count, `emittedCount, `model, entries
      ensures Valid() && count == old(count) + 1
      ensures model == old(model).(items := old(model).items + [event], log := old(model).log + [event])
    {
      entries[tail] := event;
      SlotIsRemainder(tail, 1, entries.Length);
      tail := (tail + 1) % entries.Length;
      count := count + 1;
      emittedCount := emittedCount + 1;
      model := model.(items := model.items + [event], log := model.log + [event]);
    }

    /** queue_dequeue_batch: copies up to `max` of the oldest events into `out`. */
    method DequeueBatch(out: array<string>, max: int) returns (rc: int, taken: nat)
      requires Valid() && out != entries && max <= out.Length
      modifies this, out
      ensures Valid() && entries == old(entries)
      ensures rc == if max <= 0 then -1 else 0
      ensures max <= 0 ==> model == old(model) && taken == 0
      ensures max > 0 ==> taken == Min(max, |old(model).items|) && model == Take(old(model), max)
      ensures out[..] == old(model).items[..taken] + old(out[..])[taken..]
      ensures model.items == old(model).items[taken..] && model.log == old(model).log
    {
      taken := 0;
      if max <= 0 {
        return -1, 0;
      }
      ghost var whole, before := model, out[..];
      assert whole.items[..0] == [] && whole.items[0..] == whole.items && whole.taken + [] == whole.taken;
      while taken < max && count > 0
        invariant Valid() && entries == old(entries)
        invariant taken <= max && taken + count == |whole.items| && model == Take(whole, taken)
        invariant |out[..]| == |before| && out[..] == whole.items[..taken] + before[taken..]
      {
        TakeOneMore(whole, taken);
        PopInto(out, taken);
        CopyOneMore(whole.items, before, taken);
        taken := taken + 1;
      }
      return 0, taken;
    }

    /** One round of the copy loop. */
    method PopInto(out: array<string>, k: nat)
      requires Valid() && out != entries && k < out.Length && count > 0
      modifies `head, `count, `model, out
      ensures Valid() && count == old(count) - 1
      ensures out[..] == old(out[..])[k := old(model).items[0]]
      ensures model == old(model).(items := old(model).items[1..], taken := old(model).taken + [old(model).items[0]])
    {
      out[k] := entries[head];
      SlotIsRemainder(head, 1, entries.Length);
      head := (head + 1) % entries.Length;
      count := count - 1;
      model := model.(items := model.items[1..], taken := model.taken + [model.items[0]]);
    }

    /** queue_size and queue_dropped_count read the counters under the lock. */
    method Counters() returns (size: int, dropped: nat)
      requires Valid()
      ensures size == |model.items| && dropped == |model.lost|
    {
      size, dropped := count, droppedCount;
    }
  }

  /** The position `i` places after `head` in a ring of `n` slots. */
  function Slot(head: nat, i: nat, n: nat): nat
    requires head < n && i <= n
  {
    if head + i < n then head + i else head + i - n
  }

  lemma TakeOneMore(f: Fifo<string>, k: nat)
    requires k < |f.items|
    ensures var q := Take(f, k);
      && q.items != [] && q.items[0] == f.items[k]
      && Take(f, k + 1) == q.(items := q.items[1..], taken := q.taken + [q.items[0]])
  {
    assert f.items[..k + 1] == f.items[..k] + [f.items[k]];
  }

  lemma CopyOneMore(items: seq<string>, before: seq<string>, k: nat)
    requires k < |items| && k < |before|
    ensures (items[..k] + before[k..])[k := items[k]] == items[..k + 1] + before[k + 1..]
  {
  }

  /** The source's remainder is that position. */
  lemma SlotIsRemainder(head: nat, i: nat, n: nat)
    requires head < n && i <= n
    ensures (head + i) % n == Slot(head, i, n)
  {
    if head + i < n {
      RemainderIs(head + i, 0, head + i, n);
    } else {
      RemainderIs(head + i, 1, head + i - n, n);
    }
  }
}
