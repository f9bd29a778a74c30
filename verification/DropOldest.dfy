/** The drop-oldest event queue of src/queue.c, seen as plain sequences.
    `Fifo` is what the ring buffer of RingQueue.dfy is proved to implement, and what
    the delivery pipeline of Pipeline.dfy runs on. */
module DropOldest {
  import opened Numbers

  /** `items` is what is queued now, oldest first; `lost` what overflow removed and
      `taken` what was dequeued, each in order of removal; `log` everything accepted. */
  datatype Fifo<T> = Fifo(items: seq<T>, lost: seq<T>, taken: seq<T>, log: seq<T>)

  function Empty<T>(): Fifo<T> {
    Fifo([], [], [], [])
  }

  /** Drops the oldest item when full, then appends. */
  function Put<T>(q: Fifo<T>, capacity: nat, e: T): Fifo<T>
    requires capacity > 0
  {
    var room := if |q.items| >= capacity then q.(items := q.items[1..], lost := q.lost + [q.items[0]]) else q;
    room.(items := room.items + [e], log := q.log + [e])
  }

  /** Removes up to `max` of the oldest items. */
  function Take<T>(q: Fifo<T>, max: nat): Fifo<T> {
    var n := Min(max, |q.items|);
    q.(items := q.items[n..], taken := q.taken + q.items[..n])
  }

  /** `whole` is made of exactly the elements of `a` and of `b`, each kept in its own order. */
  ghost predicate Interleaves<T>(a: seq<T>, b: seq<T>, whole: seq<T>)
    decreases |whole|
  {
    if whole == [] then a == [] && b == []
    else
      var n := |whole| - 1;
      || (a != [] && a[|a| - 1] == whole[n] && Interleaves(a[..|a| - 1], b, whole[..n]))
      || (b != [] && b[|b| - 1] == whole[n] && Interleaves(a, b[..|b| - 1], whole[..n]))
  }

  /** The queue is the tail of the log, and everything before that tail was either lost
      or taken, once, in order. */
  ghost predicate Consistent<T>(q: Fifo<T>, capacity: nat) {
    && |q.items| <= capacity
    && |q.items| <= |q.log|
    && q.items == q.log[|q.log| - |q.items|..]
    && Interleaves(q.lost, q.taken, q.log[..|q.log| - |q.items|])
  }

  lemma {:induction false} InterleavesExtendRight<T>(a: seq<T>, b: seq<T>, whole: seq<T>, more: seq<T>)
    requires Interleaves(a, b, whole)
    ensures Interleaves(a, b + more, whole + more)
    decreases |more|
  {
    if more == [] {
      assert b + more == b && whole + more == whole;
    } else {
      var n := |more| - 1;
      InterleavesExtendRight(a, b, whole, more[..n]);
      assert (b + more)[..|b + more| - 1] == b + more[..n];
      assert (whole + more)[..|whole + more| - 1] == whole + more[..n];
    }
  }

  lemma InterleavesExtendLeft<T>(a: seq<T>, b: seq<T>, whole: seq<T>, x: T)
    requires Interleaves(a, b, whole)
    ensures Interleaves(a + [x], b, whole + [x])
  {
    assert (a + [x])[..|a|] == a && (whole + [x])[..|whole|] == whole;
  }

  lemma PutKeepsConsistent<T>(q: Fifo<T>, capacity: nat, e: T)
    requires capacity > 0 && Consistent(q, capacity)
    ensures Consistent(Put(q, capacity, e), capacity)
    ensures Put(q, capacity, e).log == q.log + [e]
  {
    var cut := |q.log| - |q.items|;
    EndOfLog(q.log, cut, e);
    if |q.items| >= capacity {
      InterleavesExtendLeft(q.lost, q.taken, q.log[..cut], q.items[0]);
    }
  }

  /** How the two ends of the log look after one more event. */
  lemma EndOfLog<T>(log: seq<T>, cut: nat, e: T)
    requires cut <= |log|
    ensures (log + [e])[cut..] == log[cut..] + [e] && (log + [e])[..cut] == log[..cut]
    ensures cut < |log| ==>
      (log + [e])[cut + 1..] == log[cut..][1..] + [e] && (log + [e])[..cut + 1] == log[..cut] + [log[cut]]
  {
  }

  lemma TakeKeepsConsistent<T>(q: Fifo<T>, capacity: nat, max: nat)
    requires Consistent(q, capacity)
    ensures Consistent(Take(q, max), capacity)
  {
    var n := Min(max, |q.items|);
    var cut := |q.log| - |q.items|;
    InterleavesExtendRight(q.lost, q.taken, q.log[..cut], q.items[..n]);
    InsideLog(q.log, cut, n);
  }

  /** The end of the log from a later place on. */
  lemma InsideLog<T>(log: seq<T>, cut: nat, n: nat)
    requires cut + n <= |log|
    ensures log[..cut + n] == log[..cut] + log[cut..][..n] && log[cut..][n..] == log[cut + n..]
  {
  }

  /** One call on the queue, whichever thread makes it. */
  datatype Op<T> = OpPut(e: T) | OpTake(max: nat)

  function RunOps<T>(ops: seq<Op<T>>, capacity: nat): Fifo<T>
    requires capacity > 0
  {
    if ops == [] then Empty()
    else
      var q := RunOps(ops[..|ops| - 1], capacity);
      match ops[|ops| - 1]
      case OpPut(e) => Put(q, capacity, e)
      case OpTake(max) => Take(q, max)
  }

  /** The events of the successful enqueues, in call order. */
  function Enqueued<T>(ops: seq<Op<T>>): seq<T> {
    if ops == [] then []
    else Enqueued(ops[..|ops| - 1]) + (if ops[|ops| - 1].OpPut? then [ops[|ops| - 1].e] else [])
  }

  /** Conservation and order under every interleaving of enqueues and dequeues. */
  lemma {:induction false} RunConserves<T>(ops: seq<Op<T>>, capacity: nat)
    requires capacity > 0
    ensures var q := RunOps(ops, capacity);
      && q.log == Enqueued(ops)
      && Consistent(q, capacity)
      && |Enqueued(ops)| == |q.lost| + |q.taken| + |q.items|
  {
    if ops != [] {
      var before := ops[..|ops| - 1];
      RunConserves(before, capacity);
      match ops[|ops| - 1]
      case OpPut(e) => PutKeepsConsistent(RunOps(before, capacity), capacity, e);
      case OpTake(max) => TakeKeepsConsistent(RunOps(before, capacity), capacity, max);
    }
  }

  /** With no dequeue at all, the queue holds the newest min(n, capacity) of the n events,
      and the older ones are exactly the lost ones, in order. */
  lemma {:induction false} NewestSurvive<T>(ops: seq<Op<T>>, capacity: nat)
    requires capacity > 0
    requires forall i :: 0 <= i < |ops| ==> ops[i].OpPut?
    ensures var q := RunOps(ops, capacity);
      var all := Enqueued(ops);
      var kept := Min(|all|, capacity);
      && |all| == |ops|
      && q.items == all[|all| - kept..]
      && q.lost == all[..|all| - kept]
      && q.taken == []
  {
    if ops != [] {
      var before := ops[..|ops| - 1];
      NewestSurvive(before, capacity);
      var all, e := Enqueued(before), ops[|ops| - 1].e;
      var kept := Min(|all|, capacity);
      assert RunOps(ops, capacity) == Put(RunOps(before, capacity), capacity, e);
      if kept == capacity {
        assert all[|all| - kept..][1..] + [e] == (all + [e])[|all| + 1 - kept..];
        assert all[..|all| - kept] + [all[|all| - kept]] == (all + [e])[..|all| + 1 - kept];
      } else {
        assert all[0..] + [e] == all + [e];
      }
    }
  }
}
