/** What the delivery pipeline guarantees over whole runs: conservation, order, bounded
    loss at shutdown, and an end to the drain. */
module Delivery {
  import opened DropOldest
  import opened Numbers
  import opened Outbox
  import opened Order
  import opened Pipeline

  lemma RunKeepsInv(c: Setup, labels: seq<Label>)
    requires c.Ready()
    ensures Inv(c, Run(c, labels))
  {
    InitialInv(c);
    RunFromKeeps(c, Initial(c), labels);
  }

  // ----- conservation and order

  lemma {:induction false} InterleavesCounts<T>(a: seq<T>, b: seq<T>, whole: seq<T>)
    requires Interleaves(a, b, whole)
    ensures multiset(whole) == multiset(a) + multiset(b)
    decreases |whole|
  {
    if whole != [] {
      var n := |whole| - 1;
      assert whole == whole[..n] + [whole[n]];
      if a != [] && a[|a| - 1] == whole[n] && Interleaves(a[..|a| - 1], b, whole[..n]) {
        assert a == a[..|a| - 1] + [a[|a| - 1]];
        InterleavesCounts(a[..|a| - 1], b, whole[..n]);
      } else {
        assert b == b[..|b| - 1] + [b[|b| - 1]];
        InterleavesCounts(a, b[..|b| - 1], whole[..n]);
      }
    }
  }

  /** In every reachable state each accepted event is in exactly one place: lost to overflow,
      queued, in delivery's hand, in the HTTP batch, delivered, or discarded by the output. */
  lemma EachEventInOnePlace(c: Setup, labels: seq<Label>)
    requires c.Ready()
    ensures var s := Run(c, labels);
      multiset(UpTo(|s.queue.log|)) ==
        multiset(s.queue.lost) + multiset(s.queue.items) + multiset(s.hand)
        + multiset(s.out.batch) + multiset(s.out.written) + multiset(s.out.discarded)
  {
    RunKeepsInv(c, labels);
    var q := Run(c, labels).queue;
    var cut := |q.log| - |q.items|;
    InterleavesCounts(q.lost, q.taken, q.log[..cut]);
    assert q.log == q.log[..cut] + q.items;
  }

  /** Delivered, then batched, then in-hand, then queued: always in enqueue order, no repeats. */
  lemma DeliveryKeepsOrder(c: Setup, labels: seq<Label>)
    requires c.Ready()
    ensures var s := Run(c, labels);
      Sorted(s.out.written + s.out.batch + s.hand + s.queue.items, |s.queue.log|)
  {
    RunKeepsInv(c, labels);
    var s := Run(c, labels);
    var line, cut := s.out.written + s.out.batch + s.hand, FirstQueued(s);
    forall i | 0 <= i < |s.queue.items|
      ensures s.queue.items[i] == cut + i
    {
      assert s.queue.items[i] == s.queue.log[cut + i];
    }
  }

  /** The batch never exceeds batch_size, and the array that holds it stays 16 doubled some number
      of times and within max(16, 2 * batch_size), whatever the server, the clock and the
      allocator do.  Without HTTP there is no array. */
  lemma BatchStaysBounded(c: Setup, labels: seq<Label>)
    requires c.Ready()
    ensures var o := Run(c, labels).out;
      && |o.batch| <= c.settings.batchSize
      && |o.batch| <= o.capacity <= Max(16, 2 * c.settings.batchSize)
      && (if c.settings.mode.HttpPost? then Doubled(o.capacity) else o.capacity == 0)
  {
    RunKeepsInv(c, labels);
  }

  /** Requests after an acknowledged one never carry any of its events again. */
  lemma AcknowledgedIsNeverPostedAgain(c: Setup, labels: seq<Label>, i: nat, j: nat)
    requires c.Ready()
    requires i < j < |Run(c, labels).out.posts| && Run(c, labels).out.posts[i].reply.Acknowledges()
    ensures var o := Run(c, labels).out;
      forall x :: x in o.posts[i].items ==> x !in o.posts[j].items && x !in o.batch && x in o.written
  {
    RunKeepsInv(c, labels);
    var s := Run(c, labels);
    forall x | x in s.out.posts[i].items
      ensures x !in s.out.batch
    {
      SortedIsDisjoint(s.out.written, s.out.batch, s.hand, FirstQueued(s), x);
    }
  }

  // ----- what shutdown can lose

  /** Once both threads have ended, at most one iteration's events are left in the queue;
      without a signal nothing is. */
  lemma ShutdownLeavesAtMostOneIteration(c: Setup, labels: seq<Label>)
    requires c.Ready()
    requires Run(c, labels).collector.CollectorDone? && Run(c, labels).delivery.DeliveryDone?
    ensures var s := Run(c, labels);
      && |s.queue.items| <= MAX_EVENTS_PER_ITERATION
      && (!s.signalled ==> s.queue.items == [])
      && s.hand == []
  {
    RunKeepsInv(c, labels);
  }

  /** Delivery never ends before the stop flag, and without a signal never before the collector. */
  lemma DeliveryOutlivesCollector(c: Setup, labels: seq<Label>)
    requires c.Ready() && Run(c, labels).delivery.DeliveryDone?
    ensures var s := Run(c, labels);
      s.stop && (!s.signalled ==> s.collector.CollectorDone? && s.queue.items == [])
  {
    RunKeepsInv(c, labels);
  }

  /** On stdout and in files, when the program ends, the accepted events up to the ones left in the
      queue are exactly the printed ones and the ones lost to overflow, each in their order; at most
      six are left, and none if no signal came. */
  lemma LocalOutputIsTheRest(c: Setup, labels: seq<Label>)
    requires c.Ready() && !c.settings.mode.HttpPost? && Run(c, labels).main.MainDone?
    ensures var s := Run(c, labels);
      var missing := |s.queue.items|;
      && missing <= (if s.signalled then MAX_EVENTS_PER_ITERATION else 0)
      && missing <= |s.queue.log|
      && Interleaves(s.queue.lost, s.out.written, UpTo(|s.queue.log| - missing))
  {
    RunKeepsInv(c, labels);
    AllIsPrinted(c, Run(c, labels));
  }

  lemma AllIsPrinted(c: Setup, s: State)
    requires Inv(c, s) && !c.settings.mode.HttpPost? && s.main.MainDone?
    ensures var missing := |s.queue.items|;
      && missing <= (if s.signalled then MAX_EVENTS_PER_ITERATION else 0)
      && missing <= |s.queue.log|
      && Interleaves(s.queue.lost, s.out.written, UpTo(|s.queue.log| - missing))
  {
    assert s.hand == [] && s.queue.taken == s.out.written + s.hand;
    assert s.out.written + [] == s.out.written;
    LogIsUpTo(s.queue.log, |s.queue.log| - |s.queue.items|);
  }

  lemma LogIsUpTo(log: seq<nat>, n: nat)
    requires n <= |log| && log == UpTo(|log|)
    ensures log[..n] == UpTo(n)
  {
  }

  /** So without overflow the output is all accepted events in order, less the ones left. */
  lemma LocalOutputIsComplete(c: Setup, labels: seq<Label>)
    requires c.Ready() && !c.settings.mode.HttpPost?
    requires Run(c, labels).main.MainDone? && Run(c, labels).queue.lost == []
    ensures var s := Run(c, labels);
      var missing := |s.queue.items|;
      && missing <= (if s.signalled then MAX_EVENTS_PER_ITERATION else 0)
      && missing <= |s.queue.log|
      && s.out.written == UpTo(|s.queue.log| - missing)
  {
    LocalOutputIsTheRest(c, labels);
    var s := Run(c, labels);
    NothingLost(s.out.written, UpTo(|s.queue.log| - |s.queue.items|));
  }

  lemma {:induction false} NothingLost<T>(b: seq<T>, whole: seq<T>)
    requires Interleaves([], b, whole)
    ensures b == whole
    decreases |whole|
  {
    if whole != [] {
      NothingLost(b[..|b| - 1], whole[..|whole| - 1]);
      assert whole == whole[..|whole| - 1] + [whole[|whole| - 1]];
    }
  }

  // ----- the bound of six is met

  ghost predicate Reachable(c: Setup, s: State)
    requires c.Ready()
  {
    exists labels :: Run(c, labels) == s
  }

  lemma {:induction false} RunFromAppend(c: Setup, s: State, labels: seq<Label>, l: Label)
    requires c.Ready()
    ensures RunFrom(c, s, labels + [l]) == Step(c, RunFrom(c, s, labels), l)
    decreases |labels|
  {
    if labels != [] {
      assert (labels + [l])[1..] == labels[1..] + [l];
      RunFromAppend(c, Step(c, s, labels[0]), labels[1..], l);
    } else {
      assert labels + [l] == [l] && [l][1..] == [];
      assert RunFrom(c, Step(c, s, l), []) == Step(c, s, l);
    }
  }

  lemma ReachStep(c: Setup, s: State, l: Label)
    requires c.Ready() && Reachable(c, s)
    ensures Reachable(c, Step(c, s, l))
  {
    var labels :| Run(c, labels) == s;
    RunFromAppend(c, Initial(c), labels, l);
    assert Run(c, labels + [l]) == Step(c, s, l);
  }

  /** The collector, asleep in its first iteration, enqueues six events if every metric has a value. */
  lemma FirstIterationSendsSix(c: Setup, s: State) returns (r: State)
    requires c.Ready() && Reachable(c, s) && s.collector.Sleeping? && s.first && s.stop
    requires s.queue.items == [] && c.capacity >= MAX_EVENTS_PER_ITERATION
    ensures Reachable(c, r) && r.collector.CollectorDone?
    ensures |r.queue.items| == MAX_EVENTS_PER_ITERATION && r.delivery == s.delivery
  {
    var l := Collect(false, true);
    r := s;
    var k := 0;
    while k < 8
      invariant 0 <= k <= 8 && Reachable(c, r) && r.delivery == s.delivery && r.stop
      invariant r.collector ==
        [Sleeping, Emitting(ReadyEvent), Emitting(Cpu), Emitting(Memory), Emitting(Disk),
         Emitting(Network), Emitting(Internal), LoopTest, CollectorDone][k]
      invariant k == 0 ==> r.first
      invariant |r.queue.items| == if k < 2 then 0 else if k < 8 then k - 1 else 6
    {
      ReachStep(c, r, l);
      r := Step(c, r, l);
      k := k + 1;
    }
  }

  /** A signal between the collector's loop test and its sleep lets delivery finish first:
      six events then stay in the queue for good. */
  lemma SixEventsCanRemain(c: Setup, deliver: Label)
    requires c.Ready() && c.capacity >= MAX_EVENTS_PER_ITERATION && deliver.Deliver?
    ensures exists s :: Reachable(c, s) && s.collector.CollectorDone? && s.delivery.DeliveryDone?
                        && |s.queue.items| == MAX_EVENTS_PER_ITERATION
  {
    var s := Initial(c);
    assert Run(c, []) == s;
    var collect := Collect(false, true);
    var way := [collect, collect, deliver, deliver, deliver, deliver, Signal, deliver, deliver, deliver];
    var places := [ReadStop, ReadStop, ReadStop, Taking, Handing, Flushing, ReadStop, ReadStop,
                   ReadSize, FinalFlush, DeliveryDone];
    var k := 0;
    while k < |way|
      invariant 0 <= k <= |way| && Reachable(c, s) && s.delivery == places[k]
      invariant s.collector == if k == 0 then Starting else if k == 1 then LoopTest else Sleeping
      invariant s.first && s.rows == 0 && s.stop == (k >= 7)
      invariant |s.queue.items| == if 1 <= k < 4 then 1 else 0
      invariant |s.hand| == if k == 4 then 1 else 0
    {
      ReachStep(c, s, way[k]);
      s := Step(c, s, way[k]);
      k := k + 1;
    }
    var r := FirstIterationSendsSix(c, s);
    assert r.delivery.DeliveryDone?;
  }

  // ----- the drain ends

  /** Non-empty rounds the delivery thread still needs for `n` queued events: n / chunk rounded up. */
  function RoundsFor(n: nat, chunk: nat): (r: nat)
    requires chunk > 0
    ensures n <= r * chunk && (r == 0 || (r - 1) * chunk < n)
  {
    if n == 0 then 0
    else
      var rest := n - Min(chunk, n);
      assert (RoundsFor(rest, chunk) + 1) * chunk == RoundsFor(rest, chunk) * chunk + chunk;
      1 + RoundsFor(rest, chunk)
  }

  /** Bounds the delivery steps left once nothing more is enqueued and the stop flag is up. */
  function StepsLeft(s: State): nat {
    var waiting := 6 * |s.queue.items| + |s.hand|;
    match s.delivery
    case DeliveryDone => 0
    case FinalFlush => 1
    case ReadSize => waiting + 2
    case ReadStop => waiting + 3
    case Pausing => waiting + 4
    case Flushing => waiting + 4
    case Handing => waiting + 4
    case Taking => if s.queue.items != [] then waiting + 1 else waiting + 5
  }

  function CountDeliver(labels: seq<Label>): nat {
    if labels == [] then 0 else (if labels[0].Deliver? then 1 else 0) + CountDeliver(labels[1..])
  }

  /** How many of the moves in a run dequeue at least one event. */
  function NonEmptyRounds(c: Setup, s: State, labels: seq<Label>): nat
    requires c.Ready()
    decreases |labels|
  {
    if labels == [] then 0
    else
      var round := labels[0].Deliver? && s.delivery.Taking? && s.queue.items != [];
      (if round then 1 else 0) + NonEmptyRounds(c, Step(c, s, labels[0]), labels[1..])
  }

  ghost predicate Draining(s: State) {
    s.stop && s.collector.CollectorDone? && (s.hand != [] <==> s.delivery.Handing?)
  }

  lemma DeliverStepItems(c: Setup, s: State, emit: EmitEnv, flush: PostEnv)
    requires c.Ready()
    ensures var r := DeliverStep(c, s, emit, flush);
      && r.stop == s.stop && r.collector == s.collector
      && (r.queue.items == if s.delivery.Taking? then s.queue.items[Min(c.chunk, |s.queue.items|)..] else s.queue.items)
      && |r.hand| == (match s.delivery
                      case Taking => Min(c.chunk, |s.queue.items|)
                      case Handing => if s.hand == [] then 0 else |s.hand| - 1
                      case _ => |s.hand|)
  {
  }

  lemma DeliverStepDrains(c: Setup, s: State, emit: EmitEnv, flush: PostEnv)
    requires c.Ready() && Draining(s) && !s.delivery.DeliveryDone?
    ensures var r := DeliverStep(c, s, emit, flush);
      && Draining(r)
      && StepsLeft(r) < StepsLeft(s)
      && (r.queue.items == if s.delivery.Taking? then s.queue.items[Min(c.chunk, |s.queue.items|)..] else s.queue.items)
  {
    DeliverStepItems(c, s, emit, flush);
  }

  lemma OtherStepDrains(c: Setup, s: State, l: Label)
    requires c.Ready() && Draining(s) && !l.Deliver?
    ensures var r := Step(c, s, l);
      Draining(r) && StepsLeft(r) == StepsLeft(s) && r.queue == s.queue && r.delivery == s.delivery
  {
  }

  /** With the collector done and the stop flag up, any schedule that gives the delivery thread
      `StepsLeft` moves ends it, after at most ceil(count / chunk) non-empty rounds. */
  lemma {:induction false} DrainTerminates(c: Setup, s: State, labels: seq<Label>)
    requires c.Ready() && Draining(s)
    ensures NonEmptyRounds(c, s, labels) <= RoundsFor(|s.queue.items|, c.chunk)
    ensures CountDeliver(labels) >= StepsLeft(s) ==> RunFrom(c, s, labels).delivery.DeliveryDone?
    decreases |labels|
  {
    if labels != [] {
      var r := Step(c, s, labels[0]);
      if labels[0].Deliver? {
        if !s.delivery.DeliveryDone? {
          DeliverStepDrains(c, s, labels[0].emit, labels[0].flush);
        }
      } else {
        OtherStepDrains(c, s, labels[0]);
      }
      DrainTerminates(c, r, labels[1..]);
    }
  }

  /** The sizes the program is built with. */
  predicate AsShipped(c: Setup) {
    c.capacity == 10000 && c.chunk == 1000
  }

  /** With these sizes even a full queue is drained in ten non-empty rounds. */
  lemma TenRoundsDrain(c: Setup, s: State, labels: seq<Label>)
    requires c.Ready() && AsShipped(c) && Inv(c, s) && s.stop && s.collector.CollectorDone?
    ensures NonEmptyRounds(c, s, labels) <= 10
  {
    DrainTerminates(c, s, labels);
    assert RoundsFor(|s.queue.items|, 1000) <= 10;
  }

  // ----- the collector ends

  /** Moves since the loop test, in an iteration that skips nothing. */
  function MovesIntoIteration(place: Collector): nat {
    match place
    case Emitting(stage) =>
      (match stage
       case ReadyEvent => 1
       case Cpu => 2
       case Memory => 3
       case Disk => 4
       case Network => 5
       case Internal => 6)
    case _ => 0
  }

  /** Bounds the collector's moves left, in a run that is stopping or limited to a number of iterations. */
  function CollectorLeft(c: Setup, s: State): int {
    var rounds := if s.stop then (if s.collector.Sleeping? || s.collector.Emitting? then 1 else 0)
                  else c.iterations - s.rows;
    match s.collector
    case CollectorDone => 0
    case Starting => 8 * rounds + 2
    case LoopTest => 8 * rounds + 1
    case _ => 8 * rounds - MovesIntoIteration(s.collector)
  }

  ghost predicate Ending(c: Setup, s: State) {
    || s.stop
    || (0 < c.iterations
        && s.rows + (if s.collector.Sleeping? || s.collector.Emitting? then 1 else 0) <= c.iterations)
  }

  function CountCollect(labels: seq<Label>): nat {
    if labels == [] then 0 else (if labels[0].Collect? then 1 else 0) + CountCollect(labels[1..])
  }

  lemma StepTowardsEnd(c: Setup, s: State, l: Label)
    requires c.Ready() && Ending(c, s)
    ensures var r := Step(c, s, l);
      && Ending(c, r)
      && 0 <= CollectorLeft(c, r) <= CollectorLeft(c, s)
      && (l.Collect? && !s.collector.CollectorDone? ==> CollectorLeft(c, r) < CollectorLeft(c, s))
      && (CollectorLeft(c, r) == 0 ==> r.collector.CollectorDone?)
  {
  }

  /** Once the stop flag is up, or with a limit on the iterations, every schedule that gives the
      collector `CollectorLeft` moves ends it, wherever the other threads and signals come in. */
  lemma {:induction false} CollectorEnds(c: Setup, s: State, labels: seq<Label>)
    requires c.Ready() && Ending(c, s) && CountCollect(labels) >= CollectorLeft(c, s) > 0
    ensures RunFrom(c, s, labels).collector.CollectorDone?
    decreases |labels|
  {
    var r := Step(c, s, labels[0]);
    StepTowardsEnd(c, s, labels[0]);
    if CollectorLeft(c, r) > 0 {
      CollectorEnds(c, r, labels[1..]);
    } else {
      CollectorStaysDone(c, r, labels[1..]);
    }
  }

  lemma {:induction false} CollectorStaysDone(c: Setup, s: State, labels: seq<Label>)
    requires c.Ready() && s.collector.CollectorDone?
    ensures RunFrom(c, s, labels).collector.CollectorDone?
    decreases |labels|
  {
    if labels != [] {
      CollectorStaysDone(c, Step(c, s, labels[0]), labels[1..]);
    }
  }

  /** With `iterations` limited to n > 0 the collector ends within 8n + 2 of its moves. */
  lemma LimitedRunEnds(c: Setup, labels: seq<Label>)
    requires c.Ready() && c.iterations > 0 && CountCollect(labels) >= 8 * c.iterations + 2
    ensures Run(c, labels).collector.CollectorDone?
  {
    CollectorEnds(c, Initial(c), labels);
  }
}
