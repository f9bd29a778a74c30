/** The two threads of src/main.c, the main thread and signals, as one transition system.
    A label says who moves and fixes every outside influence on that move; a run is any
    sequence of labels, so theorems about `Run` hold for every interleaving.
    Events are numbered in the order in which the queue accepted them. */
module Pipeline {
  import opened DropOldest
  import opened Numbers
  import opened Outbox
  import opened Order
  import Powers

  /** `capacity` is MAX_QUEUE_DEPTH, `chunk` the size of the delivery thread's local array. */
  datatype Setup = Setup(capacity: nat, chunk: nat, iterations: nat, settings: Settings)
  {
    predicate Ready() {
      capacity > 0 && chunk > 0 && settings.Ready()
    }
  }

  /** The places of one collector iteration that enqueue an event. */
  datatype Stage = ReadyEvent | Cpu | Memory | Disk | Network | Internal

  datatype Collector = Starting | LoopTest | Sleeping | Emitting(stage: Stage) | CollectorDone

  datatype Delivery = ReadStop | ReadSize | Taking | Handing | Flushing | Pausing | FinalFlush | DeliveryDone

  datatype Main = JoinCollector | RaiseStop | JoinDelivery | ShutOutput | MainDone

  datatype State = State(queue: Fifo<nat>, out: Out<nat>, hand: seq<nat>, stop: bool, signalled: bool,
                         collector: Collector, rows: nat, first: bool, delivery: Delivery, main: Main)

  /** `interrupted`: sleep() ended early; `sampled`: the metric of this stage has a value. */
  datatype Label =
    | Collect(interrupted: bool, sampled: bool)
    | Deliver(emit: EmitEnv, flush: PostEnv)
    | Advance(flush: PostEnv)
    | Signal

  const MAX_EVENTS_PER_ITERATION: nat := 6

  function Initial(c: Setup): State {
    State(Empty(), Fresh(c.settings), [], false, false, Starting, 0, true, ReadStop, JoinCollector)
  }

  predicate Enabled(s: State, l: Label) {
    match l
    case Collect(_, _) => !s.collector.CollectorDone?
    case Deliver(_, _) => !s.delivery.DeliveryDone?
    case Advance(_) =>
      && !s.main.MainDone?
      && (s.main.JoinCollector? ==> s.collector.CollectorDone?)
      && (s.main.JoinDelivery? ==> s.delivery.DeliveryDone?)
    case Signal => true
  }

  /** queue_enqueue of the next event, which passes its size test (Events.EventIsAccepted). */
  function Enqueue(c: Setup, s: State): State
    requires c.Ready()
  {
    s.(queue := Put(s.queue, c.capacity, |s.queue.log|))
  }

  function After(stage: Stage): Collector {
    match stage
    case ReadyEvent => Emitting(Cpu)
    case Cpu => Emitting(Memory)
    case Memory => Emitting(Disk)
    case Disk => Emitting(Network)
    case Network => Emitting(Internal)
    case Internal => LoopTest
  }

  /** The collector's next place. */
  function NextPlace(c: Setup, s: State, interrupted: bool): Collector {
    match s.collector
    case Starting => LoopTest
    case LoopTest => if !s.stop && (c.iterations == 0 || s.rows < c.iterations) then Sleeping else CollectorDone
    case Sleeping =>
      if interrupted && s.stop then CollectorDone else Emitting(if s.first then ReadyEvent else Cpu)
    case Emitting(stage) => After(stage)
    case CollectorDone => CollectorDone
  }

  /** Whether the collector enqueues at its present place. */
  predicate Sends(place: Collector, sampled: bool) {
    || place.Starting?
    || (place.Emitting? && (place.stage.ReadyEvent? || place.stage.Internal? || sampled))
  }

  function CollectStep(c: Setup, s: State, interrupted: bool, sampled: bool): State
    requires c.Ready()
  {
    var sent := if Sends(s.collector, sampled) then Enqueue(c, s) else s;
    sent.(collector := NextPlace(c, s, interrupted),
          first := s.first && s.collector != Emitting(ReadyEvent),
          rows := if s.collector == Emitting(Internal) then s.rows + 1 else s.rows)
  }

  function DeliverStep(c: Setup, s: State, emit: EmitEnv, flush: PostEnv): State {
    match s.delivery
    case ReadStop => s.(delivery := if s.stop then ReadSize else Taking)
    case ReadSize => s.(delivery := if |s.queue.items| > 0 then Taking else FinalFlush)
    case Taking =>
      var n := Min(c.chunk, |s.queue.items|);
      s.(queue := Take(s.queue, c.chunk), hand := s.queue.items[..n], delivery := if n > 0 then Handing else Pausing)
    case Handing =>
      if s.hand == [] then s.(delivery := Flushing)
      else
        s.(out := Emit(c.settings, s.out, s.hand[0], emit).0, hand := s.hand[1..],
           delivery := if |s.hand| == 1 then Flushing else Handing)
    case Flushing => s.(out := Flush(c.settings, s.out, flush).0, delivery := ReadStop)
    case Pausing => s.(delivery := ReadStop)
    case FinalFlush => s.(out := Flush(c.settings, s.out, flush).0, delivery := DeliveryDone)
    case DeliveryDone => s
  }

  function MainStep(c: Setup, s: State, flush: PostEnv): State {
    match s.main
    case JoinCollector => s.(main := RaiseStop)
    case RaiseStop => s.(stop := true, main := JoinDelivery)
    case JoinDelivery => s.(main := ShutOutput)
    case ShutOutput => s.(out := Shutdown(c.settings, s.out, flush), main := MainDone)
    case MainDone => s
  }

  /** A thread that cannot move stays where it is. */
  function Step(c: Setup, s: State, l: Label): State
    requires c.Ready()
  {
    if !Enabled(s, l) then s
    else
      match l
      case Collect(interrupted, sampled) => CollectStep(c, s, interrupted, sampled)
      case Deliver(emit, flush) => DeliverStep(c, s, emit, flush)
      case Advance(flush) => MainStep(c, s, flush)
      case Signal => s.(stop := true, signalled := true)
  }

  function RunFrom(c: Setup, s: State, labels: seq<Label>): State
    requires c.Ready()
    decreases |labels|
  {
    if labels == [] then s else RunFrom(c, Step(c, s, labels[0]), labels[1..])
  }

  function Run(c: Setup, labels: seq<Label>): State
    requires c.Ready()
  {
    RunFrom(c, Initial(c), labels)
  }

  // ----- the invariant

  /** The most events the collector can still enqueue once the stop flag is up. */
  function Budget(s: State): nat {
    match s.collector
    case Starting => 1
    case LoopTest => 0
    case Sleeping => if s.first then 6 else 5
    case Emitting(stage) =>
      (match stage
       case ReadyEvent => 6
       case Cpu => 5
       case Memory => 4
       case Disk => 3
       case Network => 2
       case Internal => 1)
    case CollectorDone => 0
  }

  /** Where the three threads can be together. */
  ghost predicate Control(s: State) {
    && (s.stop ==> s.signalled || s.collector.CollectorDone?)
    && (!s.main.JoinCollector? ==> s.collector.CollectorDone?)
    && (s.main.JoinDelivery? || s.main.ShutOutput? || s.main.MainDone? ==> s.stop)
    && (s.main.ShutOutput? || s.main.MainDone? ==> s.delivery.DeliveryDone?)
    && (s.delivery.ReadSize? || s.delivery.FinalFlush? || s.delivery.DeliveryDone? ==> s.stop)
    && (s.hand != [] <==> s.delivery.Handing?)
  }

  /** What can be left in the queue once delivery has stopped looking. */
  ghost predicate Leftover(s: State) {
    s.delivery.FinalFlush? || s.delivery.DeliveryDone? ==>
      && |s.queue.items| + Budget(s) <= MAX_EVENTS_PER_ITERATION
      && (!s.signalled ==> s.queue.items == [])
  }

  /** Every accepted event is in exactly one place. */
  ghost predicate Ledger(c: Setup, s: State) {
    && Consistent(s.queue, c.capacity)
    && s.queue.log == UpTo(|s.queue.log|)
    && multiset(s.queue.taken) == Everything(s.out) + multiset(s.hand)
  }

  function FirstQueued(s: State): int {
    |s.queue.log| - |s.queue.items|
  }

  /** Delivered, batched and in-hand events are in enqueue order, all before the queued ones. */
  ghost predicate InOrder(s: State) {
    FirstQueued(s) >= 0 && Orderly(s.out, s.hand, FirstQueued(s))
  }

  /** The sizes of the batch and of the array that delivery drains into. */
  ghost predicate Limits(c: Setup, s: State) {
    Bounded(c.settings, s.out) && |s.hand| <= c.chunk && (s.main.MainDone? ==> s.out.batch == [])
  }

  /** The local outputs print every event they are given, at once. */
  ghost predicate Straight(c: Setup, s: State) {
    !c.settings.mode.HttpPost? ==> s.out.discarded == [] && s.queue.taken == s.out.written + s.hand
  }

  ghost predicate Inv(c: Setup, s: State) {
    Control(s) && Leftover(s) && Ledger(c, s) && InOrder(s) && Limits(c, s) && Straight(c, s)
  }

  lemma FreshIsBounded(s: Settings)
    ensures Bounded(s, Fresh<nat>(s)) && Orderly(Fresh<nat>(s), [], 0)
    ensures Everything(Fresh<nat>(s)) == multiset{}
  {
    assert INITIAL_CAPACITY == 16 * Powers.Pow2(0);
  }

  lemma InitialInv(c: Setup)
    requires c.Ready()
    ensures Inv(c, Initial(c))
  {
    var s := Initial(c);
    FreshIsBounded(c.settings);
    assert s.queue.log == UpTo(0);
    assert s.out.written + s.hand == [];
  }

  // ----- every step keeps it

  lemma EnqueueKeeps(c: Setup, s: State)
    requires c.Ready() && Ledger(c, s) && InOrder(s)
    ensures Ledger(c, Enqueue(c, s)) && InOrder(Enqueue(c, s))
    ensures |Enqueue(c, s).queue.items| <= |s.queue.items| + 1
  {
    PutKeepsConsistent(s.queue, c.capacity, |s.queue.log|);
    assert Enqueue(c, s).queue.log == UpTo(|s.queue.log| + 1);
  }

  /** A step that touches neither events nor output keeps what is said about them. */
  lemma EventsUntouched(c: Setup, s: State, r: State)
    requires Ledger(c, s) && InOrder(s) && r.queue == s.queue && r.out == s.out && r.hand == s.hand
    ensures Ledger(c, r) && InOrder(r)
  {
  }

  lemma CollectKeepsEvents(c: Setup, s: State, interrupted: bool, sampled: bool)
    requires c.Ready() && Ledger(c, s) && InOrder(s)
    ensures var r := CollectStep(c, s, interrupted, sampled); Ledger(c, r) && InOrder(r)
  {
    var r := CollectStep(c, s, interrupted, sampled);
    if Sends(s.collector, sampled) {
      EnqueueKeeps(c, s);
      EventsUntouched(c, Enqueue(c, s), r);
    } else {
      EventsUntouched(c, s, r);
    }
  }

  lemma CollectKeepsControl(c: Setup, s: State, interrupted: bool, sampled: bool)
    requires c.Ready() && !s.collector.CollectorDone? && Control(s) && Leftover(s)
    ensures var r := CollectStep(c, s, interrupted, sampled); Control(r) && Leftover(r)
  {
    var r := CollectStep(c, s, interrupted, sampled);
    assert |r.queue.items| <= |s.queue.items| + (if Sends(s.collector, sampled) then 1 else 0);
    assert s.stop ==> Budget(r) + (if Sends(s.collector, sampled) then 1 else 0) <= Budget(s);
  }

  lemma CollectKeepsLimits(c: Setup, s: State, interrupted: bool, sampled: bool)
    requires c.Ready() && Limits(c, s) && Straight(c, s)
    ensures var r := CollectStep(c, s, interrupted, sampled); Limits(c, r) && Straight(c, r)
  {
    var r := CollectStep(c, s, interrupted, sampled);
    assert r.out == s.out && r.hand == s.hand && r.queue.taken == s.queue.taken && r.main == s.main;
  }

  lemma CollectKeeps(c: Setup, s: State, interrupted: bool, sampled: bool)
    requires c.Ready() && Inv(c, s) && !s.collector.CollectorDone?
    ensures Inv(c, CollectStep(c, s, interrupted, sampled))
  {
    CollectKeepsEvents(c, s, interrupted, sampled);
    CollectKeepsControl(c, s, interrupted, sampled);
    CollectKeepsLimits(c, s, interrupted, sampled);
  }

  lemma TakingKeepsEvents(c: Setup, s: State, emit: EmitEnv, flush: PostEnv)
    requires Ledger(c, s) && InOrder(s) && s.delivery.Taking? && s.hand == []
    ensures var r := DeliverStep(c, s, emit, flush); Ledger(c, r) && InOrder(r)
  {
    var r := DeliverStep(c, s, emit, flush);
    TakeKeepsConsistent(s.queue, c.capacity, c.chunk);
    assert s.out.written + s.out.batch + s.hand == s.out.written + s.out.batch;
    var from, line := FirstQueued(s), s.out.written + s.out.batch;
    forall i | 0 <= i < |r.hand|
      ensures r.hand[i] == from + i
    {
      assert s.queue.items[i] == s.queue.log[from + i];
    }
    assert Sorted(line + r.hand, FirstQueued(r));
  }

  lemma HandingKeepsEvents(c: Setup, s: State, emit: EmitEnv, flush: PostEnv)
    requires Ledger(c, s) && InOrder(s) && Bounded(c.settings, s.out) && s.delivery.Handing? && s.hand != []
    ensures var r := DeliverStep(c, s, emit, flush); Ledger(c, r) && InOrder(r)
  {
    var e, rest := s.hand[0], s.hand[1..];
    assert s.hand == [e] + rest;
    EmitConserves(c.settings, s.out, e, emit);
    EmitOrderly(c.settings, s.out, e, rest, FirstQueued(s), emit);
  }

  lemma FlushKeeps(c: Setup, o: Out<nat>, rest: seq<nat>, limit: nat, env: PostEnv)
    requires Bounded(c.settings, o) && Orderly(o, rest, limit)
    ensures var r := Flush(c.settings, o, env).0;
      && Bounded(c.settings, r)
      && Orderly(r, rest, limit)
      && Everything(r) == Everything(o)
      && (!c.settings.mode.HttpPost? ==> r == o)
  {
    PostBatchKeepsBounded(c.settings, o, env);
    PostBatchOrderly(c.settings, o, rest, limit, env);
    PostBatchConserves(c.settings, o, env);
  }

  lemma FlushingKeepsEvents(c: Setup, s: State, emit: EmitEnv, flush: PostEnv)
    requires Ledger(c, s) && InOrder(s) && Bounded(c.settings, s.out)
    requires s.delivery.Flushing? || s.delivery.FinalFlush?
    ensures var r := DeliverStep(c, s, emit, flush); Ledger(c, r) && InOrder(r)
  {
    var r := DeliverStep(c, s, emit, flush);
    assert r.queue == s.queue && r.hand == s.hand && r.out == Flush(c.settings, s.out, flush).0;
    FlushKeeps(c, s.out, s.hand, FirstQueued(s), flush);
  }

  /** The places where delivery only looks around. */
  predicate Looking(s: State) {
    && !s.delivery.Taking? && !s.delivery.Flushing? && !s.delivery.FinalFlush?
    && (s.delivery.Handing? ==> s.hand == [])
  }

  lemma LookingTouchesNothing(c: Setup, s: State, emit: EmitEnv, flush: PostEnv)
    requires Looking(s)
    ensures var r := DeliverStep(c, s, emit, flush);
      r.queue == s.queue && r.out == s.out && r.hand == s.hand
  {
  }

  lemma LookingKeepsEvents(c: Setup, s: State, emit: EmitEnv, flush: PostEnv)
    requires Ledger(c, s) && InOrder(s) && Looking(s)
    ensures var r := DeliverStep(c, s, emit, flush); Ledger(c, r) && InOrder(r)
  {
    var r := DeliverStep(c, s, emit, flush);
    assert r.queue == s.queue && r.out == s.out && r.hand == s.hand by {
      LookingTouchesNothing(c, s, emit, flush);
    }
    EventsUntouched(c, s, r);
  }

  lemma DeliverKeepsEvents(c: Setup, s: State, emit: EmitEnv, flush: PostEnv)
    requires Ledger(c, s) && InOrder(s) && Bounded(c.settings, s.out) && Control(s)
    ensures var r := DeliverStep(c, s, emit, flush); Ledger(c, r) && InOrder(r)
  {
    match s.delivery
    case Taking => TakingKeepsEvents(c, s, emit, flush);
    case Handing => HandingKeepsEvents(c, s, emit, flush);
    case Flushing => FlushingKeepsEvents(c, s, emit, flush);
    case FinalFlush => FlushingKeepsEvents(c, s, emit, flush);
    case _ => LookingKeepsEvents(c, s, emit, flush);
  }

  lemma DeliverKeepsLimits(c: Setup, s: State, emit: EmitEnv, flush: PostEnv)
    requires c.Ready() && Limits(c, s) && !s.main.MainDone?
    ensures Limits(c, DeliverStep(c, s, emit, flush))
  {
    match s.delivery
    case Handing =>
      if s.hand != [] {
        EmitKeepsBounded(c.settings, s.out, s.hand[0], emit);
      }
    case Flushing => PostBatchKeepsBounded(c.settings, s.out, flush);
    case FinalFlush => PostBatchKeepsBounded(c.settings, s.out, flush);
    case _ =>
  }

  lemma EmitPrints(c: Setup, o: Out<nat>, e: nat, rest: seq<nat>, emit: EmitEnv)
    requires c.Ready() && !c.settings.mode.HttpPost?
    ensures var r := Emit(c.settings, o, e, emit).0;
      r.discarded == o.discarded && r.written + rest == o.written + ([e] + rest)
  {
  }

  lemma DeliverKeepsStraight(c: Setup, s: State, emit: EmitEnv, flush: PostEnv)
    requires c.Ready() && Straight(c, s) && Control(s)
    ensures Straight(c, DeliverStep(c, s, emit, flush))
  {
    if !c.settings.mode.HttpPost? {
      if s.delivery.Handing? {
        assert s.hand == [s.hand[0]] + s.hand[1..];
        EmitPrints(c, s.out, s.hand[0], s.hand[1..], emit);
      } else if s.delivery.Taking? {
        assert s.out.written + s.hand == s.out.written;
      }
    }
  }

  lemma DeliverKeepsControl(c: Setup, s: State, emit: EmitEnv, flush: PostEnv)
    requires c.Ready() && Control(s) && Leftover(s) && !s.delivery.DeliveryDone?
    ensures var r := DeliverStep(c, s, emit, flush); Control(r) && Leftover(r)
  {
  }

  lemma DeliverKeeps(c: Setup, s: State, emit: EmitEnv, flush: PostEnv)
    requires c.Ready() && Inv(c, s) && !s.delivery.DeliveryDone?
    ensures Inv(c, DeliverStep(c, s, emit, flush))
  {
    DeliverKeepsEvents(c, s, emit, flush);
    DeliverKeepsLimits(c, s, emit, flush);
    DeliverKeepsStraight(c, s, emit, flush);
    DeliverKeepsControl(c, s, emit, flush);
  }

  lemma ShutdownKeeps(c: Setup, o: Out<nat>, rest: seq<nat>, limit: nat, env: PostEnv)
    requires Bounded(c.settings, o) && Orderly(o, rest, limit)
    ensures var r := Shutdown(c.settings, o, env);
      && Bounded(c.settings, r)
      && Orderly(r, rest, limit)
      && Everything(r) == Everything(o)
      && r.batch == []
      && (!c.settings.mode.HttpPost? ==> r.discarded == o.discarded && r.written == o.written)
  {
    FlushKeeps(c, o, rest, limit, env);
    ClearingKeeps(Flush(c.settings, o, env).0, rest, limit);
  }

  /** Freeing what is still batched only takes it out of the line. */
  lemma ClearingKeeps(f: Out<nat>, rest: seq<nat>, limit: nat)
    requires Orderly(f, rest, limit)
    ensures var r := Cleared(f).(discarded := f.discarded + f.batch);
      Orderly(r, rest, limit) && Everything(r) == Everything(f)
  {
    DropMiddle(f.written, f.batch, rest, limit);
    assert f.written + [] + rest == f.written + rest;
    assert multiset(f.discarded + f.batch) == multiset(f.discarded) + multiset(f.batch);
  }

  /** The moves of main before the last one leave events and output alone. */
  lemma MainWaits(c: Setup, s: State, flush: PostEnv)
    requires !s.main.ShutOutput? && Ledger(c, s) && InOrder(s) && Limits(c, s) && Straight(c, s)
    ensures var r := MainStep(c, s, flush); Ledger(c, r) && InOrder(r) && Limits(c, r) && Straight(c, r)
  {
    var r := MainStep(c, s, flush);
    assert r.queue == s.queue && r.out == s.out && r.hand == s.hand && (r.main.MainDone? ==> s.main.MainDone?);
    EventsUntouched(c, s, r);
  }

  lemma MainShuts(c: Setup, s: State, flush: PostEnv)
    requires s.main.ShutOutput? && Ledger(c, s) && InOrder(s) && Limits(c, s) && Straight(c, s)
    ensures var r := MainStep(c, s, flush); Ledger(c, r) && InOrder(r) && Limits(c, r) && Straight(c, r)
  {
    var r := MainStep(c, s, flush);
    assert r.queue == s.queue && r.hand == s.hand;
    ShutdownKeeps(c, s.out, s.hand, FirstQueued(s), flush);
  }

  lemma MainKeepsControl(c: Setup, s: State, flush: PostEnv)
    requires Control(s) && Leftover(s) && Enabled(s, Advance(flush))
    ensures var r := MainStep(c, s, flush); Control(r) && Leftover(r)
  {
  }

  lemma MainKeeps(c: Setup, s: State, flush: PostEnv)
    requires c.Ready() && Inv(c, s) && Enabled(s, Advance(flush))
    ensures Inv(c, MainStep(c, s, flush))
  {
    if s.main.ShutOutput? {
      MainShuts(c, s, flush);
    } else {
      MainWaits(c, s, flush);
    }
    MainKeepsControl(c, s, flush);
  }

  lemma SignalKeeps(c: Setup, s: State)
    requires c.Ready() && Inv(c, s)
    ensures Inv(c, Step(c, s, Signal))
  {
    EventsUntouched(c, s, Step(c, s, Signal));
  }

  lemma StepKeeps(c: Setup, s: State, l: Label)
    requires c.Ready() && Inv(c, s)
    ensures Inv(c, Step(c, s, l))
  {
    if Enabled(s, l) {
      match l
      case Collect(interrupted, sampled) => CollectKeeps(c, s, interrupted, sampled);
      case Deliver(emit, flush) => DeliverKeeps(c, s, emit, flush);
      case Advance(flush) => MainKeeps(c, s, flush);
      case Signal => SignalKeeps(c, s);
    }
  }

  lemma {:induction false} RunFromKeeps(c: Setup, s: State, labels: seq<Label>)
    requires c.Ready() && Inv(c, s)
    ensures Inv(c, RunFrom(c, s, labels))
    decreases |labels|
  {
    if labels != [] {
      StepKeeps(c, s, labels[0]);
      RunFromKeeps(c, Step(c, s, labels[0]), labels[1..]);
    }
  }
}
