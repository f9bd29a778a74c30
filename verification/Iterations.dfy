/** How often the collector reports, and what: the iterations of a run, event by event. */
module Iterations {
  import opened Pipeline

  // ----- how many events

  /** Where the collector's memory of its first iteration stands. */
  ghost predicate FirstIsKept(s: State) {
    && (s.collector.Starting? ==> s.first && s.rows == 0)
    && (s.collector.Emitting? ==> s.first == s.collector.stage.ReadyEvent?)
    && (s.first ==> s.rows == 0)
    && (!s.first && (s.collector.LoopTest? || s.collector.Sleeping?) ==> s.rows > 0)
  }

  /** Events enqueued by now when no metric had a value. */
  function Least(s: State): nat {
    if s.collector.Starting? then 0 else s.rows + (if s.first then 1 else 2)
  }

  /** Events enqueued by now when every metric had one. */
  function Most(s: State): nat {
    if s.collector.Starting? then 0
    else if s.first then 1
    else 2 + 5 * s.rows + (match s.collector
                           case Emitting(Memory) => 1
                           case Emitting(Disk) => 2
                           case Emitting(Network) => 3
                           case Emitting(Internal) => 4
                           case _ => 0)
  }

  ghost predicate Counted(s: State) {
    FirstIsKept(s) && Least(s) <= |s.queue.log| <= Most(s)
  }

  predicate AllSampled(labels: seq<Label>) {
    forall i :: 0 <= i < |labels| && labels[i].Collect? ==> labels[i].sampled
  }

  lemma MoveCounts(c: Setup, s: State, interrupted: bool, sampled: bool)
    requires c.Ready() && Counted(s) && !s.collector.CollectorDone?
    ensures var r := CollectStep(c, s, interrupted, sampled);
      && Counted(r)
      && (sampled && |s.queue.log| == Most(s) ==> |r.queue.log| == Most(r))
  {
    var r := CollectStep(c, s, interrupted, sampled);
    assert |r.queue.log| == |s.queue.log| + (if Sends(s.collector, sampled) then 1 else 0);
  }

  lemma OthersCountNothing(c: Setup, s: State, l: Label)
    requires c.Ready() && !(Enabled(s, l) && l.Collect?)
    ensures var r := Step(c, s, l);
      && r.collector == s.collector && r.rows == s.rows && r.first == s.first && r.queue.log == s.queue.log
  {
  }

  lemma StepCounts(c: Setup, s: State, l: Label)
    requires c.Ready() && Counted(s)
    ensures Counted(Step(c, s, l))
    ensures (l.Collect? ==> l.sampled) && |s.queue.log| == Most(s) ==>
              |Step(c, s, l).queue.log| == Most(Step(c, s, l))
  {
    if Enabled(s, l) && l.Collect? {
      MoveCounts(c, s, l.interrupted, l.sampled);
    } else {
      OthersCountNothing(c, s, l);
    }
  }

  lemma {:induction false} RunCounts(c: Setup, s: State, labels: seq<Label>)
    requires c.Ready() && Counted(s)
    ensures Counted(RunFrom(c, s, labels))
    ensures AllSampled(labels) && |s.queue.log| == Most(s) ==>
              |RunFrom(c, s, labels).queue.log| == Most(RunFrom(c, s, labels))
    decreases |labels|
  {
    if labels != [] {
      StepCounts(c, s, labels[0]);
      RunCounts(c, Step(c, s, labels[0]), labels[1..]);
    }
  }

  // ----- how many iterations

  /** Without a signal a limited collector ends with its last iteration, not earlier or later. */
  ghost predicate Limited(c: Setup, s: State) {
    c.iterations > 0 && !s.signalled ==>
      && s.rows <= c.iterations
      && (s.collector.Sleeping? || s.collector.Emitting? ==> s.rows < c.iterations)
      && (s.collector.CollectorDone? ==> s.rows == c.iterations)
  }

  lemma StepIsLimited(c: Setup, s: State, l: Label)
    requires c.Ready() && Control(s) && Limited(c, s)
    ensures Limited(c, Step(c, s, l))
  {
  }

  lemma {:induction false} RunIsLimited(c: Setup, s: State, labels: seq<Label>)
    requires c.Ready() && Inv(c, s) && Limited(c, s)
    ensures Limited(c, RunFrom(c, s, labels))
    decreases |labels|
  {
    if labels != [] {
      StepKeeps(c, s, labels[0]);
      StepIsLimited(c, s, labels[0]);
      RunIsLimited(c, Step(c, s, labels[0]), labels[1..]);
    }
  }

  /** A collector limited to n iterations, and not disturbed by a signal, makes exactly n, and enqueues
      two events and in each iteration between one and five: all five if every metric has a value. */
  lemma LimitedRunMakesAll(c: Setup, labels: seq<Label>)
    requires c.Ready() && c.iterations > 0
    requires !Run(c, labels).signalled && Run(c, labels).collector.CollectorDone?
    ensures var s := Run(c, labels);
      && s.rows == c.iterations
      && c.iterations + 2 <= |s.queue.log| <= 5 * c.iterations + 2
      && (AllSampled(labels) ==> |s.queue.log| == 5 * c.iterations + 2)
  {
    InitialInv(c);
    RunIsLimited(c, Initial(c), labels);
    RunCounts(c, Initial(c), labels);
  }

  /** In any run, signalled or not: what is enqueued after r iterations, and in the next. */
  lemma EventsOfIterations(c: Setup, labels: seq<Label>)
    requires c.Ready()
    ensures var s := Run(c, labels);
      s.rows <= |s.queue.log| <= 5 * s.rows + 6
  {
    RunCounts(c, Initial(c), labels);
  }

  // ----- which events

  /** A place at which the collector may enqueue an event, whether the metric had a value, and whether an
      event was enqueued. */
  datatype Visit = Visit(place: Collector, sampled: bool, sent: bool)

  predicate MaySend(place: Collector) {
    place.Starting? || place.Emitting?
  }

  /** What one move visits; whether an event was enqueued shows in the queue's log. */
  function VisitOf(c: Setup, s: State, l: Label): seq<Visit>
    requires c.Ready()
  {
    if l.Collect? && MaySend(s.collector) then
      [Visit(s.collector, l.sampled, |Step(c, s, l).queue.log| == |s.queue.log| + 1)]
    else []
  }

  /** The visits of a run, in order. */
  function Visits(c: Setup, s: State, labels: seq<Label>): seq<Visit>
    requires c.Ready()
    decreases |labels|
  {
    if labels == [] then [] else VisitOf(c, s, labels[0]) + Visits(c, Step(c, s, labels[0]), labels[1..])
  }

  function Places(visits: seq<Visit>): seq<Collector> {
    seq(|visits|, i requires 0 <= i < |visits| => visits[i].place)
  }

  function Sent(visits: seq<Visit>): nat {
    if visits == [] then 0 else (if visits[0].sent then 1 else 0) + Sent(visits[1..])
  }

  const METRICS: seq<Collector> :=
    [Emitting(Cpu), Emitting(Memory), Emitting(Disk), Emitting(Network), Emitting(Internal)]

  function Times(n: nat, places: seq<Collector>): seq<Collector> {
    if n == 0 then [] else places + Times(n - 1, places)
  }

  function StagesLeft(stage: Stage): nat {
    match stage
    case ReadyEvent => 5
    case Cpu => 4
    case Memory => 3
    case Disk => 2
    case Network => 1
    case Internal => 0
  }

  /** The rest of an iteration. */
  function RestOf(stage: Stage): seq<Collector>
    decreases StagesLeft(stage)
  {
    [Emitting(stage)] + (if stage.Internal? then [] else RestOf(After(stage).stage))
  }

  lemma WholeIteration()
    ensures RestOf(Cpu) == METRICS
  {
    assert RestOf(Internal) == [Emitting(Internal)];
    assert RestOf(Network) == [Emitting(Network), Emitting(Internal)];
    assert RestOf(Disk) == [Emitting(Disk), Emitting(Network), Emitting(Internal)];
    assert RestOf(Memory) == [Emitting(Memory), Emitting(Disk), Emitting(Network), Emitting(Internal)];
  }

  /** The places that a collector has still to visit, with `left` iterations to begin. */
  function Ahead(place: Collector, first: bool, left: nat): seq<Collector> {
    var later := Times(left, METRICS);
    match place
    case Starting => [Starting] + ([Emitting(ReadyEvent)] + later)
    case Emitting(stage) => RestOf(stage) + later
    case CollectorDone => []
    case _ => if first then [Emitting(ReadyEvent)] + later else later
  }

  /** Iterations that a limited collector has still to begin. */
  function ToBegin(c: Setup, s: State): int {
    c.iterations - s.rows - (if s.collector.Emitting? then 1 else 0)
  }

  /** What holds of a limited run that no signal has disturbed. */
  ghost predicate Undisturbed(c: Setup, s: State) {
    && c.iterations > 0 && !s.signalled && Control(s) && FirstIsKept(s)
    && ToBegin(c, s) >= (if s.collector.Sleeping? then 1 else 0)
  }

  lemma Associative<T>(a: seq<T>, b: seq<T>, c: seq<T>)
    ensures a + (b + c) == a + b + c
  {
  }

  lemma SleepIsNext(first: bool, left: nat)
    requires left > 0
    ensures Ahead(Sleeping, first, left) ==
      Ahead(Emitting(if first then ReadyEvent else Cpu), first, left - 1)
  {
    WholeIteration();
    Associative([Emitting(ReadyEvent)], METRICS, Times(left - 1, METRICS));
  }

  lemma StageIsNext(stage: Stage, left: nat)
    ensures Ahead(Emitting(stage), stage.ReadyEvent?, left) == [Emitting(stage)] + Ahead(After(stage), false, left)
  {
    var later := Times(left, METRICS);
    if stage.Internal? {
      assert RestOf(stage) == [Emitting(Internal)];
    } else {
      Associative([Emitting(stage)], RestOf(After(stage).stage), later);
    }
  }

  /** One move of the collector. */
  lemma MoveIsNext(c: Setup, s: State, interrupted: bool, sampled: bool)
    requires c.Ready() && Undisturbed(c, s) && !s.collector.CollectorDone?
    ensures var r := CollectStep(c, s, interrupted, sampled);
      && Undisturbed(c, r)
      && Ahead(s.collector, s.first, ToBegin(c, s)) ==
           (if MaySend(s.collector) then [s.collector] else []) + Ahead(r.collector, r.first, ToBegin(c, r))
  {
    var r := CollectStep(c, s, interrupted, sampled);
    MoveOfUndisturbed(c, s, interrupted, sampled);
    var left, rest := ToBegin(c, s), Ahead(r.collector, r.first, ToBegin(c, r));
    match s.collector
    case Starting =>
    case LoopTest => assert [] + rest == rest;
    case Sleeping =>
      SleepIsNext(s.first, left);
      assert [] + rest == rest;
    case Emitting(stage) => StageIsNext(stage, left);
  }

  /** Where that move goes. */
  lemma MoveOfUndisturbed(c: Setup, s: State, interrupted: bool, sampled: bool)
    requires c.Ready() && Undisturbed(c, s) && !s.collector.CollectorDone?
    ensures var r := CollectStep(c, s, interrupted, sampled);
      && Undisturbed(c, r)
      && match s.collector
         case Starting => r.collector == LoopTest && r.first && ToBegin(c, r) == ToBegin(c, s)
         case LoopTest =>
           && r.collector == (if ToBegin(c, s) > 0 then Sleeping else CollectorDone)
           && r.first == s.first && ToBegin(c, r) == ToBegin(c, s) && (ToBegin(c, s) == 0 ==> !s.first)
         case Sleeping =>
           && r.collector == Emitting(if s.first then ReadyEvent else Cpu)
           && r.first == s.first && ToBegin(c, r) == ToBegin(c, s) - 1
         case Emitting(stage) => r.collector == After(stage) && !r.first && ToBegin(c, r) == ToBegin(c, s)
         case CollectorDone => true
  {
  }

  lemma OthersVisitNothing(c: Setup, s: State, l: Label)
    requires c.Ready() && Undisturbed(c, s) && !l.Signal? && !(Enabled(s, l) && l.Collect?)
    ensures var r := Step(c, s, l);
      && Control(s) && VisitOf(c, s, l) == []
      && r.collector == s.collector && r.rows == s.rows && r.first == s.first && r.signalled == s.signalled
  {
  }

  lemma {:induction false} SignalStays(c: Setup, s: State, labels: seq<Label>)
    requires c.Ready() && s.signalled
    ensures RunFrom(c, s, labels).signalled
    decreases |labels|
  {
    if labels != [] {
      SignalStays(c, Step(c, s, labels[0]), labels[1..]);
    }
  }

  lemma PlacesConcat(a: seq<Visit>, b: seq<Visit>, rest: seq<Collector>)
    ensures Places(a + b) + rest == Places(a) + (Places(b) + rest)
  {
  }

  /** What is still ahead of an undisturbed collector. */
  ghost function Rest(c: Setup, s: State): seq<Collector>
    requires Undisturbed(c, s)
  {
    Ahead(s.collector, s.first, ToBegin(c, s))
  }

  lemma PlacesOfVisit(c: Setup, s: State, l: Label)
    requires c.Ready()
    ensures Places(VisitOf(c, s, l)) == if l.Collect? && MaySend(s.collector) then [s.collector] else []
  {
  }

  lemma StepVisits(c: Setup, s: State, l: Label)
    requires c.Ready() && Undisturbed(c, s) && Control(Step(c, s, l)) && !l.Signal?
    ensures Undisturbed(c, Step(c, s, l))
    ensures Rest(c, s) == Places(VisitOf(c, s, l)) + Rest(c, Step(c, s, l))
  {
    PlacesOfVisit(c, s, l);
    if Enabled(s, l) && l.Collect? {
      MoveIsNext(c, s, l.interrupted, l.sampled);
    } else {
      OthersVisitNothing(c, s, l);
      assert [] + Rest(c, s) == Rest(c, s);
    }
  }

  lemma {:induction false} RunVisits(c: Setup, s: State, labels: seq<Label>)
    requires c.Ready() && Inv(c, s) && Undisturbed(c, s) && !RunFrom(c, s, labels).signalled
    ensures Undisturbed(c, RunFrom(c, s, labels))
    ensures Rest(c, s) == Places(Visits(c, s, labels)) + Rest(c, RunFrom(c, s, labels))
    decreases |labels|
  {
    if labels == [] {
      assert Places([]) + Rest(c, s) == Rest(c, s);
    } else if labels[0].Signal? {
      SignalStays(c, Step(c, s, labels[0]), labels[1..]);
    } else {
      StepKeeps(c, s, labels[0]);
      StepVisits(c, s, labels[0]);
      var r := Step(c, s, labels[0]);
      RunVisits(c, r, labels[1..]);
      PlacesConcat(VisitOf(c, s, labels[0]), Visits(c, r, labels[1..]), Rest(c, RunFrom(c, r, labels[1..])));
    }
  }

  /** What such a collector visits, in order: the warming-up event, the ready event, and then in each of
      the n iterations cpu, memory, disk, network and internal. */
  lemma LimitedRunVisits(c: Setup, labels: seq<Label>)
    requires c.Ready() && c.iterations > 0
    requires !Run(c, labels).signalled && Run(c, labels).collector.CollectorDone?
    ensures Places(Visits(c, Initial(c), labels)) ==
      [Starting] + ([Emitting(ReadyEvent)] + Times(c.iterations,
        [Emitting(Cpu), Emitting(Memory), Emitting(Disk), Emitting(Network), Emitting(Internal)]))
  {
    InitialInv(c);
    FromTheStart(c);
    RunVisits(c, Initial(c), labels);
    ToTheEnd(c, Run(c, labels), Places(Visits(c, Initial(c), labels)));
  }

  lemma FromTheStart(c: Setup)
    requires c.Ready() && c.iterations > 0
    ensures Undisturbed(c, Initial(c))
    ensures Rest(c, Initial(c)) ==
      [Starting] + ([Emitting(ReadyEvent)] + Times(c.iterations,
        [Emitting(Cpu), Emitting(Memory), Emitting(Disk), Emitting(Network), Emitting(Internal)]))
  {
  }

  lemma ToTheEnd(c: Setup, s: State, visited: seq<Collector>)
    requires Undisturbed(c, s) && s.collector.CollectorDone?
    ensures visited + Rest(c, s) == visited
  {
  }

  predicate AlwaysSends(place: Collector) {
    place == Starting || place == Emitting(ReadyEvent) || place == Emitting(Internal)
  }

  /** In any run each enqueued event is that of one visit; the warming-up, ready and internal events are
      enqueued whenever their places are visited, the others exactly when their metric has a value. */
  lemma {:induction false} VisitsAreTheLog(c: Setup, s: State, labels: seq<Label>)
    requires c.Ready()
    ensures |RunFrom(c, s, labels).queue.log| == |s.queue.log| + Sent(Visits(c, s, labels))
    ensures forall v :: v in Visits(c, s, labels) ==> (v.sent <==> AlwaysSends(v.place) || v.sampled)
    decreases |labels|
  {
    if labels != [] {
      var rest := Visits(c, Step(c, s, labels[0]), labels[1..]);
      VisitsAreTheLog(c, Step(c, s, labels[0]), labels[1..]);
      OneVisit(c, s, labels[0]);
      if VisitOf(c, s, labels[0]) == [] {
        assert [] + rest == rest;
      } else {
        assert Visits(c, s, labels)[1..] == rest;
      }
    }
  }

  lemma OneVisit(c: Setup, s: State, l: Label)
    requires c.Ready()
    ensures var visit := VisitOf(c, s, l);
      && |visit| <= 1
      && |Step(c, s, l).queue.log| == |s.queue.log| + (if visit != [] && visit[0].sent then 1 else 0)
      && (visit != [] ==> (visit[0].sent <==> AlwaysSends(visit[0].place) || visit[0].sampled))
  {
  }

  // ----- a signal that interrupts the sleep

  /** A stopping collector that is asleep, or about to test, enqueues nothing more if its sleep is
      interrupted. */
  lemma {:induction false} InterruptedSleepSendsNothing(c: Setup, s: State, labels: seq<Label>)
    requires c.Ready() && s.stop
    requires s.collector.LoopTest? || s.collector.Sleeping? || s.collector.CollectorDone?
    requires forall i :: 0 <= i < |labels| && labels[i].Collect? ==> labels[i].interrupted
    ensures RunFrom(c, s, labels).queue.log == s.queue.log
    decreases |labels|
  {
    if labels != [] {
      InterruptedSleepSendsNothing(c, Step(c, s, labels[0]), labels[1..]);
    }
  }
}
