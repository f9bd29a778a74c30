/** The program ends: after a signal, or with a limit on the iterations, every schedule that lets each
    thread move often enough takes main to its end. */
module Schedules {
  import opened Delivery
  import opened Numbers
  import opened Options
  import opened Outbox
  import opened Pipeline

  function CountAdvance(labels: seq<Label>): nat {
    if labels == [] then 0 else (if labels[0].Advance? then 1 else 0) + CountAdvance(labels[1..])
  }

  lemma {:induction false} RunFromConcat(c: Setup, s: State, a: seq<Label>, b: seq<Label>)
    requires c.Ready()
    ensures RunFrom(c, s, a + b) == RunFrom(c, RunFrom(c, s, a), b)
    decreases |a|
  {
    if a == [] {
      assert a + b == b;
    } else {
      assert (a + b)[1..] == a[1..] + b;
      RunFromConcat(c, Step(c, s, a[0]), a[1..], b);
    }
  }

  /** Moves that main has before it. */
  function MainLeft(s: State): nat {
    match s.main
    case JoinCollector => 4
    case RaiseStop => 3
    case JoinDelivery => 2
    case ShutOutput => 1
    case MainDone => 0
  }

  lemma StepOfMain(c: Setup, s: State, l: Label)
    requires c.Ready() && s.collector.CollectorDone?
    ensures var r := Step(c, s, l);
      && r.collector.CollectorDone? && (s.delivery.DeliveryDone? ==> r.delivery.DeliveryDone?)
      && MainLeft(r) <= MainLeft(s)
      && (l.Advance? && MainLeft(s) > (if s.delivery.DeliveryDone? then 0 else 2) ==> MainLeft(r) < MainLeft(s))
  {
    var r := Step(c, s, l);
    if Enabled(s, l) {
      match l
      case Collect(_, _) =>
      case Deliver(_, _) => assert r.main == s.main && r.collector == s.collector;
      case Advance(flush) => assert r == MainStep(c, s, flush);
      case Signal => assert r.main == s.main && r.collector == s.collector;
    }
  }

  /** Main waits for nothing but the threads it joins: once the collector is done it goes on to the
      second join, and once delivery is done to its end. */
  lemma {:induction false} MainGoesOn(c: Setup, s: State, labels: seq<Label>)
    requires c.Ready() && s.collector.CollectorDone?
    ensures var r := RunFrom(c, s, labels);
      && r.collector.CollectorDone?
      && MainLeft(r) <= Max(if s.delivery.DeliveryDone? then 0 else 2, MainLeft(s) - CountAdvance(labels))
      && MainLeft(r) <= MainLeft(s)
    decreases |labels|
  {
    if labels != [] {
      StepOfMain(c, s, labels[0]);
      MainGoesOn(c, Step(c, s, labels[0]), labels[1..]);
    }
  }

  lemma CollectorWithNothingLeft(c: Setup, s: State)
    requires Ending(c, s)
    ensures CollectorLeft(c, s) <= 8 * c.iterations + 8
    ensures CollectorLeft(c, s) <= 0 ==> s.collector.CollectorDone?
  {
  }

  /** The first phase: the collector ends. */
  lemma CollectorPhase(c: Setup, s: State, labels: seq<Label>)
    requires c.Ready() && Ending(c, s) && CountCollect(labels) >= CollectorLeft(c, s)
    ensures RunFrom(c, s, labels).collector.CollectorDone?
  {
    CollectorWithNothingLeft(c, s);
    if CollectorLeft(c, s) > 0 {
      CollectorEnds(c, s, labels);
    } else {
      CollectorStaysDone(c, s, labels);
    }
  }

  /** An upper bound on the moves delivery needs for its drain, from any reachable state. */
  function DrainMoves(c: Setup): nat {
    6 * c.capacity + c.chunk + 5
  }

  lemma ReadyToDrain(c: Setup, s: State)
    requires Inv(c, s) && s.collector.CollectorDone? && MainLeft(s) <= 2
    ensures Draining(s) && StepsLeft(s) <= DrainMoves(c)
  {
    assert Control(s) && Ledger(c, s) && Limits(c, s);
  }

  lemma MainJoins(c: Setup, s: State, labels: seq<Label>)
    requires c.Ready() && s.collector.CollectorDone? && CountAdvance(labels) >= 2
    ensures var r := RunFrom(c, s, labels); r.collector.CollectorDone? && MainLeft(r) <= 2
  {
    MainGoesOn(c, s, labels);
  }

  /** The second phase: main joins the collector and raises the stop flag. */
  lemma JoinPhase(c: Setup, s: State, labels: seq<Label>)
    requires c.Ready() && Inv(c, s) && s.collector.CollectorDone? && CountAdvance(labels) >= 2
    ensures var r := RunFrom(c, s, labels);
      Draining(r) && MainLeft(r) <= 2 && StepsLeft(r) <= DrainMoves(c)
  {
    MainJoins(c, s, labels);
    RunFromKeeps(c, s, labels);
    ReadyToDrain(c, RunFrom(c, s, labels));
  }

  /** The third phase: delivery drains the queue. */
  lemma DrainPhase(c: Setup, s: State, labels: seq<Label>)
    requires c.Ready() && Draining(s) && MainLeft(s) <= 2 && CountDeliver(labels) >= StepsLeft(s)
    ensures var r := RunFrom(c, s, labels);
      r.collector.CollectorDone? && r.delivery.DeliveryDone? && MainLeft(r) <= 2
  {
    DrainTerminates(c, s, labels);
    MainGoesOn(c, s, labels);
  }

  /** The fourth phase: main joins delivery and shuts the output. */
  lemma ShutPhase(c: Setup, s: State, labels: seq<Label>)
    requires c.Ready() && s.collector.CollectorDone? && s.delivery.DeliveryDone? && MainLeft(s) <= 2
    requires CountAdvance(labels) >= 2
    ensures RunFrom(c, s, labels).main.MainDone?
  {
    MainGoesOn(c, s, labels);
  }

  lemma LastPhases(c: Setup, s: State, third: seq<Label>, fourth: seq<Label>)
    requires c.Ready() && Draining(s) && MainLeft(s) <= 2 && CountDeliver(third) >= StepsLeft(s)
    requires CountAdvance(fourth) >= 2
    ensures RunFrom(c, RunFrom(c, s, third), fourth).main.MainDone?
  {
    DrainPhase(c, s, third);
    ShutPhase(c, RunFrom(c, s, third), fourth);
  }

  lemma FourParts(c: Setup, s: State, a: seq<Label>, b: seq<Label>, d: seq<Label>, e: seq<Label>)
    requires c.Ready()
    ensures RunFrom(c, s, a + b + d + e) ==
      RunFrom(c, RunFrom(c, RunFrom(c, RunFrom(c, s, a), b), d), e)
  {
    RunFromConcat(c, s, a, b);
    RunFromConcat(c, s, a + b, d);
    RunFromConcat(c, s, a + b + d, e);
  }

  /** The four phases of the end: the collector's last moves, main's join and the stop flag, the
      drain, main's second join and the shutdown.  Moves of other threads may come in anywhere. */
  lemma ProgramEnds(c: Setup, s: State, first: seq<Label>, second: seq<Label>, third: seq<Label>, fourth: seq<Label>)
    requires c.Ready() && Inv(c, s) && Ending(c, s)
    requires CountCollect(first) >= CollectorLeft(c, s) && CountAdvance(second) >= 2
    requires CountDeliver(third) >= DrainMoves(c) && CountAdvance(fourth) >= 2
    ensures RunFrom(c, s, first + second + third + fourth).main.MainDone?
  {
    FourParts(c, s, first, second, third, fourth);
    CollectorPhase(c, s, first);
    RunFromKeeps(c, s, first);
    JoinPhase(c, RunFrom(c, s, first), second);
    LastPhases(c, RunFrom(c, RunFrom(c, s, first), second), third, fourth);
  }

  // ----- fair schedules

  /** A stretch of a schedule in which every thread moves at least once. */
  predicate FairRound(labels: seq<Label>) {
    CountCollect(labels) > 0 && CountDeliver(labels) > 0 && CountAdvance(labels) > 0
  }

  function Flatten(rounds: seq<seq<Label>>): seq<Label> {
    if rounds == [] then [] else rounds[0] + Flatten(rounds[1..])
  }

  lemma {:induction false} CountsAdd(a: seq<Label>, b: seq<Label>)
    ensures CountCollect(a + b) == CountCollect(a) + CountCollect(b)
    ensures CountDeliver(a + b) == CountDeliver(a) + CountDeliver(b)
    ensures CountAdvance(a + b) == CountAdvance(a) + CountAdvance(b)
    decreases |a|
  {
    if a == [] {
      assert a + b == b;
    } else {
      assert (a + b)[1..] == a[1..] + b;
      CountsAdd(a[1..], b);
    }
  }

  lemma {:induction false} FairRoundsCount(rounds: seq<seq<Label>>)
    requires AllFair(rounds)
    ensures var all := Flatten(rounds);
      CountCollect(all) >= |rounds| && CountDeliver(all) >= |rounds| && CountAdvance(all) >= |rounds|
  {
    if rounds != [] {
      FairRoundsCount(rounds[1..]);
      CountsAdd(rounds[0], Flatten(rounds[1..]));
    }
  }

  lemma {:induction false} FlattenSplits(rounds: seq<seq<Label>>, n: nat)
    requires n <= |rounds|
    ensures Flatten(rounds) == Flatten(rounds[..n]) + Flatten(rounds[n..])
  {
    if n == 0 {
      assert rounds[0..] == rounds;
    } else {
      FlattenSplits(rounds[1..], n - 1);
      assert rounds[1..][..n - 1] == rounds[..n][1..] && rounds[1..][n - 1..] == rounds[n..];
      assert rounds[0] + (Flatten(rounds[..n][1..]) + Flatten(rounds[n..]))
          == rounds[0] + Flatten(rounds[..n][1..]) + Flatten(rounds[n..]);
    }
  }

  lemma {:induction false} EndingStays(c: Setup, s: State, labels: seq<Label>)
    requires c.Ready() && Ending(c, s)
    ensures Ending(c, RunFrom(c, s, labels))
    decreases |labels|
  {
    if labels != [] {
      StepTowardsEnd(c, s, labels[0]);
      EndingStays(c, Step(c, s, labels[0]), labels[1..]);
    }
  }

  function EnoughRounds(c: Setup): nat {
    8 * c.iterations + 8 + 2 + DrainMoves(c) + 2
  }

  ghost predicate AllFair(rounds: seq<seq<Label>>) {
    forall i :: 0 <= i < |rounds| ==> FairRound(rounds[i])
  }

  /** Fair rounds in four parts of given lengths. */
  lemma InFourParts(rounds: seq<seq<Label>>, n: nat, m: nat)
      returns (a: seq<Label>, b: seq<Label>, d: seq<Label>, e: seq<Label>)
    requires AllFair(rounds) && |rounds| >= n + 2 + m + 2
    ensures Flatten(rounds) == a + b + d + e
    ensures CountCollect(a) >= n && CountAdvance(b) >= 2 && CountDeliver(d) >= m && CountAdvance(e) >= 2
  {
    var rest := rounds[n..];
    var more := rest[2..];
    FlattenSplits(rounds, n);
    FlattenSplits(rest, 2);
    FlattenSplits(more, m);
    a, b, d, e := Flatten(rounds[..n]), Flatten(rest[..2]), Flatten(more[..m]), Flatten(more[m..]);
    FairRoundsCount(rounds[..n]);
    FairRoundsCount(rest[..2]);
    FairRoundsCount(more[..m]);
    FairRoundsCount(more[m..]);
    Nested(a, b, d, e);
  }

  lemma FairRoundsEnd(c: Setup, s: State, rounds: seq<seq<Label>>)
    requires c.Ready() && Inv(c, s) && Ending(c, s) && |rounds| >= EnoughRounds(c) && AllFair(rounds)
    ensures RunFrom(c, s, Flatten(rounds)).main.MainDone?
  {
    var a, b, d, e := InFourParts(rounds, 8 * c.iterations + 8, DrainMoves(c));
    CollectorWithNothingLeft(c, s);
    ProgramEnds(c, s, a, b, d, e);
  }

  lemma Nested(a: seq<Label>, b: seq<Label>, d: seq<Label>, e: seq<Label>)
    ensures a + (b + (d + e)) == a + b + d + e
  {
  }

  /** After a signal, or with a limit on the iterations, any schedule that goes on with enough rounds in
      which each thread moves ends the program, whatever happened before. */
  lemma FairRunEnds(c: Setup, before: seq<Label>, rounds: seq<seq<Label>>)
    requires c.Ready() && (c.iterations > 0 || Run(c, before).stop)
    requires |rounds| >= EnoughRounds(c) && AllFair(rounds)
    ensures Run(c, before + Flatten(rounds)).main.MainDone?
  {
    var s := Run(c, before);
    RunKeepsInv(c, before);
    if !s.stop {
      EndingStays(c, Initial(c), before);
    }
    FairRoundsEnd(c, s, rounds);
    RunFromConcat(c, Initial(c), before, Flatten(rounds));
  }

  // ----- and no other run does

  /** Without a limit on the iterations nothing but a signal takes the collector, and with it main, any
      further. */
  ghost predicate GoesOn(c: Setup, s: State) {
    c.iterations == 0 && !s.stop ==> s.main.JoinCollector? && !s.collector.CollectorDone?
  }

  predicate Unsignalled(labels: seq<Label>) {
    forall i :: 0 <= i < |labels| ==> !labels[i].Signal?
  }

  lemma {:induction false} NothingEndsIt(c: Setup, s: State, labels: seq<Label>)
    requires c.Ready() && GoesOn(c, s)
    ensures GoesOn(c, RunFrom(c, s, labels))
    ensures c.iterations == 0 && !s.stop && Unsignalled(labels) ==> !RunFrom(c, s, labels).stop
    decreases |labels|
  {
    if labels != [] {
      NothingEndsIt(c, Step(c, s, labels[0]), labels[1..]);
    }
  }

  /** With neither, no schedule whatever takes main to its end, or even to its second move. */
  lemma UnlimitedRunGoesOn(c: Setup, labels: seq<Label>)
    requires c.Ready() && c.iterations == 0 && !Run(c, labels).stop
    ensures Run(c, labels).main.JoinCollector? && !Run(c, labels).collector.CollectorDone?
  {
    NothingEndsIt(c, Initial(c), labels);
  }

  /** Fair rounds without a signal. */
  function Idle(n: nat): seq<seq<Label>> {
    var env := PostEnv(true, true, _ => NoReply, _ => 0);
    seq(n, _ => [Collect(false, false), Deliver(EmitEnv(env, env, None, None, true, true), env), Advance(env)])
  }

  lemma {:induction false} IdleIsUnsignalled(n: nat)
    ensures AllFair(Idle(n)) && Unsignalled(Flatten(Idle(n)))
  {
    if n > 0 {
      IdleIsUnsignalled(n - 1);
      assert Idle(n)[1..] == Idle(n - 1);
      assert FairRound(Idle(n)[0]) by {
        ThreeMoves(Idle(n)[0]);
      }
    }
  }

  lemma ThreeMoves(round: seq<Label>)
    requires |round| == 3 && round[0].Collect? && round[1].Deliver? && round[2].Advance?
    ensures FairRound(round)
  {
    CountsAdd(round[..2], round[2..]);
    CountsAdd(round[..1], round[1..2]);
    assert round == round[..2] + round[2..] && round[..2] == round[..1] + round[1..2];
  }

  /** After any moves: the program is bound to end under every fair schedule exactly when it has a limit on
      the iterations or the stop flag is up. */
  lemma FairRunsEndExactlyWhen(c: Setup, before: seq<Label>)
    requires c.Ready()
    ensures (forall rounds :: |rounds| >= EnoughRounds(c) && AllFair(rounds) ==>
               Run(c, before + Flatten(rounds)).main.MainDone?)
            <==> c.iterations > 0 || Run(c, before).stop
  {
    if c.iterations > 0 || Run(c, before).stop {
      forall rounds | |rounds| >= EnoughRounds(c) && AllFair(rounds)
        ensures Run(c, before + Flatten(rounds)).main.MainDone?
      {
        FairRunEnds(c, before, rounds);
      }
    } else {
      var rounds := Idle(EnoughRounds(c));
      IdleIsUnsignalled(EnoughRounds(c));
      NothingEndsIt(c, Initial(c), before);
      RunFromConcat(c, Initial(c), before, Flatten(rounds));
      NothingEndsIt(c, Run(c, before), Flatten(rounds));
      assert !Run(c, before + Flatten(rounds)).main.MainDone?;
    }
  }
}
