/** Whole runs in HTTP mode: what has been delivered is exactly what acknowledged requests carried, and
    when the receiver and the allocator are friendly, that is everything, as it is on stdout. */
module HttpDelivery {
  import opened Delivery
  import opened DropOldest
  import opened Order
  import opened Outbox
  import opened Pipeline

  // ----- delivered events are those of acknowledged requests

  /** The items of the acknowledged requests, in the order of the requests. */
  function Acked<T>(posts: seq<Post<T>>): seq<T> {
    if posts == [] then []
    else
      var last := posts[|posts| - 1];
      Acked(posts[..|posts| - 1]) + (if last.reply.Acknowledges() then last.items else [])
  }

  lemma {:induction false} AckedConcat<T>(a: seq<Post<T>>, b: seq<Post<T>>)
    ensures Acked(a + b) == Acked(a) + Acked(b)
    decreases |b|
  {
    if b == [] {
      assert a + b == a;
    } else {
      var n := |b| - 1;
      assert (a + b)[..|a + b| - 1] == a + b[..n];
      AckedConcat(a, b[..n]);
    }
  }

  lemma {:induction false} NoneAcked<T>(posts: seq<Post<T>>)
    requires forall i :: 0 <= i < |posts| ==> !posts[i].reply.Acknowledges()
    ensures Acked(posts) == []
  {
    if posts != [] {
      NoneAcked(posts[..|posts| - 1]);
    }
  }

  /** Requests of one call: only the last can be acknowledged. */
  lemma OneCallAcked<T>(made: seq<Post<T>>, batch: seq<T>)
    requires made != [] && forall i :: 0 <= i < |made| ==> made[i].items == batch
    requires forall i :: 0 <= i < |made| - 1 ==> !made[i].reply.Acknowledges()
    ensures Acked(made) == if made[|made| - 1].reply.Acknowledges() then batch else []
  {
    NoneAcked(made[..|made| - 1]);
  }

  lemma PostBatchAcked<T>(s: Settings, o: Out<T>, env: PostEnv)
    requires o.written == Acked(o.posts)
    ensures var r := PostBatch(s, o, env).0; r.written == Acked(r.posts)
  {
    PostBatchOutcome(s, o, env);
    var r := PostBatch(s, o, env).0;
    var made := r.posts[|o.posts|..];
    assert r.posts == o.posts + made;
    AckedConcat(o.posts, made);
    if made == [] {
      assert r.written == o.written;
    } else {
      assert forall i :: 0 <= i < |made| ==> made[i] == r.posts[|o.posts| + i];
      OneCallAcked(made, o.batch);
    }
  }

  lemma StoreAcked<T>(s: Settings, o: Out<T>, e: T, env: EmitEnv)
    requires o.written == Acked(o.posts)
    ensures var r := Store(s, o, e, env).0; r.written == Acked(r.posts)
  {
    var roomy := Started(o, env.startClock).(capacity := EnsuredCapacity(o.capacity, |o.batch| + 1));
    PostBatchAcked(s, roomy.(batch := o.batch + [e]), env.late);
  }

  lemma EmitAcked<T>(s: Settings, o: Out<T>, e: T, env: EmitEnv)
    requires s.mode.HttpPost? && o.written == Acked(o.posts)
    ensures var r := Emit(s, o, e, env).0; r.written == Acked(r.posts)
  {
    PostBatchAcked(s, o, env.early);
    StoreAcked(s, MaybeFlush(s, o, env.early, env.now).0, e, env);
  }

  lemma DeliverAcked(c: Setup, s: State, emit: EmitEnv, flush: PostEnv)
    requires c.settings.mode.HttpPost? && s.out.written == Acked(s.out.posts)
    ensures var r := DeliverStep(c, s, emit, flush).out; r.written == Acked(r.posts)
  {
    match s.delivery {
      case Handing =>
        if s.hand != [] {
          EmitAcked(c.settings, s.out, s.hand[0], emit);
        }
      case Flushing => PostBatchAcked(c.settings, s.out, flush);
      case FinalFlush => PostBatchAcked(c.settings, s.out, flush);
      case _ =>
    }
  }

  lemma MainAcked(c: Setup, s: State, flush: PostEnv)
    requires c.settings.mode.HttpPost? && s.out.written == Acked(s.out.posts)
    ensures var r := MainStep(c, s, flush).out; r.written == Acked(r.posts)
  {
    if s.main.ShutOutput? {
      PostBatchAcked(c.settings, s.out, flush);
    }
  }

  lemma StepAcked(c: Setup, s: State, l: Label)
    requires c.Ready() && c.settings.mode.HttpPost? && s.out.written == Acked(s.out.posts)
    ensures var r := Step(c, s, l).out; r.written == Acked(r.posts)
  {
    match l
    case Collect(_, _) =>
    case Deliver(emit, flush) => DeliverAcked(c, s, emit, flush);
    case Advance(flush) => MainAcked(c, s, flush);
    case Signal =>
  }

  lemma {:induction false} RunFromAcked(c: Setup, s: State, labels: seq<Label>)
    requires c.Ready() && c.settings.mode.HttpPost? && s.out.written == Acked(s.out.posts)
    ensures var r := RunFrom(c, s, labels).out; r.written == Acked(r.posts)
    decreases |labels|
  {
    if labels != [] {
      StepAcked(c, s, labels[0]);
      RunFromAcked(c, Step(c, s, labels[0]), labels[1..]);
    }
  }

  /** In every reachable state the delivered events are those of the acknowledged requests, in the order
      of the requests, and without repeats. */
  lemma DeliveredIsAcknowledged(c: Setup, labels: seq<Label>)
    requires c.Ready() && c.settings.mode.HttpPost?
    ensures var s := Run(c, labels);
      s.out.written == Acked(s.out.posts) && Sorted(Acked(s.out.posts), |s.queue.log|)
  {
    RunFromAcked(c, Initial(c), labels);
    DeliveryKeepsOrder(c, labels);
    var s := Run(c, labels);
    var all := s.out.written + s.out.batch + s.hand + s.queue.items;
    assert forall i :: 0 <= i < |s.out.written| ==> s.out.written[i] == all[i];
  }

  // ----- nothing is lost to a friendly environment

  /** The body and the handle are there, and the first deciding answer acknowledges; before it, any
      number of allowed attempts may fail. */
  ghost predicate Answers(s: Settings, env: PostEnv) {
    && env.bodyAllocated && env.curlCreated
    && exists n: nat :: n <= s.retryMax && env.reply(n).Acknowledges()
                        && forall i :: 0 <= i < n ==> !env.reply(i).Decides()
  }

  ghost predicate FriendlyEmit(s: Settings, emit: EmitEnv) {
    emit.grown && emit.copied && Answers(s, emit.early) && Answers(s, emit.late)
  }

  ghost predicate FriendlyMove(s: Settings, l: Label) {
    match l
    case Deliver(emit, flush) => FriendlyEmit(s, emit) && Answers(s, flush)
    case Advance(flush) => Answers(s, flush)
    case _ => true
  }

  lemma FriendlyPostDelivers<T>(s: Settings, o: Out<T>, env: PostEnv)
    requires Answers(s, env)
    ensures var (r, rc) := PostBatch(s, o, env);
      rc == 0 && r.batch == [] && r.written == o.written + o.batch && r.discarded == o.discarded
  {
    var n: nat :| n <= s.retryMax && env.reply(n).Acknowledges() && forall i :: 0 <= i < n ==> !env.reply(i).Decides();
    RetryEndsAtFirstDecision(env.reply, 0, s.retryMax);
    var (verdict, attempts) := RetryFrom(env.reply, 0, s.retryMax);
    assert env.reply(n).Decides();
    assert attempts - 1 == n;
    assert o.written + [] == o.written;
  }

  /** Everything the output was given is delivered or batched, in order, ahead of what is in hand. */
  ghost predicate Complete(c: Setup, s: State) {
    s.out.discarded == [] && s.queue.taken == s.out.written + s.out.batch + s.hand
  }

  lemma FriendlyStoreKeeps<T>(s: Settings, o: Out<T>, e: T, env: EmitEnv)
    requires FriendlyEmit(s, env)
    ensures var (r, rc) := Store(s, o, e, env);
      r.discarded == o.discarded && r.written + r.batch == o.written + (o.batch + [e])
  {
    var roomy := Started(o, env.startClock).(capacity := EnsuredCapacity(o.capacity, |o.batch| + 1));
    FriendlyPostDelivers(s, roomy.(batch := o.batch + [e]), env.late);
    assert forall x: seq<T> :: x + [] == x;
  }

  lemma FriendlyEmitKeeps<T>(s: Settings, o: Out<T>, e: T, env: EmitEnv)
    requires s.mode.HttpPost? && FriendlyEmit(s, env)
    ensures var r := Emit(s, o, e, env).0;
      r.discarded == o.discarded && r.written + r.batch == o.written + o.batch + [e]
  {
    FriendlyPostDelivers(s, o, env.early);
    var flushed := MaybeFlush(s, o, env.early, env.now).0;
    assert flushed.written + flushed.batch == o.written + o.batch;
    FriendlyStoreKeeps(s, flushed, e, env);
    assert flushed.written + (flushed.batch + [e]) == flushed.written + flushed.batch + [e];
  }

  lemma FriendlyFlushKeeps<T>(s: Settings, o: Out<T>, env: PostEnv)
    requires s.mode.HttpPost? && Answers(s, env)
    ensures var r := Flush(s, o, env).0;
      r.discarded == o.discarded && r.batch == [] && r.written == o.written + o.batch
  {
    FriendlyPostDelivers(s, o, env);
  }

  lemma CompleteAfterHanding(c: Setup, s: State, emit: EmitEnv, flush: PostEnv)
    requires c.settings.mode.HttpPost? && FriendlyEmit(c.settings, emit)
    requires Complete(c, s) && s.delivery.Handing? && s.hand != []
    ensures Complete(c, DeliverStep(c, s, emit, flush))
  {
    var e, rest := s.hand[0], s.hand[1..];
    assert s.hand == [e] + rest;
    FriendlyEmitKeeps(c.settings, s.out, e, emit);
    assert s.out.written + s.out.batch + s.hand == s.out.written + s.out.batch + [e] + rest;
  }

  lemma CompleteAfterTaking(c: Setup, s: State, emit: EmitEnv, flush: PostEnv)
    requires Complete(c, s) && s.delivery.Taking? && s.hand == []
    ensures Complete(c, DeliverStep(c, s, emit, flush))
  {
    assert s.out.written + s.out.batch + s.hand == s.out.written + s.out.batch;
  }

  lemma CompleteAfterFlush(c: Setup, o: Out<nat>, taken: seq<nat>, hand: seq<nat>, flush: PostEnv)
    requires c.settings.mode.HttpPost? && Answers(c.settings, flush)
    requires o.discarded == [] && taken == o.written + o.batch + hand
    ensures var r := Flush(c.settings, o, flush).0;
      r.discarded == [] && r.batch == [] && taken == r.written + r.batch + hand
  {
    FriendlyFlushKeeps(c.settings, o, flush);
    assert o.written + o.batch + [] == o.written + o.batch;
  }

  lemma FriendlyStepKeeps(c: Setup, s: State, l: Label)
    requires c.Ready() && c.settings.mode.HttpPost? && FriendlyMove(c.settings, l) && Complete(c, s) && Control(s)
    ensures Complete(c, Step(c, s, l))
  {
    if Enabled(s, l) {
      match l
      case Collect(_, _) =>
      case Deliver(emit, flush) =>
        match s.delivery {
          case Taking => CompleteAfterTaking(c, s, emit, flush);
          case Handing => CompleteAfterHanding(c, s, emit, flush);
          case Flushing => CompleteAfterFlush(c, s.out, s.queue.taken, s.hand, flush);
          case FinalFlush => CompleteAfterFlush(c, s.out, s.queue.taken, s.hand, flush);
          case _ =>
        }
      case Advance(flush) => CompleteAfterShutdown(c, s, flush);
      case Signal =>
    }
  }

  lemma CompleteAfterShutdown(c: Setup, s: State, flush: PostEnv)
    requires c.settings.mode.HttpPost? && Answers(c.settings, flush) && Complete(c, s)
    ensures Complete(c, MainStep(c, s, flush))
  {
    if s.main.ShutOutput? {
      CompleteAfterFlush(c, s.out, s.queue.taken, s.hand, flush);
      var flushed := Flush(c.settings, s.out, flush).0;
      assert flushed.discarded + flushed.batch == [];
    }
  }

  lemma {:induction false} FriendlyRunKeeps(c: Setup, s: State, labels: seq<Label>)
    requires c.Ready() && c.settings.mode.HttpPost? && Inv(c, s) && Complete(c, s)
    requires forall i :: 0 <= i < |labels| ==> FriendlyMove(c.settings, labels[i])
    ensures Complete(c, RunFrom(c, s, labels))
    decreases |labels|
  {
    if labels != [] {
      StepKeeps(c, s, labels[0]);
      FriendlyStepKeeps(c, s, labels[0]);
      FriendlyRunKeeps(c, Step(c, s, labels[0]), labels[1..]);
    }
  }

  /** When every request is acknowledged in time and no allocation or handle fails, a run in HTTP mode
      ends like one on stdout: nothing is discarded, and the delivered events and those lost to overflow
      are together the accepted ones but at most the last six, each in order; without overflow the
      delivered ones are exactly these. */
  lemma HttpOutputIsTheRest(c: Setup, labels: seq<Label>)
    requires c.Ready() && c.settings.mode.HttpPost? && Run(c, labels).main.MainDone?
    requires forall i :: 0 <= i < |labels| ==> FriendlyMove(c.settings, labels[i])
    ensures var s := Run(c, labels);
      var missing := |s.queue.items|;
      && s.out.discarded == []
      && missing <= (if s.signalled then MAX_EVENTS_PER_ITERATION else 0)
      && missing <= |s.queue.log|
      && Interleaves(s.queue.lost, s.out.written, UpTo(|s.queue.log| - missing))
      && (s.queue.lost == [] ==> s.out.written == UpTo(|s.queue.log| - missing))
  {
    RunKeepsInv(c, labels);
    InitialInv(c);
    FriendlyRunKeeps(c, Initial(c), labels);
    AllIsDelivered(c, Run(c, labels));
  }

  lemma NothingElse(written: seq<nat>, batch: seq<nat>, hand: seq<nat>)
    requires batch == [] && hand == []
    ensures written + batch + hand == written
  {
  }

  lemma AllIsDelivered(c: Setup, s: State)
    requires Inv(c, s) && Complete(c, s) && s.main.MainDone?
    ensures var missing := |s.queue.items|;
      && missing <= (if s.signalled then MAX_EVENTS_PER_ITERATION else 0)
      && missing <= |s.queue.log|
      && Interleaves(s.queue.lost, s.out.written, UpTo(|s.queue.log| - missing))
      && (s.queue.lost == [] ==> s.out.written == UpTo(|s.queue.log| - missing))
  {
    NothingElse(s.out.written, s.out.batch, s.hand);
    LogIsUpTo(s.queue.log, |s.queue.log| - |s.queue.items|);
    if s.queue.lost == [] {
      NothingLost(s.out.written, UpTo(FirstQueued(s)));
    }
  }
}
