/** From event numbers to event texts.  The runs of Pipeline.dfy are about numbered events; the queue
    and output classes hold texts.  Every operation commutes with writing out the numbered events,
    so the same run on texts ends with the texts of what the run on numbers ends with. */
module Lines {
  import opened Delivery
  import opened DropOldest
  import opened Numbers
  import opened Options
  import opened Order
  import opened Outbox
  import opened Pipeline
  import opened RingQueue

  function Map<A, B>(f: A -> B, s: seq<A>): (r: seq<B>)
    ensures |r| == |s| && forall i :: 0 <= i < |s| ==> r[i] == f(s[i])
  {
    seq(|s|, i requires 0 <= i < |s| => f(s[i]))
  }

  function MapFifo<A, B>(f: A -> B, q: Fifo<A>): Fifo<B> {
    Fifo(Map(f, q.items), Map(f, q.lost), Map(f, q.taken), Map(f, q.log))
  }

  function MapPost<A, B>(f: A -> B, p: Post<A>): Post<B> {
    Post(Map(f, p.items), p.reply)
  }

  function MapPosts<A, B>(f: A -> B, ps: seq<Post<A>>): (r: seq<Post<B>>)
    ensures |r| == |ps| && forall i :: 0 <= i < |ps| ==> r[i] == MapPost(f, ps[i])
  {
    seq(|ps|, i requires 0 <= i < |ps| => MapPost(f, ps[i]))
  }

  function MapOut<A, B>(f: A -> B, o: Out<A>): Out<B> {
    Out(Map(f, o.written), Map(f, o.batch), o.startedAt, o.capacity, Map(f, o.discarded), MapPosts(f, o.posts))
  }

  lemma MapConcat<A, B>(f: A -> B, a: seq<A>, b: seq<A>)
    ensures Map(f, a + b) == Map(f, a) + Map(f, b)
  {
  }

  lemma MapSplit<A, B>(f: A -> B, s: seq<A>, n: nat)
    requires n <= |s|
    ensures Map(f, s[..n]) == Map(f, s)[..n] && Map(f, s[n..]) == Map(f, s)[n..]
  {
  }

  lemma MapAppend<A, B>(f: A -> B, s: seq<A>, e: A)
    ensures Map(f, s + [e]) == Map(f, s) + [f(e)]
  {
  }

  // ----- the queue

  lemma PutMaps<A, B>(f: A -> B, q: Fifo<A>, capacity: nat, e: A)
    requires capacity > 0
    ensures Put(MapFifo(f, q), capacity, f(e)) == MapFifo(f, Put(q, capacity, e))
  {
    MapAppend(f, q.log, e);
    if |q.items| >= capacity {
      MapSplit(f, q.items, 1);
      MapAppend(f, q.items[1..], e);
      MapAppend(f, q.lost, q.items[0]);
    } else {
      MapAppend(f, q.items, e);
    }
  }

  lemma TakeMaps<A, B>(f: A -> B, q: Fifo<A>, max: nat)
    ensures Take(MapFifo(f, q), max) == MapFifo(f, Take(q, max))
  {
    var n := Min(max, |q.items|);
    MapSplit(f, q.items, n);
    MapConcat(f, q.taken, q.items[..n]);
  }

  // ----- the output

  lemma SentMaps<A, B>(f: A -> B, posts: seq<Post<A>>, batch: seq<A>, n: nat, reply: nat -> Reply)
    ensures MapPosts(f, posts + seq(n, i requires 0 <= i => Post(batch, reply(i)))) ==
      MapPosts(f, posts) + seq(n, i requires 0 <= i => Post(Map(f, batch), reply(i)))
  {
  }

  lemma PostBatchMaps<A, B>(s: Settings, f: A -> B, o: Out<A>, env: PostEnv)
    ensures PostBatch(s, MapOut(f, o), env) == (MapOut(f, PostBatch(s, o, env).0), PostBatch(s, o, env).1)
  {
    var (verdict, attempts) := RetryFrom(env.reply, 0, s.retryMax);
    SentMaps(f, o.posts, o.batch, attempts, env.reply);
    MapConcat(f, o.written, o.batch);
    MapConcat(f, o.discarded, o.batch);
    assert o.batch == [] <==> Map(f, o.batch) == [];
    assert Map(f, []) == [];
  }

  lemma FlushMaps<A, B>(s: Settings, f: A -> B, o: Out<A>, env: PostEnv)
    ensures Flush(s, MapOut(f, o), env) == (MapOut(f, Flush(s, o, env).0), Flush(s, o, env).1)
  {
    PostBatchMaps(s, f, o, env);
  }

  lemma ShutdownMaps<A, B>(s: Settings, f: A -> B, o: Out<A>, env: PostEnv)
    ensures Shutdown(s, MapOut(f, o), env) == MapOut(f, Shutdown(s, o, env))
  {
    FlushMaps(s, f, o, env);
    var flushed := Flush(s, o, env).0;
    MapConcat(f, flushed.discarded, flushed.batch);
    assert Map(f, []) == [];
  }

  lemma RefuseMaps<A, B>(f: A -> B, o: Out<A>, e: A)
    ensures Refuse(MapOut(f, o), f(e)) == (MapOut(f, Refuse(o, e).0), -1)
  {
    MapAppend(f, o.discarded, e);
  }

  lemma MaybeFlushMaps<A, B>(s: Settings, f: A -> B, o: Out<A>, env: PostEnv, now: Option<real>)
    ensures MaybeFlush(s, MapOut(f, o), env, now) ==
      (MapOut(f, MaybeFlush(s, o, env, now).0), MaybeFlush(s, o, env, now).1)
  {
    PostBatchMaps(s, f, o, env);
    assert o.batch == [] <==> Map(f, o.batch) == [];
  }

  lemma StoreMaps<A, B>(s: Settings, f: A -> B, o: Out<A>, e: A, env: EmitEnv)
    ensures Store(s, MapOut(f, o), f(e), env) == (MapOut(f, Store(s, o, e, env).0), Store(s, o, e, env).1)
  {
    var started := Started(o, env.startClock);
    var roomy := started.(capacity := EnsuredCapacity(o.capacity, |o.batch| + 1));
    var added := roomy.(batch := o.batch + [e]);
    RefuseMaps(f, started, e);
    RefuseMaps(f, roomy, e);
    MapAppend(f, o.batch, e);
    PostBatchMaps(s, f, added, env.late);
  }

  lemma EmitMaps<A, B>(s: Settings, f: A -> B, o: Out<A>, e: A, env: EmitEnv)
    ensures Emit(s, MapOut(f, o), f(e), env) == (MapOut(f, Emit(s, o, e, env).0), Emit(s, o, e, env).1)
  {
    MapAppend(f, o.written, e);
    RefuseMaps(f, o, e);
    MaybeFlushMaps(s, f, o, env.early, env.now);
    var flushed := MaybeFlush(s, o, env.early, env.now).0;
    RefuseMaps(f, flushed, e);
    StoreMaps(s, f, flushed, e, env);
  }

  // ----- whole runs

  /** The event texts held by the queue, the output and the delivery thread. */
  datatype Texts = Texts(queue: Fifo<string>, out: Out<string>, hand: seq<string>)

  function Written(text: nat -> string, s: State): Texts {
    Texts(MapFifo(text, s.queue), MapOut(text, s.out), Map(text, s.hand))
  }

  /** No text is refused by the queue for its size. */
  ghost predicate AllAccepted(text: nat -> string) {
    forall k :: Accepted(text(k))
  }

  /** What one move does to the texts; `text(k)` is what the collector builds for its k-th event.
      The calls are the ones that the queue and output classes are proved to make. */
  function TextStep(c: Setup, s: State, l: Label, text: nat -> string, t: Texts): Texts
    requires c.Ready()
  {
    if !Enabled(s, l) then t
    else
      match l
      case Collect(_, sampled) =>
        if Sends(s.collector, sampled) then t.(queue := Offer(t.queue, c.capacity, text(|t.queue.log|))) else t
      case Deliver(emit, flush) =>
        (match s.delivery
         case Taking =>
           t.(queue := Take(t.queue, c.chunk), hand := t.queue.items[..Min(c.chunk, |t.queue.items|)])
         case Handing =>
           if t.hand == [] then t
           else t.(out := Emit(c.settings, t.out, t.hand[0], emit).0, hand := t.hand[1..])
         case Flushing => t.(out := Flush(c.settings, t.out, flush).0)
         case FinalFlush => t.(out := Flush(c.settings, t.out, flush).0)
         case _ => t)
      case Advance(flush) => if s.main.ShutOutput? then t.(out := Shutdown(c.settings, t.out, flush)) else t
      case Signal => t
  }

  lemma TakingMaps(c: Setup, s: State, emit: EmitEnv, flush: PostEnv, text: nat -> string)
    requires c.Ready() && s.delivery.Taking?
    ensures TextStep(c, s, Deliver(emit, flush), text, Written(text, s)) ==
      Written(text, DeliverStep(c, s, emit, flush))
  {
    TakeMaps(text, s.queue, c.chunk);
    MapSplit(text, s.queue.items, Min(c.chunk, |s.queue.items|));
  }

  lemma HandingMaps(c: Setup, s: State, emit: EmitEnv, flush: PostEnv, text: nat -> string)
    requires c.Ready() && s.delivery.Handing?
    ensures TextStep(c, s, Deliver(emit, flush), text, Written(text, s)) ==
      Written(text, DeliverStep(c, s, emit, flush))
  {
    if s.hand != [] {
      EmitMaps(c.settings, text, s.out, s.hand[0], emit);
      MapSplit(text, s.hand, 1);
    }
  }

  lemma DeliverMaps(c: Setup, s: State, emit: EmitEnv, flush: PostEnv, text: nat -> string)
    requires c.Ready() && !s.delivery.DeliveryDone?
    ensures TextStep(c, s, Deliver(emit, flush), text, Written(text, s)) ==
      Written(text, DeliverStep(c, s, emit, flush))
  {
    match s.delivery
    case Taking => TakingMaps(c, s, emit, flush, text);
    case Handing => HandingMaps(c, s, emit, flush, text);
    case Flushing => FlushMaps(c.settings, text, s.out, flush);
    case FinalFlush => FlushMaps(c.settings, text, s.out, flush);
    case _ =>
  }

  lemma CollectMaps(c: Setup, s: State, interrupted: bool, sampled: bool, text: nat -> string)
    requires c.Ready() && !s.collector.CollectorDone?
    requires AllAccepted(text)
    ensures TextStep(c, s, Collect(interrupted, sampled), text, Written(text, s)) ==
      Written(text, CollectStep(c, s, interrupted, sampled))
  {
    PutMaps(text, s.queue, c.capacity, |s.queue.log|);
    assert Accepted(text(|s.queue.log|));
  }

  lemma StepMaps(c: Setup, s: State, l: Label, text: nat -> string)
    requires c.Ready()
    requires AllAccepted(text)
    ensures TextStep(c, s, l, text, Written(text, s)) == Written(text, Step(c, s, l))
  {
    if Enabled(s, l) {
      match l
      case Collect(interrupted, sampled) => CollectMaps(c, s, interrupted, sampled, text);
      case Deliver(emit, flush) => DeliverMaps(c, s, emit, flush, text);
      case Advance(flush) => ShutdownMaps(c.settings, text, s.out, flush);
      case Signal =>
    }
  }

  function TextRun(c: Setup, s: State, labels: seq<Label>, text: nat -> string, t: Texts): Texts
    requires c.Ready()
    decreases |labels|
  {
    if labels == [] then t
    else TextRun(c, Step(c, s, labels[0]), labels[1..], text, TextStep(c, s, labels[0], text, t))
  }

  /** Any run on texts that pass the queue's size test ends with the texts of the run on numbers. */
  lemma {:induction false} RunMaps(c: Setup, s: State, labels: seq<Label>, text: nat -> string)
    requires c.Ready()
    requires AllAccepted(text)
    ensures TextRun(c, s, labels, text, Written(text, s)) == Written(text, RunFrom(c, s, labels))
    decreases |labels|
  {
    if labels != [] {
      StepMaps(c, s, labels[0], text);
      RunMaps(c, Step(c, s, labels[0]), labels[1..], text);
    }
  }

  lemma {:induction false} InterleavesMaps<A, B>(f: A -> B, a: seq<A>, b: seq<A>, whole: seq<A>)
    requires Interleaves(a, b, whole)
    ensures Interleaves(Map(f, a), Map(f, b), Map(f, whole))
    decreases |whole|
  {
    if whole != [] {
      var n := |whole| - 1;
      MapSplit(f, whole, n);
      if a != [] && a[|a| - 1] == whole[n] && Interleaves(a[..|a| - 1], b, whole[..n]) {
        MapSplit(f, a, |a| - 1);
        InterleavesMaps(f, a[..|a| - 1], b, whole[..n]);
      } else {
        MapSplit(f, b, |b| - 1);
        InterleavesMaps(f, a, b[..|b| - 1], whole[..n]);
      }
    }
  }

  /** The lines on stdout or in the file when the program ends: with the lines lost to overflow they
      make up the texts built by the collector, in order, less at most the last six; without
      overflow they are these texts. */
  lemma PrintedLines(c: Setup, labels: seq<Label>, text: nat -> string)
    requires c.Ready() && !c.settings.mode.HttpPost? && Run(c, labels).main.MainDone?
    requires AllAccepted(text)
    ensures var t := TextRun(c, Initial(c), labels, text, Texts(Empty(), Fresh(c.settings), []));
      var missing := |t.queue.items|;
      && missing <= (if Run(c, labels).signalled then MAX_EVENTS_PER_ITERATION else 0)
      && missing <= |t.queue.log|
      && Interleaves(t.queue.lost, t.out.written, Map(text, UpTo(|t.queue.log| - missing)))
      && (t.queue.lost == [] ==> t.out.written == Map(text, UpTo(|t.queue.log| - missing)))
  {
    var s := Run(c, labels);
    assert Written(text, Initial(c)) == Texts(Empty(), Fresh(c.settings), []);
    RunMaps(c, Initial(c), labels, text);
    LocalOutputIsTheRest(c, labels);
    InterleavesMaps(text, s.queue.lost, s.out.written, UpTo(|s.queue.log| - |s.queue.items|));
    if s.queue.lost == [] {
      NothingLost(s.out.written, UpTo(|s.queue.log| - |s.queue.items|));
    }
  }
}
