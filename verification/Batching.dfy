/** When the HTTP output posts, and what: the size and age rules of a batch, the meaning of the
    receiver's status codes, and the requests that one round of the delivery thread makes. */
module Batching {
  import opened Delivery
  import opened Numbers
  import opened Options
  import opened Outbox
  import opened Pipeline

  // ----- status codes

  /** The codes after which a call tries again. */
  predicate IsRetried(reply: Reply) {
    reply.Status? ==> reply.code < 200 || 300 <= reply.code < 400 || reply.code == 429 || 500 <= reply.code
  }

  /** How a call that posts a batch ends, by the codes it is answered: 200 to 299 delivers the batch, 400 to
      499 other than 429 discards it with return code 0, and after anything else, or no answer, the call
      tries again, up to retryMax + 1 times in all, before it discards the batch with return code -1. */
  ghost predicate EndsByStatus<T>(s: Settings, o: Out<T>, env: PostEnv, r: Out<T>, rc: int) {
    && o.posts <= r.posts && 1 <= |r.posts| - |o.posts| <= s.retryMax + 1
    && r.batch == [] && r.startedAt == None && r.capacity == o.capacity
    && (var made := |r.posts| - |o.posts|;
        var last := env.reply(made - 1);
        && (forall i :: 0 <= i < made ==> r.posts[|o.posts| + i] == Post(o.batch, env.reply(i)))
        && (forall i :: 0 <= i < made - 1 ==> IsRetried(env.reply(i)))
        && (if last.Status? && 200 <= last.code <= 299 then
              rc == 0 && r.written == o.written + o.batch && r.discarded == o.discarded
            else if last.Status? && 400 <= last.code <= 499 && last.code != 429 then
              rc == 0 && r.written == o.written && r.discarded == o.discarded + o.batch
            else
              && rc == -1 && made == s.retryMax + 1
              && r.written == o.written && r.discarded == o.discarded + o.batch))
  }

  /** The same for the loop alone: its verdict and the number of its attempts. */
  lemma RetryByStatus(reply: nat -> Reply, retryMax: nat)
    ensures 1 <= RetryFrom(reply, 0, retryMax).1 <= retryMax + 1
    ensures var (verdict, n) := RetryFrom(reply, 0, retryMax);
      var last := reply(n - 1);
      && (forall i :: 0 <= i < n - 1 ==> IsRetried(reply(i)))
      && (if last.Status? && 200 <= last.code <= 299 then verdict.Delivered?
          else if last.Status? && 400 <= last.code <= 499 && last.code != 429 then verdict.Refused?
          else verdict.GaveUp? && n == retryMax + 1)
  {
    RetryEndsAtFirstDecision(reply, 0, retryMax);
  }

  /** The rest of the call: the requests of the loop, and where its verdict puts the batch. */
  ghost predicate EndsByVerdict<T>(o: Out<T>, env: PostEnv, verdict: Verdict, n: nat, r: Out<T>, rc: int) {
    && r.batch == [] && r.startedAt == None && r.capacity == o.capacity
    && o.posts <= r.posts && |r.posts| == |o.posts| + n
    && (forall i :: 0 <= i < n ==> r.posts[|o.posts| + i] == Post(o.batch, env.reply(i)))
    && rc == (if verdict.GaveUp? then -1 else 0)
    && (if verdict.Delivered? then r.written == o.written + o.batch && r.discarded == o.discarded
        else r.written == o.written && r.discarded == o.discarded + o.batch)
  }

  lemma PostBatchByVerdict<T>(s: Settings, o: Out<T>, env: PostEnv)
    requires o.batch != [] && env.bodyAllocated && env.curlCreated
    ensures var (verdict, n) := RetryFrom(env.reply, 0, s.retryMax);
      var (r, rc) := PostBatch(s, o, env);
      EndsByVerdict(o, env, verdict, n, r, rc)
  {
    var (verdict, n) := RetryFrom(env.reply, 0, s.retryMax);
    RequestsAppended(o.posts, o.batch, n, env.reply);
    var r := PostBatch(s, o, env).0;
    assert r.posts == o.posts + Requests(o.batch, n, env.reply);
  }

  function Requests<T>(batch: seq<T>, n: nat, reply: nat -> Reply): seq<Post<T>> {
    seq(n, i requires 0 <= i => Post(batch, reply(i)))
  }

  lemma RequestsAppended<T>(before: seq<Post<T>>, batch: seq<T>, n: nat, reply: nat -> Reply)
    ensures var after := before + Requests(batch, n, reply);
      && before <= after && |after| == |before| + n
      && forall i :: 0 <= i < n ==> after[|before| + i] == Post(batch, reply(i))
  {
  }

  lemma VerdictIsByStatus<T>(s: Settings, o: Out<T>, env: PostEnv, verdict: Verdict, n: nat, r: Out<T>, rc: int)
    requires (verdict, n) == RetryFrom(env.reply, 0, s.retryMax) && EndsByVerdict(o, env, verdict, n, r, rc)
    ensures EndsByStatus(s, o, env, r, rc)
  {
    RetryByStatus(env.reply, s.retryMax);
  }

  lemma PostBatchByStatus<T>(s: Settings, o: Out<T>, env: PostEnv)
    requires o.batch != [] && env.bodyAllocated && env.curlCreated
    ensures var (r, rc) := PostBatch(s, o, env); EndsByStatus(s, o, env, r, rc)
  {
    PostBatchByVerdict(s, o, env);
    var (verdict, n) := RetryFrom(env.reply, 0, s.retryMax);
    var (r, rc) := PostBatch(s, o, env);
    VerdictIsByStatus(s, o, env, verdict, n, r, rc);
  }

  // ----- one emit

  /** As long as the batch with the new event is not full, and the batch is empty or a clock is missing or
      the interval is not over, nothing is posted: the event joins the batch, or is discarded when memory
      fails.  The batch keeps the time of its first event. */
  lemma QuietEmit<T>(s: Settings, o: Out<T>, e: T, env: EmitEnv)
    requires s.mode.HttpPost? && s.Ready() && |o.batch| + 1 < s.batchSize
    requires || o.batch == [] || o.startedAt.None? || env.now.None?
             || env.now.value - o.startedAt.value < s.intervalSeconds as real
    ensures var (r, rc) := Emit(s, o, e, env);
      && r.posts == o.posts && r.written == o.written
      && r.startedAt == (if o.startedAt.Some? then o.startedAt else env.startClock)
      && (if (|o.batch| < o.capacity || env.grown) && env.copied then
            rc == 0 && r.batch == o.batch + [e] && r.discarded == o.discarded
          else rc == -1 && r.batch == o.batch && r.discarded == o.discarded + [e])
  {
  }

  /** The event that fills the batch is posted with it at once; without a body or a handle it waits in the
      batch. */
  lemma FillingEmit<T>(s: Settings, o: Out<T>, e: T, env: EmitEnv)
    requires s.mode.HttpPost? && s.Ready() && |o.batch| + 1 == s.batchSize
    requires || o.batch == [] || o.startedAt.None? || env.now.None?
             || env.now.value - o.startedAt.value < s.intervalSeconds as real
    requires (|o.batch| < o.capacity || env.grown) && env.copied
    ensures var (r, rc) := Emit(s, o, e, env);
      if env.late.bodyAllocated && env.late.curlCreated then EndsByStatus(s, Filled(o, e, env), env.late, r, rc)
      else
        && rc == -1 && r.posts == o.posts && r.batch == o.batch + [e]
        && r.written == o.written && r.discarded == o.discarded
  {
    FillingIsAPost(s, o, e, env);
    if env.late.bodyAllocated && env.late.curlCreated {
      PostBatchByStatus(s, Filled(o, e, env), env.late);
    }
  }

  /** The output with one more event in the batch. */
  function Filled<T>(o: Out<T>, e: T, env: EmitEnv): (r: Out<T>)
    ensures r.batch == o.batch + [e] && r.posts == o.posts && r.written == o.written && r.discarded == o.discarded
  {
    Started(o, env.startClock).(capacity := EnsuredCapacity(o.capacity, |o.batch| + 1), batch := o.batch + [e])
  }

  lemma FillingIsAPost<T>(s: Settings, o: Out<T>, e: T, env: EmitEnv)
    requires s.mode.HttpPost? && s.Ready() && |o.batch| + 1 == s.batchSize
    requires || o.batch == [] || o.startedAt.None? || env.now.None?
             || env.now.value - o.startedAt.value < s.intervalSeconds as real
    requires (|o.batch| < o.capacity || env.grown) && env.copied
    ensures Emit(s, o, e, env) == PostBatch(s, Filled(o, e, env), env.late)
  {
  }

  /** A batch that is full or as old as the interval is posted before the event is looked at.  When that
      fails the event is discarded; when the batch was answered or rejected the event is emitted to the
      empty batch. */
  lemma DueEmit<T>(s: Settings, o: Out<T>, e: T, env: EmitEnv)
    requires s.mode.HttpPost? && s.Ready() && o.batch != []
    requires || |o.batch| >= s.batchSize
             || (o.startedAt.Some? && env.now.Some?
                 && env.now.value - o.startedAt.value >= s.intervalSeconds as real)
    ensures var (p, posted) := PostBatch(s, o, env.early);
      var (r, rc) := Emit(s, o, e, env);
      && (env.early.bodyAllocated && env.early.curlCreated ==>
            |r.posts| > |o.posts| && r.posts[|o.posts|] == Post(o.batch, env.early.reply(0)))
      && (posted != 0 ==> rc == -1 && r == p.(discarded := p.discarded + [e]))
      && (posted == 0 ==> p.batch == [] && p.startedAt == None && (r, rc) == Emit(s, p, e, env))
  {
    PostBatchOutcome(s, o, env.early);
    if env.early.bodyAllocated && env.early.curlCreated {
      PostBatchByStatus(s, o, env.early);
      StoreOnlyAppendsPosts(s, PostBatch(s, o, env.early).0, e, env);
    }
  }

  lemma StoreOnlyAppendsPosts<T>(s: Settings, o: Out<T>, e: T, env: EmitEnv)
    ensures o.posts <= Store(s, o, e, env).0.posts
  {
    PostBatchOutcome(s, Filled(o, e, env), env.late);
  }

  /** The local outputs: one line per event at once, and no other effect; without an open file the event
      is discarded. */
  lemma LocalEmit<T>(s: Settings, o: Out<T>, e: T, env: EmitEnv)
    requires !s.mode.HttpPost?
    ensures var (r, rc) := Emit(s, o, e, env);
      if s.mode.File? && !s.fileOpen then rc == -1 && r == o.(discarded := o.discarded + [e])
      else rc == 0 && r == o.(written := o.written + [e])
  {
  }

  // ----- a round of events

  /** Emitting events one after the other. */
  function EmitAll<T>(s: Settings, o: Out<T>, es: seq<T>, envs: seq<EmitEnv>): Out<T>
    requires |es| == |envs|
    decreases |es|
  {
    if es == [] then o else EmitAll(s, Emit(s, o, es[0], envs[0]).0, es[1..], envs[1..])
  }

  /** Memory is there, and the first answer acknowledges. */
  ghost predicate Acknowledged(env: PostEnv) {
    env.bodyAllocated && env.curlCreated && env.reply(0).Status? && 200 <= env.reply(0).code <= 299
  }

  ghost predicate Smooth(envs: seq<EmitEnv>) {
    forall i :: 0 <= i < |envs| ==> envs[i].grown && envs[i].copied && Acknowledged(envs[i].late)
  }

  /** No reading of the clock is an interval later than `started`. */
  ghost predicate InTime(started: Option<real>, envs: seq<EmitEnv>, seconds: nat) {
    started.Some? ==>
      forall i :: 0 <= i < |envs| && envs[i].now.Some? ==> envs[i].now.value - started.value < seconds as real
  }

  /** Nor later than any time at which a batch starts. */
  ghost predicate Prompt(envs: seq<EmitEnv>, seconds: nat) {
    forall i :: 0 <= i < |envs| ==> InTime(envs[i].startClock, envs, seconds)
  }

  /** As many full chunks as there are. */
  function FullChunks<T>(es: seq<T>, size: nat): seq<seq<T>>
    requires size > 0
  {
    if |es| < size then [] else [es[..size]] + FullChunks(es[size..], size)
  }

  function Remainder<T>(es: seq<T>, size: nat): (r: seq<T>)
    requires size > 0
    ensures |r| < size
  {
    if |es| < size then es else Remainder(es[size..], size)
  }

  /** The items of the requests from number `from` on. */
  function Carried<T>(posts: seq<Post<T>>, from: nat): (r: seq<seq<T>>)
    requires from <= |posts|
    ensures |r| == |posts| - from && forall i :: 0 <= i < |r| ==> r[i] == posts[from + i].items
  {
    seq(|posts| - from, i requires 0 <= i < |posts| - from => posts[from + i].items)
  }

  lemma PromptLater(envs: seq<EmitEnv>, started: Option<real>, seconds: nat)
    requires envs != [] && Smooth(envs) && Prompt(envs, seconds) && InTime(started, envs, seconds)
    ensures Smooth(envs[1..]) && Prompt(envs[1..], seconds)
    ensures InTime(started, envs[1..], seconds) && InTime(envs[0].startClock, envs[1..], seconds)
  {
    forall i | 0 <= i < |envs[1..]|
      ensures InTime(envs[1..][i].startClock, envs[1..], seconds)
    {
      assert InTime(envs[i + 1].startClock, envs, seconds);
    }
    assert InTime(envs[0].startClock, envs, seconds);
  }

  /** What holds of the output between two events of a smooth round. */
  ghost predicate Underway<T>(s: Settings, o: Out<T>, envs: seq<EmitEnv>) {
    |o.batch| < s.batchSize && InTime(o.startedAt, envs, s.intervalSeconds)
  }

  /** One event of such a round. */
  lemma SmoothEmit<T>(s: Settings, o: Out<T>, e: T, envs: seq<EmitEnv>)
    requires s.mode.HttpPost? && s.Ready() && envs != [] && Underway(s, o, envs)
    requires Smooth(envs) && Prompt(envs, s.intervalSeconds)
    ensures var r := Emit(s, o, e, envs[0]).0;
      && Underway(s, r, envs[1..]) && r.discarded == o.discarded && r.written + r.batch == o.written + o.batch + [e]
      && (if |o.batch| + 1 < s.batchSize then r.posts == o.posts && r.batch == o.batch + [e]
          else r.posts == o.posts + [Post(o.batch + [e], envs[0].late.reply(0))] && r.batch == [])
  {
    PromptLater(envs, o.startedAt, s.intervalSeconds);
    if |o.batch| + 1 < s.batchSize {
      QuietEmit(s, o, e, envs[0]);
    } else {
      FillingEmit(s, o, e, envs[0]);
      FillingIsAPost(s, o, e, envs[0]);
      PostBatchByStatus(s, Filled(o, e, envs[0]), envs[0].late);
      OnePost(o.posts, PostBatch(s, Filled(o, e, envs[0]), envs[0].late).0.posts);
    }
  }

  lemma OnePost<T>(before: seq<Post<T>>, after: seq<Post<T>>)
    requires before <= after && |after| == |before| + 1
    ensures after == before + [after[|before|]]
  {
  }

  lemma FirstChunk<T>(chunk: seq<T>, rest: seq<T>, size: nat)
    requires |chunk| == size > 0
    ensures FullChunks(chunk + rest, size) == [chunk] + FullChunks(rest, size)
    ensures Remainder(chunk + rest, size) == Remainder(rest, size)
  {
    assert (chunk + rest)[..size] == chunk && (chunk + rest)[size..] == rest;
  }

  lemma OneMoreCarried<T>(posts: seq<Post<T>>, p: Post<T>, all: seq<Post<T>>)
    requires posts + [p] <= all
    ensures Carried(all, |posts|) == [p.items] + Carried(all, |posts| + 1)
  {
    assert all[|posts|] == (posts + [p])[|posts|];
  }

  lemma Associative<T>(a: seq<T>, b: seq<T>, c: seq<T>)
    ensures a + b + c == a + (b + c)
  {
  }

  /** A whole round: full batches are posted as they fill up, in order. */
  lemma {:induction false} SmoothRound<T>(s: Settings, o: Out<T>, es: seq<T>, envs: seq<EmitEnv>)
    requires s.mode.HttpPost? && s.Ready() && |es| == |envs| && Underway(s, o, envs)
    requires Smooth(envs) && Prompt(envs, s.intervalSeconds)
    ensures var r := EmitAll(s, o, es, envs);
      && o.posts <= r.posts && Carried(r.posts, |o.posts|) == FullChunks(o.batch + es, s.batchSize)
      && r.batch == Remainder(o.batch + es, s.batchSize)
      && r.discarded == o.discarded && r.written + r.batch == o.written + (o.batch + es)
    decreases |es|
  {
    if es == [] {
      assert o.batch + es == o.batch;
    } else {
      var e, rest := es[0], es[1..];
      var next := Emit(s, o, e, envs[0]).0;
      SmoothEmit(s, o, e, envs);
      PromptLater(envs, o.startedAt, s.intervalSeconds);
      SmoothRound(s, next, rest, envs[1..]);
      assert es == [e] + rest;
      Associative(o.batch, [e], rest);
      Associative(o.written, o.batch + [e], rest);
      Associative(o.written, o.batch, [e]);
      Associative(next.written, next.batch, rest);
      if |o.batch| + 1 == s.batchSize {
        FirstChunk(o.batch + [e], rest, s.batchSize);
        assert [] + rest == rest;
        OneMoreCarried(o.posts, Post(o.batch + [e], envs[0].late.reply(0)), EmitAll(s, o, es, envs).posts);
      }
    }
  }

  // ----- a round of the delivery thread

  /** Chunks of `size`, the last one of what is left. */
  function Chunks<T>(es: seq<T>, size: nat): seq<seq<T>>
    requires size > 0
  {
    FullChunks(es, size) + (if Remainder(es, size) == [] then [] else [Remainder(es, size)])
  }

  function Flat<T>(chunks: seq<seq<T>>): seq<T> {
    if chunks == [] then [] else chunks[0] + Flat(chunks[1..])
  }

  lemma ChunksNext<T>(es: seq<T>, size: nat)
    requires size > 0
    ensures Chunks(es, size) ==
      if es == [] then [] else if |es| < size then [es] else [es[..size]] + Chunks(es[size..], size)
  {
    if |es| >= size {
      assert FullChunks(es, size) == [es[..size]] + FullChunks(es[size..], size);
    }
  }

  /** The chunks are the whole, in order; all but the last are full, and none is empty; so there are as
      many as the size goes into the number of items, rounded up. */
  lemma {:induction false} ChunksAreTheWhole<T>(es: seq<T>, size: nat)
    requires size > 0
    ensures var chunks := Chunks(es, size);
      && Flat(chunks) == es
      && (forall i :: 0 <= i < |chunks| ==> 1 <= |chunks[i]| <= size)
      && (forall i :: 0 <= i < |chunks| - 1 ==> |chunks[i]| == size)
      && |chunks| == RoundsFor(|es|, size)
    decreases |es|
  {
    ChunksNext(es, size);
    if |es| >= size {
      ChunksAreTheWhole(es[size..], size);
      FlatNext(es[..size], Chunks(es[size..], size));
      assert es == es[..size] + es[size..];
      assert |es| - Min(size, |es|) == |es[size..]|;
    } else if es != [] {
      FlatNext(es, []);
      assert es + [] == es && [es] + [] == [es];
      assert RoundsFor(0, size) == 0 && |es| - Min(size, |es|) == 0;
    }
  }

  lemma FlatNext<T>(first: seq<T>, rest: seq<seq<T>>)
    ensures Flat([first] + rest) == first + Flat(rest)
  {
    assert ([first] + rest)[1..] == rest;
  }

  /** Emitting all and flushing makes one request for each chunk. */
  lemma RoundAndFlush<T>(s: Settings, o: Out<T>, es: seq<T>, envs: seq<EmitEnv>, flush: PostEnv)
    requires s.mode.HttpPost? && s.Ready() && |es| == |envs| && o.batch == []
    requires InTime(o.startedAt, envs, s.intervalSeconds) && Smooth(envs) && Prompt(envs, s.intervalSeconds)
    requires Acknowledged(flush)
    ensures var r := Flush(s, EmitAll(s, o, es, envs), flush).0;
      && o.posts <= r.posts && Carried(r.posts, |o.posts|) == Chunks(es, s.batchSize)
      && r.batch == [] && r.written == o.written + es && r.discarded == o.discarded
  {
    SmoothRound(s, o, es, envs);
    assert o.batch + es == es;
    var m := EmitAll(s, o, es, envs);
    if m.batch == [] {
      assert m.written + [] == m.written;
    } else {
      PostBatchByStatus(s, m, flush);
      OnePost(m.posts, PostBatch(s, m, flush).0.posts);
      LastCarried(m.posts, Post(m.batch, flush.reply(0)), |o.posts|);
    }
  }

  lemma LastCarried<T>(posts: seq<Post<T>>, p: Post<T>, from: nat)
    requires from <= |posts|
    ensures Carried(posts + [p], from) == Carried(posts, from) + [p.items]
  {
  }

  /** The moves of the delivery thread among others. */
  function Deliveries(labels: seq<Label>): (r: seq<Label>)
    ensures forall i :: 0 <= i < |r| ==> r[i].Deliver?
  {
    if labels == [] then [] else (if labels[0].Deliver? then [labels[0]] else []) + Deliveries(labels[1..])
  }

  function Emits(moves: seq<Label>): (r: seq<EmitEnv>)
    requires forall i :: 0 <= i < |moves| ==> moves[i].Deliver?
    ensures |r| == |moves|
  {
    seq(|moves|, i requires 0 <= i < |moves| => moves[i].emit)
  }

  lemma OthersLeaveTheOutput(c: Setup, s: State, l: Label)
    requires c.Ready() && Control(s) && !s.delivery.DeliveryDone? && !l.Deliver?
    ensures var r := Step(c, s, l); r.out == s.out && r.hand == s.hand && r.delivery == s.delivery
  {
  }

  lemma {:induction false} NothingDelivered(c: Setup, s: State, labels: seq<Label>)
    requires c.Ready() && Inv(c, s) && !s.delivery.DeliveryDone? && Deliveries(labels) == []
    ensures var r := RunFrom(c, s, labels); r.out == s.out && r.delivery == s.delivery
    decreases |labels|
  {
    if labels != [] {
      StepKeeps(c, s, labels[0]);
      OthersLeaveTheOutput(c, s, labels[0]);
      NothingDelivered(c, Step(c, s, labels[0]), labels[1..]);
    }
  }

  /** In the middle of a round, `left` moves before its end. */
  ghost predicate InRound(s: State, left: nat) {
    (s.delivery.Handing? && s.hand != [] && left == |s.hand| + 1) || (s.delivery.Flushing? && s.hand == [] && left == 1)
  }

  /** What the rest of a round does to the output, whatever moves of other threads come in. */
  ghost function RoundOut(c: Setup, s: State, moves: seq<Label>): Out<nat>
    requires |moves| == |s.hand| + 1 && forall i :: 0 <= i < |moves| ==> moves[i].Deliver?
  {
    Flush(c.settings, EmitAll(c.settings, s.out, s.hand, Emits(moves[..|s.hand|])), moves[|s.hand|].flush).0
  }

  lemma EmitsNext(moves: seq<Label>, n: nat)
    requires 0 < n <= |moves| && forall i :: 0 <= i < |moves| ==> moves[i].Deliver?
    ensures Emits(moves[..n])[0] == moves[0].emit && Emits(moves[..n])[1..] == Emits(moves[1..][..n - 1])
  {
  }

  /** One move of delivery in a round. */
  lemma RoundMove(c: Setup, s: State, moves: seq<Label>)
    requires c.Ready() && InRound(s, |moves|) && forall i :: 0 <= i < |moves| ==> moves[i].Deliver?
    ensures |moves| == |s.hand| + 1
    ensures var r := DeliverStep(c, s, moves[0].emit, moves[0].flush);
      if |moves| == 1 then r.delivery.ReadStop? && r.out == RoundOut(c, s, moves)
      else InRound(r, |moves| - 1) && RoundOut(c, r, moves[1..]) == RoundOut(c, s, moves)
  {
    if |moves| > 1 {
      EmitsNext(moves, |s.hand|);
    }
  }

  /** The first delivery among these moves. */
  lemma DeliveriesNext(labels: seq<Label>)
    requires labels != []
    ensures Deliveries(labels) ==
      if labels[0].Deliver? then [labels[0]] + Deliveries(labels[1..]) else Deliveries(labels[1..])
  {
    assert [] + Deliveries(labels[1..]) == Deliveries(labels[1..]);
  }

  /** A move of another thread leaves the round where it is. */
  lemma OthersLeaveTheRound(c: Setup, s: State, l: Label, moves: seq<Label>)
    requires c.Ready() && Control(s) && InRound(s, |moves|) && !l.Deliver?
    requires |moves| == |s.hand| + 1 && forall i :: 0 <= i < |moves| ==> moves[i].Deliver?
    ensures var r := Step(c, s, l); InRound(r, |moves|) && RoundOut(c, r, moves) == RoundOut(c, s, moves)
  {
    OthersLeaveTheOutput(c, s, l);
  }

  lemma DeliveryMoves(c: Setup, s: State, l: Label)
    requires c.Ready() && l.Deliver? && (s.delivery.Handing? || s.delivery.Flushing?)
    ensures Step(c, s, l) == DeliverStep(c, s, l.emit, l.flush)
  {
  }

  lemma {:induction false} RoundRuns(c: Setup, s: State, labels: seq<Label>)
    requires c.Ready() && Inv(c, s) && InRound(s, |Deliveries(labels)|)
    ensures |Deliveries(labels)| == |s.hand| + 1
    ensures RunFrom(c, s, labels).delivery.ReadStop?
    ensures RunFrom(c, s, labels).out == RoundOut(c, s, Deliveries(labels))
    decreases |labels|, 0
  {
    var l, r, moves := labels[0], Step(c, s, labels[0]), Deliveries(labels);
    StepKeeps(c, s, l);
    DeliveriesNext(labels);
    if !l.Deliver? {
      OthersLeaveTheRound(c, s, l, moves);
      RoundRuns(c, r, labels[1..]);
    } else {
      RoundMove(c, s, moves);
      DeliveryMoves(c, s, l);
      RoundGoesOn(c, r, labels[1..]);
    }
  }

  /** What is left of a round after one of its moves: nothing, or a shorter round. */
  lemma {:induction false} RoundGoesOn(c: Setup, s: State, labels: seq<Label>)
    requires c.Ready() && Inv(c, s)
    requires (s.delivery.ReadStop? && Deliveries(labels) == []) || InRound(s, |Deliveries(labels)|)
    ensures RunFrom(c, s, labels).delivery.ReadStop?
    ensures if Deliveries(labels) == [] then RunFrom(c, s, labels).out == s.out
            else |Deliveries(labels)| == |s.hand| + 1 && RunFrom(c, s, labels).out == RoundOut(c, s, Deliveries(labels))
    decreases |labels|, 1
  {
    if Deliveries(labels) == [] {
      NothingDelivered(c, s, labels);
    } else {
      RoundRuns(c, s, labels);
    }
  }

  /** A round that drains n events into an empty batch, in which memory is there, first answers
      acknowledge and the clock stays within the interval, ends with an empty batch after
      ceil(n / batchSize) requests: all of them full but the last, and together the drained events, in
      order.  Moves of other threads may come in anywhere. */
  lemma RoundMakesFullRequests(c: Setup, before: seq<Label>, labels: seq<Label>)
    requires c.Ready() && c.settings.mode.HttpPost?
    requires var s, moves := Run(c, before), Deliveries(labels);
      && s.delivery.Handing? && s.out.batch == [] && |moves| == |s.hand| + 1
      && Smooth(Emits(moves[..|s.hand|])) && Prompt(Emits(moves[..|s.hand|]), c.settings.intervalSeconds)
      && InTime(s.out.startedAt, Emits(moves[..|s.hand|]), c.settings.intervalSeconds)
      && Acknowledged(moves[|s.hand|].flush)
    ensures var s, o := Run(c, before), RunFrom(c, Run(c, before), labels).out;
      && s.out.posts <= o.posts
      && (var made := Carried(o.posts, |s.out.posts|);
          && Flat(made) == s.hand
          && |made| == RoundsFor(|s.hand|, c.settings.batchSize)
          && forall i :: 0 <= i < |made| - 1 ==> |made[i]| == c.settings.batchSize)
      && o.batch == [] && o.written == s.out.written + s.hand
  {
    RunKeepsInv(c, before);
    var s, moves := Run(c, before), Deliveries(labels);
    RoundRuns(c, s, labels);
    RoundAndFlush(c.settings, s.out, s.hand, Emits(moves[..|s.hand|]), moves[|s.hand|].flush);
    ChunksAreTheWhole(s.hand, c.settings.batchSize);
  }

  // ----- flushes

  /** What a flush of a batch that is not empty does. */
  ghost predicate Flushed(o: Out<nat>, r: Out<nat>, env: PostEnv) {
    r.batch == [] && |r.posts| > |o.posts| && r.posts[|o.posts|] == Post(o.batch, env.reply(0))
  }

  lemma FlushPosts(s: Settings, o: Out<nat>, env: PostEnv)
    requires s.mode.HttpPost? && o.batch != [] && env.bodyAllocated && env.curlCreated
    ensures Flushed(o, Flush(s, o, env).0, env) && Flushed(o, Shutdown(s, o, env), env)
  {
    PostBatchByStatus(s, o, env);
  }

  lemma WhereFlushesAre(c: Setup, s: State, l: Label)
    requires c.Ready()
    ensures var r := Step(c, s, l);
      && (l.Deliver? && s.delivery.Flushing? ==> r.delivery.ReadStop? && r.out == Flush(c.settings, s.out, l.flush).0)
      && (l.Deliver? && !s.delivery.DeliveryDone? && r.delivery.DeliveryDone? ==>
            r.out == Flush(c.settings, s.out, l.flush).0)
      && (l.Advance? && !s.main.MainDone? && r.main.MainDone? ==> r.out == Shutdown(c.settings, s.out, l.flush))
  {
  }

  /** A round always ends with a flush, and so does delivery itself, and main's shutdown: whatever is
      batched then is posted, if there is a body and a handle. */
  lemma RoundsEndWithAFlush(c: Setup, s: State, l: Label)
    requires c.Ready() && c.settings.mode.HttpPost? && s.out.batch != []
    requires || (l.Deliver? && s.delivery.Flushing?)
             || (l.Deliver? && !s.delivery.DeliveryDone? && Step(c, s, l).delivery.DeliveryDone?)
             || (l.Advance? && !s.main.MainDone? && Step(c, s, l).main.MainDone?)
    requires l.flush.bodyAllocated && l.flush.curlCreated
    ensures Flushed(s.out, Step(c, s, l).out, l.flush)
  {
    WhereFlushesAre(c, s, l);
    FlushPosts(c.settings, s.out, l.flush);
  }

  /** A round that finds the queue empty changes nothing, and the thread pauses before it looks again. */
  lemma EmptyRoundPauses(c: Setup, s: State, first: Label, second: Label)
    requires c.Ready() && s.delivery.Taking? && s.hand == [] && s.queue.items == []
    requires first.Deliver? && second.Deliver?
    ensures var paused := Step(c, s, first);
      && paused == s.(delivery := Pausing)
      && Step(c, paused, second) == s.(delivery := ReadStop)
  {
    var paused := Step(c, s, first);
    assert s.queue.items[0..] == [] && s.queue.taken + [] == s.queue.taken;
    assert paused.queue == s.queue;
  }
}
