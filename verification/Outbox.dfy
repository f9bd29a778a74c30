/** What src/output.c does with each event, as functions on plain values.
    `Out` is generic in the event type: OutputState.dfy runs it on JSON lines,
    Pipeline.dfy on event numbers.  Server answers, clock readings and allocation
    results are inputs, so every mix of them is covered. */
module Outbox {
  import opened Numbers
  import opened Options
  import opened Powers

  datatype Mode = Stdout | File | HttpPost

  /** The part of g_output that output_init fixes. */
  datatype Settings = Settings(mode: Mode, fileOpen: bool, batchSize: nat, intervalSeconds: nat,
                               retryMax: nat, backoffSeconds: nat)
  {
    /** What output_init establishes: positive batch limits and, in file mode, an open file. */
    predicate Ready() {
      batchSize > 0 && intervalSeconds > 0 && (mode.File? ==> fileOpen)
    }
  }

  /** One answer of the HTTP transport: no usable response, or a status code. */
  datatype Reply = NoReply | Status(code: int)
  {
    predicate Acknowledges() {
      Status? && 200 <= code < 300
    }
    predicate Rejects() {
      Status? && 400 <= code < 500 && code != 429
    }
    /** An answer after which the retry loop stops. */
    predicate Decides() {
      Acknowledges() || Rejects()
    }
  }

  datatype Post<T> = Post(items: seq<T>, reply: Reply)

  /** `written`: lines printed, or items of acknowledged batches.  `discarded`: events that
      were refused, rejected, given up on or freed unsent.  `posts`: every request made. */
  datatype Out<T> = Out(written: seq<T>, batch: seq<T>, startedAt: Option<real>, capacity: nat,
                        discarded: seq<T>, posts: seq<Post<T>>)

  /** Outside influences on one http_post_batch call. */
  datatype PostEnv = PostEnv(bodyAllocated: bool, curlCreated: bool, reply: nat -> Reply, wildShift: nat -> nat)

  /** Outside influences on one output_emit_event call. */
  datatype EmitEnv = EmitEnv(early: PostEnv, late: PostEnv, now: Option<real>, startClock: Option<real>,
                             grown: bool, copied: bool)

  const INITIAL_CAPACITY: nat := 16

  /** What output_init leaves: only HTTP mode allocates a batch. */
  function Fresh<T>(s: Settings): Out<T> {
    Out([], [], None, if s.mode.HttpPost? then INITIAL_CAPACITY else 0, [], [])
  }

  datatype Verdict = Delivered | Refused | GaveUp

  /** How the retry loop ends when it stands at attempt `k`, and how many attempts it has made by then. */
  function RetryFrom(reply: nat -> Reply, k: nat, retryMax: nat): (Verdict, nat)
    decreases retryMax + 1 - k
  {
    if k > retryMax then (GaveUp, k)
    else if reply(k).Acknowledges() then (Delivered, k + 1)
    else if reply(k).Rejects() then (Refused, k + 1)
    else RetryFrom(reply, k + 1, retryMax)
  }

  /** free_batch_items. */
  function Cleared<T>(o: Out<T>): Out<T> {
    o.(batch := [], startedAt := None)
  }

  /** http_post_batch: the new state and the return code. */
  function PostBatch<T>(s: Settings, o: Out<T>, env: PostEnv): (Out<T>, int) {
    if o.batch == [] then (o, 0)
    else if !env.bodyAllocated || !env.curlCreated then (o, -1)
    else
      var (verdict, attempts) := RetryFrom(env.reply, 0, s.retryMax);
      var sent := o.(posts := o.posts + seq(attempts, i requires 0 <= i => Post(o.batch, env.reply(i))));
      match verdict
      case Delivered => (Cleared(sent).(written := o.written + o.batch), 0)
      case Refused => (Cleared(sent).(discarded := o.discarded + o.batch), 0)
      case GaveUp => (Cleared(sent).(discarded := o.discarded + o.batch), -1)
  }

  /** batch_age_seconds. */
  function Age(startedAt: Option<real>, now: Option<real>): real {
    if startedAt.Some? && now.Some? then now.value - startedAt.value else 0.0
  }

  /** The tests of maybe_flush_http_batch. */
  predicate FlushDue<T>(s: Settings, o: Out<T>, now: Option<real>) {
    && o.batch != []
    && (|o.batch| >= s.batchSize
        || (o.startedAt.Some? && s.intervalSeconds > 0 && Age(o.startedAt, now) >= s.intervalSeconds as real))
  }

  function MaybeFlush<T>(s: Settings, o: Out<T>, env: PostEnv, now: Option<real>): (Out<T>, int) {
    if FlushDue(s, o, now) then PostBatch(s, o, env) else (o, 0)
  }

  /** The doubling loop of batch_ensure_capacity. */
  function GrownCapacity(capacity: nat, needed: nat): nat
    requires capacity > 0
    decreases needed - capacity
  {
    if capacity >= needed then capacity else GrownCapacity(capacity * 2, needed)
  }

  function EnsuredCapacity(capacity: nat, needed: nat): nat {
    if needed <= capacity then capacity
    else GrownCapacity(if capacity == 0 then INITIAL_CAPACITY else capacity, needed)
  }

  function Refuse<T>(o: Out<T>, e: T): (Out<T>, int) {
    (o.(discarded := o.discarded + [e]), -1)
  }

  /** batch_start_if_needed. */
  function Started<T>(o: Out<T>, clock: Option<real>): Out<T> {
    if o.startedAt.Some? then o else o.(startedAt := clock)
  }

  /** The HTTP branch of output_emit_event, after the early flush. */
  function Store<T>(s: Settings, o: Out<T>, e: T, env: EmitEnv): (Out<T>, int) {
    var needed := |o.batch| + 1;
    var started := Started(o, env.startClock);
    if needed > o.capacity && !env.grown then Refuse(started, e)
    else
      var roomy := started.(capacity := EnsuredCapacity(o.capacity, needed));
      if !env.copied then Refuse(roomy, e)
      else
        var added := roomy.(batch := o.batch + [e]);
        if needed >= s.batchSize then PostBatch(s, added, env.late) else (added, 0)
  }

  /** The HTTP branch of output_emit_event. */
  function EmitHttp<T>(s: Settings, o: Out<T>, e: T, env: EmitEnv): (Out<T>, int) {
    var (flushed, rc) := MaybeFlush(s, o, env.early, env.now);
    if rc != 0 then Refuse(flushed, e) else Store(s, flushed, e, env)
  }

  /** output_emit_event.  Callers ignore the return code, so a failed event is gone. */
  function Emit<T>(s: Settings, o: Out<T>, e: T, env: EmitEnv): (Out<T>, int) {
    match s.mode
    case Stdout => (o.(written := o.written + [e]), 0)
    case File => if s.fileOpen then (o.(written := o.written + [e]), 0) else Refuse(o, e)
    case HttpPost => EmitHttp(s, o, e, env)
  }

  /** output_flush. */
  function Flush<T>(s: Settings, o: Out<T>, env: PostEnv): (Out<T>, int) {
    if s.mode.HttpPost? then PostBatch(s, o, env) else (o, 0)
  }

  /** output_shutdown: flush, then free whatever is still batched. */
  function Shutdown<T>(s: Settings, o: Out<T>, env: PostEnv): Out<T> {
    var flushed := Flush(s, o, env).0;
    Cleared(flushed).(discarded := flushed.discarded + flushed.batch)
  }

  // ----- the retry loop

  /** The loop ends with the first deciding answer if there is one within the allowed
      attempts, and otherwise after exactly `retryMax + 1` attempts. */
  lemma {:induction false} RetryEndsAtFirstDecision(reply: nat -> Reply, k: nat, retryMax: nat)
    requires k <= retryMax
    ensures var (verdict, attempts) := RetryFrom(reply, k, retryMax);
      && k < attempts <= retryMax + 1
      && (forall i :: k <= i < attempts - 1 ==> !reply(i).Decides())
      && (verdict.Delivered? <==> reply(attempts - 1).Acknowledges())
      && (verdict.Refused? <==> reply(attempts - 1).Rejects())
      && (verdict.GaveUp? <==> forall i :: k <= i <= retryMax ==> !reply(i).Decides())
      && (verdict.GaveUp? ==> attempts == retryMax + 1)
    decreases retryMax - k
  {
    if !reply(k).Decides() && k < retryMax {
      RetryEndsAtFirstDecision(reply, k + 1, retryMax);
    } else {
      assert reply(k).Decides() || RetryFrom(reply, k + 1, retryMax) == (GaveUp, k + 1);
    }
  }

  /** One call of http_post_batch: how often it posts, what it returns and where the batch goes. */
  lemma PostBatchOutcome<T>(s: Settings, o: Out<T>, env: PostEnv)
    ensures var (r, rc) := PostBatch(s, o, env);
      var made := |r.posts| - |o.posts|;
      var entered := o.batch != [] && env.bodyAllocated && env.curlCreated;
      && 0 <= made <= s.retryMax + 1
      && (made > 0 <==> entered)
      && o.posts <= r.posts
      && (forall i :: |o.posts| <= i < |r.posts| ==> r.posts[i].items == o.batch)
      && (forall i :: |o.posts| <= i < |r.posts| - 1 ==> !r.posts[i].reply.Decides())
      && (!entered ==> r == o && (rc == 0 <==> o.batch == []))
      && (entered ==> r.batch == [] && r.startedAt == None)
      && (entered ==> (rc == 0 <==> r.posts[|r.posts| - 1].reply.Decides()))
      && r.written == o.written + (if entered && r.posts[|r.posts| - 1].reply.Acknowledges() then o.batch else [])
      && r.discarded == o.discarded + (if entered && !r.posts[|r.posts| - 1].reply.Acknowledges() then o.batch else [])
      && r.capacity == o.capacity
  {
    if o.batch != [] && env.bodyAllocated && env.curlCreated {
      RetryEndsAtFirstDecision(env.reply, 0, s.retryMax);
    }
  }

  // ----- the batch limit and the capacity of the item array

  /** `capacity` is the initial 16 doubled some number of times. */
  ghost predicate Doubled(capacity: nat) {
    exists k: nat :: capacity == 16 * Pow2(k)
  }

  ghost predicate Bounded<T>(s: Settings, o: Out<T>) {
    && |o.batch| <= s.batchSize
    && |o.batch| <= o.capacity <= Max(16, 2 * s.batchSize)
    && (if s.mode.HttpPost? then Doubled(o.capacity) else o.capacity == 0)
  }

  lemma {:induction false} GrownCapacityBounds(capacity: nat, needed: nat)
    requires capacity > 0 && Doubled(capacity)
    ensures var c := GrownCapacity(capacity, needed);
      needed <= c && capacity <= c && Doubled(c) && (c == capacity || c < 2 * needed)
    decreases needed - capacity
  {
    if capacity < needed {
      var k: nat :| capacity == 16 * Pow2(k);
      assert capacity * 2 == 16 * Pow2(k + 1);
      GrownCapacityBounds(capacity * 2, needed);
    }
  }

  lemma PostBatchKeepsBounded<T>(s: Settings, o: Out<T>, env: PostEnv)
    requires Bounded(s, o)
    ensures Bounded(s, PostBatch(s, o, env).0)
  {
    PostBatchOutcome(s, o, env);
  }

  /** A state that passed the early flush has room for one more item under the limit. */
  lemma FlushLeavesRoom<T>(s: Settings, o: Out<T>, env: PostEnv, now: Option<real>)
    requires s.Ready() && Bounded(s, o)
    ensures var (r, rc) := MaybeFlush(s, o, env, now);
      Bounded(s, r) && (rc == 0 ==> |r.batch| < s.batchSize)
  {
    PostBatchOutcome(s, o, env);
  }

  lemma StoreKeepsBounded<T>(s: Settings, o: Out<T>, e: T, env: EmitEnv)
    requires s.mode.HttpPost? && Bounded(s, o) && |o.batch| < s.batchSize
    ensures Bounded(s, Store(s, o, e, env).0)
  {
    DoubledIsPositive(o.capacity);
    GrownCapacityBounds(o.capacity, |o.batch| + 1);
    var capacity := EnsuredCapacity(o.capacity, |o.batch| + 1);
    var added := Started(o, env.startClock).(capacity := capacity, batch := o.batch + [e]);
    if |o.batch| + 1 <= o.capacity || env.grown {
      PostBatchKeepsBounded(s, added, env.late);
    }
  }

  lemma EmitKeepsBounded<T>(s: Settings, o: Out<T>, e: T, env: EmitEnv)
    requires s.Ready() && Bounded(s, o)
    ensures Bounded(s, Emit(s, o, e, env).0)
  {
    if s.mode.HttpPost? {
      FlushLeavesRoom(s, o, env.early, env.now);
      var (flushed, rc) := MaybeFlush(s, o, env.early, env.now);
      if rc == 0 {
        StoreKeepsBounded(s, flushed, e, env);
      }
    }
  }

  lemma DoubledIsPositive(capacity: nat)
    requires Doubled(capacity)
    ensures capacity >= 16
  {
    var k: nat :| capacity == 16 * Pow2(k);
    assert Pow2(k) >= 1;
  }

  // ----- where events go

  /** Every event the output side was ever given, by where it is now. */
  function Everything<T>(o: Out<T>): multiset<T> {
    multiset(o.written) + multiset(o.batch) + multiset(o.discarded)
  }

  lemma PostBatchConserves<T>(s: Settings, o: Out<T>, env: PostEnv)
    ensures Everything(PostBatch(s, o, env).0) == Everything(o)
  {
    PostBatchOutcome(s, o, env);
  }

  lemma RefuseConserves<T>(o: Out<T>, e: T)
    ensures Everything(Refuse(o, e).0) == Everything(o) + multiset{e}
  {
    assert multiset(o.discarded + [e]) == multiset(o.discarded) + multiset{e};
  }

  lemma AddConserves<T>(o: Out<T>, e: T)
    ensures Everything(o.(batch := o.batch + [e])) == Everything(o) + multiset{e}
  {
    assert multiset(o.batch + [e]) == multiset(o.batch) + multiset{e};
  }

  lemma HoldsTheSame<T>(o: Out<T>, p: Out<T>)
    requires o.written == p.written && o.batch == p.batch && o.discarded == p.discarded
    ensures Everything(o) == Everything(p)
  {
  }

  /** The four ways in which a store can end. */
  lemma StoreOutcome<T>(s: Settings, o: Out<T>, e: T, env: EmitEnv) returns (held: Out<T>)
    ensures held.written == o.written && held.batch == o.batch && held.discarded == o.discarded
    ensures var r := Store(s, o, e, env).0;
      var added := held.(batch := held.batch + [e]);
      r == Refuse(held, e).0 || r == added || r == PostBatch(s, added, env.late).0
  {
    var needed := |o.batch| + 1;
    held := Started(o, env.startClock);
    if needed <= o.capacity || env.grown {
      held := held.(capacity := EnsuredCapacity(o.capacity, needed));
    }
  }

  lemma StoreConserves<T>(s: Settings, o: Out<T>, e: T, env: EmitEnv)
    ensures Everything(Store(s, o, e, env).0) == Everything(o) + multiset{e}
  {
    var held := StoreOutcome(s, o, e, env);
    HoldsTheSame(o, held);
    RefuseConserves(held, e);
    AddedIsConserved(s, held, e, env.late);
  }

  lemma AddedIsConserved<T>(s: Settings, roomy: Out<T>, e: T, env: PostEnv)
    ensures var added := roomy.(batch := roomy.batch + [e]);
      && Everything(added) == Everything(roomy) + multiset{e}
      && Everything(PostBatch(s, added, env).0) == Everything(roomy) + multiset{e}
  {
    AddConserves(roomy, e);
    PostBatchConserves(s, roomy.(batch := roomy.batch + [e]), env);
  }

  lemma EmitConserves<T>(s: Settings, o: Out<T>, e: T, env: EmitEnv)
    ensures Everything(Emit(s, o, e, env).0) == Everything(o) + multiset{e}
  {
    match s.mode
    case Stdout => assert multiset(o.written + [e]) == multiset(o.written) + multiset{e};
    case File =>
      assert multiset(o.written + [e]) == multiset(o.written) + multiset{e};
      RefuseConserves(o, e);
    case HttpPost =>
      PostBatchConserves(s, o, env.early);
      var (flushed, rc) := MaybeFlush(s, o, env.early, env.now);
      if rc != 0 {
        RefuseConserves(flushed, e);
      } else {
        StoreConserves(s, flushed, e, env);
      }
  }
}
