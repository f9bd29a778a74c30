/** g_output of src/output.c: the batch array, its counters and the calls that change them
    in place.  Each method is proved to do what the functions of Outbox.dfy say. */
module OutputState {
  import opened Options
  import opened Outbox
  import opened JsonCompose
  import opened JsonEscape
  import opened HttpBody
  import Backoff

  /** The first `n` requests of one call, as they enter the log. */
  function Requests(batch: seq<string>, n: nat, reply: nat -> Reply): seq<Post<string>> {
    seq(n, i requires 0 <= i => Post(batch, reply(i)))
  }

  function Copies(text: string, n: nat): seq<string> {
    seq(n, _ => text)
  }

  class Output {
    const settings: Settings
    var items: array<string>
    var batchCount: nat
    var startedAt: Option<real>
    /** Lines handed to stdout or the file. */
    var printed: seq<string>
    /** The body of every request, and every wait between requests. */
    var wire: seq<string>
    var naps: seq<nat>
    ghost var model: Out<string>

    ghost predicate Valid()
      reads this, items
    {
      && items.Length == model.capacity
      && batchCount == |model.batch| <= items.Length
      && items[..batchCount] == model.batch
      && startedAt == model.startedAt
      && (forall i :: 0 <= i < |model.batch| ==> '\0' !in model.batch[i])
      && |wire| == |model.posts|
      && (forall i :: 0 <= i < |wire| ==> wire[i] == ArrayText(model.posts[i].items))
      && (!settings.mode.HttpPost? ==> printed == model.written && model.batch == [])
    }

    constructor (settings: Settings)
      ensures Valid() && model == Fresh(settings) && this.settings == settings && naps == [] && fresh(items)
      ensures items.Length == (if settings.mode.HttpPost? then 16 else 0) && batchCount == 0 && printed == wire == []
    {
      this.settings := settings;
      items := new string[if settings.mode.HttpPost? then INITIAL_CAPACITY else 0](_ => "");
      batchCount, startedAt := 0, None;
      printed, wire, naps := [], [], [];
      model := Fresh(settings);
    }

    /** free_batch_items. */
    method FreeBatchItems()
      requires Valid()
      modifies `batchCount, `startedAt, `model, items
      ensures Valid() && model == Cleared(old(model))
      ensures forall k :: 0 <= k < old(batchCount) ==> items[k] == ""
    {
      var i := 0;
      while i < batchCount
        invariant 0 <= i <= batchCount
        invariant forall k :: 0 <= k < i ==> items[k] == ""
        modifies items
      {
        items[i] := "";
        i := i + 1;
      }
      batchCount, startedAt := 0, None;
      model := Cleared(model);
    }

    /** batch_ensure_capacity: doubles until there is room; the items stay in place. */
    method EnsureCapacity(needed: nat, grown: bool) returns (rc: int)
      requires Valid()
      modifies `items, `model
      ensures Valid() && (items == old(items) || fresh(items))
      ensures rc == if needed > old(model).capacity && !grown then -1 else 0
      ensures model ==
        if rc == 0 then old(model).(capacity := EnsuredCapacity(old(model).capacity, needed)) else old(model)
      ensures rc == 0 ==> needed <= items.Length
    {
      if needed <= items.Length {
        return 0;
      }
      var newCapacity := if items.Length == 0 then INITIAL_CAPACITY else items.Length;
      while newCapacity < needed
        invariant 0 < newCapacity && items.Length <= newCapacity
        invariant GrownCapacity(newCapacity, needed) == EnsuredCapacity(items.Length, needed)
        decreases needed - newCapacity
      {
        newCapacity := newCapacity * 2;
      }
      if !grown {
        return -1;
      }
      var bigger := new string[newCapacity](i requires 0 <= i reads this, items =>
        if i < items.Length then items[i] else "");
      items := bigger;
      model := model.(capacity := newCapacity);
      return 0;
    }

    /** http_post_batch. */
    method HttpPostBatch(env: PostEnv) returns (rc: int)
      requires Valid()
      modifies `batchCount, `startedAt, `wire, `naps, `model, items
      ensures Valid() && (model, rc) == PostBatch(settings, old(model), env)
      ensures var made := |model.posts| - |old(model).posts|;
        && made >= 0
        && naps == old(naps) + Backoff.Waits(settings.backoffSeconds, if made == 0 then 0 else made - 1, env.wildShift)
    {
      PostBatchOutcome(settings, model, env);
      if batchCount == 0 {
        return 0;
      }
      if !env.bodyAllocated {
        return -1;
      }
      var body := BuildBody(items[..batchCount]);
      if !env.curlCreated {
        return -1;
      }
      ghost var text := ArrayText(model.batch);
      var sent := body[..|body[..]| - 2];
      assert sent == text by {
        BodyLengthIsOneMore(model.batch);
        assert HoldsText(body[..], text) && body[..][..|text|] == body[..|text|];
      }
      var verdict := RetryLoop(sent, env);
      FreeBatchItems();
      return if verdict.GaveUp? then -1 else 0;
    }

    /** The retry loop of http_post_batch, up to the point where the batch is freed. */
    method RetryLoop(sent: string, env: PostEnv) returns (verdict: Verdict)
      requires Valid() && batchCount > 0 && sent == ArrayText(model.batch)
      modifies `wire, `naps, `model
      ensures Valid()
      ensures var (v, attempts) := RetryFrom(env.reply, 0, settings.retryMax);
        && verdict == v && attempts > 0
        && naps == old(naps) + Backoff.Waits(settings.backoffSeconds, attempts - 1, env.wildShift)
        && model == old(model).(posts := old(model).posts + Requests(old(model).batch, attempts, env.reply),
             written := old(model).written + (if v.Delivered? then old(model).batch else []),
             discarded := old(model).discarded + (if v.Delivered? then [] else old(model).batch))
    {
      var attempt := 0;
      verdict := GaveUp;
      while attempt <= settings.retryMax
        invariant 0 <= attempt <= settings.retryMax + 1
        invariant RetryFrom(env.reply, attempt, settings.retryMax) == RetryFrom(env.reply, 0, settings.retryMax)
        invariant wire == old(wire) + Copies(sent, attempt)
        invariant attempt <= settings.retryMax ==>
          naps == old(naps) + Backoff.Waits(settings.backoffSeconds, attempt, env.wildShift)
        invariant attempt == settings.retryMax + 1 ==>
          naps == old(naps) + Backoff.Waits(settings.backoffSeconds, attempt - 1, env.wildShift)
        invariant verdict.GaveUp? && unchanged(`model)
      {
        wire := wire + [sent];
        var answer := env.reply(attempt);
        if answer.Acknowledges() {
          attempt := attempt + 1;
          verdict := Delivered;
          break;
        }
        if answer.Rejects() {
          attempt := attempt + 1;
          verdict := Refused;
          break;
        }
        if attempt < settings.retryMax {
          naps := naps + [Backoff.Sleep(settings.backoffSeconds, attempt, env.wildShift)];
        }
        attempt := attempt + 1;
      }
      RecordPosts(old(wire), sent, attempt, verdict, env.reply);
    }

    /** What the requests made so far mean for the plain state. */
    ghost method RecordPosts(before: seq<string>, sent: string, n: nat, verdict: Verdict, reply: nat -> Reply)
      requires wire == before + Copies(sent, n) && sent == ArrayText(model.batch) && |before| == |model.posts|
      requires forall i :: 0 <= i < |before| ==> before[i] == ArrayText(model.posts[i].items)
      requires items.Length == model.capacity && batchCount == |model.batch| <= items.Length
      requires items[..batchCount] == model.batch && startedAt == model.startedAt
      requires forall i :: 0 <= i < |model.batch| ==> '\0' !in model.batch[i]
      requires settings.mode.HttpPost?
      modifies `model
      ensures Valid()
      ensures model == old(model).(posts := old(model).posts + Requests(old(model).batch, n, reply),
        written := old(model).written + (if verdict.Delivered? then old(model).batch else []),
        discarded := old(model).discarded + (if verdict.Delivered? then [] else old(model).batch))
    {
      model := model.(posts := model.posts + Requests(model.batch, n, reply),
                      written := model.written + (if verdict.Delivered? then model.batch else []),
                      discarded := model.discarded + (if verdict.Delivered? then [] else model.batch));
    }

    /** maybe_flush_http_batch. */
    method MaybeFlushHttpBatch(env: PostEnv, now: Option<real>) returns (rc: int)
      requires Valid()
      modifies `batchCount, `startedAt, `wire, `naps, `model, items
      ensures Valid() && (model, rc) == MaybeFlush(settings, old(model), env, now)
    {
      if batchCount == 0 {
        return 0;
      }
      if batchCount >= settings.batchSize {
        rc := HttpPostBatch(env);
        return;
      }
      if startedAt.Some? && settings.intervalSeconds > 0 && Age(startedAt, now) >= settings.intervalSeconds as real {
        rc := HttpPostBatch(env);
        return;
      }
      return 0;
    }

    method Append(event: string)
      requires Valid() && settings.mode.HttpPost? && batchCount < items.Length && '\0' !in event
      modifies `batchCount, `model, items
      ensures Valid() && model == old(model).(batch := old(model).batch + [event])
    {
      items[batchCount] := event;
      batchCount := batchCount + 1;
      model := model.(batch := model.batch + [event]);
    }

    /** The HTTP branch of output_emit_event after the early flush. */
    method StoreEvent(event: string, env: EmitEnv) returns (rc: int)
      requires Valid() && settings.mode.HttpPost? && '\0' !in event
      modifies `batchCount, `startedAt, `wire, `naps, `items, `model, items
      ensures Valid() && (model, rc) == Store(settings, old(model), event, env)
      ensures items == old(items) || fresh(items)
    {
      if startedAt.None? {
        startedAt := env.startClock;
        model := Started(model, env.startClock);
      }
      var grown := EnsureCapacity(batchCount + 1, env.grown);
      if grown != 0 || !env.copied {
        model := Refuse(model, event).0;
        return -1;
      }
      Append(event);
      if batchCount >= settings.batchSize {
        rc := HttpPostBatch(env.late);
        return;
      }
      return 0;
    }

    /** output_emit_event. */
    method EmitEvent(event: string, env: EmitEnv) returns (rc: int)
      requires Valid() && '\0' !in event
      modifies this, items
      ensures Valid() && (model, rc) == Emit(settings, old(model), event, env)
      ensures items == old(items) || fresh(items)
    {
      match settings.mode
      case Stdout =>
        printed := printed + [event];
        model := model.(written := model.written + [event]);
        return 0;
      case File =>
        if !settings.fileOpen {
          model := Refuse(model, event).0;
          return -1;
        }
        printed := printed + [event];
        model := model.(written := model.written + [event]);
        return 0;
      case HttpPost =>
        rc := MaybeFlushHttpBatch(env.early, env.now);
        if rc != 0 {
          model := Refuse(model, event).0;
          return -1;
        }
        rc := StoreEvent(event, env);
    }

    /** output_flush; stdout and files are already flushed line by line. */
    method FlushOutput(env: PostEnv) returns (rc: int)
      requires Valid()
      modifies `batchCount, `startedAt, `wire, `naps, `model, items
      ensures Valid() && (model, rc) == Flush(settings, old(model), env)
    {
      if settings.mode.HttpPost? {
        rc := HttpPostBatch(env);
        return;
      }
      return 0;
    }

    /** output_shutdown: a last flush, then the batch is freed. */
    method ShutdownOutput(env: PostEnv)
      requires Valid()
      modifies `batchCount, `startedAt, `wire, `naps, `model, items
      ensures Valid() && model == Shutdown(settings, old(model), env) && batchCount == 0
    {
      var _ := FlushOutput(env);
      model := model.(discarded := model.discarded + model.batch);
      FreeBatchItems();
    }
  }
}
