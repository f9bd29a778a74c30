/** Strictly increasing event numbers, and what output operations do to their order. */
module Order {
  import opened Outbox

  /** `s` increases strictly and stays below `limit`. */
  ghost predicate Sorted(s: seq<nat>, limit: nat) {
    && (forall i, j :: 0 <= i < j < |s| ==> s[i] < s[j])
    && (forall i :: 0 <= i < |s| ==> s[i] < limit)
  }

  function UpTo(n: nat): (r: seq<nat>)
    ensures |r| == n && forall i :: 0 <= i < n ==> r[i] == i
  {
    seq(n, i requires 0 <= i => i)
  }

  lemma DropMiddle(a: seq<nat>, b: seq<nat>, c: seq<nat>, limit: nat)
    requires Sorted(a + b + c, limit)
    ensures Sorted(a + c, limit)
  {
    var all, r := a + b + c, a + c;
    forall i | 0 <= i < |r|
      ensures r[i] == all[if i < |a| then i else i + |b|]
    {
    }
  }

  /** No event of an acknowledged request is posted again, and none is still held. */
  ghost predicate PostedOnce(o: Out<nat>) {
    && (forall i, x :: 0 <= i < |o.posts| && o.posts[i].reply.Acknowledges() && x in o.posts[i].items
          ==> x in o.written)
    && (forall i, j, x :: 0 <= i < j < |o.posts| && o.posts[i].reply.Acknowledges() && x in o.posts[i].items
          ==> x !in o.posts[j].items)
  }

  /** Delivered events, then batched ones, then `rest`, are in enqueue order without repeats. */
  ghost predicate Orderly(o: Out<nat>, rest: seq<nat>, limit: nat) {
    Sorted(o.written + o.batch + rest, limit) && PostedOnce(o)
  }

  lemma SortedIsDisjoint(a: seq<nat>, b: seq<nat>, c: seq<nat>, limit: nat, x: nat)
    requires Sorted(a + b + c, limit) && x in a
    ensures x !in b
  {
    var all := a + b + c;
    var i :| 0 <= i < |a| && a[i] == x;
    forall j | 0 <= j < |b|
      ensures b[j] != x
    {
      assert all[i] == a[i] && all[|a| + j] == b[j];
    }
  }

  lemma PostBatchPostedOnce(s: Settings, o: Out<nat>, rest: seq<nat>, limit: nat, env: PostEnv)
    requires Orderly(o, rest, limit)
    ensures PostedOnce(PostBatch(s, o, env).0)
  {
    PostBatchOutcome(s, o, env);
    var r := PostBatch(s, o, env).0;
    forall i, j, x | 0 <= i < j < |r.posts| && r.posts[i].reply.Acknowledges() && x in r.posts[i].items
      ensures x !in r.posts[j].items
    {
      if i < |o.posts| {
        assert r.posts[i] == o.posts[i];
        if j < |o.posts| {
          assert r.posts[j] == o.posts[j];
        } else {
          SortedIsDisjoint(o.written, o.batch, rest, limit, x);
        }
      } else {
        assert r.posts[i].reply.Decides();
      }
    }
    forall i, x | 0 <= i < |r.posts| && r.posts[i].reply.Acknowledges() && x in r.posts[i].items
      ensures x in r.written
    {
      if i < |o.posts| {
        assert r.posts[i] == o.posts[i];
      } else {
        assert r.posts[i].reply.Decides();
      }
    }
  }

  lemma PostBatchOrderly(s: Settings, o: Out<nat>, rest: seq<nat>, limit: nat, env: PostEnv)
    requires Orderly(o, rest, limit)
    ensures Orderly(PostBatch(s, o, env).0, rest, limit)
  {
    PostBatchPostedOnce(s, o, rest, limit, env);
    PostBatchOutcome(s, o, env);
    var r := PostBatch(s, o, env).0;
    DropMiddle(o.written, o.batch, rest, limit);
    assert r.written + r.batch + rest in
           [o.written + o.batch + rest, o.written + rest] by {
      if r.batch == [] {
        assert r.written + r.batch + rest == r.written + rest;
      }
    }
  }

  /** Refusing the next event only removes it from the line. */
  lemma RefuseOrderly(o: Out<nat>, e: nat, rest: seq<nat>, limit: nat)
    requires Orderly(o, [e] + rest, limit)
    ensures Orderly(Refuse(o, e).0, rest, limit)
  {
    assert o.written + o.batch + ([e] + rest) == (o.written + o.batch) + [e] + rest;
    DropMiddle(o.written + o.batch, [e], rest, limit);
  }

  lemma StoreOrderly(s: Settings, o: Out<nat>, e: nat, rest: seq<nat>, limit: nat, env: EmitEnv)
    requires Orderly(o, [e] + rest, limit)
    ensures Orderly(Store(s, o, e, env).0, rest, limit)
  {
    var started := Started(o, env.startClock);
    var roomy := started.(capacity := EnsuredCapacity(o.capacity, |o.batch| + 1));
    if |o.batch| + 1 > o.capacity && !env.grown {
      RefuseOrderly(started, e, rest, limit);
    } else if !env.copied {
      RefuseOrderly(roomy, e, rest, limit);
    } else {
      var added := roomy.(batch := o.batch + [e]);
      assert added.written + added.batch + rest == o.written + o.batch + ([e] + rest);
      assert PostedOnce(added);
      PostBatchOrderly(s, added, rest, limit, env.late);
    }
  }

  lemma EmitOrderly(s: Settings, o: Out<nat>, e: nat, rest: seq<nat>, limit: nat, env: EmitEnv)
    requires Bounded(s, o) && Orderly(o, [e] + rest, limit)
    ensures Orderly(Emit(s, o, e, env).0, rest, limit)
  {
    if s.mode.HttpPost? {
      PostBatchOrderly(s, o, [e] + rest, limit, env.early);
      var (flushed, rc) := MaybeFlush(s, o, env.early, env.now);
      if rc != 0 {
        RefuseOrderly(flushed, e, rest, limit);
      } else {
        StoreOrderly(s, flushed, e, rest, limit, env);
      }
    } else if s.mode.File? && !s.fileOpen {
      RefuseOrderly(o, e, rest, limit);
    } else {
      assert o.written + [e] + [] + rest == o.written + [] + ([e] + rest);
      assert (o.written + [e]) + o.batch + rest == o.written + o.batch + ([e] + rest);
    }
  }
}
