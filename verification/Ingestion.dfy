/** From the output to the web UI: what the receiver has in its log when a run in HTTP mode posts to it,
    and what becomes of a batch that it cannot read.  Each request arrives or does not, and so does its
    answer. */
module Ingestion {
  import opened Delivery
  import opened DropOldest
  import opened EventStore
  import opened HttpBody
  import opened HttpDelivery
  import opened Json
  import opened JsonCompose
  import opened Lines
  import opened MetricEvents
  import opened Options
  import opened Order
  import opened Outbox
  import opened Pipeline
  import opened RawNames
  import opened Utf8Text

  // ----- one request

  /** The events that a body brings. */
  function Brought(body: string): seq<Value> {
    match Receive(body)
    case Ingested(events) => events
    case _ => []
  }

  /** do_POST: the answer, and the events that reach the store.  `asEvent` is how the store sees the
      dict of a JSON object. */
  method HandlePost(store: Store, body: string, now: string, asEvent: Value -> Event) returns (reply: Reply)
    requires store.Valid()
    modifies store
    ensures store.Valid() && reply == Answer(Receive(body))
    ensures store.log == old(store.log) + AllStamped(Map(asEvent, Brought(body)), now)
  {
    var received := Receive(body);
    if received.Ingested? {
      store.Ingest(Map(asEvent, received.events), now);
    }
    reply := Answer(received);
  }

  /** A device name with a quote in it: when the whole batch decodes, the receiver answers 400 to the first
      post, so the client discards the batch at once and reports success. */
  lemma BrokenNameLosesBatch(s: Settings, o: Out<string>, env: PostEnv, k: nat,
                             kind: Kind, timestamp: string, host: string, entries: seq<Entry>, i: nat, q: nat)
    requires (kind == DISKS || kind == INTERFACES) && Clean(timestamp)
    requires i < |entries| && CleanNames(entries[..i]) && EndsEarly(entries[i].name, q)
    requires k < |o.batch| && o.batch[k] == ListEvent(kind, timestamp, host, entries)
    requires AllDecode(o.batch) && forall j :: 0 <= j < k ==> IsObjectText(o.batch[j])
    requires env.bodyAllocated && env.curlCreated
    requires forall n: nat :: env.reply(n) == Answer(Receive(ArrayText(o.batch)))
    ensures Receive(ArrayText(o.batch)) == BadRequest
    ensures var (r, rc) := PostBatch(s, o, env);
      && rc == 0 && r.batch == [] && |r.posts| == |o.posts| + 1
      && r.written == o.written && r.discarded == o.discarded + o.batch
  {
    BodyIsNoJson(kind, timestamp, host, entries, i, q, o.batch, k);
    ArrayIsUtf8(o.batch);
    assert env.reply(0) == Status(400);
  }

  // ----- all requests of a run

  /** The request reached the receiver and brought it events. */
  predicate Ingests(p: Post<string>, arrived: bool) {
    arrived && Brought(ArrayText(p.items)) != []
  }

  /** An acknowledgement is the receiver's own, for a request that it has ingested.  Nothing is said about
      other outcomes: a request or its answer can get lost, or something in between can answer instead. */
  predicate Honest(p: Post<string>, arrived: bool) {
    p.reply.Acknowledges() ==> Ingests(p, arrived)
  }

  /** The receiver has the events, but the client did not get its acknowledgement. */
  predicate Unseen(p: Post<string>, arrived: bool) {
    Ingests(p, arrived) && !p.reply.Acknowledges()
  }

  ghost predicate AllHonest(posts: seq<Post<string>>, arrived: nat -> bool) {
    forall i :: 0 <= i < |posts| ==> Honest(posts[i], arrived(i))
  }

  ghost predicate NoneUnseen(posts: seq<Post<string>>, arrived: nat -> bool) {
    forall i :: 0 <= i < |posts| ==> !Unseen(posts[i], arrived(i))
  }

  /** What the i-th request brings. */
  function BroughtBy(p: Post<string>, arrived: bool): seq<Value> {
    if arrived then Brought(ArrayText(p.items)) else []
  }

  /** What the receiver has ingested after some requests, of which the i-th arrived if `arrived(i)`. */
  function LogOf(posts: seq<Post<string>>, arrived: nat -> bool): seq<Value> {
    if posts == [] then []
    else
      var n := |posts| - 1;
      LogOf(posts[..n], arrived) + BroughtBy(posts[n], arrived(n))
  }

  /** What unseen requests brought. */
  function UnseenEvents(posts: seq<Post<string>>, arrived: nat -> bool): seq<Value> {
    if posts == [] then []
    else
      var n := |posts| - 1;
      UnseenEvents(posts[..n], arrived) + (if Unseen(posts[n], arrived(n)) then BroughtBy(posts[n], true) else [])
  }

  function SeenOf(p: Post<string>): seq<Value> {
    if p.reply.Acknowledges() then Brought(ArrayText(p.items)) else []
  }

  /** What acknowledged requests brought. */
  function SeenEvents(posts: seq<Post<string>>): seq<Value> {
    if posts == [] then []
    else SeenEvents(posts[..|posts| - 1]) + SeenOf(posts[|posts| - 1])
  }

  lemma {:induction false} UnseenEventsTell(posts: seq<Post<string>>, arrived: nat -> bool)
    ensures UnseenEvents(posts, arrived) == [] <==> NoneUnseen(posts, arrived)
  {
    if posts != [] {
      var n := |posts| - 1;
      UnseenEventsTell(posts[..n], arrived);
      NoneUnseenSplits(posts, n, arrived);
      assert UnseenEvents(posts, arrived) == [] <==>
             UnseenEvents(posts[..n], arrived) == [] && !Unseen(posts[n], arrived(n));
    }
  }

  lemma NoneUnseenSplits(posts: seq<Post<string>>, n: nat, arrived: nat -> bool)
    requires |posts| == n + 1
    ensures NoneUnseen(posts, arrived) <==> NoneUnseen(posts[..n], arrived) && !Unseen(posts[n], arrived(n))
  {
  }

  lemma {:induction false} InterleavesExtendLeftBy<T>(a: seq<T>, b: seq<T>, whole: seq<T>, more: seq<T>)
    requires Interleaves(a, b, whole)
    ensures Interleaves(a + more, b, whole + more)
    decreases |more|
  {
    if more == [] {
      assert a + more == a && whole + more == whole;
    } else {
      var n := |more| - 1;
      InterleavesExtendLeftBy(a, b, whole, more[..n]);
      InterleavesExtendLeft(a + more[..n], b, whole + more[..n], more[n]);
      assert more == more[..n] + [more[n]];
      assert a + more[..n] + [more[n]] == a + more && whole + more[..n] + [more[n]] == whole + more;
    }
  }

  /** What one more request brings is either unseen or acknowledged. */
  lemma OneMoreRequest(unseen: seq<Value>, acked: seq<Value>, log: seq<Value>, moreUnseen: seq<Value>,
                       moreAcked: seq<Value>, brought: seq<Value>)
    requires Interleaves(unseen, acked, log)
    requires (moreUnseen == [] && moreAcked == brought) || (moreUnseen == brought && moreAcked == [])
    ensures Interleaves(unseen + moreUnseen, acked + moreAcked, log + brought)
  {
    if moreUnseen == [] {
      InterleavesExtendRight(unseen, acked, log, brought);
      assert unseen + [] == unseen;
    } else {
      InterleavesExtendLeftBy(unseen, acked, log, brought);
      assert acked + [] == acked;
    }
  }

  /** The log is made up of what acknowledged requests brought and what unseen ones did, each in order. */
  lemma {:induction false} LogSplits(posts: seq<Post<string>>, arrived: nat -> bool)
    requires AllHonest(posts, arrived)
    ensures Interleaves(UnseenEvents(posts, arrived), SeenEvents(posts), LogOf(posts, arrived))
    decreases |posts|
  {
    if posts != [] {
      var n := |posts| - 1;
      var front, last := posts[..n], posts[n];
      LogSplits(front, arrived);
      OneMoreRequest(UnseenEvents(front, arrived), SeenEvents(front), LogOf(front, arrived),
                     if Unseen(last, arrived(n)) then BroughtBy(last, true) else [],
                     SeenOf(last),
                     BroughtBy(last, arrived(n)));
    }
  }

  lemma {:induction false} InterleavesLength<T>(a: seq<T>, b: seq<T>, whole: seq<T>)
    requires Interleaves(a, b, whole)
    ensures |whole| == |a| + |b|
    decreases |whole|
  {
    if whole != [] {
      var n := |whole| - 1;
      if a != [] && a[|a| - 1] == whole[n] && Interleaves(a[..|a| - 1], b, whole[..n]) {
        InterleavesLength(a[..|a| - 1], b, whole[..n]);
      } else {
        InterleavesLength(a, b[..|b| - 1], whole[..n]);
      }
    }
  }

  /** So the log is what acknowledged requests brought exactly when none was unseen. */
  lemma LogIsSeenExactlyWhen(posts: seq<Post<string>>, arrived: nat -> bool)
    requires AllHonest(posts, arrived)
    ensures LogOf(posts, arrived) == SeenEvents(posts) <==> NoneUnseen(posts, arrived)
  {
    LogSplits(posts, arrived);
    UnseenEventsTell(posts, arrived);
    InterleavesLength(UnseenEvents(posts, arrived), SeenEvents(posts), LogOf(posts, arrived));
    if UnseenEvents(posts, arrived) == [] {
      NothingLost(SeenEvents(posts), LogOf(posts, arrived));
    }
  }

  // ----- the store behind them

  /** When the request that brought it was handled, for each event of the log. */
  function Stamps(posts: seq<Post<string>>, arrived: nat -> bool, clock: nat -> string): (r: seq<string>)
    ensures |r| == |LogOf(posts, arrived)|
  {
    if posts == [] then []
    else
      var n := |posts| - 1;
      Stamps(posts[..n], arrived, clock) + seq(|BroughtBy(posts[n], arrived(n))|, _ => clock(n))
  }

  function StampEach(events: seq<Event>, stamps: seq<string>): seq<Event>
    requires |events| == |stamps|
  {
    seq(|events|, i requires 0 <= i < |events| => Stamped(events[i], stamps[i]))
  }

  /** What a store with an empty log has logged after some requests. */
  function StoreLog(posts: seq<Post<string>>, arrived: nat -> bool, clock: nat -> string,
                    asEvent: Value -> Event): seq<Event> {
    StampEach(Map(asEvent, LogOf(posts, arrived)), Stamps(posts, arrived, clock))
  }

  lemma StampEachConcat(a: seq<Event>, b: seq<Event>, s: seq<string>, t: seq<string>)
    requires |a| == |s| && |b| == |t|
    ensures StampEach(a + b, s + t) == StampEach(a, s) + StampEach(b, t)
  {
  }

  lemma StampAlike(events: seq<Event>, stamps: seq<string>, now: string)
    requires |events| == |stamps| && forall i :: 0 <= i < |stamps| ==> stamps[i] == now
    ensures StampEach(events, stamps) == AllStamped(events, now)
  {
  }

  lemma LogFront(posts: seq<Post<string>>, n: nat, arrived: nat -> bool)
    requires n < |posts|
    ensures LogOf(posts[..n + 1], arrived) == LogOf(posts[..n], arrived) + BroughtBy(posts[n], arrived(n))
  {
    assert posts[..n + 1][..n] == posts[..n];
  }

  lemma StampsFront(posts: seq<Post<string>>, n: nat, arrived: nat -> bool, clock: nat -> string)
      returns (now: seq<string>)
    requires n < |posts|
    ensures |now| == |BroughtBy(posts[n], arrived(n))| && forall i :: 0 <= i < |now| ==> now[i] == clock(n)
    ensures Stamps(posts[..n + 1], arrived, clock) == Stamps(posts[..n], arrived, clock) + now
  {
    assert posts[..n + 1][..n] == posts[..n];
    now := seq(|BroughtBy(posts[n], arrived(n))|, _ => clock(n));
  }

  lemma StampOneMore(posts: seq<Post<string>>, n: nat, arrived: nat -> bool, clock: nat -> string,
                     asEvent: Value -> Event)
    requires n < |posts|
    ensures StoreLog(posts[..n + 1], arrived, clock, asEvent) ==
      StoreLog(posts[..n], arrived, clock, asEvent)
      + Adds(posts[n], arrived(n), clock(n), asEvent)
  {
    var log, brought := LogOf(posts[..n], arrived), BroughtBy(posts[n], arrived(n));
    LogFront(posts, n, arrived);
    var now := StampsFront(posts, n, arrived, clock);
    MapConcat(asEvent, log, brought);
    StampEachConcat(Map(asEvent, log), Map(asEvent, brought), Stamps(posts[..n], arrived, clock), now);
    StampAlike(Map(asEvent, brought), now, clock(n));
  }

  /** What one request adds to the store's log. */
  function Adds(p: Post<string>, arrived: bool, now: string, asEvent: Value -> Event): seq<Event> {
    AllStamped(Map(asEvent, BroughtBy(p, arrived)), now)
  }

  /** The server's loop over the requests that arrive: the store logs exactly the events of `LogOf`, each
      stamped when its request is handled. */
  method ServePosts(store: Store, posts: seq<Post<string>>, arrived: nat -> bool, clock: nat -> string,
                    asEvent: Value -> Event)
    requires store.Valid()
    modifies store
    ensures store.Valid() && store.log == old(store.log) + StoreLog(posts, arrived, clock, asEvent)
  {
    ghost var logged := StoreLogs(posts, arrived, clock, asEvent);
    ServeAll(store, posts, arrived, clock, asEvent, logged);
  }

  /** The store's log after each of the requests. */
  lemma StoreLogs(posts: seq<Post<string>>, arrived: nat -> bool, clock: nat -> string, asEvent: Value -> Event)
      returns (logged: seq<seq<Event>>)
    ensures |logged| == |posts| + 1 && logged[0] == [] && logged[|posts|] == StoreLog(posts, arrived, clock, asEvent)
    ensures forall i :: 0 <= i < |posts| ==>
              logged[i + 1] == logged[i] + Adds(posts[i], arrived(i), clock(i), asEvent)
  {
    logged := seq(|posts| + 1, i requires 0 <= i <= |posts| => StoreLog(posts[..i], arrived, clock, asEvent));
    NothingLogged(posts, arrived, clock, asEvent);
    assert posts[..|posts|] == posts;
    forall i | 0 <= i < |posts|
      ensures logged[i + 1] == logged[i] + Adds(posts[i], arrived(i), clock(i), asEvent)
    {
      StampOneMore(posts, i, arrived, clock, asEvent);
    }
  }

  lemma NothingLogged(posts: seq<Post<string>>, arrived: nat -> bool, clock: nat -> string, asEvent: Value -> Event)
    ensures StoreLog(posts[..0], arrived, clock, asEvent) == []
  {
    assert posts[..0] == [];
  }

  method ServeAll(store: Store, posts: seq<Post<string>>, arrived: nat -> bool, clock: nat -> string,
                  asEvent: Value -> Event, ghost logged: seq<seq<Event>>)
    requires store.Valid() && |logged| == |posts| + 1 && logged[0] == []
    requires forall i :: 0 <= i < |posts| ==>
               logged[i + 1] == logged[i] + Adds(posts[i], arrived(i), clock(i), asEvent)
    modifies store
    ensures store.Valid() && store.log == old(store.log) + logged[|posts|]
  {
    var i := 0;
    while i < |posts|
      invariant 0 <= i <= |posts| && store.Valid()
      invariant store.log == old(store.log) + logged[i]
    {
      ServeOne(store, posts[i], arrived(i), clock(i), asEvent);
      Associative(old(store.log), logged[i], Adds(posts[i], arrived(i), clock(i), asEvent));
      i := i + 1;
    }
  }

  lemma Associative<T>(a: seq<T>, b: seq<T>, c: seq<T>)
    ensures a + b + c == a + (b + c)
  {
  }

  method ServeOne(store: Store, p: Post<string>, arrived: bool, now: string, asEvent: Value -> Event)
    requires store.Valid()
    modifies store
    ensures store.Valid() && store.log == old(store.log) + Adds(p, arrived, now, asEvent)
  {
    if arrived {
      var _ := HandlePost(store, ArrayText(p.items), now, asEvent);
    } else {
      assert Adds(p, arrived, now, asEvent) == [];
    }
  }

  // ----- what a request brings

  /** The text of each of these events is one object. */
  ghost predicate ItemsRead(items: seq<nat>, text: nat -> string, value: nat -> Value) {
    forall i :: 0 <= i < |items| ==> Reads(text(items[i]), value(items[i])) && value(items[i]).Obj?
  }

  lemma EmptyBodyBringsNothing()
    ensures Receive(ArrayText([])) == BadRequest
  {
    ArrayReads([], []);
    ArrayIsUtf8([]);
    assert Objects([]) == [];
  }

  /** A request brings all its events or none, and when the receiver's answer reaches the client, all
      exactly when it acknowledges. */
  lemma PostBringsItsEvents(p: Post<nat>, text: nat -> string, value: nat -> Value)
    requires ItemsRead(p.items, text, value)
    ensures var q := MapPost(text, p);
      var brought := Brought(ArrayText(q.items));
      && (brought == [] || brought == Map(value, p.items))
      && (q.reply == Answer(Receive(ArrayText(q.items))) ==>
            brought == if p.reply.Acknowledges() then Map(value, p.items) else [])
  {
    var items := Map(text, p.items);
    if items == [] {
      EmptyBodyBringsNothing();
    } else {
      ReceiverGetsTheBatch(items, Map(value, p.items));
    }
  }

  lemma MapPostsFront(text: nat -> string, ps: seq<Post<nat>>)
    requires ps != []
    ensures var all := MapPosts(text, ps);
      all[..|all| - 1] == MapPosts(text, ps[..|ps| - 1]) && all[|all| - 1] == MapPost(text, ps[|ps| - 1])
  {
  }

  lemma AckedFront(ps: seq<Post<nat>>, value: nat -> Value)
    requires ps != []
    ensures var front, last := ps[..|ps| - 1], ps[|ps| - 1];
      Map(value, Acked(ps)) ==
        Map(value, Acked(front)) + (if last.reply.Acknowledges() then Map(value, last.items) else [])
  {
    var front, last := ps[..|ps| - 1], ps[|ps| - 1];
    MapConcat(value, Acked(front), last.items);
    assert Acked(front) + [] == Acked(front);
  }

  /** A request that was acknowledged honestly brought its events. */
  lemma AckedBrings(p: Post<nat>, arrived: bool, text: nat -> string, value: nat -> Value)
    requires Honest(MapPost(text, p), arrived) && p.reply.Acknowledges() && ItemsRead(p.items, text, value)
    ensures Brought(ArrayText(MapPost(text, p).items)) == Map(value, p.items)
  {
    PostBringsItsEvents(p, text, value);
  }

  lemma ItemsReadSplits(a: seq<nat>, b: seq<nat>, text: nat -> string, value: nat -> Value)
    requires ItemsRead(a + b, text, value)
    ensures ItemsRead(a, text, value) && ItemsRead(b, text, value)
  {
    assert forall i :: 0 <= i < |a| ==> (a + b)[i] == a[i];
    assert forall i :: 0 <= i < |b| ==> (a + b)[|a| + i] == b[i];
  }

  /** What acknowledged requests brought is what their events say. */
  lemma {:induction false} SeenIsAcked(ps: seq<Post<nat>>, arrived: nat -> bool, text: nat -> string,
                                       value: nat -> Value)
    requires ItemsRead(Acked(ps), text, value) && AllHonest(MapPosts(text, ps), arrived)
    ensures SeenEvents(MapPosts(text, ps)) == Map(value, Acked(ps))
    decreases |ps|
  {
    if ps != [] {
      var n, posts := |ps| - 1, MapPosts(text, ps);
      var last := if ps[n].reply.Acknowledges() then ps[n].items else [];
      MapPostsFront(text, ps);
      ItemsReadSplits(Acked(ps[..n]), last, text, value);
      SeenIsAcked(ps[..n], arrived, text, value);
      AckedFront(ps, value);
      if ps[n].reply.Acknowledges() {
        AckedBrings(ps[n], arrived(n), text, value);
      }
    }
  }

  // ----- the requests of one call

  /** How many of the requests from number `from` up to number `end` arrive. */
  function Arrivals(arrived: nat -> bool, from: nat, end: nat): nat
    requires from <= end
  {
    if from == end then 0 else Arrivals(arrived, from, end - 1) + (if arrived(end - 1) then 1 else 0)
  }

  function Times<T>(n: nat, s: seq<T>): seq<T> {
    if n == 0 then [] else Times(n - 1, s) + s
  }

  /** Each of these requests carries what brings `vs`. */
  ghost predicate AllCarry(posts: seq<Post<string>>, from: nat, vs: seq<Value>) {
    forall i :: from <= i < |posts| ==> Brought(ArrayText(posts[i].items)) == vs
  }

  /** A log to which the same is added again and again. */
  lemma {:induction false} GrowsByTimes(logs: seq<seq<Value>>, from: nat, end: nat, vs: seq<Value>,
                                        arrived: nat -> bool)
    requires from <= end < |logs|
    requires forall i :: from <= i < end ==> logs[i + 1] == logs[i] + (if arrived(i) then vs else [])
    ensures logs[end] == logs[from] + Times(Arrivals(arrived, from, end), vs)
    decreases end
  {
    if from < end {
      GrowsByTimes(logs, from, end - 1, vs, arrived);
      assert logs[end - 1 + 1] == logs[end];
      OneMoreTime(logs[from], Arrivals(arrived, from, end - 1), vs, arrived(end - 1));
    }
  }

  lemma SameBatchAgain(posts: seq<Post<string>>, from: nat, vs: seq<Value>, arrived: nat -> bool)
    requires from <= |posts| && AllCarry(posts, from, vs)
    ensures LogOf(posts, arrived) == LogOf(posts[..from], arrived) + Times(Arrivals(arrived, from, |posts|), vs)
  {
    var logs := seq(|posts| + 1, i requires 0 <= i <= |posts| => LogOf(posts[..i], arrived));
    forall i | from <= i < |posts|
      ensures logs[i + 1] == logs[i] + (if arrived(i) then vs else [])
    {
      BatchOnceMore(posts, from, i, vs, arrived);
    }
    GrowsByTimes(logs, from, |posts|, vs, arrived);
    assert posts[..|posts|] == posts;
  }

  lemma BatchOnceMore(posts: seq<Post<string>>, from: nat, n: nat, vs: seq<Value>, arrived: nat -> bool)
    requires from <= n < |posts| && AllCarry(posts, from, vs)
    ensures LogOf(posts[..n + 1], arrived) == LogOf(posts[..n], arrived) + (if arrived(n) then vs else [])
  {
    LogFront(posts, n, arrived);
  }

  lemma OneMoreTime(front: seq<Value>, n: nat, vs: seq<Value>, again: bool)
    ensures front + Times(n, vs) + (if again then vs else []) == front + Times(if again then n + 1 else n, vs)
  {
    Associative(front, Times(n, vs), vs);
  }

  /** One call adds the batch to the log once for every request of it that arrives, whatever is answered;
      whether the batch counts as delivered does not depend on that number. */
  lemma EachArrivalBringsTheBatch(s: Settings, o: Out<string>, env: PostEnv, vs: seq<Value>, arrived: nat -> bool)
    requires |o.batch| == |vs| > 0 && AllDecode(o.batch)
    requires forall i :: 0 <= i < |vs| ==> Reads(o.batch[i], vs[i]) && vs[i].Obj?
    ensures var r := PostBatch(s, o, env).0;
      && |o.posts| <= |r.posts|
      && LogOf(r.posts, arrived) ==
           LogOf(o.posts, arrived) + Times(Arrivals(arrived, |o.posts|, |r.posts|), vs)
  {
    PostBatchOutcome(s, o, env);
    ReceiverGetsTheBatch(o.batch, vs);
    AddedRequests(o.posts, PostBatch(s, o, env).0.posts, o.batch, vs, arrived);
  }

  lemma AddedRequests(before: seq<Post<string>>, after: seq<Post<string>>, batch: seq<string>, vs: seq<Value>,
                      arrived: nat -> bool)
    requires before <= after && Brought(ArrayText(batch)) == vs
    requires forall i :: |before| <= i < |after| ==> after[i].items == batch
    ensures LogOf(after, arrived) == LogOf(before, arrived) + Times(Arrivals(arrived, |before|, |after|), vs)
  {
    SameBatchAgain(after, |before|, vs, arrived);
    assert after[..|before|] == before;
  }

  // ----- whole runs

  /** The texts at the end of a run that starts with nothing. */
  function EndOfRun(c: Setup, labels: seq<Label>, text: nat -> string): Texts
    requires c.Ready()
  {
    TextRun(c, Initial(c), labels, text, Texts(Empty(), Fresh(c.settings), []))
  }

  /** The requests of a run. */
  function Requests(c: Setup, labels: seq<Label>, text: nat -> string): seq<Post<string>>
    requires c.Ready()
  {
    EndOfRun(c, labels, text).out.posts
  }

  lemma RunWritten(c: Setup, labels: seq<Label>, text: nat -> string)
    requires c.Ready() && AllAccepted(text)
    ensures EndOfRun(c, labels, text) == Written(text, Run(c, labels))
    ensures Requests(c, labels, text) == MapPosts(text, Run(c, labels).out.posts)
  {
    assert Written(text, Initial(c)) == Texts(Empty(), Fresh(c.settings), []);
    RunMaps(c, Initial(c), labels, text);
  }

  /** A run in HTTP mode that posts to this receiver; any request or answer may get lost.  Of the events only
      the delivered ones must be readable. */
  ghost predicate Posting(c: Setup, labels: seq<Label>, text: nat -> string, value: nat -> Value,
                          arrived: nat -> bool)
    requires c.Ready()
  {
    && c.settings.mode.HttpPost? && AllAccepted(text)
    && ItemsRead(Run(c, labels).out.written, text, value)
    && AllHonest(Requests(c, labels, text), arrived)
  }

  lemma DeliveredIsSeen(c: Setup, labels: seq<Label>, text: nat -> string, value: nat -> Value,
                        arrived: nat -> bool)
    requires c.Ready() && Posting(c, labels, text, value, arrived)
    ensures SeenEvents(Requests(c, labels, text)) == Map(value, Run(c, labels).out.written)
  {
    RunWritten(c, labels, text);
    DeliveredIsAcknowledged(c, labels);
    SeenIsAcked(Run(c, labels).out.posts, arrived, text, value);
  }

  /** In every reachable state every delivered event is in the receiver's log, in the order in which the
      collector built them, and what else is there was brought by unseen requests. */
  lemma WebUiHoldsDelivered(c: Setup, labels: seq<Label>, text: nat -> string, value: nat -> Value,
                            arrived: nat -> bool)
    requires c.Ready() && Posting(c, labels, text, value, arrived)
    ensures var s, posts := Run(c, labels), Requests(c, labels, text);
      && Interleaves(UnseenEvents(posts, arrived), Map(value, s.out.written), LogOf(posts, arrived))
      && Sorted(s.out.written, |s.queue.log|)
  {
    DeliveredIsSeen(c, labels, text, value, arrived);
    DeliveredIsAcknowledged(c, labels);
    LogSplits(Requests(c, labels, text), arrived);
  }

  /** The receiver's log is exactly the delivered events, each once and in order, if and only if no request
      was unseen; requests that do not arrive do no harm, and neither do retries. */
  lemma WebUiLogIsDeliveredExactlyWhen(c: Setup, labels: seq<Label>, text: nat -> string, value: nat -> Value,
                                       arrived: nat -> bool)
    requires c.Ready() && Posting(c, labels, text, value, arrived)
    ensures var posts := Requests(c, labels, text);
      LogOf(posts, arrived) == Map(value, Run(c, labels).out.written) <==> NoneUnseen(posts, arrived)
  {
    DeliveredIsSeen(c, labels, text, value, arrived);
    LogIsSeenExactlyWhen(Requests(c, labels, text), arrived);
  }

  /** With no request unseen the log and the lost events are together the whole, each in order; with no event
      lost the whole is in the log, in order, and nothing else exactly when no request was unseen. */
  ghost predicate HasEverything(lost: seq<nat>, whole: seq<nat>, posts: seq<Post<string>>, value: nat -> Value,
                                arrived: nat -> bool) {
    var log := LogOf(posts, arrived);
    && (NoneUnseen(posts, arrived) ==> Interleaves(Map(value, lost), log, Map(value, whole)))
    && (lost == [] ==>
          && Interleaves(UnseenEvents(posts, arrived), Map(value, whole), log)
          && (log == Map(value, whole) <==> NoneUnseen(posts, arrived)))
  }

  /** At the end of a run in which each call is acknowledged in time, after any number of failed attempts,
      the receiver has all events that did not overflow, but at most the last six; and it has nothing else
      if and only if no request was unseen. */
  lemma WebUiGetsEverything(c: Setup, labels: seq<Label>, text: nat -> string, value: nat -> Value,
                            arrived: nat -> bool)
    requires c.Ready() && Posting(c, labels, text, value, arrived)
    requires Run(c, labels).main.MainDone? && forall i :: 0 <= i < |labels| ==> FriendlyMove(c.settings, labels[i])
    ensures var s, posts := Run(c, labels), Requests(c, labels, text);
      var missing := |s.queue.items|;
      && missing <= (if s.signalled then MAX_EVENTS_PER_ITERATION else 0) && missing <= |s.queue.log|
      && HasEverything(s.queue.lost, UpTo(|s.queue.log| - missing), posts, value, arrived)
  {
    WebUiHoldsDelivered(c, labels, text, value, arrived);
    WebUiLogIsDeliveredExactlyWhen(c, labels, text, value, arrived);
    HttpOutputIsTheRest(c, labels);
    var s := Run(c, labels);
    EverythingArrives(s.queue.lost, s.out.written, UpTo(|s.queue.log| - |s.queue.items|),
                      Requests(c, labels, text), value, arrived);
  }

  lemma EverythingArrives(lost: seq<nat>, written: seq<nat>, whole: seq<nat>, posts: seq<Post<string>>,
                          value: nat -> Value, arrived: nat -> bool)
    requires Interleaves(lost, written, whole) && (lost == [] ==> written == whole)
    requires Interleaves(UnseenEvents(posts, arrived), Map(value, written), LogOf(posts, arrived))
    requires LogOf(posts, arrived) == Map(value, written) <==> NoneUnseen(posts, arrived)
    ensures HasEverything(lost, whole, posts, value, arrived)
  {
    InterleavesMaps(value, lost, written, whole);
  }

  // ----- a lost answer

  /** The answer to the first request of a call gets lost; the second is acknowledged. */
  function FirstAnswerLost(): PostEnv {
    PostEnv(true, true, i => if i == 0 then NoReply else Status(200), _ => 0)
  }

  lemma PostedTwice<T>(s: Settings, o: Out<T>)
    requires s.retryMax >= 1 && o.batch != []
    ensures PostBatch(s, o, FirstAnswerLost()).0 ==
      Out(o.written + o.batch, [], None, o.capacity, o.discarded,
          o.posts + [Post(o.batch, NoReply), Post(o.batch, Status(200))])
  {
    var env := FirstAnswerLost();
    assert RetryFrom(env.reply, 1, s.retryMax) == (Delivered, 2);
    assert RetryFrom(env.reply, 0, s.retryMax) == (Delivered, 2);
    assert seq(2, i requires 0 <= i => Post(o.batch, env.reply(i))) ==
           [Post(o.batch, NoReply), Post(o.batch, Status(200))];
  }

  function DeliverWith(env: PostEnv): Label {
    Deliver(EmitEnv(env, env, None, None, true, true), env)
  }

  lemma FirstAnswerLostIsFriendly(s: Settings)
    requires s.retryMax >= 1
    ensures FriendlyMove(s, DeliverWith(FirstAnswerLost()))
  {
    var env := FirstAnswerLost();
    assert env.reply(1).Acknowledges() && !env.reply(0).Decides();
  }

  /** Handing over the first event and flushing: at once if the batch is full with it. */
  lemma FirstEventIsPostedTwice(c: Setup, s: State)
    requires c.Ready() && c.settings.mode.HttpPost? && c.settings.retryMax >= 1
    requires s.delivery.Handing? && s.hand == [0] && s.out == Fresh(c.settings)
    ensures var l := DeliverWith(FirstAnswerLost());
      var o := Step(c, Step(c, s, l), l).out;
      o.written == [0] && o.posts == [Post([0], NoReply), Post([0], Status(200))]
  {
    var env := FirstAnswerLost();
    var l := DeliverWith(env);
    var held := Started(s.out, None).(batch := [0]);
    FirstEventIsStored(c.settings, s.out);
    assert Step(c, s, l).out == if c.settings.batchSize <= 1 then PostBatch(c.settings, held, env).0 else held;
    assert Step(c, s, l).delivery.Flushing?;
    PostedTwice(c.settings, held);
  }

  lemma FirstEventIsStored(s: Settings, o: Out<nat>)
    requires s.mode.HttpPost? && o == Fresh(s)
    ensures var env := FirstAnswerLost();
      var held := Started(o, None).(batch := [0]);
      Emit(s, o, 0, EmitEnv(env, env, None, None, true, true)).0 ==
        if s.batchSize <= 1 then PostBatch(s, held, env).0 else held
  {
    assert o.batch + [0] == [0];
  }

  /** A run in which the warming-up event is enqueued, taken, handed over and flushed. */
  lemma FirstEventRun(c: Setup) returns (labels: seq<Label>)
    requires c.Ready() && c.settings.mode.HttpPost? && c.settings.retryMax >= 1
    ensures var o := Run(c, labels).out;
      o.written == [0] && o.posts == [Post([0], NoReply), Post([0], Status(200))]
    ensures forall i :: 0 <= i < |labels| ==> FriendlyMove(c.settings, labels[i])
  {
    FirstAnswerLostIsFriendly(c.settings);
    var collect, deliver := Collect(false, true), DeliverWith(FirstAnswerLost());
    var s0 := Initial(c);
    var s1 := Step(c, s0, collect);
    var s2 := Step(c, s1, deliver);
    var s3 := Step(c, s2, deliver);
    assert s1.queue.items == [0] && s3.delivery.Handing? && s3.hand == [0] && s3.out == s0.out;
    FirstEventIsPostedTwice(c, s3);
    FiveMoves(c, s0, collect, deliver);
    labels := [collect, deliver, deliver, deliver, deliver];
  }

  lemma FiveMoves(c: Setup, s: State, a: Label, b: Label)
    requires c.Ready()
    ensures RunFrom(c, s, [a, b, b, b, b]) == Step(c, Step(c, Step(c, Step(c, Step(c, s, a), b), b), b), b)
  {
    assert [a, b, b, b, b][1..] == [b, b, b, b] && [b, b, b, b][1..] == [b, b, b];
    assert [b, b, b][1..] == [b, b] && [b, b][1..] == [b] && [b][1..] == [];
    var t := Step(c, Step(c, s, a), b);
    assert RunFrom(c, t, [b, b, b]) == RunFrom(c, Step(c, t, b), [b, b]);
    assert RunFrom(c, Step(c, t, b), [b, b]) == RunFrom(c, Step(c, Step(c, t, b), b), [b]);
  }

  lemma TwoRequests(text: nat -> string)
    ensures var first: nat := 0;
      MapPosts(text, [Post([first], NoReply), Post([first], Status(200))]) ==
        [Post([text(0)], NoReply), Post([text(0)], Status(200))]
  {
    var first: nat := 0;
    assert Map(text, [first]) == [text(0)];
  }

  /** Whatever the settings, if they allow a retry: when everything arrives but the first answer, the log
      holds the first event twice, although it is delivered once. */
  lemma LostAnswerRepeatsEvent(c: Setup, text: nat -> string, value: nat -> Value) returns (labels: seq<Label>)
    requires c.Ready() && c.settings.mode.HttpPost? && c.settings.retryMax >= 1 && AllAccepted(text)
    requires Reads(text(0), value(0)) && value(0).Obj? && Utf8Valid(text(0))
    ensures var arrived := All();
      && Posting(c, labels, text, value, arrived)
      && (forall i :: 0 <= i < |labels| ==> FriendlyMove(c.settings, labels[i]))
      && Run(c, labels).out.written == [0]
      && LogOf(Requests(c, labels, text), arrived) == [value(0), value(0)]
  {
    labels := FirstEventRun(c);
    RunWritten(c, labels, text);
    TwoRequests(text);
    TwiceTheSame(text(0), value(0));
    FirstEventReads(text, value);
  }

  lemma FirstEventReads(text: nat -> string, value: nat -> Value)
    requires Reads(text(0), value(0)) && value(0).Obj?
    ensures ItemsRead([0], text, value)
  {
  }

  lemma TwiceTheSame(item: string, v: Value)
    requires Reads(item, v) && v.Obj? && Utf8Valid(item)
    ensures var posts := [Post([item], NoReply), Post([item], Status(200))];
      LogOf(posts, All()) == [v, v] && AllHonest(posts, All())
  {
    var first, second := Post([item], NoReply), Post([item], Status(200));
    ReceiverGetsTheBatch([item], [v]);
    assert Brought(ArrayText([item])) == [v];
    assert [first, second][..1] == [first] && [first][..0] == [];
    assert LogOf([first], All()) == LogOf([], All()) + [v];
  }

  function All(): nat -> bool {
    (i: nat) => true
  }
}
