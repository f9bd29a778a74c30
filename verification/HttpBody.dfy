/** The request body that http_post_batch builds with malloc and strcat, and what the web UI
    makes of it. */
module HttpBody {
  import opened DropOldest
  import opened Options
  import opened Json
  import opened JsonCompose
  import opened JsonEscape
  import opened Outbox
  import opened Utf8Text

  /** The length loop: two brackets, and for each item its text and one more byte. */
  function BodyLength(items: seq<string>): nat {
    if items == [] then 2 else |items[0]| + 1 + BodyLength(items[1..])
  }

  lemma {:induction false} BodyLengthIsOneMore(items: seq<string>)
    requires items != []
    ensures |ArrayText(items)| == BodyLength(items) - 1
    decreases |items|
  {
    if |items| > 1 {
      BodyLengthIsOneMore(items[1..]);
    }
  }

  /** strcat. */
  method StrCat(buffer: array<char>, ghost held: string, s: string)
    requires HoldsText(buffer[..], held) && |held| + |s| < buffer.Length && '\0' !in s
    modifies buffer
    ensures HoldsText(buffer[..], held + s)
  {
    assert forall j :: 0 <= j < |held| ==> buffer[..|held|][j] == buffer[j] && buffer[j] == held[j] != '\0';
    var end := 0;
    while buffer[end] != '\0'
      invariant 0 <= end <= |held|
      decreases |held| - end
    {
      end := end + 1;
    }
    CopyInto(buffer, end, s);
    buffer[end + |s|] := '\0';
    assert buffer[..|held + s|] == held + s;
  }

  /** The body of a request for a non-empty batch: bracketed, comma-separated, in bounds. */
  method BuildBody(items: seq<string>) returns (body: array<char>)
    requires items != [] && forall i :: 0 <= i < |items| ==> '\0' !in items[i]
    ensures fresh(body) && body.Length == BodyLength(items) + 1
    ensures HoldsText(body[..], ArrayText(items))
  {
    body := new char[BodyLength(items) + 1](_ => '\0');
    BodyLengthIsOneMore(items);
    body[0] := '[';
    body[1] := '\0';
    ghost var held := "[";
    assert body[..1] == held;
    var i := 0;
    while i < |items|
      invariant 0 <= i <= |items|
      invariant HoldsText(body[..], held) && held == Upto(items, i)
      invariant body.Length == |ArrayText(items)| + 2 && |held| < |ArrayText(items)|
    {
      UptoNext(items, i);
      UptoFits(items, i + 1);
      StrCat(body, held, items[i]);
      held := held + items[i];
      if i + 1 < |items| {
        StrCat(body, held, ",");
        held := held + ",";
      }
      i := i + 1;
    }
    StrCat(body, held, "]");
    assert items[..i] == items;
  }

  /** The text built after `i` items, with the comma that already follows them. */
  function Upto(items: seq<string>, i: nat): string
    requires i <= |items|
  {
    "[" + Join(items[..i]) + (if 0 < i < |items| then "," else "")
  }

  lemma UptoNext(items: seq<string>, i: nat)
    requires i < |items|
    ensures Upto(items, i + 1) == Upto(items, i) + items[i] + (if i + 1 < |items| then "," else "")
  {
    assert items[..i + 1] == items[..i] + [items[i]];
    JoinAppend(items[..i], items[i]);
  }

  lemma {:induction false} UptoFits(items: seq<string>, i: nat)
    requires 0 < i <= |items|
    ensures |Upto(items, i)| < |ArrayText(items)|
    decreases |items| - i
  {
    if i == |items| {
      assert items[..i] == items;
    } else {
      UptoNext(items, i);
      UptoFits(items, i + 1);
    }
  }

  // ----- the receiver

  function Objects(vs: seq<Value>): seq<Value> {
    if vs == [] then [] else (if vs[0].Obj? then [vs[0]] else []) + Objects(vs[1..])
  }

  /** What do_POST does with a body: no answer at all when the bytes do not decode, as only JSON
      errors are caught; a 400 when the text is not JSON or holds no object; else it ingests. */
  datatype Received = NoAnswer | BadRequest | Ingested(events: seq<Value>)

  /** The body handling of do_POST, for the bodies of this client: a C string that starts with `[`
      is decoded as UTF-8. */
  function Receive(body: string): Received {
    if !Utf8Valid(body) then NoAnswer
    else
      match Parse(body)
      case None => BadRequest
      case Some(v) =>
        if v.Obj? then Ingested([v])
        else if v.Arr? && Objects(v.items) != [] then Ingested(Objects(v.items))
        else BadRequest
  }

  /** The answer the client's transport reports. */
  function Answer(r: Received): Reply {
    match r
    case NoAnswer => NoReply
    case BadRequest => Status(400)
    case Ingested(_) => Status(200)
  }

  lemma {:induction false} AllObjectsKept(vs: seq<Value>)
    requires forall i :: 0 <= i < |vs| ==> vs[i].Obj?
    ensures Objects(vs) == vs
  {
    if vs != [] {
      AllObjectsKept(vs[1..]);
    }
  }

  function IfObject(v: Value): seq<Value> {
    if v.Obj? then [v] else []
  }

  lemma {:induction false} ObjectsConcat(vs: seq<Value>, v: Value)
    ensures Objects(vs + [v]) == Objects(vs) + IfObject(v)
  {
    if vs == [] {
      assert vs + [v] == [v] && [v][1..] == [];
    } else {
      var first, rest := vs[0], vs[1..];
      NextObject(vs + [v], first, rest + [v]);
      NextObject(vs, first, rest);
      ObjectsConcat(rest, v);
      Grouped(IfObject(first), Objects(rest), IfObject(v));
    }
  }

  lemma NextObject(vs: seq<Value>, first: Value, rest: seq<Value>)
    requires vs == [first] + rest
    ensures Objects(vs) == IfObject(first) + Objects(rest)
  {
    assert vs[1..] == rest;
  }

  lemma Grouped(a: seq<Value>, b: seq<Value>, c: seq<Value>)
    ensures a + (b + c) == a + b + c
  {
  }

  /** `events` are the objects of the list, in order: the list is made of them and of what is none. */
  ghost predicate AreTheObjectsOf(events: seq<Value>, items: seq<Value>) {
    && (forall e :: e in events ==> e.Obj?)
    && exists others :: Interleaves(events, others, items) && NoObjects(others)
  }

  ghost predicate NoObjects(vs: seq<Value>) {
    forall v :: v in vs ==> !v.Obj?
  }

  lemma {:induction false} ObjectsInOrder(vs: seq<Value>) returns (others: seq<Value>)
    ensures Interleaves(Objects(vs), others, vs) && NoObjects(others)
    ensures forall e :: e in Objects(vs) ==> e.Obj?
    decreases |vs|
  {
    others := [];
    if vs != [] {
      var front, last := vs[..|vs| - 1], vs[|vs| - 1];
      var rest := ObjectsInOrder(front);
      assert vs == front + [last];
      ObjectsConcat(front, last);
      if last.Obj? {
        InterleavesExtendLeft(Objects(front), rest, front, last);
        others := rest;
      } else {
        InterleavesExtendRight(Objects(front), rest, front, [last]);
        assert Objects(front) + [] == Objects(front);
        others := rest + [last];
      }
    }
  }

  /** do_POST on a list: exactly its objects are ingested, in order; a list without any is answered 400. */
  lemma ListIsAnswered(body: string, items: seq<Value>)
    requires Utf8Valid(body) && Parse(body) == Some(Arr(items))
    ensures if exists v :: v in items && v.Obj? then
              && Receive(body).Ingested? && Answer(Receive(body)) == Status(200)
              && AreTheObjectsOf(Receive(body).events, items)
            else Answer(Receive(body)) == Status(400)
  {
    var others := ObjectsInOrder(items);
    InterleavesAreMembers(Objects(items), others, items);
    if Objects(items) != [] {
      assert Objects(items)[0] in items;
    }
  }

  lemma {:induction false} InterleavesAreMembers<T>(a: seq<T>, b: seq<T>, whole: seq<T>)
    requires Interleaves(a, b, whole)
    ensures forall x :: x in whole <==> x in a || x in b
    decreases |whole|
  {
    if whole != [] {
      var n := |whole| - 1;
      if a != [] && a[|a| - 1] == whole[n] && Interleaves(a[..|a| - 1], b, whole[..n]) {
        InterleavesAreMembers(a[..|a| - 1], b, whole[..n]);
        assert a == a[..|a| - 1] + [whole[n]];
      } else {
        InterleavesAreMembers(a, b[..|b| - 1], whole[..n]);
        assert b == b[..|b| - 1] + [whole[n]];
      }
      assert whole == whole[..n] + [whole[n]];
    }
  }

  /** And on anything else: undecodable bytes get no answer, a single object is ingested, and no JSON, or no
      object and no list, is answered 400. */
  lemma OtherBodiesAreAnswered(body: string)
    requires Utf8Valid(body) && Parse(body).Some? ==> !Parse(body).value.Arr?
    ensures if !Utf8Valid(body) then Answer(Receive(body)) == NoReply
            else if Parse(body).Some? && Parse(body).value.Obj? then
              Receive(body) == Ingested([Parse(body).value]) && Answer(Receive(body)) == Status(200)
            else Answer(Receive(body)) == Status(400)
  {
  }

  ghost predicate AllDecode(items: seq<string>) {
    forall i :: 0 <= i < |items| ==> Utf8Valid(items[i])
  }

  /** The web UI ingests exactly the batch, the same events in order, none split or merged, if every
      item decodes as UTF-8; if a single one does not, it does not even answer. */
  lemma ReceiverGetsTheBatch(items: seq<string>, vs: seq<Value>)
    requires |items| == |vs| > 0
    requires forall i :: 0 <= i < |items| ==> Reads(items[i], vs[i]) && vs[i].Obj?
    ensures Parse(ArrayText(items)) == Some(Arr(vs))
    ensures Receive(ArrayText(items)) == if AllDecode(items) then Ingested(vs) else NoAnswer
  {
    ArrayReads(items, vs);
    AllObjectsKept(vs);
    ArrayIsUtf8(items);
  }

  /** Sending a batch to this receiver: it is delivered by the first post if every item decodes, and
      otherwise posted retry_max_attempts + 1 times and then thrown away as a whole. */
  lemma BatchIsIngestedOrLost(s: Settings, o: Out<string>, env: PostEnv, vs: seq<Value>)
    requires |o.batch| == |vs| > 0 && env.bodyAllocated && env.curlCreated
    requires forall i :: 0 <= i < |vs| ==> Reads(o.batch[i], vs[i]) && vs[i].Obj?
    requires forall k: nat :: env.reply(k) == Answer(Receive(ArrayText(o.batch)))
    ensures var (r, rc) := PostBatch(s, o, env);
      && r.batch == []
      && (AllDecode(o.batch) ==>
            rc == 0 && |r.posts| == |o.posts| + 1 && r.written == o.written + o.batch && r.discarded == o.discarded)
      && (!AllDecode(o.batch) ==>
            && rc == -1 && |r.posts| == |o.posts| + s.retryMax + 1
            && r.written == o.written && r.discarded == o.discarded + o.batch)
  {
    ReceiverGetsTheBatch(o.batch, vs);
    RetryEndsAtFirstDecision(env.reply, 0, s.retryMax);
    assert env.reply(0) == Answer(Receive(ArrayText(o.batch)));
  }
}
