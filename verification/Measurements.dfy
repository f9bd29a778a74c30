/** From the collector to where events are read: which of them say there what was measured. */
module Measurements {
  import opened DropOldest
  import opened Events
  import opened Samples
  import opened HttpBody
  import opened HttpDelivery
  import opened Ingestion
  import opened Json
  import opened JsonCompose
  import opened Lines
  import opened MetricEvents
  import opened Options
  import opened Outbox
  import opened Pipeline
  import opened RawNames
  import opened RingQueue

  /** What the collector reports as one event, with any names that fit their fields. */
  datatype Report = Report(timestamp: string, host: string, sample: Sample)
  {
    ghost predicate Possible() {
      Sampled(timestamp, host, sample) && |timestamp| <= MAX_TIMESTAMP && Clean(timestamp)
    }

    /** No name in it holds a quote, a backslash or a control byte. */
    ghost predicate Plain() {
      sample.IsList() ==> CleanNames(sample.entries)
    }

    function Text(): string {
      EventText(timestamp, host, sample)
    }

    function Says(): Value {
      Events.Meaning(timestamp, host, sample)
    }

    /** `v` tells what was measured: type, time, host as far as it fits, and every number under its name. */
    predicate ToldBy(v: Value) {
      Tells(v, timestamp, host, sample)
    }
  }

  function TextsOf(reports: nat -> Report): nat -> string {
    (k: nat) => reports(k).Text()
  }

  function ValuesOf(reports: nat -> Report): nat -> Value {
    (k: nat) => reports(k).Says()
  }

  ghost predicate AllPossible(reports: nat -> Report) {
    forall k :: reports(k).Possible()
  }

  ghost predicate AllPlain(items: seq<nat>, reports: nat -> Report) {
    forall i :: 0 <= i < |items| ==> reports(items[i]).Plain()
  }

  lemma ReportsAreAccepted(reports: nat -> Report)
    requires AllPossible(reports)
    ensures AllAccepted(TextsOf(reports))
  {
    forall k: nat
      ensures Accepted(TextsOf(reports)(k))
    {
      EventIsAccepted(reports(k).timestamp, reports(k).host, reports(k).sample);
    }
  }

  lemma PlainIsRead(r: Report)
    requires r.Possible() && r.Plain()
    ensures Reads(r.Text(), r.Says()) && r.Says().Obj?
  {
    EventReads(r.timestamp, r.host, r.sample);
  }

  lemma PlainItemsRead(items: seq<nat>, reports: nat -> Report)
    requires AllPossible(reports) && AllPlain(items, reports)
    ensures ItemsRead(items, TextsOf(reports), ValuesOf(reports))
  {
    forall i | 0 <= i < |items|
      ensures Reads(TextsOf(reports)(items[i]), ValuesOf(reports)(items[i])) && ValuesOf(reports)(items[i]).Obj?
    {
      PlainIsRead(reports(items[i]));
    }
  }

  // ----- what an ingested batch tells about its names

  lemma BraceReadsObject(s: string)
    requires s != "" && s[0] == '{' && ParseValue(s).Some?
    ensures ParseValue(s).value.0.Obj?
  {
  }

  /** If an event is read, with something behind it, as what it says, then it was plain, and the reader
      stands right behind it. */
  lemma ReadAsMeant(r: Report, x: string)
    requires r.Possible() && ParseValue(r.Text() + x).Some? && ParseValue(r.Text() + x).value.0 == r.Says()
    ensures r.Plain() && ParseValue(r.Text() + x) == Some((r.Says(), x))
  {
    ReadsOnlyIfPlain(r.timestamp, r.host, r.sample, x);
    PlainIsRead(r);
    ValueReads(r.Text(), r.Says(), x);
  }

  lemma ReadAsObject(r: Report, x: string)
    requires ParseValue(r.Text() + x).Some?
    ensures ParseValue(r.Text() + x).value.0.Obj?
  {
    EventIsBraced(r.timestamp, r.host, r.sample);
    BraceReadsObject(r.Text() + x);
  }

  lemma FirstObject(vs: seq<Value>, upcoming: seq<Value>)
    requires vs != [] && vs[0].Obj? && Objects(vs) <= upcoming
    ensures upcoming != [] && upcoming[0] == vs[0] && Objects(vs[1..]) <= upcoming[1..]
  {
    assert Objects(vs) == [vs[0]] + Objects(vs[1..]);
  }

  /** Whatever follows the text: what is read from it is an object, and the object `v` only if the text is
      `plain`, and then the reader stands right behind it. */
  ghost predicate Reveals(text: string, v: Value, plain: bool) {
    && text != "" && text[0] == '{'
    && forall x :: ParseValue(text + x).Some? ==>
         && ParseValue(text + x).value.0.Obj?
         && (ParseValue(text + x).value.0 == v ==> plain && ParseValue(text + x) == Some((v, x)))
  }

  ghost predicate AllReveal(texts: seq<string>, vs: seq<Value>, plain: seq<bool>) {
    |texts| == |vs| == |plain| && forall i :: 0 <= i < |texts| ==> Reveals(texts[i], vs[i], plain[i])
  }

  lemma ReportReveals(r: Report)
    requires r.Possible()
    ensures Reveals(r.Text(), r.Says(), r.Plain())
  {
    EventIsBraced(r.timestamp, r.host, r.sample);
    forall x | ParseValue(r.Text() + x).Some?
      ensures ParseValue(r.Text() + x).value.0.Obj?
      ensures ParseValue(r.Text() + x).value.0 == r.Says() ==>
                r.Plain() && ParseValue(r.Text() + x) == Some((r.Says(), x))
    {
      ReadAsObject(r, x);
      if ParseValue(r.Text() + x).value.0 == r.Says() {
        ReadAsMeant(r, x);
      }
    }
  }

  lemma FirstReveals(texts: seq<string>, vs: seq<Value>, plain: seq<bool>)
    requires AllReveal(texts, vs, plain) && texts != []
    ensures Reveals(texts[0], vs[0], plain[0]) && AllReveal(texts[1..], vs[1..], plain[1..])
  {
  }

  /** A joined list whose objects come out as the meanings of its texts, as far as they go, is plain. */
  lemma {:induction false} JoinedDecide(texts: seq<string>, vs: seq<Value>, plain: seq<bool>, upcoming: seq<Value>)
    requires AllReveal(texts, vs, plain) && texts != [] && vs <= upcoming
    requires var list := Join(texts) + "]";
      ParseElements(list).Some? && Objects(ParseElements(list).value.0) <= upcoming
    ensures forall i :: 0 <= i < |plain| ==> plain[i]
    decreases |texts|
  {
    var read := ParseElements(Join(texts) + "]").value.0;
    FirstReveals(texts, vs, plain);
    JoinFront(texts, "]");
    var rest := if |texts| == 1 then "]" else "," + (Join(texts[1..]) + "]");
    FirstElement(texts[0] + rest);
    FirstObject(read, upcoming);
    assert vs[0] == upcoming[0];
    if |texts| > 1 {
      ElementAndMore(texts[0], vs[0], Join(texts[1..]) + "]");
      JoinedDecide(texts[1..], vs[1..], plain[1..], upcoming[1..]);
      assert forall i :: 0 < i < |plain| ==> plain[i] == plain[1..][i - 1];
    }
  }

  lemma BodyDecides(texts: seq<string>, vs: seq<Value>, plain: seq<bool>, upcoming: seq<Value>)
    requires AllReveal(texts, vs, plain) && vs <= upcoming
    requires Brought(ArrayText(texts)) != [] && Brought(ArrayText(texts)) <= upcoming
    ensures forall i :: 0 <= i < |plain| ==> plain[i]
  {
    if texts != [] {
      var list := Join(texts) + "]";
      JoinFront(texts, "]");
      assert Reveals(texts[0], vs[0], plain[0]);
      assert list[0] == texts[0][0] == '{';
      assert ArrayText(texts) == "[" + list;
      ArrayStarts(list);
      JoinedDecide(texts, vs, plain, upcoming);
    }
  }

  lemma BatchDecides(items: seq<nat>, reports: nat -> Report, upcoming: seq<Value>)
    requires AllPossible(reports)
    requires var brought := Brought(ArrayText(Map(TextsOf(reports), items))); brought != [] && brought <= upcoming
    requires Map(ValuesOf(reports), items) <= upcoming
    ensures AllPlain(items, reports)
  {
    ghost var plain := seq(|items|, i requires 0 <= i < |items| => reports(items[i]).Plain());
    forall i | 0 <= i < |items|
      ensures Reveals(Map(TextsOf(reports), items)[i], Map(ValuesOf(reports), items)[i], plain[i])
    {
      ReportReveals(reports(items[i]));
    }
    BodyDecides(Map(TextsOf(reports), items), Map(ValuesOf(reports), items), plain, upcoming);
    assert forall i :: 0 <= i < |items| ==> plain[i];
  }

  /** What a body brings, if it brings anything, is what its events say if and only if all their names are
      clean. */
  lemma BatchIsMeantExactlyWhen(items: seq<nat>, reports: nat -> Report)
    requires AllPossible(reports) && Brought(ArrayText(Map(TextsOf(reports), items))) != []
    ensures Brought(ArrayText(Map(TextsOf(reports), items))) == Map(ValuesOf(reports), items) <==>
            AllPlain(items, reports)
  {
    if AllPlain(items, reports) {
      PlainItemsRead(items, reports);
      PostBringsItsEvents(Post(items, NoReply), TextsOf(reports), ValuesOf(reports));
    } else if Brought(ArrayText(Map(TextsOf(reports), items))) == Map(ValuesOf(reports), items) {
      BatchDecides(items, reports, Map(ValuesOf(reports), items));
    }
  }

  // ----- all requests

  lemma PlainConcat(a: seq<nat>, b: seq<nat>, reports: nat -> Report)
    ensures AllPlain(a + b, reports) <==> AllPlain(a, reports) && AllPlain(b, reports)
  {
    if AllPlain(a + b, reports) {
      assert forall i :: 0 <= i < |a| ==> (a + b)[i] == a[i];
      assert forall i :: 0 <= i < |b| ==> (a + b)[|a| + i] == b[i];
    }
  }

  /** The events are plain, or what was brought is so far what they say. */
  ghost predicate SoFar(items: seq<nat>, seen: seq<Value>, reports: nat -> Report, upcoming: seq<Value>) {
    AllPlain(items, reports) || (seen <= upcoming && Map(ValuesOf(reports), items) <= upcoming)
  }

  lemma SoFarSplits(a: seq<nat>, b: seq<nat>, seen: seq<Value>, brought: seq<Value>, reports: nat -> Report,
                    upcoming: seq<Value>)
    requires SoFar(a + b, seen + brought, reports, upcoming)
    ensures SoFar(a, seen, reports, upcoming)
    ensures seen == Map(ValuesOf(reports), a) ==>
              AllPlain(b, reports) || (|seen| <= |upcoming| && SoFar(b, brought, reports, upcoming[|seen|..]))
  {
    PlainConcat(a, b, reports);
    if !AllPlain(a + b, reports) {
      MapConcat(ValuesOf(reports), a, b);
      PrefixSplits(seen, brought, upcoming);
      PrefixSplits(Map(ValuesOf(reports), a), Map(ValuesOf(reports), b), upcoming);
    }
  }

  lemma PrefixSplits<T>(a: seq<T>, b: seq<T>, whole: seq<T>)
    requires a + b <= whole
    ensures a <= whole && b <= whole[|a|..]
  {
    assert whole[..|a + b|] == a + b;
    assert (a + b)[..|a|] == a && (a + b)[|a|..] == b;
  }

  /** One acknowledged request. */
  lemma AckedBatchIsPlain(p: Post<nat>, reports: nat -> Report, upcoming: seq<Value>)
    requires AllPossible(reports)
    requires var brought := Brought(ArrayText(MapPost(TextsOf(reports), p).items));
      brought != [] && SoFar(p.items, brought, reports, upcoming)
    ensures AllPlain(p.items, reports)
    ensures Brought(ArrayText(MapPost(TextsOf(reports), p).items)) == Map(ValuesOf(reports), p.items)
  {
    if !AllPlain(p.items, reports) {
      BatchDecides(p.items, reports, upcoming);
    }
    PlainItemsRead(p.items, reports);
    PostBringsItsEvents(p, TextsOf(reports), ValuesOf(reports));
  }

  /** What one request adds to the acknowledged events. */
  function AckedOf<T>(p: Post<T>): seq<T> {
    if p.reply.Acknowledges() then p.items else []
  }

  lemma LastSeen(posts: seq<Post<string>>)
    requires posts != []
    ensures SeenEvents(posts) == SeenEvents(posts[..|posts| - 1]) + SeenOf(posts[|posts| - 1])
  {
  }

  lemma LastAcked(ps: seq<Post<nat>>)
    requires ps != []
    ensures Acked(ps) == Acked(ps[..|ps| - 1]) + AckedOf(ps[|ps| - 1])
  {
  }

  /** The last request, when those before it have been decided. */
  lemma LastPostDecides(p: Post<nat>, front: seq<nat>, seen: seq<Value>, reports: nat -> Report, arrived: bool,
                        upcoming: seq<Value>)
    requires AllPossible(reports) && Honest(MapPost(TextsOf(reports), p), arrived)
    requires AllPlain(front, reports) && seen == Map(ValuesOf(reports), front)
    requires SoFar(front + AckedOf(p), seen + SeenOf(MapPost(TextsOf(reports), p)), reports, upcoming)
    ensures AllPlain(front + AckedOf(p), reports)
    ensures seen + SeenOf(MapPost(TextsOf(reports), p)) == Map(ValuesOf(reports), front + AckedOf(p))
  {
    SoFarSplits(front, AckedOf(p), seen, SeenOf(MapPost(TextsOf(reports), p)), reports, upcoming);
    if p.reply.Acknowledges() {
      AckedBatchIsPlain(p, reports, if AllPlain(p.items, reports) then [] else upcoming[|seen|..]);
    }
    PlainConcat(front, AckedOf(p), reports);
    MapConcat(ValuesOf(reports), front, AckedOf(p));
  }

  /** All acknowledged requests. */
  lemma {:induction false} AllPostsDecide(ps: seq<Post<nat>>, reports: nat -> Report, arrived: nat -> bool,
                                          upcoming: seq<Value>)
    requires AllPossible(reports)
    requires var posts := MapPosts(TextsOf(reports), ps);
      AllHonest(posts, arrived) && SoFar(Acked(ps), SeenEvents(posts), reports, upcoming)
    ensures AllPlain(Acked(ps), reports)
    ensures SeenEvents(MapPosts(TextsOf(reports), ps)) == Map(ValuesOf(reports), Acked(ps))
    decreases |ps|
  {
    if ps != [] {
      var n, posts := |ps| - 1, MapPosts(TextsOf(reports), ps);
      MapPostsFront(TextsOf(reports), ps);
      LastSeen(posts);
      LastAcked(ps);
      SoFarSplits(Acked(ps[..n]), AckedOf(ps[n]), SeenEvents(posts[..n]), SeenOf(posts[n]), reports, upcoming);
      AllPostsDecide(ps[..n], reports, arrived, upcoming);
      LastPostDecides(ps[n], Acked(ps[..n]), SeenEvents(posts[..n]), reports, arrived(n), upcoming);
    }
  }

  /** The values tell, one by one, what these reports measured. */
  ghost predicate AllTold(vs: seq<Value>, items: seq<nat>, reports: nat -> Report) {
    |vs| == |items| && forall i :: 0 <= i < |vs| ==> reports(items[i]).ToldBy(vs[i])
  }

  lemma MeaningsAreTold(items: seq<nat>, reports: nat -> Report)
    ensures AllTold(Map(ValuesOf(reports), items), items, reports)
  {
    forall i | 0 <= i < |items|
      ensures reports(items[i]).ToldBy(reports(items[i]).Says())
    {
      MeaningTells(reports(items[i]).timestamp, reports(items[i]).host, reports(items[i]).sample);
    }
  }

  // ----- whole runs

  /** A run in HTTP mode, with any names; any request or answer may get lost.  Of the web UI's log what came
      with acknowledged requests is what the collector measured, of every delivered event its type,
      timestamp, host as far as it fits, and payload, in order and once, if and only if all names in the
      delivered events are clean; everything else came with unseen requests. */
  lemma MeasurementsArriveExactlyWhen(c: Setup, labels: seq<Label>, reports: nat -> Report, arrived: nat -> bool)
    requires c.Ready() && c.settings.mode.HttpPost? && AllPossible(reports)
    requires AllHonest(Requests(c, labels, TextsOf(reports)), arrived)
    ensures var posts, delivered := Requests(c, labels, TextsOf(reports)), Run(c, labels).out.written;
      && Interleaves(UnseenEvents(posts, arrived), SeenEvents(posts), LogOf(posts, arrived))
      && (SeenEvents(posts) == Map(ValuesOf(reports), delivered) <==> AllPlain(delivered, reports))
      && (AllPlain(delivered, reports) ==> AllTold(SeenEvents(posts), delivered, reports))
  {
    ReportsAreAccepted(reports);
    RunWritten(c, labels, TextsOf(reports));
    DeliveredIsAcknowledged(c, labels);
    var ps := Run(c, labels).out.posts;
    var seen := SeenEvents(Requests(c, labels, TextsOf(reports)));
    LogSplits(Requests(c, labels, TextsOf(reports)), arrived);
    if seen == Map(ValuesOf(reports), Acked(ps)) || AllPlain(Acked(ps), reports) {
      AllPostsDecide(ps, reports, arrived, seen);
    }
    MeaningsAreTold(Acked(ps), reports);
  }

  /** So the whole log is what was measured exactly when no request was unseen, if the names are clean, and
      exactly when the names are clean, if no request was unseen. */
  lemma LogIsMeasuredExactlyWhen(c: Setup, labels: seq<Label>, reports: nat -> Report, arrived: nat -> bool)
    requires c.Ready() && c.settings.mode.HttpPost? && AllPossible(reports)
    requires AllHonest(Requests(c, labels, TextsOf(reports)), arrived)
    ensures var posts, delivered := Requests(c, labels, TextsOf(reports)), Run(c, labels).out.written;
      var measured := LogOf(posts, arrived) == Map(ValuesOf(reports), delivered);
      && (AllPlain(delivered, reports) ==> (measured <==> NoneUnseen(posts, arrived)))
      && (NoneUnseen(posts, arrived) ==> (measured <==> AllPlain(delivered, reports)))
      && (measured ==> AllTold(LogOf(posts, arrived), delivered, reports))
  {
    MeasurementsArriveExactlyWhen(c, labels, reports, arrived);
    LogIsSeenExactlyWhen(Requests(c, labels, TextsOf(reports)), arrived);
    MeaningsAreTold(Run(c, labels).out.written, reports);
  }

  /** And a line on stdout or in the file reads back as what the collector measured exactly when the names
      in it are clean. */
  lemma MeasurementsArePrinted(c: Setup, labels: seq<Label>, reports: nat -> Report)
    requires c.Ready() && AllPossible(reports)
    ensures var printed, lines := Run(c, labels).out.written, EndOfRun(c, labels, TextsOf(reports)).out.written;
      && |lines| == |printed|
      && forall i :: 0 <= i < |lines| ==>
           && (Parse(lines[i]) == Some(reports(printed[i]).Says()) <==> reports(printed[i]).Plain())
           && (reports(printed[i]).Plain() ==> Parse(lines[i]).Some? && reports(printed[i]).ToldBy(Parse(lines[i]).value))
  {
    ReportsAreAccepted(reports);
    RunWritten(c, labels, TextsOf(reports));
    var printed, lines := Run(c, labels).out.written, EndOfRun(c, labels, TextsOf(reports)).out.written;
    forall i | 0 <= i < |lines|
      ensures Parse(lines[i]) == Some(reports(printed[i]).Says()) <==> reports(printed[i]).Plain()
      ensures reports(printed[i]).Plain() ==>
                Parse(lines[i]).Some? && reports(printed[i]).ToldBy(Parse(lines[i]).value)
    {
      var r := reports(printed[i]);
      EventReads(r.timestamp, r.host, r.sample);
      MeaningTells(r.timestamp, r.host, r.sample);
    }
  }
}
