/** EventStore of webui/server.py: a bounded history and a latest-by-type index, against the
    full log of everything ever ingested. */
module EventStore {
  import opened Numbers
  import opened Options

  /** An event dict: its event_type rendered by str() and its _ingested_at, if it has them, and
      everything else. */
  datatype Event = Event(eventType: Option<string>, ingestedAt: Option<string>, body: string)

  const UNKNOWN := "unknown"

  /** The key under which ingest indexes an event. */
  function IndexType(e: Event): string {
    if e.eventType.Some? then e.eventType.value else UNKNOWN
  }

  /** What history compares with the requested type. */
  function FilterType(e: Event): string {
    if e.eventType.Some? then e.eventType.value else ""
  }

  /** setdefault: an event that comes with a stamp keeps it. */
  function Stamped(e: Event, now: string): Event {
    if e.ingestedAt.Some? then e else e.(ingestedAt := Some(now))
  }

  function AllStamped(events: seq<Event>, now: string): seq<Event> {
    seq(|events|, i requires 0 <= i < |events| => Stamped(events[i], now))
  }

  /** Stamping changes nothing but a missing stamp. */
  lemma StampsAreKept(events: seq<Event>, now: string)
    ensures |AllStamped(events, now)| == |events|
    ensures forall i :: 0 <= i < |events| ==>
              var stored := AllStamped(events, now)[i];
              && stored.eventType == events[i].eventType && stored.body == events[i].body
              && stored.ingestedAt == (if events[i].ingestedAt.Some? then events[i].ingestedAt else Some(now))
  {
  }

  /** The last `n` items, or all of them. */
  function Tail<T>(s: seq<T>, n: nat): seq<T> {
    if |s| <= n then s else s[|s| - n..]
  }

  function OfType(s: seq<Event>, t: string): (r: seq<Event>)
    ensures |r| <= |s|
  {
    if s == [] then []
    else OfType(s[..|s| - 1], t) + (if FilterType(s[|s| - 1]) == t then [s[|s| - 1]] else [])
  }

  /** The last event of the log that is indexed under `t`. */
  function LastIndexed(log: seq<Event>, t: string): Option<Event> {
    if log == [] then None
    else if IndexType(log[|log| - 1]) == t then Some(log[|log| - 1])
    else LastIndexed(log[..|log| - 1], t)
  }

  class Store {
    const maxEvents: nat
    var history: seq<Event>
    var latestByType: map<string, Event>
    var receivedBatches: nat
    var receivedEvents: nat
    var lastIngestedAt: Option<string>
    /** Every event ever ingested, in order, and how many calls brought them. */
    ghost var log: seq<Event>

    ghost predicate Valid()
      reads this
    {
      && history == Tail(log, maxEvents)
      && (forall t :: t in latestByType <==> LastIndexed(log, t).Some?)
      && (forall t :: t in latestByType ==> Some(latestByType[t]) == LastIndexed(log, t))
      && receivedEvents == |log|
    }

    constructor (maxEvents: nat)
      ensures Valid() && log == [] && receivedBatches == 0 && this.maxEvents == maxEvents && lastIngestedAt.None?
    {
      this.maxEvents := maxEvents;
      history, latestByType, receivedBatches, receivedEvents := [], map[], 0, 0;
      lastIngestedAt := None;
      log := [];
    }

    method Ingest(events: seq<Event>, now: string)
      requires Valid()
      modifies this
      ensures Valid() && log == old(log) + AllStamped(events, now)
      ensures receivedBatches == old(receivedBatches) + 1 && lastIngestedAt == Some(now)
    {
      receivedBatches := receivedBatches + 1;
      lastIngestedAt := Some(now);
      var i := 0;
      while i < |events|
        invariant 0 <= i <= |events| && Valid()
        invariant log == old(log) + AllStamped(events[..i], now)
        invariant receivedBatches == old(receivedBatches) + 1 && lastIngestedAt == Some(now)
      {
        IngestOne(events[i], now);
        assert AllStamped(events[..i + 1], now) == AllStamped(events[..i], now) + [Stamped(events[i], now)];
        i := i + 1;
      }
    }

    /** One round of the loop; appending to a full deque drops its oldest entry. */
    method IngestOne(arrived: Event, now: string)
      requires Valid()
      modifies `latestByType, `history, `receivedEvents, `log
      ensures Valid() && log == old(log) + [Stamped(arrived, now)]
    {
      var event := Stamped(arrived, now);
      latestByType := latestByType[IndexType(event) := event];
      history := Tail(history + [event], maxEvents);
      receivedEvents := receivedEvents + 1;
      log := log + [event];
      assert log[..|log| - 1] == old(log);
    }

    /** history(event_type, limit): a missing or empty type selects everything. */
    method History(eventType: Option<string>, limit: int) returns (items: seq<Event>)
      requires Valid()
      ensures items == HistoryOf(log, maxEvents, eventType, limit)
      ensures IsAnswer(log, maxEvents, eventType, limit, items)
    {
      HistoryIsNewest(log, maxEvents, eventType, limit);
      items := history;
      if eventType.Some? && eventType.value != "" {
        items := Matching(eventType.value);
      }
      items := Tail(items, Max(1, Min(limit, 2000)));
    }

    /** The list comprehension over the history. */
    method Matching(t: string) returns (items: seq<Event>)
      ensures items == OfType(history, t)
    {
      items := [];
      var i := 0;
      assert history[..0] == [];
      while i < |history|
        invariant 0 <= i <= |history| && items == OfType(history[..i], t)
      {
        assert history[..i + 1][..i] == history[..i];
        if FilterType(history[i]) == t {
          items := items + [history[i]];
        }
        i := i + 1;
      }
      assert history[..i] == history;
    }
  }

  /** What a query returns, as a function of everything ever ingested. */
  function HistoryOf(log: seq<Event>, maxEvents: nat, eventType: Option<string>, limit: int): seq<Event> {
    var kept := Tail(log, maxEvents);
    var chosen := if eventType.Some? && eventType.value != "" then OfType(kept, eventType.value) else kept;
    Tail(chosen, Max(1, Min(limit, 2000)))
  }

  /** `items` are entries of this type from `oldest` on, in order, and as many as there are, or `most` of
      them, and then none that is left out is newer than those. */
  ghost predicate IsNewestOf(log: seq<Event>, oldest: nat, eventType: Option<string>, most: nat, items: seq<Event>) {
    |items| <= most && exists places :: PlacesOf(log, oldest, eventType, items, places)
                                        && AllBefore(log, oldest, eventType, most, places)
  }

  /** `items` stand at these places of the log, in order, and carry the type. */
  ghost predicate PlacesOf(log: seq<Event>, oldest: nat, eventType: Option<string>, items: seq<Event>,
                           places: seq<nat>) {
    && |places| == |items|
    && (forall i, j :: 0 <= i < j < |places| ==> places[i] < places[j])
    && (forall i :: 0 <= i < |places| ==>
          oldest <= places[i] < |log| && items[i] == log[places[i]] && items[i].eventType == eventType)
  }

  /** Other entries of the type come before all of them, and there are such entries only if there are
      `most` places. */
  ghost predicate AllBefore(log: seq<Event>, oldest: nat, eventType: Option<string>, most: nat, places: seq<nat>) {
    forall k :: oldest <= k < |log| && log[k].eventType == eventType && k !in places ==>
      |places| == most && forall i :: 0 <= i < |places| ==> k < places[i]
  }

  /** Where the filter finds its matches. */
  lemma {:induction false} MatchesAt(s: seq<Event>, t: string) returns (places: seq<nat>)
    requires t != ""
    ensures PlacesOf(s, 0, Some(t), OfType(s, t), places)
    ensures forall k :: 0 <= k < |s| && s[k].eventType == Some(t) ==> k in places
  {
    places := [];
    if s != [] {
      var n := |s| - 1;
      var before := MatchesAt(s[..n], t);
      places := before + (if FilterType(s[n]) == t then [n] else []);
      forall k | 0 <= k < |s| && s[k].eventType == Some(t)
        ensures k in places
      {
        if k < n {
          assert s[..n][k] == s[k] && k in before;
        } else {
          assert places[|before|] == n;
        }
      }
    }
  }

  /** The last places of a suffix, as places of the log. */
  function LastPlaces(all: seq<nat>, cut: nat, oldest: nat): (r: seq<nat>)
    requires cut <= |all|
    ensures |r| == |all| - cut && forall i :: 0 <= i < |r| ==> r[i] == oldest + all[cut + i]
  {
    seq(|all| - cut, i requires 0 <= i < |all| - cut => oldest + all[cut + i])
  }

  lemma IsLastPlace(all: seq<nat>, cut: nat, oldest: nat, m: nat)
    requires cut <= m < |all|
    ensures oldest + all[m] in LastPlaces(all, cut, oldest)
  {
    assert LastPlaces(all, cut, oldest)[m - cut] == oldest + all[m];
  }

  lemma LastPlacesHold(log: seq<Event>, oldest: nat, t: string, found: seq<Event>, all: seq<nat>, cut: nat)
    requires oldest <= |log| && PlacesOf(log[oldest..], 0, Some(t), found, all) && cut <= |all|
    ensures PlacesOf(log, oldest, Some(t), found[cut..], LastPlaces(all, cut, oldest))
  {
    var places := LastPlaces(all, cut, oldest);
    forall i | 0 <= i < |places|
      ensures oldest <= places[i] < |log| && found[cut..][i] == log[places[i]]
    {
      assert found[cut + i] == log[oldest..][all[cut + i]];
    }
  }

  lemma OtherIsBefore(all: seq<nat>, cut: nat, oldest: nat, k: nat, most: nat)
    requires cut <= |all| && forall i, j :: 0 <= i < j < |all| ==> all[i] < all[j]
    requires cut > 0 ==> |all| - cut == most
    requires k >= oldest && k - oldest in all && k !in LastPlaces(all, cut, oldest)
    ensures |LastPlaces(all, cut, oldest)| == most
    ensures forall i :: 0 <= i < |LastPlaces(all, cut, oldest)| ==> k < LastPlaces(all, cut, oldest)[i]
  {
    var m :| 0 <= m < |all| && all[m] == k - oldest;
    if m >= cut {
      IsLastPlace(all, cut, oldest, m);
      assert false;
    }
  }

  lemma OthersAreBefore(log: seq<Event>, oldest: nat, t: string, all: seq<nat>, cut: nat, most: nat)
    requires oldest <= |log| && cut <= |all| && forall i, j :: 0 <= i < j < |all| ==> all[i] < all[j]
    requires forall k :: 0 <= k < |log[oldest..]| && log[oldest..][k].eventType == Some(t) ==> k in all
    requires cut > 0 ==> |all| - cut == most
    ensures AllBefore(log, oldest, Some(t), most, LastPlaces(all, cut, oldest))
  {
    var places := LastPlaces(all, cut, oldest);
    forall k | oldest <= k < |log| && log[k].eventType == Some(t) && k !in places
      ensures |places| == most && forall i :: 0 <= i < |places| ==> k < places[i]
    {
      assert log[oldest..][k - oldest] == log[k];
      OtherIsBefore(all, cut, oldest, k, most);
    }
  }

  /** The same in a suffix of the log, and only the last `most` of them. */
  lemma NewestMatches(log: seq<Event>, oldest: nat, t: string, most: nat)
    requires t != "" && oldest <= |log| && most > 0
    ensures IsNewestOf(log, oldest, Some(t), most, Tail(OfType(log[oldest..], t), most))
  {
    var found := OfType(log[oldest..], t);
    var all := MatchesAt(log[oldest..], t);
    var cut := if |found| <= most then 0 else |found| - most;
    assert Tail(found, most) == found[cut..];
    LastPlacesHold(log, oldest, t, found, all, cut);
    OthersAreBefore(log, oldest, t, all, cut, most);
  }

  /** The answer to a query, by the log: of the newest `maxEvents` entries the newest `limit`, which is taken
      to be between 1 and 2000; if a type is asked for, the newest of that type. */
  ghost predicate IsAnswer(log: seq<Event>, maxEvents: nat, eventType: Option<string>, limit: int,
                           items: seq<Event>) {
    var most: nat := if limit < 1 then 1 else if limit > 2000 then 2000 else limit;
    var oldest := if |log| <= maxEvents then 0 else |log| - maxEvents;
    if eventType.None? || eventType == Some("") then
      items == log[if |log| - oldest <= most then oldest else |log| - most..]
    else IsNewestOf(log, oldest, eventType, most, items)
  }

  /** The function gives that answer. */
  lemma HistoryIsNewest(log: seq<Event>, maxEvents: nat, eventType: Option<string>, limit: int)
    ensures IsAnswer(log, maxEvents, eventType, limit, HistoryOf(log, maxEvents, eventType, limit))
  {
    var oldest := if |log| <= maxEvents then 0 else |log| - maxEvents;
    assert Tail(log, maxEvents) == log[oldest..];
    if eventType.Some? && eventType.value != "" {
      NewestMatches(log, oldest, eventType.value, Max(1, Min(limit, 2000)));
    }
  }

  /** The newest entry for a type in the index, and the place of that entry in the log. */
  function LastIndex(log: seq<Event>, t: string): (k: int)
    ensures -1 <= k < |log|
  {
    if log == [] then -1
    else if IndexType(log[|log| - 1]) == t then |log| - 1
    else LastIndex(log[..|log| - 1], t)
  }

  /** The index and the history agree on a type's newest event exactly when that event carries
      its type and has not yet been pushed out of the history. */
  lemma NewestAgreesWithIndex(log: seq<Event>, maxEvents: nat, t: string)
    requires t != "" && LastIndexed(log, t).Some?
    ensures var newest := LastIndexed(log, t).value;
      HistoryOf(log, maxEvents, Some(t), 1) == [newest] <==>
        newest.eventType.Some? && LastIndex(log, t) >= |log| - maxEvents
  {
    var k, newest := LastIndex(log, t), LastIndexed(log, t).value;
    var kept := Tail(log, maxEvents);
    LastIndexIsPlace(log, t);
    if newest.eventType.Some? && k >= |log| - maxEvents {
      NewestIsFound(log, maxEvents, t);
    } else if newest.eventType.Some? {
      NothingOfTypeKept(log, maxEvents, t);
    } else {
      OfTypeIsTheMatches(kept, t);
      assert newest !in OfType(kept, t);
      TailIsPart(OfType(kept, t), 1, newest);
    }
  }

  lemma NewestIsFound(log: seq<Event>, maxEvents: nat, t: string)
    requires t != "" && LastIndex(log, t) >= 0 && LastIndex(log, t) >= |log| - maxEvents
    requires FilterType(log[LastIndex(log, t)]) == t
    ensures Tail(OfType(Tail(log, maxEvents), t), 1) == [log[LastIndex(log, t)]]
  {
    var k := LastIndex(log, t);
    forall j | k < j < |log|
      ensures IndexType(log[j]) != t
    {
      LaterTypesDiffer(log, t, j);
    }
    var skipped := Max(0, |log| - maxEvents);
    FoundInSuffix(log, skipped, t, k);
    assert Tail(log, maxEvents) == log[skipped..];
    LastOne(OfType(log[skipped..], t));
  }

  lemma FoundInSuffix(log: seq<Event>, skipped: nat, t: string, k: nat)
    requires t != "" && skipped <= k < |log| && FilterType(log[k]) == t
    requires forall j :: k < j < |log| ==> IndexType(log[j]) != t
    ensures var found := OfType(log[skipped..], t);
      found != [] && found[|found| - 1] == log[k]
  {
    var kept, place := log[skipped..], k - skipped;
    forall j | place < j < |kept|
      ensures IndexType(kept[j]) != t
    {
      assert kept[j] == log[skipped + j];
    }
    OfTypeLast(kept, t, place);
  }

  lemma LastOne<T>(s: seq<T>)
    requires s != []
    ensures Tail(s, 1) == [s[|s| - 1]]
  {
  }

  lemma TailIsPart<T>(s: seq<T>, n: nat, x: T)
    requires x !in s
    ensures Tail(s, n) != [x]
  {
    assert x in [x];
    assert forall i :: 0 <= i < |Tail(s, n)| ==> Tail(s, n)[i] in s;
  }

  /** Once a type's newest event is out of the history, none of that type is left in it. */
  lemma NothingOfTypeKept(log: seq<Event>, maxEvents: nat, t: string)
    requires t != "" && LastIndex(log, t) < |log| - maxEvents
    ensures OfType(Tail(log, maxEvents), t) == []
  {
    var skipped: nat := if |log| <= maxEvents then 0 else |log| - maxEvents;
    forall k | skipped <= k < |log|
      ensures IndexType(log[k]) != t
    {
      LaterTypesDiffer(log, t, k);
    }
    assert Tail(log, maxEvents) == log[skipped..];
    OtherTypesOnly(log[skipped..], t);
  }

  lemma OtherTypesOnly(s: seq<Event>, t: string)
    requires t != "" && forall j :: 0 <= j < |s| ==> IndexType(s[j]) != t
    ensures OfType(s, t) == []
  {
    forall j | 0 <= j < |s|
      ensures FilterType(s[j]) != t
    {
      assert IndexType(s[j]) != t;
    }
    NoMatches(s, t);
  }

  lemma {:induction false} LaterTypesDiffer(log: seq<Event>, t: string, j: nat)
    requires LastIndex(log, t) < j < |log|
    ensures IndexType(log[j]) != t
  {
    if j < |log| - 1 {
      LaterTypesDiffer(log[..|log| - 1], t, j);
    }
  }

  /** The index holds the entry of the log at that place. */
  lemma {:induction false} LastIndexIsPlace(log: seq<Event>, t: string)
    ensures var k := LastIndex(log, t);
      LastIndexed(log, t) == (if k < 0 then None else Some(log[k])) && (k >= 0 ==> IndexType(log[k]) == t)
  {
    if log != [] && IndexType(log[|log| - 1]) != t {
      LastIndexIsPlace(log[..|log| - 1], t);
    }
  }

  lemma {:induction false} NoMatches(s: seq<Event>, t: string)
    requires forall j :: 0 <= j < |s| ==> FilterType(s[j]) != t
    ensures OfType(s, t) == []
  {
    if s != [] {
      NoMatches(s[..|s| - 1], t);
    }
  }

  /** The filter keeps a type's newest entry last. */
  lemma {:induction false} OfTypeLast(s: seq<Event>, t: string, k: nat)
    requires t != "" && k < |s| && FilterType(s[k]) == t && forall j :: k < j < |s| ==> IndexType(s[j]) != t
    ensures OfType(s, t) != [] && OfType(s, t)[|OfType(s, t)| - 1] == s[k]
    decreases |s|
  {
    var n := |s| - 1;
    if k < n {
      assert FilterType(s[n]) != t by {
        assert IndexType(s[n]) != t;
      }
      OfTypeLast(s[..n], t, k);
      assert OfType(s, t) == OfType(s[..n], t) + [] == OfType(s[..n], t);
    } else {
      assert OfType(s, t) == OfType(s[..n], t) + [s[n]];
    }
  }

  /** An event without a type is indexed as "unknown" but never found under that name. */
  lemma UntypedEventIsNotFound(body: string)
    ensures var log := [Event(None, None, body)];
      LastIndexed(log, UNKNOWN) == Some(log[0]) && HistoryOf(log, 1, Some(UNKNOWN), 1) == []
  {
    var log := [Event(None, None, body)];
    assert log[..0] == [];
    NoMatches(log, UNKNOWN);
  }

  /** Filtering and cutting: a query returns the newest matching events of the newest maxEvents. */
  lemma {:induction false} OfTypeIsTheMatches(s: seq<Event>, t: string)
    ensures multiset(OfType(s, t)) <= multiset(s)
    ensures forall e :: e in OfType(s, t) <==> e in s && FilterType(e) == t
  {
    if s != [] {
      var n := |s| - 1;
      OfTypeIsTheMatches(s[..n], t);
      assert s == s[..n] + [s[n]];
    }
  }
}
