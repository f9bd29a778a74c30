/** Per-device rates: net_compute_stats and disk_compute_stats, which differ only in the unit,
    and the part of collector_thread that rolls the previous snapshot forward. */
module Rates {
  import opened Options

  const MAX_DEVICES: nat := 32
  const SECTOR_BYTES: nat := 512

  /** A device and its two running counters: bytes for interfaces, sectors for disks. */
  datatype Counter = Counter(name: string, first: nat, second: nat)

  type Snapshot = seq<Counter>

  datatype Rate = Rate(name: string, first: real, second: real)

  /** find_iface, find_disk: the first entry with this name. */
  function Find(snapshot: Snapshot, name: string): (r: Option<Counter>)
    ensures r.Some? ==> r.value in snapshot && r.value.name == name
    ensures r.None? ==> forall i :: 0 <= i < |snapshot| ==> snapshot[i].name != name
  {
    if snapshot == [] then None
    else if snapshot[0].name == name then Some(snapshot[0])
    else Find(snapshot[1..], name)
  }

  /** A counter that went back counts as no traffic. */
  function Delta(now: nat, before: nat): nat {
    if now >= before then now - before else 0
  }

  function RateOf(unit: nat, interval: nat, c: Counter, p: Counter): Rate
    requires interval > 0
  {
    Rate(c.name, (Delta(c.first, p.first) * unit) as real / interval as real,
         (Delta(c.second, p.second) * unit) as real / interval as real)
  }

  /** One rate for every current entry whose name was also in the previous snapshot. */
  function Stats(unit: nat, interval: nat, prev: Snapshot, curr: Snapshot): (r: seq<Rate>)
    requires interval > 0
    ensures |r| <= |curr|
  {
    if curr == [] then []
    else
      var rest := Stats(unit, interval, prev, curr[..|curr| - 1]);
      var c := curr[|curr| - 1];
      match Find(prev, c.name)
      case None => rest
      case Some(p) => rest + [RateOf(unit, interval, c, p)]
  }

  /** net_stats_t, disk_stats_t: a fixed array and how much of it is used. */
  class StatsBuffer {
    var items: array<Rate>
    var count: nat

    ghost predicate Valid()
      reads this
    {
      items.Length == MAX_DEVICES && count <= MAX_DEVICES
    }

    function Used(): seq<Rate>
      requires Valid()
      reads this, items
    {
      items[..count]
    }

    constructor ()
      ensures Valid() && fresh(items)
    {
      items := new Rate[MAX_DEVICES](_ => Rate("", 0.0, 0.0));
      count := 0;
    }

    /** find_iface and find_disk: the index of the first match, or -1. */
    static method FindIndex(snapshot: Snapshot, name: string) returns (index: int)
      ensures -1 <= index < |snapshot|
      ensures index < 0 ==> Find(snapshot, name) == None
      ensures index >= 0 ==> Find(snapshot, name) == Some(snapshot[index]) && snapshot[index].name == name
      ensures forall i :: 0 <= i < (if index < 0 then |snapshot| else index) ==> snapshot[i].name != name
    {
      ghost var rest := snapshot;
      index := 0;
      while index < |snapshot|
        invariant 0 <= index <= |snapshot| && rest == snapshot[index..]
        invariant forall i :: 0 <= i < index ==> snapshot[i].name != name
        invariant Find(rest, name) == Find(snapshot, name)
      {
        if snapshot[index].name == name {
          return;
        }
        rest := rest[1..];
        index := index + 1;
      }
      return -1;
    }

    /** net_compute_stats (unit 1) and disk_compute_stats (unit 512). */
    method Compute(unit: nat, interval: int, prev: Snapshot, curr: Snapshot) returns (rc: int)
      requires Valid() && |curr| <= 32
      modifies `count, items
      ensures Valid()
      ensures rc == if interval <= 0 then -1 else 0
      ensures interval <= 0 ==> Used() == old(Used())
      ensures interval > 0 ==> Used() == Stats(unit, interval, prev, curr)
    {
      if interval <= 0 {
        return -1;
      }
      count := 0;
      var i := 0;
      assert curr[..0] == [];
      while i < |curr| && count < MAX_DEVICES
        invariant 0 <= i <= |curr| && count <= i
        invariant items[..count] == Stats(unit, interval, prev, curr[..i])
      {
        assert curr[..i + 1][..i] == curr[..i];
        var c := curr[i];
        var index := FindIndex(prev, c.name);
        if index >= 0 {
          items[count] := RateOf(unit, interval, c, prev[index]);
          count := count + 1;
        }
        i := i + 1;
      }
      assert curr[..i] == curr;
      return 0;
    }
  }

  // ----- the collector's loop over snapshots

  /** The collector's memory of one device class: the last good snapshot, if there was one. */
  type Memory = Option<Snapshot>

  /** One read: a failed one changes nothing and reports nothing; the first good one, be it the
      baseline read or a later one, only fills the memory. */
  function Tick(unit: nat, interval: nat, m: Memory, read: Option<Snapshot>): (Memory, seq<Rate>)
    requires interval > 0
  {
    match read
    case None => (m, [])
    case Some(curr) => (Some(curr), if m.Some? then Stats(unit, interval, m.value, curr) else [])
  }

  /** What a list of rates says about a device, both directions. */
  function Reported(rates: seq<Rate>, name: string): (real, real) {
    if rates == [] then (0.0, 0.0)
    else
      var (a, b) := Reported(rates[..|rates| - 1], name);
      var r := rates[|rates| - 1];
      if r.name == name then (a + r.first, b + r.second) else (a, b)
  }

  /** A whole run: the memory at its end, and reported rate times interval summed over its ticks. */
  function Run(unit: nat, interval: nat, ticks: seq<Option<Snapshot>>, name: string): (Memory, real, real)
    requires interval > 0
  {
    if ticks == [] then (None, 0.0, 0.0)
    else
      AddTick(unit, interval, Run(unit, interval, ticks[..|ticks| - 1], name), ticks[|ticks| - 1], name)
  }

  function AddTick(unit: nat, interval: nat, sum: (Memory, real, real), read: Option<Snapshot>, name: string)
    : (Memory, real, real)
    requires interval > 0
  {
    var (m, rates) := Tick(unit, interval, sum.0, read);
    var (x, y) := Volume(rates, interval, name);
    (m, sum.1 + x, sum.2 + y)
  }

  /** Reported rate times interval. */
  function Volume(rates: seq<Rate>, interval: nat, name: string): (real, real) {
    var (x, y) := Reported(rates, name);
    (Over(x, interval), Over(y, interval))
  }

  /** A rate held for a whole interval. */
  function Over(rate: real, interval: nat): real {
    rate * interval as real
  }

  // ----- the counters themselves

  /** The last good snapshot of a run. */
  function LastGood(ticks: seq<Option<Snapshot>>): Memory {
    if ticks == [] then None
    else if ticks[|ticks| - 1].Some? then ticks[|ticks| - 1]
    else LastGood(ticks[..|ticks| - 1])
  }

  /** How far a counter advanced; one that went back did not. */
  function Increment(now: nat, before: nat): (r: nat)
    ensures now >= before ==> r == now - before
    ensures now < before ==> r == 0
  {
    if now < before then 0 else now - before
  }

  /** How far a device's counters advanced between two snapshots that both list it. */
  function Advance(prev: Memory, curr: Option<Snapshot>, name: string): (nat, nat) {
    if prev.None? || curr.None? then (0, 0)
    else
      match (Find(prev.value, name), Find(curr.value, name))
      case (Some(p), Some(c)) => (Increment(c.first, p.first), Increment(c.second, p.second))
      case _ => (0, 0)
  }

  /** The positive increments of a device over a run, from each good snapshot to the next. */
  function Advanced(ticks: seq<Option<Snapshot>>, name: string): (nat, nat) {
    if ticks == [] then (0, 0)
    else
      var before := ticks[..|ticks| - 1];
      var (a, b) := Advanced(before, name);
      var (x, y) := Advance(LastGood(before), ticks[|ticks| - 1], name);
      (a + x, b + y)
  }

  /** No good snapshot lists the device twice. */
  ghost predicate ListedOnce(ticks: seq<Option<Snapshot>>, name: string) {
    forall k, i, j :: 0 <= k < |ticks| && ticks[k].Some? && 0 <= i < j < |ticks[k].value|
      ==> ticks[k].value[i].name != name || ticks[k].value[j].name != name
  }

  lemma {:induction false} FindLast(s: Snapshot, name: string)
    requires s != []
    ensures Find(s, name) ==
      if Find(s[..|s| - 1], name).Some? then Find(s[..|s| - 1], name)
      else if s[|s| - 1].name == name then Some(s[|s| - 1]) else None
  {
    if |s| > 1 && s[0].name != name {
      FindLast(s[1..], name);
      assert s[1..][..|s| - 2] == s[..|s| - 1][1..];
    }
  }

  /** A device listed once gets one rate, and only if both snapshots list it. */
  lemma ReportedOnce(unit: nat, interval: nat, prev: Snapshot, curr: Snapshot, name: string)
    requires interval > 0
    requires forall i, j :: 0 <= i < j < |curr| ==> curr[i].name != name || curr[j].name != name
    ensures Reported(Stats(unit, interval, prev, curr), name) ==
      match (Find(prev, name), Find(curr, name))
      case (Some(p), Some(c)) =>
        (if c.first >= p.first then ((c.first - p.first) * unit) as real / interval as real else 0.0,
         if c.second >= p.second then ((c.second - p.second) * unit) as real / interval as real else 0.0)
      case _ => (0.0, 0.0)
  {
    RatesByHand(unit, interval, prev, curr, name);
    ReportedByRate(unit, interval, prev, curr, name);
  }

  lemma RatesByHand(unit: nat, interval: nat, prev: Snapshot, curr: Snapshot, name: string)
    requires interval > 0
    ensures match (Find(prev, name), Find(curr, name))
            case (Some(p), Some(c)) =>
              && RateOf(unit, interval, c, p).first ==
                   (if c.first >= p.first then ((c.first - p.first) * unit) as real / interval as real else 0.0)
              && RateOf(unit, interval, c, p).second ==
                   (if c.second >= p.second then ((c.second - p.second) * unit) as real / interval as real else 0.0)
            case _ => true
  {
    assert 0 * unit == 0;
  }

  lemma {:induction false} ReportedByRate(unit: nat, interval: nat, prev: Snapshot, curr: Snapshot, name: string)
    requires interval > 0
    requires forall i, j :: 0 <= i < j < |curr| ==> curr[i].name != name || curr[j].name != name
    ensures Reported(Stats(unit, interval, prev, curr), name) ==
      match (Find(prev, name), Find(curr, name))
      case (Some(p), Some(c)) => (RateOf(unit, interval, c, p).first, RateOf(unit, interval, c, p).second)
      case _ => (0.0, 0.0)
  {
    if curr != [] {
      var init, c := curr[..|curr| - 1], curr[|curr| - 1];
      ReportedByRate(unit, interval, prev, init, name);
      FindLast(curr, name);
      var rest := Stats(unit, interval, prev, init);
      var found := Find(prev, c.name);
      if found.Some? {
        assert (rest + [RateOf(unit, interval, c, found.value)])[..|rest|] == rest;
      }
      if c.name == name {
        assert Find(init, name).None?;
      }
    }
  }

  lemma RateTimesInterval(unit: nat, interval: nat, c: Counter, p: Counter)
    requires interval > 0
    ensures Over(RateOf(unit, interval, c, p).first, interval) == (Delta(c.first, p.first) * unit) as real
    ensures Over(RateOf(unit, interval, c, p).second, interval) == (Delta(c.second, p.second) * unit) as real
  {
  }

  lemma AddUnits(a: nat, x: nat, unit: nat)
    ensures ((a + x) * unit) as real == (a * unit) as real + (x * unit) as real
  {
    assert (a + x) * unit == a * unit + x * unit;
  }

  /** What two good snapshots make a tick report, times the interval, is what the counters advanced by. */
  lemma VolumeIsAdvance(unit: nat, interval: nat, prev: Snapshot, curr: Snapshot, name: string)
    requires interval > 0
    requires forall i, j :: 0 <= i < j < |curr| ==> curr[i].name != name || curr[j].name != name
    ensures var (x, y) := Advance(Some(prev), Some(curr), name);
      Volume(Stats(unit, interval, prev, curr), interval, name) == ((x * unit) as real, (y * unit) as real)
  {
    ReportedByRate(unit, interval, prev, curr, name);
    match (Find(prev, name), Find(curr, name))
    case (Some(p), Some(c)) =>
      RateTimesInterval(unit, interval, c, p);
      var r := RateOf(unit, interval, c, p);
      VolumeFrom(Stats(unit, interval, prev, curr), interval, name, r.first, r.second,
                 (Delta(c.first, p.first) * unit) as real, (Delta(c.second, p.second) * unit) as real);
      assert Advance(Some(prev), Some(curr), name) == (Delta(c.first, p.first), Delta(c.second, p.second));
    case _ =>
      assert Advance(Some(prev), Some(curr), name) == (0, 0);
      assert Reported(Stats(unit, interval, prev, curr), name) == (0.0, 0.0);
      assert 0 * unit == 0;
  }

  lemma VolumeFrom(rates: seq<Rate>, interval: nat, name: string, x: real, y: real, a: real, b: real)
    requires Reported(rates, name) == (x, y) && Over(x, interval) == a && Over(y, interval) == b
    ensures Volume(rates, interval, name) == (a, b)
  {
  }

  lemma TickReportsAdvance(unit: nat, interval: nat, m: Memory, read: Option<Snapshot>, name: string)
    requires interval > 0 && ListedOnce([read], name)
    ensures var (x, y) := Advance(m, read, name);
      Volume(Tick(unit, interval, m, read).1, interval, name) == ((x * unit) as real, (y * unit) as real)
  {
    if m.Some? && read.Some? {
      assert [read][0] == read;
      VolumeIsAdvance(unit, interval, m.value, read.value, name);
    }
  }

  lemma SumGrows(unit: nat, interval: nat, sum: (Memory, real, real), read: Option<Snapshot>, name: string,
                 a: nat, b: nat, x: nat, y: nat)
    requires interval > 0 && sum.1 == (a * unit) as real && sum.2 == (b * unit) as real
    requires Volume(Tick(unit, interval, sum.0, read).1, interval, name) == ((x * unit) as real, (y * unit) as real)
    ensures AddTick(unit, interval, sum, read, name) ==
      (Tick(unit, interval, sum.0, read).0, ((a + x) * unit) as real, ((b + y) * unit) as real)
  {
    OneMoreTick(unit, interval, sum, read, name, (x * unit) as real, (y * unit) as real);
    AddUnits(a, x, unit);
    AddUnits(b, y, unit);
  }

  /** Over any run, the reported rates times the interval add up to exactly the positive increments
      of the counters between consecutive good snapshots, across failed reads and resets. */
  lemma {:induction false} RatesAddUpToIncrements(unit: nat, interval: nat, ticks: seq<Option<Snapshot>>, name: string)
    requires interval > 0 && ListedOnce(ticks, name)
    ensures var (m, a, b) := Run(unit, interval, ticks, name);
      && m == LastGood(ticks)
      && a == (Advanced(ticks, name).0 * unit) as real
      && b == (Advanced(ticks, name).1 * unit) as real
  {
    if ticks != [] {
      var before, read := ticks[..|ticks| - 1], ticks[|ticks| - 1];
      RatesAddUpToIncrements(unit, interval, before, name);
      var (x, y) := Advance(LastGood(before), read, name);
      assert ListedOnce([read], name);
      TickReportsAdvance(unit, interval, LastGood(before), read, name);
      var (a, b) := Advanced(before, name);
      SumGrows(unit, interval, Run(unit, interval, before, name), read, name, a, b, x, y);
    }
  }

  lemma OneMoreTick(unit: nat, interval: nat, sum: (Memory, real, real), read: Option<Snapshot>, name: string,
                    x: real, y: real)
    requires interval > 0 && Volume(Tick(unit, interval, sum.0, read).1, interval, name) == (x, y)
    ensures AddTick(unit, interval, sum, read, name) ==
      (Tick(unit, interval, sum.0, read).0, sum.1 + x, sum.2 + y)
  {
  }

  // ----- telescoping

  /** The good snapshots of a run, in order. */
  function Good(ticks: seq<Option<Snapshot>>): seq<Snapshot> {
    if ticks == [] then []
    else Good(ticks[..|ticks| - 1]) + (if ticks[|ticks| - 1].Some? then [ticks[|ticks| - 1].value] else [])
  }

  /** The device is in every good snapshot and its counters never go back. */
  ghost predicate Steady(good: seq<Snapshot>, name: string) {
    && (forall k :: 0 <= k < |good| ==> Find(good[k], name).Some?)
    && (forall k :: 0 < k < |good| ==>
          && Find(good[k - 1], name).value.first <= Find(good[k], name).value.first
          && Find(good[k - 1], name).value.second <= Find(good[k], name).value.second)
  }

  lemma {:induction false} LastGoodIsLast(ticks: seq<Option<Snapshot>>)
    ensures LastGood(ticks) == if Good(ticks) == [] then None else Some(Good(ticks)[|Good(ticks)| - 1])
  {
    if ticks != [] {
      LastGoodIsLast(ticks[..|ticks| - 1]);
    }
  }

  /** Last counter minus first, in both directions. */
  ghost function Span(good: seq<Snapshot>, name: string): (int, int)
    requires Steady(good, name) && good != []
  {
    var first, last := Find(good[0], name).value, Find(good[|good| - 1], name).value;
    (last.first - first.first, last.second - first.second)
  }

  lemma {:induction false} IncrementsTelescope(ticks: seq<Option<Snapshot>>, name: string)
    requires Steady(Good(ticks), name) && Good(ticks) != []
    ensures Advanced(ticks, name) == Span(Good(ticks), name)
  {
    var before, read := ticks[..|ticks| - 1], ticks[|ticks| - 1];
    if read.None? {
      FailedRead(ticks, name);
      IncrementsTelescope(before, name);
    } else if Good(before) == [] {
      FirstGood(ticks, name);
    } else {
      GoodGrows(ticks);
      SpanGrows(Good(before), read.value, name);
      IncrementsTelescope(before, name);
      OneMoreGood(ticks, name);
      LastGoodIsLast(before);
    }
  }

  lemma GoodGrows(ticks: seq<Option<Snapshot>>)
    requires ticks != []
    ensures var before, read := ticks[..|ticks| - 1], ticks[|ticks| - 1];
      Good(ticks) == if read.Some? then Good(before) + [read.value] else Good(before)
  {
  }

  lemma FailedRead(ticks: seq<Option<Snapshot>>, name: string)
    requires ticks != [] && ticks[|ticks| - 1].None?
    ensures Good(ticks) == Good(ticks[..|ticks| - 1])
    ensures Advanced(ticks, name) == Advanced(ticks[..|ticks| - 1], name)
  {
  }

  lemma FirstGood(ticks: seq<Option<Snapshot>>, name: string)
    requires ticks != [] && ticks[|ticks| - 1].Some? && Good(ticks[..|ticks| - 1]) == []
    requires Steady(Good(ticks), name)
    ensures Good(ticks) != [] && Advanced(ticks, name) == Span(Good(ticks), name)
  {
    var before := ticks[..|ticks| - 1];
    GoodGrows(ticks);
    LastGoodIsLast(before);
    NothingBeforeFirst(before, name);
    OneMoreGood(ticks, name);
  }

  lemma OneMoreGood(ticks: seq<Option<Snapshot>>, name: string)
    requires ticks != [] && ticks[|ticks| - 1].Some?
    ensures var before := ticks[..|ticks| - 1];
      var (x, y) := Advance(LastGood(before), ticks[|ticks| - 1], name);
      Advanced(ticks, name) == (Advanced(before, name).0 + x, Advanced(before, name).1 + y)
  {
  }

  lemma SpanGrows(good: seq<Snapshot>, next: Snapshot, name: string)
    requires good != [] && Steady(good + [next], name)
    ensures Steady(good, name)
    ensures var (x, y) := Advance(Some(good[|good| - 1]), Some(next), name);
      Span(good + [next], name) == (Span(good, name).0 + x, Span(good, name).1 + y)
  {
    SteadySplits(good, next, name);
    AdvanceOfSteady(good[|good| - 1], next, name);
    var all := good + [next];
    assert all[0] == good[0] && all[|all| - 1] == next;
  }

  lemma SteadySplits(good: seq<Snapshot>, next: Snapshot, name: string)
    requires good != [] && Steady(good + [next], name)
    ensures Steady(good, name)
    ensures var p := Find(good[|good| - 1], name);
      && p.Some? && Find(next, name).Some?
      && p.value.first <= Find(next, name).value.first && p.value.second <= Find(next, name).value.second
  {
    var all := good + [next];
    SteadyPrefix(all, |good|, name);
    assert all[..|good|] == good && all[|good| - 1] == good[|good| - 1] && all[|good|] == next;
  }

  lemma AdvanceOfSteady(prev: Snapshot, curr: Snapshot, name: string)
    requires Find(prev, name).Some? && Find(curr, name).Some?
    requires Find(prev, name).value.first <= Find(curr, name).value.first
    requires Find(prev, name).value.second <= Find(curr, name).value.second
    ensures Advance(Some(prev), Some(curr), name) ==
      (Find(curr, name).value.first - Find(prev, name).value.first,
       Find(curr, name).value.second - Find(prev, name).value.second)
  {
  }

  lemma SteadyPrefix(good: seq<Snapshot>, n: nat, name: string)
    requires n <= |good| && Steady(good, name)
    ensures Steady(good[..n], name)
  {
  }

  lemma {:induction false} NothingBeforeFirst(ticks: seq<Option<Snapshot>>, name: string)
    requires Good(ticks) == []
    ensures Advanced(ticks, name) == (0, 0)
  {
    if ticks != [] {
      NothingBeforeFirst(ticks[..|ticks| - 1], name);
    }
  }

  /** For a device listed once in every good snapshot with counters that never go back, rate times
      interval over the whole run is last counter minus first, in units. */
  lemma RatesTelescope(unit: nat, interval: nat, ticks: seq<Option<Snapshot>>, name: string)
    requires interval > 0 && ListedOnce(ticks, name) && Good(ticks) != [] && Steady(Good(ticks), name)
    ensures var (m, a, b) := Run(unit, interval, ticks, name);
      && a == (Span(Good(ticks), name).0 * unit) as real
      && b == (Span(Good(ticks), name).1 * unit) as real
  {
    RatesAddUpToIncrements(unit, interval, ticks, name);
    IncrementsTelescope(ticks, name);
  }

  /** The same for a disk: its counters are in sectors, its rates in bytes. */
  lemma DiskRatesTelescope(interval: nat, ticks: seq<Option<Snapshot>>, name: string)
    requires interval > 0 && ListedOnce(ticks, name) && Good(ticks) != [] && Steady(Good(ticks), name)
    ensures var (m, a, b) := Run(SECTOR_BYTES, interval, ticks, name);
      && a == (Span(Good(ticks), name).0 * 512) as real
      && b == (Span(Good(ticks), name).1 * 512) as real
  {
    RatesTelescope(SECTOR_BYTES, interval, ticks, name);
  }
}
