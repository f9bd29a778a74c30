/** process_read_list of src/process.c: a scan of all processes, sorted and cut to the top few,
    and the tick table it remembers for the next call. */
module TopProcesses {
  import opened Numbers
  import opened Options

  const MAX_PROCESSES: nat := 2048

  datatype SortMode = ByCpu | ByMemory

  /** A process as one scan sees it. */
  datatype Sample = Sample(pid: nat, comm: string, ticks: nat, rss: nat)

  datatype Process = Process(pid: nat, comm: string, cpuPct: real, memBytes: nat)

  /** g_prev_ticks, g_prev_total_cpu and g_prev_initialized. */
  datatype Table = Table(ticks: seq<(nat, nat)>, total: nat, initialized: bool)

  const START := Table([], 0, false)

  /** find_prev_pid: the ticks of the first entry with this pid. */
  function PrevTicks(ticks: seq<(nat, nat)>, pid: nat): Option<nat> {
    if ticks == [] then None
    else if ticks[0].0 == pid then Some(ticks[0].1)
    else PrevTicks(ticks[1..], pid)
  }

  function Clamp(x: real): real {
    if x < 0.0 then 0.0 else if x > 100.0 then 100.0 else x
  }

  /** The share of the CPU time since the last scan, as a percentage between 0 and 100. */
  function CpuPct(table: Table, total: nat, s: Sample): (r: real)
    ensures 0.0 <= r <= 100.0
  {
    var totalDelta := if table.initialized && total >= table.total then total - table.total else 0;
    var before := PrevTicks(table.ticks, s.pid);
    var delta := if before.Some? && s.ticks >= before.value then s.ticks - before.value else 0;
    if totalDelta > 0 then Clamp(100.0 * (delta as real / totalDelta as real)) else 0.0
  }

  function Entry(table: Table, total: nat, s: Sample): Process {
    Process(s.pid, s.comm, CpuPct(table, total, s), s.rss)
  }

  /** The scan stops when the list is full. */
  function Seen(samples: seq<Sample>): (r: seq<Sample>)
    ensures |r| <= MAX_PROCESSES
  {
    samples[..Min(|samples|, MAX_PROCESSES)]
  }

  function Entries(table: Table, total: nat, samples: seq<Sample>): seq<Process> {
    seq(|samples|, i requires 0 <= i < |samples| => Entry(table, total, samples[i]))
  }

  function Ticks(samples: seq<Sample>): seq<(nat, nat)> {
    seq(|samples|, i requires 0 <= i < |samples| => (samples[i].pid, samples[i].ticks))
  }

  function Key(mode: SortMode, p: Process): real {
    if mode.ByMemory? then p.memBytes as real else p.cpuPct
  }

  ghost predicate Descending(mode: SortMode, s: seq<Process>) {
    forall i, j :: 0 <= i < j < |s| ==> Key(mode, s[i]) >= Key(mode, s[j])
  }

  /** `top` is what is left of `all` after removing `rest`, nothing in `rest` beating anything in `top`. */
  ghost predicate IsTop(mode: SortMode, top: seq<Process>, rest: seq<Process>, all: seq<Process>) {
    && Descending(mode, top)
    && multiset(top) + multiset(rest) == multiset(all)
    && forall p, q :: p in top && q in rest ==> Key(mode, p) >= Key(mode, q)
  }

  /** One call's outside influences: the total jiffies if readable, and the processes if /proc opens. */
  datatype Scan = Scan(total: Option<nat>, samples: Option<seq<Sample>>)

  /** What a call remembers: nothing new unless it was asked for something and could read it. */
  function Remembered(table: Table, scan: Scan, limit: int): Table {
    if limit <= 0 || scan.total.None? || scan.samples.None? then table
    else Table(Ticks(Seen(scan.samples.value)), scan.total.value, true)
  }

  /** qsort with either comparison: some descending order; ties may fall either way. */
  method SortDescending(a: array<Process>, n: nat, mode: SortMode)
    requires n <= a.Length
    modifies a
    ensures Descending(mode, a[..n])
    ensures multiset(a[..n]) == multiset(old(a[..n]))
  {
    var i := 0;
    while i < n
      invariant 0 <= i <= n
      invariant forall k, l :: 0 <= k < l < n && k < i ==> Key(mode, a[k]) >= Key(mode, a[l])
      invariant multiset(a[..n]) == multiset(old(a[..n]))
    {
      var best := FindBest(a, i, n, mode);
      SwapFirst(a, i, best, n);
      i := i + 1;
    }
  }

  method FindBest(a: array<Process>, from: nat, n: nat, mode: SortMode) returns (best: nat)
    requires from < n <= a.Length
    ensures from <= best < n && forall l :: from <= l < n ==> Key(mode, a[best]) >= Key(mode, a[l])
  {
    best := from;
    var j := from + 1;
    while j < n
      invariant from < j <= n && from <= best < j
      invariant forall l :: from <= l < j ==> Key(mode, a[best]) >= Key(mode, a[l])
    {
      if Key(mode, a[j]) > Key(mode, a[best]) {
        best := j;
      }
      j := j + 1;
    }
  }

  method SwapFirst(a: array<Process>, i: nat, j: nat, n: nat)
    requires i <= j < n <= a.Length
    modifies a
    ensures a[i] == old(a[j]) && a[j] == old(a[i])
    ensures forall k :: 0 <= k < n && k != i && k != j ==> a[k] == old(a[k])
    ensures multiset(a[..n]) == multiset(old(a[..n]))
  {
    a[i], a[j] := a[j], a[i];
    assert a[..n] == old(a[..n])[i := old(a[j])][j := old(a[i])];
  }

  class ProcessReader {
    var items: array<Process>
    var count: nat
    var table: Table

    ghost predicate Valid()
      reads this
    {
      items.Length == MAX_PROCESSES && count <= MAX_PROCESSES
    }

    constructor ()
      ensures Valid() && fresh(items) && table == START && count == 0
    {
      items := new Process[MAX_PROCESSES](_ => Process(0, "", 0.0, 0));
      count, table := 0, START;
    }

    /** process_read_list. */
    method ReadList(mode: SortMode, limit: int, scan: Scan) returns (rc: int, ghost rest: seq<Process>)
      requires Valid()
      modifies this, items
      ensures Valid()
      ensures table == Remembered(old(table), scan, limit)
      ensures rc == if limit > 0 && (scan.total.None? || scan.samples.None?) then -1 else 0
      ensures limit <= 0 || rc < 0 ==> count == 0
      ensures limit > 0 && rc == 0 ==>
        var all := Entries(old(table), scan.total.value, Seen(scan.samples.value));
        count == Min(limit, |all|) && IsTop(mode, items[..count], rest, all)
    {
      count := 0;
      rest := [];
      if limit <= 0 {
        return 0, [];
      }
      if scan.total.None? || scan.samples.None? {
        return -1, [];
      }
      Fill(scan.total.value, scan.samples.value);
      rest := SortAndCut(mode, limit);
      table := Table(Ticks(Seen(scan.samples.value)), scan.total.value, true);
      rc := 0;
    }

    /** Sorting, and dropping all but the first `limit`. */
    method SortAndCut(mode: SortMode, limit: nat) returns (ghost rest: seq<Process>)
      requires Valid()
      modifies `count, items
      ensures Valid() && count == Min(limit, old(count))
      ensures IsTop(mode, items[..count], rest, old(items[..count]))
    {
      ghost var all := items[..count];
      SortDescending(items, count, mode);
      ghost var sorted := items[..count];
      if count > limit {
        count := limit;
      }
      rest := sorted[count..];
      PrefixIsTop(mode, sorted, count, all);
      assert items[..count] == sorted[..count];
    }

    /** The directory loop. */
    method Fill(total: nat, samples: seq<Sample>)
      requires Valid() && count == 0
      modifies `count, items
      ensures Valid() && items[..count] == Entries(table, total, Seen(samples))
      ensures count == |Seen(samples)| == if |samples| < 2048 then |samples| else 2048
    {
      var i := 0;
      while i < |samples| && count < MAX_PROCESSES
        invariant 0 <= i <= |samples| && count == i <= MAX_PROCESSES
        invariant items[..count] == Entries(table, total, samples[..i])
      {
        items[count] := Entry(table, total, samples[i]);
        count := count + 1;
        i := i + 1;
      }
    }
  }

  /** What being the top means for the two orders: memory or CPU share, greatest first. */
  lemma TopIsGreatest(mode: SortMode, top: seq<Process>, rest: seq<Process>, all: seq<Process>)
    requires IsTop(mode, top, rest, all)
    ensures forall i, j :: 0 <= i < j < |top| ==>
              if mode.ByMemory? then top[i].memBytes >= top[j].memBytes else top[i].cpuPct >= top[j].cpuPct
    ensures forall q, i :: q in rest && 0 <= i < |top| ==>
              if mode.ByMemory? then top[i].memBytes >= q.memBytes else top[i].cpuPct >= q.cpuPct
  {
    forall i, j | 0 <= i < j < |top|
      ensures if mode.ByMemory? then top[i].memBytes >= top[j].memBytes else top[i].cpuPct >= top[j].cpuPct
    {
      assert Key(mode, top[i]) >= Key(mode, top[j]);
    }
    forall q, i | q in rest && 0 <= i < |top|
      ensures if mode.ByMemory? then top[i].memBytes >= q.memBytes else top[i].cpuPct >= q.cpuPct
    {
      assert top[i] in top;
      assert Key(mode, top[i]) >= Key(mode, q);
    }
  }

  /** What a scan that follows another one reports of a process: its own data, and the share of the time
      between the scans that it took, in percent: 0 if it is new, its ticks went back or no time passed,
      and never more than 100. */
  lemma PercentageIs(table: Table, before: Scan, limit: int, total: nat, samples: seq<Sample>, i: nat)
    requires limit > 0 && before.total.Some? && before.samples.Some? && i < |samples|
    ensures var p, s := Entries(Remembered(table, before, limit), total, samples)[i], samples[i];
      var last, earlier := before.total.value, PrevTicks(Ticks(Seen(before.samples.value)), s.pid);
      && p.pid == s.pid && p.comm == s.comm && p.memBytes == s.rss
      && p.cpuPct ==
           if total <= last || earlier.None? || s.ticks < earlier.value then 0.0
           else if s.ticks - earlier.value > total - last then 100.0
           else 100.0 * ((s.ticks - earlier.value) as real / (total - last) as real)
  {
    var last, earlier := before.total.value, PrevTicks(Ticks(Seen(before.samples.value)), samples[i].pid);
    if total > last {
      ShareIs(if earlier.Some? && samples[i].ticks >= earlier.value then samples[i].ticks - earlier.value else 0,
              total - last);
    }
  }

  lemma ShareIs(part: nat, whole: nat)
    requires whole > 0
    ensures Clamp(100.0 * (part as real / whole as real)) ==
      if part > whole then 100.0 else 100.0 * (part as real / whole as real)
    ensures part == 0 ==> Clamp(100.0 * (part as real / whole as real)) == 0.0
  {
    var q := part as real / whole as real;
    assert q * whole as real == part as real;
    if part > whole {
      assert q > 1.0;
    } else {
      assert 0.0 <= q <= 1.0;
    }
  }

  /** The ticks that a scan remembers for a pid are those of the first of the 2048 processes it takes that
      has the pid. */
  lemma {:induction false} RememberedTicks(samples: seq<Sample>, pid: nat)
    ensures match PrevTicks(Ticks(samples), pid)
            case None => forall i :: 0 <= i < |samples| ==> samples[i].pid != pid
            case Some(t) =>
              exists i :: 0 <= i < |samples| && samples[i].pid == pid && samples[i].ticks == t
                          && forall j :: 0 <= j < i ==> samples[j].pid != pid
  {
    if samples != [] {
      assert Ticks(samples)[1..] == Ticks(samples[1..]);
      if samples[0].pid == pid {
        assert PrevTicks(Ticks(samples), pid) == Some(samples[0].ticks);
      } else {
        RememberedTicks(samples[1..], pid);
        if PrevTicks(Ticks(samples), pid).Some? {
          var i :| 0 <= i < |samples[1..]| && samples[1..][i].pid == pid
                   && samples[1..][i].ticks == PrevTicks(Ticks(samples), pid).value
                   && forall j :: 0 <= j < i ==> samples[1..][j].pid != pid;
          FirstBehind(samples, pid, i);
          assert samples[i + 1] == samples[1..][i];
        } else {
          assert forall j :: 0 < j < |samples| ==> samples[j] == samples[1..][j - 1];
        }
      }
    }
  }

  lemma FirstBehind(samples: seq<Sample>, pid: nat, i: nat)
    requires samples != [] && samples[0].pid != pid && i < |samples[1..]|
    requires forall j :: 0 <= j < i ==> samples[1..][j].pid != pid
    ensures forall j :: 0 <= j < i + 1 ==> samples[j].pid != pid
  {
    assert forall j :: 0 < j < i + 1 ==> samples[j] == samples[1..][j - 1];
  }

  /** The first `k` of a descending list are the top `k`. */
  lemma PrefixIsTop(mode: SortMode, sorted: seq<Process>, k: nat, all: seq<Process>)
    requires k <= |sorted| && Descending(mode, sorted) && multiset(sorted) == multiset(all)
    ensures IsTop(mode, sorted[..k], sorted[k..], all)
  {
    assert sorted == sorted[..k] + sorted[k..];
    forall p, q | p in sorted[..k] && q in sorted[k..]
      ensures Key(mode, p) >= Key(mode, q)
    {
      var i :| 0 <= i < k && sorted[..k][i] == p;
      var j :| 0 <= j < |sorted| - k && sorted[k..][j] == q;
      assert sorted[i] == p && sorted[k + j] == q;
    }
  }

  // ----- several calls

  datatype Call = Call(mode: SortMode, limit: int, scan: Scan)

  function TableAfter(calls: seq<Call>): Table {
    if calls == [] then START
    else Remembered(TableAfter(calls[..|calls| - 1]), calls[|calls| - 1].scan, calls[|calls| - 1].limit)
  }

  /** The calls that were asked for some process and could read everything. */
  function Scanning(calls: seq<Call>): seq<Call> {
    if calls == [] then []
    else
      var last := calls[|calls| - 1];
      var scans := last.limit > 0 && last.scan.total.Some? && last.scan.samples.Some?;
      Scanning(calls[..|calls| - 1]) + (if scans then [last] else [])
  }

  lemma OneMoreCall(calls: seq<Call>, last: Call)
    ensures TableAfter(calls + [last]) == Remembered(TableAfter(calls), last.scan, last.limit)
    ensures calls + [] == calls
  {
    assert (calls + [last])[..|calls|] == calls;
  }

  /** The table is that of the last call that scanned, and the calls in between leave no trace:
      neither those that failed nor those for zero processes. */
  lemma {:induction false} TableIsOfLastScan(calls: seq<Call>)
    ensures TableAfter(calls) == TableAfter(Scanning(calls))
    ensures TableAfter(calls) ==
      if Scanning(calls) == [] then START
      else
        var last := Scanning(calls)[|Scanning(calls)| - 1];
        Remembered(START, last.scan, last.limit)
  {
    if calls != [] {
      var before, last := calls[..|calls| - 1], calls[|calls| - 1];
      TableIsOfLastScan(before);
      OneMoreCall(Scanning(before), last);
      if last.limit > 0 && last.scan.total.Some? && last.scan.samples.Some? {
        assert Scanning(calls) == Scanning(before) + [last];
      } else {
        assert Scanning(calls) == Scanning(before);
      }
    }
  }

  /** The percentages of a scan depend on what earlier calls scanned, not on how many processes
      they were asked for or how they sorted them, as long as they were asked for any. */
  lemma {:induction false} PercentagesIgnoreLimitsAndOrder(a: seq<Call>, b: seq<Call>, total: nat, s: Sample)
    requires |a| == |b|
    requires forall i :: 0 <= i < |a| ==> a[i].scan == b[i].scan && a[i].limit > 0 && b[i].limit > 0
    ensures TableAfter(a) == TableAfter(b)
    ensures CpuPct(TableAfter(a), total, s) == CpuPct(TableAfter(b), total, s)
  {
    if a != [] {
      PercentagesIgnoreLimitsAndOrder(a[..|a| - 1], b[..|b| - 1], total, s);
    }
  }

  /** A call for zero processes does change them: it skips the scan, so the next call compares
      with an older table. */
  lemma ZeroLimitChangesPercentages(pid: nat)
    ensures var first := Scan(Some(0), Some([Sample(pid, "", 0, 0)]));
      var second := Scan(Some(100), Some([Sample(pid, "", 50, 0)]));
      var third := Sample(pid, "", 50, 0);
      var asked := [Call(ByCpu, 1, first), Call(ByCpu, 1, second)];
      var skipped := [Call(ByCpu, 1, first), Call(ByCpu, 0, second)];
      CpuPct(TableAfter(asked), 200, third) == 0.0 && CpuPct(TableAfter(skipped), 200, third) == 25.0
  {
    var first := Scan(Some(0), Some([Sample(pid, "", 0, 0)]));
    var second := Scan(Some(100), Some([Sample(pid, "", 50, 0)]));
    var asked := [Call(ByCpu, 1, first), Call(ByCpu, 1, second)];
    var skipped := [Call(ByCpu, 1, first), Call(ByCpu, 0, second)];
    assert asked[..1] == [asked[0]] && skipped[..1] == [skipped[0]];
    assert [asked[0]][..0] == [];
    assert TableAfter([asked[0]]) == Table([(pid, 0)], 0, true);
    assert TableAfter(asked) == Table([(pid, 50)], 100, true);
    assert TableAfter(skipped) == Table([(pid, 0)], 0, true);
  }
}
