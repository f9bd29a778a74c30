/** What the collector measures, and what it means that a JSON value tells it: each number under its name,
    written out, independently of how events are printed. */
module Samples {
  import opened Decimal
  import opened Json
  import opened MetricEvents

  /** What the collector has to report.  Percentages are in tenths, as %.1f prints them; the entries of a
      list are those that the event has room for. */
  datatype Sample =
    | WarmingUp
    | Ready
    | Cpu(usage: nat, user: nat, system: nat, idle: nat, cores: nat)
    | Memory(total: nat, available: nat, free: nat, used: nat, swapTotal: nat, swapFree: nat, swapUsed: nat)
    | Internal(depth: nat, dropped: nat, emitted: nat)
    | Disk(entries: seq<Entry>)
    | Network(entries: seq<Entry>)
  {
    predicate IsList() {
      Disk? || Network?
    }
  }

  // ----- what a value tells

  /** A named number with one decimal: `n` tenths. */
  predicate TellsTenths(m: (string, Value), name: string, n: nat) {
    && m.0 == name && m.1.Num? && |m.1.digits| >= 3
    && var k := |m.1.digits| - 2;
       && m.1.digits[k] == '.' && AllDecimal(m.1.digits[..k]) && IsDecimal(m.1.digits[k + 1])
       && 10 * Undec(m.1.digits[..k]) + DigitValue(m.1.digits[k + 1]) == n
  }

  /** A named whole number. */
  predicate TellsWhole(m: (string, Value), name: string, n: nat) {
    && m.0 == name && m.1.Num? && m.1.digits != "" && AllDecimal(m.1.digits) && Undec(m.1.digits) == n
  }

  /** Whole numbers under these names, in order. */
  predicate TellsWholes(p: seq<(string, Value)>, names: seq<string>, ns: seq<nat>) {
    |p| == |names| == |ns| && forall i :: 0 <= i < |p| ==> TellsWhole(p[i], names[i], ns[i])
  }

  /** An object with a name and two rates. */
  predicate TellsEntry(v: Value, e: Entry, first: string, second: string) {
    && v.Obj? && |v.members| == 3
    && v.members[0] == ("name", Str(e.name))
    && TellsWhole(v.members[1], first, e.first) && TellsWhole(v.members[2], second, e.second)
  }

  /** A payload that is one list of entries. */
  predicate TellsEntries(p: seq<(string, Value)>, list: string, entries: seq<Entry>, first: string, second: string) {
    && |p| == 1 && p[0].0 == list && p[0].1.Arr? && |p[0].1.items| == |entries|
    && forall i :: 0 <= i < |entries| ==> TellsEntry(p[0].1.items[i], entries[i], first, second)
  }

  /** An event of this type, time and host, with some payload. */
  predicate IsEvent(v: Value, eventType: string, timestamp: string, host: string) {
    && v.Obj? && |v.members| == 8
    && v.members[..7] ==
         [("schema_version", Str("1.0")), ("timestamp", Str(timestamp)), ("host", Str(host)),
          ("source", Str("syswatch")), ("source_version", Str("0.1.1")), ("event_type", Str(eventType)),
          ("severity", Str("info"))]
    && v.members[7].0 == "payload" && v.members[7].1.Obj?
  }

  predicate TellsPayload(p: seq<(string, Value)>, s: Sample) {
    match s
    case WarmingUp => p == []
    case Ready => p == []
    case Cpu(usage, user, system, idle, cores) =>
      && |p| == 5
      && TellsTenths(p[0], "usage_pct", usage) && TellsTenths(p[1], "user_pct", user)
      && TellsTenths(p[2], "system_pct", system) && TellsTenths(p[3], "idle_pct", idle)
      && TellsWhole(p[4], "core_count", cores)
    case Memory(total, available, free, used, swapTotal, swapFree, swapUsed) =>
      TellsWholes(p, ["mem_total", "mem_available", "mem_free", "mem_used", "swap_total", "swap_free", "swap_used"],
                  [total, available, free, used, swapTotal, swapFree, swapUsed])
    case Internal(depth, dropped, emitted) =>
      TellsWholes(p, ["buffer_depth", "events_dropped_total", "events_emitted_total"], [depth, dropped, emitted])
    case Disk(entries) => TellsEntries(p, "disks", entries, "read_bps", "write_bps")
    case Network(entries) => TellsEntries(p, "interfaces", entries, "rx_bps", "tx_bps")
  }

  /** The value tells what was measured: when, where, and every number under its name. */
  predicate Tells(v: Value, timestamp: string, host: string, s: Sample) {
    && IsEvent(v, (match s
                   case WarmingUp => "syswatch.lifecycle.warming_up"
                   case Ready => "syswatch.lifecycle.ready"
                   case Cpu(_, _, _, _, _) => "system.metrics.cpu"
                   case Memory(_, _, _, _, _, _, _) => "system.metrics.memory"
                   case Internal(_, _, _) => "syswatch.internal"
                   case Disk(_) => "system.metrics.disk"
                   case Network(_) => "system.metrics.network"), timestamp, HostShown(host))
    && TellsPayload(v.members[7].1.members, s)
  }

  lemma {:induction false} WholeIsTold(name: string, n: nat)
    ensures TellsWhole((name, Num(Dec(n))), name, n)
  {
    DecRoundTrip(n);
  }
}
