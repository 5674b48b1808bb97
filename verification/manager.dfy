/** The pure logic of the interactive front end (`src/main.rs`): the
    `/proc/meminfo` aggregation behind `stats`, the rule that selects `/proc`
    entries as processes, the listing of process records, the choice of
    signal for `kill`, and whether `stats` repeats. */
module Manager {
  import opened Outcomes
  import opened Strings
  import opened Numbers
  import opened KeyedLines
  import opened ProcReader

  // ---------------------------------------------------------------------
  // get_memory_stats
  // ---------------------------------------------------------------------

  const MemTotalKey: string := "MemTotal:"
  const MemFreeKey: string := "MemFree:"
  const BuffersKey: string := "Buffers:"
  const CachedKey: string := "Cached:"

  /** `/proc/meminfo` counts in KiB; the figures are reported in MiB. */
  const KibPerMib: nat := 1024

  datatype MemCounters = MemCounters(total: U64, free: U64, buffers: U64, cached: U64)

  const NoCounters := MemCounters(0, 0, 0, 0)

  /** A line starting with `key` has a second word that parses as `u64` (the
      two `unwrap`s succeed). */
  predicate StrictLine(line: string, key: string) {
    StartsWith(line, key) ==> HasValue(line) && ParseU64(Words(line)[1]).Some?
  }

  predicate Strict(lines: seq<string>, key: string) {
    forall i :: 0 <= i < |lines| ==> StrictLine(lines[i], key)
  }

  predicate MeminfoLineStrict(line: string) {
    && StrictLine(line, MemTotalKey) && StrictLine(line, MemFreeKey)
    && StrictLine(line, BuffersKey) && StrictLine(line, CachedKey)
  }

  predicate MeminfoLinesStrict(lines: seq<string>) {
    && Strict(lines, MemTotalKey) && Strict(lines, MemFreeKey)
    && Strict(lines, BuffersKey) && Strict(lines, CachedKey)
  }

  /** The body of the loop of `get_memory_stats`: its `else if` chain. As no
      line starts with two of the keys, it acts as four independent
      "last match wins" assignments, one per counter. */
  function MemStep(c: MemCounters, line: string): (r: MemCounters)
    requires MeminfoLineStrict(line)
    ensures r.total == Assign(line, MemTotalKey, c.total)
    ensures r.free == Assign(line, MemFreeKey, c.free)
    ensures r.buffers == Assign(line, BuffersKey, c.buffers)
    ensures r.cached == Assign(line, CachedKey, c.cached)
  {
    MeminfoKeysDistinct(line);
    if StartsWith(line, MemTotalKey) then c.(total := LineValue(line))
    else if StartsWith(line, MemFreeKey) then c.(free := LineValue(line))
    else if StartsWith(line, BuffersKey) then c.(buffers := LineValue(line))
    else if StartsWith(line, CachedKey) then c.(cached := LineValue(line))
    else c
  }

  /** The loop of `get_memory_stats` from the counters' current values on;
      each counter ends as its key's last value. */
  function MemScan(lines: seq<string>, c: MemCounters): (r: MemCounters)
    requires MeminfoLinesStrict(lines)
    ensures r.total == LastValue(lines, MemTotalKey, c.total)
    ensures r.free == LastValue(lines, MemFreeKey, c.free)
    ensures r.buffers == LastValue(lines, BuffersKey, c.buffers)
    ensures r.cached == LastValue(lines, CachedKey, c.cached)
    decreases |lines|
  {
    if |lines| == 0 then c
    else
      var line := lines[0];
      LastValueCons(lines, MemTotalKey, c.total);
      LastValueCons(lines, MemFreeKey, c.free);
      LastValueCons(lines, BuffersKey, c.buffers);
      LastValueCons(lines, CachedKey, c.cached);
      MemScan(lines[1..], MemStep(c, line))
  }

  /** No line starts with two of the four keys, so the `else if` chain never
      hides an assignment. */
  lemma MeminfoKeysDistinct(line: string)
    ensures !(StartsWith(line, MemTotalKey) && StartsWith(line, MemFreeKey))
    ensures !(StartsWith(line, MemTotalKey) && StartsWith(line, BuffersKey))
    ensures !(StartsWith(line, MemTotalKey) && StartsWith(line, CachedKey))
    ensures !(StartsWith(line, MemFreeKey) && StartsWith(line, BuffersKey))
    ensures !(StartsWith(line, MemFreeKey) && StartsWith(line, CachedKey))
    ensures !(StartsWith(line, BuffersKey) && StartsWith(line, CachedKey))
  {
    DistinctKeys(line, MemTotalKey, MemFreeKey, 3);
    DistinctKeys(line, MemTotalKey, BuffersKey, 0);
    DistinctKeys(line, MemTotalKey, CachedKey, 0);
    DistinctKeys(line, MemFreeKey, BuffersKey, 0);
    DistinctKeys(line, MemFreeKey, CachedKey, 0);
    DistinctKeys(line, BuffersKey, CachedKey, 0);
  }

  /** The counters of a whole meminfo text. */
  function Counters(meminfo: string): MemCounters
    requires MeminfoLinesStrict(Lines(meminfo))
  {
    MemScan(Lines(meminfo), NoCounters)
  }

  /** The lines parse, and `total - free - buffers - cached` does not go
      below zero (`u64` subtraction). */
  predicate MeminfoWellFormed(meminfo: string) {
    && MeminfoLinesStrict(Lines(meminfo))
    && var c := Counters(meminfo);
       c.free + c.buffers + c.cached <= c.total
  }

  /** `get_memory_stats`: total and used memory in MiB, both rounded down,
      where used memory leaves out free memory, buffers and the page cache. */
  function MemoryStats(meminfo: string): (r: (nat, nat))
    requires MeminfoWellFormed(meminfo)
    ensures var lines := Lines(meminfo);
      && StrictValuedAll(lines)
      && var total, free, buffers, cached :=
           LastValue(lines, MemTotalKey, 0), LastValue(lines, MemFreeKey, 0),
           LastValue(lines, BuffersKey, 0), LastValue(lines, CachedKey, 0);
         && r.0 * KibPerMib <= total < (r.0 + 1) * KibPerMib
         && r.1 * KibPerMib <= total - free - buffers - cached < (r.1 + 1) * KibPerMib
    ensures r.1 <= r.0
  {
    var c := Counters(meminfo);
    var used := c.total - c.free - c.buffers - c.cached;
    (c.total / KibPerMib, used / KibPerMib)
  }

  predicate StrictValuedAll(lines: seq<string>) {
    && Valued(lines, MemTotalKey) && Valued(lines, MemFreeKey)
    && Valued(lines, BuffersKey) && Valued(lines, CachedKey)
  }

  // ---------------------------------------------------------------------
  // Selecting processes in /proc
  // ---------------------------------------------------------------------

  /** `filename.to_str().unwrap_or("").parse::<u32>()`. An entry name is
      `None` when it is not valid Unicode. */
  function PidOfEntry(name: Option<string>): (r: Option<U32>)
    ensures r.Some? <==> name.Some? && ParseU32(name.value).Some?
    ensures r.Some? ==> ParseU32(name.value) == r
  {
    ParseU32(name.GetOr(""))
  }

  /** The pids of the entries that name processes, in directory order. */
  function ProcPids(entries: seq<Option<string>>): (pids: seq<U32>)
    ensures |pids| <= |entries|
    ensures forall p :: p in pids <==> exists i :: 0 <= i < |entries| && PidOfEntry(entries[i]) == Some(p)
  {
    if |entries| == 0 then []
    else
      var rest := ProcPids(entries[1..]);
      assert forall i :: 1 <= i < |entries| ==> entries[i] == entries[1..][i - 1];
      match PidOfEntry(entries[0])
      case Some(p) => [p] + rest
      case None => rest
  }

  // ---------------------------------------------------------------------
  // Listing processes
  // ---------------------------------------------------------------------

  /** The three files of one process directory, in a snapshot of `/proc`
      taken as a map from pid to files. */
  datatype ProcFiles = ProcFiles(stat: Option<string>, status: Option<string>, io: Option<string>)

  /** A process that has exited by the time its files are read. */
  const Vanished := ProcFiles(None, None, None)

  function FilesOf(procfs: map<U32, ProcFiles>, pid: U32): ProcFiles {
    if pid in procfs then procfs[pid] else Vanished
  }

  /** The files are such that `get_process_metrics` does not panic. */
  predicate FilesWellFormed(f: ProcFiles) {
    && (f.stat.Some? ==> StatWellFormed(f.stat.value))
    && (f.stat.Some? && f.status.Some? ==> StatusWellFormed(f.status.value))
    && (f.stat.Some? && f.status.Some? && f.io.Some? ==> IoWellFormed(f.io.value))
  }

  /** Every process directory of the snapshot is readable without a panic. */
  predicate ProcfsWellFormed(procfs: map<U32, ProcFiles>) {
    forall p :: p in procfs ==> FilesWellFormed(procfs[p])
  }

  /** The three files could all be read, so the record is produced. */
  predicate Readable(f: ProcFiles) {
    f.stat.Some? && f.status.Some? && f.io.Some?
  }

  /** `get_process_metrics(pid)` against the snapshot. */
  function MetricsOf(procfs: map<U32, ProcFiles>, pid: U32): (r: Result<ProcessMetrics, ReadError>)
    requires ProcfsWellFormed(procfs)
    ensures r.Success? <==> Readable(FilesOf(procfs, pid))
    ensures r.Success? ==> r.value.pid == pid
  {
    var f := FilesOf(procfs, pid);
    GetProcessMetrics(pid, f.stat, f.status, f.io)
  }

  /** What `get_process_metrics` gives back for one pid. */
  type Reading = Result<ProcessMetrics, ReadError>

  /** `get_process_metrics` run once for every process directory of the
      snapshot. The snapshot does not change while it is read, so reading a
      pid twice gives the same result and this table stands for the reads. */
  function Readings(procfs: map<U32, ProcFiles>): map<U32, Reading>
    requires ProcfsWellFormed(procfs)
  {
    map p | p in procfs :: MetricsOf(procfs, p)
  }

  /** The reading of `pid`; a pid without a directory fails on its stat file. */
  function ReadingOf(readings: map<U32, Reading>, pid: U32): Reading {
    if pid in readings then readings[pid] else Failure(ReadFailed(StatFile))
  }

  /** Every record read for a pid carries that pid. */
  predicate ReadingsWellFormed(readings: map<U32, Reading>) {
    forall p :: p in readings && readings[p].Success? ==> readings[p].value.pid == p
  }

  /** The table agrees with `get_process_metrics` on every pid, listed or not. */
  lemma ReadingsOfSnapshot(procfs: map<U32, ProcFiles>)
    requires ProcfsWellFormed(procfs)
    ensures ReadingsWellFormed(Readings(procfs))
    ensures forall pid :: ReadingOf(Readings(procfs), pid) == MetricsOf(procfs, pid)
  {
  }

  /** The `ps` / `list` loop over the selected pids: the record of every pid
      whose files could be read, in order; a pid whose files fail to read is
      skipped without a trace. */
  function ListPids(pids: seq<U32>, readings: map<U32, Reading>): (records: seq<ProcessMetrics>)
    requires ReadingsWellFormed(readings)
    ensures |records| <= |pids|
    ensures forall k :: 0 <= k < |records| ==>
      records[k].pid in pids && ReadingOf(readings, records[k].pid) == Success(records[k])
  {
    if |pids| == 0 then []
    else
      var rest := ListPids(pids[1..], readings);
      assert forall k :: 0 <= k < |rest| ==> rest[k].pid in pids by {
        assert forall q :: q in pids[1..] ==> q in pids;
      }
      match ReadingOf(readings, pids[0])
      case Failure(_) => rest
      case Success(m) => [m] + rest
  }

  /** One step of the loop: the first pid contributes its record or nothing. */
  lemma ListPidsCons(pids: seq<U32>, readings: map<U32, Reading>)
    requires ReadingsWellFormed(readings) && |pids| > 0
    ensures ReadingOf(readings, pids[0]).Success? ==>
      ListPids(pids, readings) == [ReadingOf(readings, pids[0]).value] + ListPids(pids[1..], readings)
    ensures ReadingOf(readings, pids[0]).Failure? ==> ListPids(pids, readings) == ListPids(pids[1..], readings)
  {
  }

  /** Every pid that reads successfully is listed. */
  lemma {:induction false} ListPidsComplete(pids: seq<U32>, readings: map<U32, Reading>, p: U32)
    requires ReadingsWellFormed(readings)
    requires p in pids && ReadingOf(readings, p).Success?
    ensures exists k :: 0 <= k < |ListPids(pids, readings)| && ListPids(pids, readings)[k].pid == p
  {
    var records := ListPids(pids, readings);
    ListPidsCons(pids, readings);
    if pids[0] == p {
      assert records[0] == ReadingOf(readings, p).value;
    } else {
      assert p in pids[1..];
      ListPidsComplete(pids[1..], readings, p);
      var rest := ListPids(pids[1..], readings);
      var k :| 0 <= k < |rest| && rest[k].pid == p;
      if ReadingOf(readings, pids[0]).Success? {
        assert records[k + 1] == rest[k];
      } else {
        assert records[k] == rest[k];
      }
    }
  }

  /** The whole listing: pick the process entries of `/proc`, then read each. */
  function Listing(entries: seq<Option<string>>, procfs: map<U32, ProcFiles>): (r: seq<ProcessMetrics>)
    requires ProcfsWellFormed(procfs)
    ensures |r| <= |entries|
    ensures forall m :: m in r ==> MetricsOf(procfs, m.pid) == Success(m)
  {
    ReadingsOfSnapshot(procfs);
    ListPids(ProcPids(entries), Readings(procfs))
  }

  /** A process appears in the listing exactly when some entry names it and
      its files could be read (what appears is then its record, by the
      contract of `Listing`). */
  lemma ListingExact(entries: seq<Option<string>>, procfs: map<U32, ProcFiles>, p: U32)
    requires ProcfsWellFormed(procfs)
    ensures (exists k :: 0 <= k < |Listing(entries, procfs)| && Listing(entries, procfs)[k].pid == p)
      <==> (exists i :: 0 <= i < |entries| && PidOfEntry(entries[i]) == Some(p)) && Readable(FilesOf(procfs, p))
  {
    var pids, readings := ProcPids(entries), Readings(procfs);
    assert ReadingsWellFormed(readings) && ReadingOf(readings, p) == MetricsOf(procfs, p) by {
      ReadingsOfSnapshot(procfs);
    }
    var records := ListPids(pids, readings);
    assert Listing(entries, procfs) == records;
    if exists k :: 0 <= k < |records| && records[k].pid == p {
      var k :| 0 <= k < |records| && records[k].pid == p;
      assert p in pids && Readable(FilesOf(procfs, p));
    }
    if p in pids && Readable(FilesOf(procfs, p)) {
      ListPidsComplete(pids, readings, p);
    }
  }

  /** `info <pid>`: the record is produced exactly when the process's three
      files can be read; a pid with no process directory fails on its stat
      file, the first one read. */
  lemma InfoOf(procfs: map<U32, ProcFiles>, pid: U32)
    requires ProcfsWellFormed(procfs)
    ensures MetricsOf(procfs, pid).Success? <==> pid in procfs && Readable(procfs[pid])
    ensures MetricsOf(procfs, pid).Success? ==> MetricsOf(procfs, pid).value.pid == pid
    ensures pid !in procfs ==> MetricsOf(procfs, pid) == Failure(ReadFailed(StatFile))
  {
  }

  // ---------------------------------------------------------------------
  // kill
  // ---------------------------------------------------------------------

  datatype Signal = SIGTERM | SIGKILL

  /** The signal `kill` sends: `SIGKILL` only when asked for by that exact
      name, `SIGTERM` otherwise, with or without a signal argument. */
  function SignalFor(signal: Option<string>): (s: Signal)
    ensures s == SIGKILL <==> signal == Some("SIGKILL")
  {
    if signal == Some("SIGTERM") then SIGTERM
    else if signal == Some("SIGKILL") then SIGKILL
    else SIGTERM
  }

  const I32_LIMIT: nat := 0x8000_0000

  /** Rust's `pid as i32` on a `u32`: the same 32 bits read as two's complement. */
  function AsI32(n: U32): (x: int)
    ensures -(I32_LIMIT as int) <= x < I32_LIMIT
    ensures x % U32_LIMIT == n
  {
    if n < I32_LIMIT then n else n - U32_LIMIT
  }

  /** What POSIX `kill(2)` signals for a target pid. */
  datatype KillScope =
    | OneProcess(pid: nat)
    | OwnGroup
    | EveryProcess
    | Group(pgid: nat)

  function ScopeOf(target: int): (k: KillScope)
    ensures k.OneProcess? <==> target > 0
    ensures k.OneProcess? ==> k.pid == target
  {
    if target > 0 then OneProcess(target)
    else if target == 0 then OwnGroup
    else if target == -1 then EveryProcess
    else Group(-target)
  }

  /** The processes `kill <pid>` signals as the command is written: the `u32`
      pid is cast to `i32` and handed to `kill(2)`. */
  function KillScopeAsWritten(pid: U32): (k: KillScope)
    ensures 0 < pid < I32_LIMIT ==> k == OneProcess(pid)
    ensures k.OneProcess? <==> 0 < pid < I32_LIMIT
  {
    ScopeOf(AsI32(pid))
  }

  /** The pids the cast turns into something other than one process. */
  lemma KillScopeAsWrittenMisfires()
    ensures KillScopeAsWritten(0) == OwnGroup
    ensures KillScopeAsWritten(0xFFFF_FFFF) == EveryProcess
    ensures KillScopeAsWritten(0x8000_0001) == Group(0x7FFF_FFFF)
  {
  }

  /** The target for `kill(2)` when only the named process may be signalled:
      none for a pid that names no single process. */
  function KillTarget(pid: U32): (r: Option<int>)
    ensures r.Some? <==> 0 < pid < I32_LIMIT
    ensures r.Some? ==> ScopeOf(r.value) == OneProcess(pid)
  {
    if 0 < pid < I32_LIMIT then Some(AsI32(pid)) else None
  }

  /** Where the cast was harmless, the corrected target is the cast one. */
  lemma KillTargetAgrees(pid: U32)
    requires KillTarget(pid).Some?
    ensures KillTarget(pid) == Some(AsI32(pid))
    ensures ScopeOf(KillTarget(pid).value) == KillScopeAsWritten(pid)
  {
  }

  /** The `kill(2)` call of the `kill` command: one process and the signal
      chosen by name, or a refusal for a pid that names no single process. */
  datatype KillRequest = KillRequest(target: int, signal: Signal)

  function KillRequestFor(pid: U32, signal: Option<string>): (r: Result<KillRequest, U32>)
    ensures r.Success? <==> 0 < pid < I32_LIMIT
    ensures r.Success? ==> ScopeOf(r.value.target) == OneProcess(pid) && r.value.signal == SignalFor(signal)
    ensures r.Failure? ==> r.error == pid
  {
    match KillTarget(pid)
    case None => Failure(pid)
    case Some(target) => Success(KillRequest(target, SignalFor(signal)))
  }

  // ---------------------------------------------------------------------
  // stats
  // ---------------------------------------------------------------------

  datatype StatsMode = Once | Every(seconds: U64)

  /** `refresh_interval.unwrap_or(0)`, repeating only for a positive interval. */
  function StatsModeOf(refresh: Option<U64>): (m: StatsMode)
    ensures m.Every? <==> refresh.Some? && refresh.value > 0
    ensures m.Every? ==> m.seconds == refresh.value
  {
    var interval := refresh.GetOr(0);
    if interval > 0 then Every(interval) else Once
  }
}
