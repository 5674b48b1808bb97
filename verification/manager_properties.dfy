/** Properties of the front end's pure logic: a `/proc/meminfo` written from
    four counters reads back as those counters, lines of other keys are
    ignored, entries are selected by their names alone, and `kill` on a pid
    outside the `i32` range reaches more than one process. */
module ManagerProperties {
  import opened Outcomes
  import opened Strings
  import opened Numbers
  import opened KeyedLines
  import opened CommandParser
  import opened ParserProperties
  import opened Manager

  // ---------------------------------------------------------------------
  // get_memory_stats
  // ---------------------------------------------------------------------

  /** A meminfo line as the kernel writes it: the key, padding that lines
      the counts up in a column, the count, ` kB`. */
  function KeyLine(key: string, gap: string, v: U64): string {
    key + gap + Decimal(v) + " kB"
  }

  /** `line` starts with `key` and carries the count `v` as its value. */
  predicate KeyValue(line: string, key: string, v: U64) {
    StartsWith(line, key) && HasValue(line) && ParseU64(Words(line)[1]) == Some(v)
  }

  lemma KeyLineFacts(key: string, gap: string, v: U64)
    requires IsWord(key) && Padding(gap)
    ensures var line := KeyLine(key, gap, v);
      && '\n' !in line && line != [] && KeyValue(line, key, v) && LineValue(line) == v
  {
    PaddedLineValue(key, gap, v, " kB");
    DecimalIsOneWord(v);
    WordHasNoLineFeed(key);
    WordHasNoLineFeed(Decimal(v));
  }

  /** One padding per line of a four-line meminfo. */
  predicate Paddings(gaps: seq<string>) {
    |gaps| == 4 && forall k :: 0 <= k < 4 ==> Padding(gaps[k])
  }

  /** The four lines `get_memory_stats` reads, in the kernel's order. */
  function MeminfoText(total: U64, free: U64, buffers: U64, cached: U64, gaps: seq<string>): string
    requires |gaps| == 4
  {
    Join([KeyLine(MemTotalKey, gaps[0], total), KeyLine(MemFreeKey, gaps[1], free),
          KeyLine(BuffersKey, gaps[2], buffers), KeyLine(CachedKey, gaps[3], cached)], "\n")
  }

  lemma MeminfoKeysAreWords()
    ensures IsWord(MemTotalKey) && IsWord(MemFreeKey) && IsWord(BuffersKey) && IsWord(CachedKey)
  {
    VisibleIsWord(MemTotalKey);
    VisibleIsWord(MemFreeKey);
    VisibleIsWord(BuffersKey);
    VisibleIsWord(CachedKey);
  }

  lemma LinesOfFour(a: string, b: string, c: string, d: string)
    requires '\n' !in a && '\n' !in b && '\n' !in c && '\n' !in d && d != []
    ensures Lines(Join([a, b, c, d], "\n")) == [a, b, c, d]
  {
    LinesOfJoin([a, b, c, d]);
  }

  /** Four key lines, one per counter, with nothing else in between. */
  lemma MeminfoLines(total: U64, free: U64, buffers: U64, cached: U64, gaps: seq<string>)
    requires Paddings(gaps)
    ensures Lines(MeminfoText(total, free, buffers, cached, gaps)) ==
      [KeyLine(MemTotalKey, gaps[0], total), KeyLine(MemFreeKey, gaps[1], free),
       KeyLine(BuffersKey, gaps[2], buffers), KeyLine(CachedKey, gaps[3], cached)]
  {
    MeminfoKeysAreWords();
    KeyLineFacts(MemTotalKey, gaps[0], total);
    KeyLineFacts(MemFreeKey, gaps[1], free);
    KeyLineFacts(BuffersKey, gaps[2], buffers);
    KeyLineFacts(CachedKey, gaps[3], cached);
    LinesOfFour(KeyLine(MemTotalKey, gaps[0], total), KeyLine(MemFreeKey, gaps[1], free),
                KeyLine(BuffersKey, gaps[2], buffers), KeyLine(CachedKey, gaps[3], cached));
  }

  /** A key carried by one line only is read from that line. */
  lemma CountOfLine(ls: seq<string>, i: nat, key: string, v: U64)
    requires i < |ls| && KeyValue(ls[i], key, v)
    requires forall j :: 0 <= j < |ls| && j != i ==> !StartsWith(ls[j], key)
    ensures Strict(ls, key) && Valued(ls, key)
    ensures LastValue(ls, key, 0) == v
  {
    LastValueAt(ls, i, key, 0);
  }

  /** Four lines that start with the four keys in turn: no line starts with
      another line's key. */
  lemma OneLinePerKey(ls: seq<string>)
    requires |ls| == 4
    requires StartsWith(ls[0], MemTotalKey) && StartsWith(ls[1], MemFreeKey)
    requires StartsWith(ls[2], BuffersKey) && StartsWith(ls[3], CachedKey)
    ensures forall j :: 0 <= j < |ls| && j != 0 ==> !StartsWith(ls[j], MemTotalKey)
    ensures forall j :: 0 <= j < |ls| && j != 1 ==> !StartsWith(ls[j], MemFreeKey)
    ensures forall j :: 0 <= j < |ls| && j != 2 ==> !StartsWith(ls[j], BuffersKey)
    ensures forall j :: 0 <= j < |ls| && j != 3 ==> !StartsWith(ls[j], CachedKey)
  {
    MeminfoKeysDistinct(ls[0]);
    MeminfoKeysDistinct(ls[1]);
    MeminfoKeysDistinct(ls[2]);
    MeminfoKeysDistinct(ls[3]);
  }

  /** Each counter is read from its own line. */
  lemma CountsOfLines(ls: seq<string>, total: U64, free: U64, buffers: U64, cached: U64)
    requires |ls| == 4
    requires KeyValue(ls[0], MemTotalKey, total) && KeyValue(ls[1], MemFreeKey, free)
    requires KeyValue(ls[2], BuffersKey, buffers) && KeyValue(ls[3], CachedKey, cached)
    ensures MeminfoLinesStrict(ls)
    ensures LastValue(ls, MemTotalKey, 0) == total && LastValue(ls, MemFreeKey, 0) == free
    ensures LastValue(ls, BuffersKey, 0) == buffers && LastValue(ls, CachedKey, 0) == cached
  {
    OneLinePerKey(ls);
    CountOfLine(ls, 0, MemTotalKey, total);
    CountOfLine(ls, 1, MemFreeKey, free);
    CountOfLine(ls, 2, BuffersKey, buffers);
    CountOfLine(ls, 3, CachedKey, cached);
  }

  lemma MibUnique(kib: nat, mib: nat)
    requires mib * KibPerMib <= kib < (mib + 1) * KibPerMib
    ensures mib == kib / KibPerMib
  {
  }

  /** `get_memory_stats` in terms of the last value of each key: the total,
      and the used memory with free memory, buffers and cache taken out, each
      in MiB rounded down. */
  lemma MemoryStatsOfValues(meminfo: string, total: U64, free: U64, buffers: U64, cached: U64)
    requires MeminfoLinesStrict(Lines(meminfo))
    requires LastValue(Lines(meminfo), MemTotalKey, 0) == total
    requires LastValue(Lines(meminfo), MemFreeKey, 0) == free
    requires LastValue(Lines(meminfo), BuffersKey, 0) == buffers
    requires LastValue(Lines(meminfo), CachedKey, 0) == cached
    requires free + buffers + cached <= total
    ensures MeminfoWellFormed(meminfo)
    ensures MemoryStats(meminfo).0 == total / KibPerMib
    ensures MemoryStats(meminfo).1 == (total - free - buffers - cached) / KibPerMib
  {
    var c := Counters(meminfo);
    assert c.total == total && c.free == free && c.buffers == buffers && c.cached == cached;
    var r := MemoryStats(meminfo);
    MibUnique(total, r.0);
    MibUnique(total - free - buffers - cached, r.1);
  }

  /** A meminfo written from four counters reads back as those counters,
      whatever padding lines them up. */
  lemma MemoryStatsOfCounters(total: U64, free: U64, buffers: U64, cached: U64, gaps: seq<string>)
    requires Paddings(gaps)
    requires free + buffers + cached <= total
    ensures var meminfo := MeminfoText(total, free, buffers, cached, gaps);
      && MeminfoWellFormed(meminfo)
      && MemoryStats(meminfo).0 == total / KibPerMib
      && MemoryStats(meminfo).1 == (total - free - buffers - cached) / KibPerMib
  {
    MeminfoLines(total, free, buffers, cached, gaps);
    MeminfoKeysAreWords();
    KeyLineFacts(MemTotalKey, gaps[0], total);
    KeyLineFacts(MemFreeKey, gaps[1], free);
    KeyLineFacts(BuffersKey, gaps[2], buffers);
    KeyLineFacts(CachedKey, gaps[3], cached);
    var meminfo := MeminfoText(total, free, buffers, cached, gaps);
    CountsOfLines(Lines(meminfo), total, free, buffers, cached);
    MemoryStatsOfValues(meminfo, total, free, buffers, cached);
  }

  /** The column layout of the kernel's `/proc/meminfo` for the counts of
      `MemoryStatsExample`: the key is written in a 16-column field and the
      count right-aligned in 8, so key, padding and count fill 24 columns. */
  const KernelPaddings: seq<string> := ["        ", "          ", "          ", "           "]

  lemma MemoryStatsExample()
    ensures var meminfo := MeminfoText(2048000, 512000, 100000, 400000, KernelPaddings);
      MeminfoWellFormed(meminfo) && MemoryStats(meminfo).0 == 2000 && MemoryStats(meminfo).1 == 1011
  {
    assert Paddings(KernelPaddings);
    MemoryStatsOfCounters(2048000, 512000, 100000, 400000, KernelPaddings);
  }

  lemma StrictSnoc(lines: seq<string>, line: string, key: string)
    requires Strict(lines, key) && StrictLine(line, key)
    ensures Strict(lines + [line], key)
  {
    var ext := lines + [line];
    assert forall i :: 0 <= i < |lines| ==> ext[i] == lines[i];
  }

  /** The loop runs front to back: the counters after one more line are the
      loop body applied to the counters before it, so a later matching line
      overwrites an earlier one. */
  lemma MemScanSnoc(lines: seq<string>, line: string, c: MemCounters)
    requires MeminfoLinesStrict(lines) && MeminfoLineStrict(line)
    ensures MeminfoLinesStrict(lines + [line])
    ensures MemScan(lines + [line], c) == MemStep(MemScan(lines, c), line)
  {
    StrictSnoc(lines, line, MemTotalKey);
    StrictSnoc(lines, line, MemFreeKey);
    StrictSnoc(lines, line, BuffersKey);
    StrictSnoc(lines, line, CachedKey);
    LastValueSnoc(lines, line, MemTotalKey, c.total);
    LastValueSnoc(lines, line, MemFreeKey, c.free);
    LastValueSnoc(lines, line, BuffersKey, c.buffers);
    LastValueSnoc(lines, line, CachedKey, c.cached);
    MeminfoKeysDistinct(line);
  }

  /** A key without a line leaves its counter at 0. */
  lemma AbsentKeyIsZero(meminfo: string, key: string)
    requires MeminfoLinesStrict(Lines(meminfo))
    requires forall i :: 0 <= i < |Lines(meminfo)| ==> !StartsWith(Lines(meminfo)[i], key)
    ensures key == MemTotalKey ==> Counters(meminfo).total == 0
    ensures key == MemFreeKey ==> Counters(meminfo).free == 0
    ensures key == BuffersKey ==> Counters(meminfo).buffers == 0
    ensures key == CachedKey ==> Counters(meminfo).cached == 0
  {
    AbsentKeyKeepsDefault(Lines(meminfo), key, 0);
  }

  /** A line that starts with none of the four keys changes no counter. */
  lemma OtherLineIgnored(lines: seq<string>, line: string, c: MemCounters)
    requires MeminfoLinesStrict(lines)
    requires !StartsWith(line, MemTotalKey) && !StartsWith(line, MemFreeKey)
    requires !StartsWith(line, BuffersKey) && !StartsWith(line, CachedKey)
    ensures MeminfoLinesStrict(lines + [line])
    ensures MemScan(lines + [line], c) == MemScan(lines, c)
  {
    StrictSnoc(lines, line, MemTotalKey);
    StrictSnoc(lines, line, MemFreeKey);
    StrictSnoc(lines, line, BuffersKey);
    StrictSnoc(lines, line, CachedKey);
    LastValueSnocOther(lines, line, MemTotalKey, c.total);
    LastValueSnocOther(lines, line, MemFreeKey, c.free);
    LastValueSnocOther(lines, line, BuffersKey, c.buffers);
    LastValueSnocOther(lines, line, CachedKey, c.cached);
  }

  const SwapCachedKey: string := "SwapCached:"
  const MemAvailableKey: string := "MemAvailable:"

  /** The prefix test is not fooled by `SwapCached:`, which ends in `Cached:`. */
  lemma SwapCachedIgnored(lines: seq<string>, gap: string, v: U64, c: MemCounters)
    requires MeminfoLinesStrict(lines) && Padding(gap)
    ensures MeminfoLinesStrict(lines + [KeyLine(SwapCachedKey, gap, v)])
    ensures MemScan(lines + [KeyLine(SwapCachedKey, gap, v)], c) == MemScan(lines, c)
  {
    var line := KeyLine(SwapCachedKey, gap, v);
    VisibleIsWord(SwapCachedKey);
    KeyLineFacts(SwapCachedKey, gap, v);
    DistinctKeys(line, SwapCachedKey, MemTotalKey, 0);
    DistinctKeys(line, SwapCachedKey, MemFreeKey, 0);
    DistinctKeys(line, SwapCachedKey, BuffersKey, 0);
    DistinctKeys(line, SwapCachedKey, CachedKey, 0);
    OtherLineIgnored(lines, line, c);
  }

  /** Nor by `MemAvailable:`, which shares `Mem` with two of the keys. */
  lemma MemAvailableIgnored(lines: seq<string>, gap: string, v: U64, c: MemCounters)
    requires MeminfoLinesStrict(lines) && Padding(gap)
    ensures MeminfoLinesStrict(lines + [KeyLine(MemAvailableKey, gap, v)])
    ensures MemScan(lines + [KeyLine(MemAvailableKey, gap, v)], c) == MemScan(lines, c)
  {
    var line := KeyLine(MemAvailableKey, gap, v);
    VisibleIsWord(MemAvailableKey);
    KeyLineFacts(MemAvailableKey, gap, v);
    DistinctKeys(line, MemAvailableKey, MemTotalKey, 3);
    DistinctKeys(line, MemAvailableKey, MemFreeKey, 3);
    DistinctKeys(line, MemAvailableKey, BuffersKey, 0);
    DistinctKeys(line, MemAvailableKey, CachedKey, 0);
    OtherLineIgnored(lines, line, c);
  }

  // ---------------------------------------------------------------------
  // Selecting processes in /proc
  // ---------------------------------------------------------------------

  /** A process directory, named by its pid in decimal, is selected as that pid. */
  lemma PidOfDecimalEntry(p: U32)
    ensures PidOfEntry(Some(Decimal(p))) == Some(p)
  {
    ParseDecimalU32(p);
  }

  /** Entries that are not process directories, or whose names are not valid
      Unicode, are skipped. */
  lemma OtherEntriesSkipped()
    ensures PidOfEntry(Some("self")) == None
    ensures PidOfEntry(Some("meminfo")) == None
    ensures PidOfEntry(Some("")) == None
    ensures PidOfEntry(None) == None
  {
    ParseRejectsNonDigit("self", 0, U32_LIMIT);
    ParseRejectsNonDigit("meminfo", 0, U32_LIMIT);
  }

  /** `parse::<u32>()` accepts a leading `+`, so `+<pid>` selects the pid too. */
  lemma PlusSignedEntry(p: U32)
    ensures PidOfEntry(Some("+" + Decimal(p))) == Some(p)
  {
    assert ("+" + Decimal(p))[1..] == Decimal(p);
    DecimalValue(p);
  }

  /** A number beyond `u32` names no process. */
  lemma OutOfRangeEntry(n: nat)
    requires n >= U32_LIMIT
    ensures PidOfEntry(Some(Decimal(n))) == None
  {
    DecimalValue(n);
  }

  // ---------------------------------------------------------------------
  // stats
  // ---------------------------------------------------------------------

  /** `stats --refresh <n>` repeats every `n` seconds when `n` is positive and
      runs once for `n = 0`; plain `stats` runs once. */
  lemma StatsModeOfInput(v: U64)
    ensures var c := Parse(Unparse(SystemStats(Some(v)))).command;
      c.SystemStats? && StatsModeOf(c.refreshInterval) == (if v > 0 then Every(v) else Once)
    ensures var c := Parse(Unparse(SystemStats(None))).command;
      c.SystemStats? && StatsModeOf(c.refreshInterval) == Once
  {
    ParseUnparse(SystemStats(Some(v)));
    ParseUnparse(SystemStats(None));
  }

  // ---------------------------------------------------------------------
  // kill
  // ---------------------------------------------------------------------

  /** `kill 4294967295` and `kill 0` are accepted by the parser, and the cast
      turns them into "every process" and "my own process group". */
  lemma KillMisfiresFromInput()
    ensures var c := Parse(Unparse(KillProcess(0xFFFF_FFFF, None))).command;
      c.KillProcess? && c.pid == 0xFFFF_FFFF && KillScopeAsWritten(c.pid) == EveryProcess
    ensures var c := Parse(Unparse(KillProcess(0, None))).command;
      c.KillProcess? && c.pid == 0 && KillScopeAsWritten(c.pid) == OwnGroup
  {
    ParseUnparse(KillProcess(0xFFFF_FFFF, None));
    ParseUnparse(KillProcess(0, None));
    KillScopeAsWrittenMisfires();
  }

  /** The corrected `kill`, from the input line on: it signals exactly the
      named process with the named signal, or refuses. */
  lemma KillRequestOfInput(pid: U32, signal: Option<string>)
    requires signal.Some? ==> IsWord(signal.value)
    ensures var c := Parse(Unparse(KillProcess(pid, signal))).command;
      && c.KillProcess?
      && var r := KillRequestFor(c.pid, c.signal);
         && (r.Success? <==> 0 < pid < I32_LIMIT)
         && (r.Success? ==> ScopeOf(r.value.target) == OneProcess(pid))
         && (r.Success? ==> (r.value.signal == SIGKILL <==> signal == Some("SIGKILL")))
  {
    ParseUnparse(KillProcess(pid, signal));
  }
}
