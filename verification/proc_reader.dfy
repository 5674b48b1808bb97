/** One process's record (`src/proc_reader.rs`), built from the contents of
    `/proc/<pid>/stat`, `/proc/<pid>/status` and `/proc/<pid>/io`. Each content
    is an `Option<string>`: `None` stands for a read that failed. The readers
    panic on malformed contents; those cases are excluded by preconditions. */
module ProcReader {
  import opened Outcomes
  import opened Strings
  import opened Numbers
  import opened KeyedLines

  datatype ProcessMetrics = ProcessMetrics(
    pid: U32,
    comm: string,
    user: string,
    cpuTime: U64,
    memUsage: U64,
    ioReadBytes: U64,
    ioWriteBytes: U64)

  /** The file whose read failed. */
  datatype ProcFile = StatFile | StatusFile | IoFile

  /** The `io::Error` a failed `fs::read_to_string` produces. */
  datatype ReadError = ReadFailed(file: ProcFile)

  /** Every record carries this placeholder instead of a real owner. */
  const PlaceholderUser: string := "user"

  const VmRssKey: string := "VmRSS:"
  const ReadBytesKey: string := "read_bytes:"
  const WriteBytesKey: string := "write_bytes:"

  /** Whitespace-token positions in `/proc/<pid>/stat`. */
  const CommToken: nat := 1
  const UtimeToken: nat := 13
  const StimeToken: nat := 14

  // ---------------------------------------------------------------------
  // parse_stat
  // ---------------------------------------------------------------------

  /** The `u64` tick counts at tokens 13 and 14, each 0 when it does not parse. */
  function Utime(parts: seq<string>): U64
    requires |parts| > StimeToken
  {
    U64OrZero(parts[UtimeToken])
  }

  function Stime(parts: seq<string>): U64
    requires |parts| > StimeToken
  {
    U64OrZero(parts[StimeToken])
  }

  /** The stat line has the 15 tokens that are indexed, and the tick sum does
      not overflow `u64`. */
  predicate StatWellFormed(stat: string) {
    var parts := Words(stat);
    |parts| > StimeToken && Utime(parts) + Stime(parts) < U64_LIMIT
  }

  /** The command name: `(` trimmed from both ends, then `)` from both ends.
      What is left is part of the token and does not start or end with `)`;
      a token with no parenthesis at either end is kept whole. */
  function CommOf(token: string): (r: string)
    ensures |r| <= |token|
    ensures r == [] || (r[0] != ')' && r[|r| - 1] != ')')
    ensures token != [] && token[0] !in {'(', ')'} && token[|token| - 1] !in {'(', ')'} ==> r == token
  {
    var inner := TrimMatches(token, '(');
    assert token != [] && token[0] !in {'(', ')'} && token[|token| - 1] !in {'(', ')'} ==>
      TrimMatches(inner, ')') == token
    by {
      if token != [] && token[0] !in {'(', ')'} && token[|token| - 1] !in {'(', ')'} {
        assert token == [] + token + [];
        TrimSetWindow([], token, [], {'('});
        TrimSetWindow([], token, [], {')'});
      }
    }
    TrimMatches(inner, ')')
  }

  /** `parse_stat`: the command name and the raw `utime + stime` tick sum. */
  function ParseStat(stat: Option<string>): (r: Result<(string, U64), ReadError>)
    requires stat.Some? ==> StatWellFormed(stat.value)
    ensures r.Failure? <==> stat.None?
    ensures r.Failure? ==> r.error == ReadFailed(StatFile)
  {
    match stat
    case None => Failure(ReadFailed(StatFile))
    case Some(s) =>
      var parts := Words(s);
      Success((CommOf(parts[CommToken]), Utime(parts) + Stime(parts)))
  }

  // ---------------------------------------------------------------------
  // parse_status
  // ---------------------------------------------------------------------

  /** The first `VmRSS:` line, if there is one, has a second word. */
  predicate StatusLinesWellFormed(lines: seq<string>) {
    var k := FirstWith(lines, VmRssKey);
    k < |lines| ==> HasValue(lines[k])
  }

  predicate StatusWellFormed(status: string) {
    StatusLinesWellFormed(Lines(status))
  }

  /** The loop of `parse_status`, which returns at the first `VmRSS:` line. */
  function StatusScan(lines: seq<string>): (r: U64)
    requires StatusLinesWellFormed(lines)
    ensures r == FirstValue(lines, VmRssKey)
  {
    if |lines| == 0 then 0
    else if StartsWith(lines[0], VmRssKey) then LineValue(lines[0])
    else StatusScan(lines[1..])
  }

  /** `parse_status`: resident memory from the first `VmRSS:` line, else 0. */
  function ParseStatus(status: Option<string>): (r: Result<U64, ReadError>)
    requires status.Some? ==> StatusWellFormed(status.value)
    ensures r.Failure? <==> status.None?
    ensures r.Failure? ==> r.error == ReadFailed(StatusFile)
    ensures r.Success? ==> r.value == FirstValue(Lines(status.value), VmRssKey)
  {
    match status
    case None => Failure(ReadFailed(StatusFile))
    case Some(s) => Success(StatusScan(Lines(s)))
  }

  // ---------------------------------------------------------------------
  // parse_io
  // ---------------------------------------------------------------------

  predicate IoLinesWellFormed(lines: seq<string>) {
    Valued(lines, ReadBytesKey) && Valued(lines, WriteBytesKey)
  }

  predicate IoWellFormed(io: string) {
    IoLinesWellFormed(Lines(io))
  }

  /** The loop of `parse_io` from the variables' current values on: a
      `read_bytes:` line sets the first, otherwise a `write_bytes:` line sets
      the second. Each ends as the value of its key's last line. */
  function IoScan(lines: seq<string>, readBytes: U64, writeBytes: U64): (r: (U64, U64))
    requires IoLinesWellFormed(lines)
    ensures r.0 == LastValue(lines, ReadBytesKey, readBytes)
    ensures r.1 == LastValue(lines, WriteBytesKey, writeBytes)
    decreases |lines|
  {
    if |lines| == 0 then (readBytes, writeBytes)
    else
      var line := lines[0];
      LastValueCons(lines, ReadBytesKey, readBytes);
      LastValueCons(lines, WriteBytesKey, writeBytes);
      DistinctKeys(line, ReadBytesKey, WriteBytesKey, 0);
      if StartsWith(line, ReadBytesKey) then IoScan(lines[1..], LineValue(line), writeBytes)
      else if StartsWith(line, WriteBytesKey) then IoScan(lines[1..], readBytes, LineValue(line))
      else IoScan(lines[1..], readBytes, writeBytes)
  }

  /** `parse_io`: bytes read and written, each from its key's last line, else 0. */
  function ParseIo(io: Option<string>): (r: Result<(U64, U64), ReadError>)
    requires io.Some? ==> IoWellFormed(io.value)
    ensures r.Failure? <==> io.None?
    ensures r.Failure? ==> r.error == ReadFailed(IoFile)
    ensures r.Success? ==>
      && r.value.0 == LastValue(Lines(io.value), ReadBytesKey, 0)
      && r.value.1 == LastValue(Lines(io.value), WriteBytesKey, 0)
  {
    match io
    case None => Failure(ReadFailed(IoFile))
    case Some(s) => Success(IoScan(Lines(s), 0, 0))
  }

  // ---------------------------------------------------------------------
  // get_process_metrics
  // ---------------------------------------------------------------------

  /** The first file, in reading order, whose read failed. */
  function FirstFailure(stat: Option<string>, status: Option<string>, io: Option<string>): ProcFile {
    if stat.None? then StatFile else if status.None? then StatusFile else IoFile
  }

  /** `get_process_metrics`: the three readers in order, the first failed
      read aborting the record. A content is only parsed once every earlier
      read has succeeded, so only then must it be well formed. */
  function GetProcessMetrics(pid: U32, stat: Option<string>, status: Option<string>, io: Option<string>)
    : (r: Result<ProcessMetrics, ReadError>)
    requires stat.Some? ==> StatWellFormed(stat.value)
    requires stat.Some? && status.Some? ==> StatusWellFormed(status.value)
    requires stat.Some? && status.Some? && io.Some? ==> IoWellFormed(io.value)
    ensures r.Failure? <==> stat.None? || status.None? || io.None?
    ensures r.Failure? ==> r.error == ReadFailed(FirstFailure(stat, status, io))
    ensures r.Success? ==>
      && r.value.pid == pid
      && r.value.user == PlaceholderUser
      && ParseStat(stat) == Success((r.value.comm, r.value.cpuTime))
      && ParseStatus(status) == Success(r.value.memUsage)
      && ParseIo(io) == Success((r.value.ioReadBytes, r.value.ioWriteBytes))
  {
    var st :- ParseStat(stat);
    var mem :- ParseStatus(status);
    var rw :- ParseIo(io);
    Success(ProcessMetrics(pid, st.0, PlaceholderUser, st.1, mem, rw.0, rw.1))
  }
}
