/** Properties of the per-process readers: a stat line written from known
    fields reads back as those fields, a process name with a space in it
    shifts every later token, and the `VmRSS:` / `read_bytes:` /
    `write_bytes:` lookups pick the first and the last matching line. */
module ProcReaderProperties {
  import opened Outcomes
  import opened Strings
  import opened Numbers
  import opened KeyedLines
  import opened ProcReader

  // ---------------------------------------------------------------------
  // The stat line
  // ---------------------------------------------------------------------

  /** A process name that survives the parenthesis trimming: no whitespace,
      and no parenthesis at either end. */
  predicate PlainName(comm: string) {
    && (forall i :: 0 <= i < |comm| ==> comm[i] !in WhiteSpace)
    && (comm == [] || (comm[0] !in {'(', ')'} && comm[|comm| - 1] !in {'(', ')'}))
  }

  /** The tokens of a stat line: pid, `(name)`, eleven fields, the user and
      system tick counts, then anything else. */
  function StatWords(pid: U32, comm: string, middle: seq<string>, utime: U64, stime: U64, rest: seq<string>)
    : seq<string>
  {
    [Decimal(pid), "(" + comm + ")"] + middle + [Decimal(utime), Decimal(stime)] + rest
  }

  lemma CommOfParenthesised(comm: string)
    requires PlainName(comm)
    ensures CommOf("(" + comm + ")") == comm
  {
    assert "(" + comm + ")" == "(" + (comm + ")") + [];
    TrimSetWindow("(", comm + ")", [], {'('});
    assert comm + ")" == [] + comm + ")";
    TrimSetWindow([], comm, ")", {')'});
  }

  lemma StatWordsAreWords(pid: U32, comm: string, middle: seq<string>, utime: U64, stime: U64, rest: seq<string>)
    requires PlainName(comm) && AllWords(middle) && AllWords(rest)
    ensures AllWords(StatWords(pid, comm, middle, utime, stime, rest))
  {
    var head := [Decimal(pid), "(" + comm + ")"];
    var ticks := [Decimal(utime), Decimal(stime)];
    DecimalIsOneWord(pid);
    DecimalIsOneWord(utime);
    DecimalIsOneWord(stime);
    var p := "(" + comm + ")";
    assert IsWord(p) by {
      assert forall j :: 0 < j < |p| - 1 ==> p[j] == comm[j - 1];
    }
    assert AllWords(head) && AllWords(ticks);
    AllWordsConcat(head, middle);
    AllWordsConcat(head + middle, ticks);
    AllWordsConcat(head + middle + ticks, rest);
  }

  /** What `parse_stat` reads from a line, in terms of the line's words. */
  lemma ParseStatOfSplit(line: string, ws: seq<string>)
    requires Words(line) == ws && |ws| > StimeToken
    requires U64OrZero(ws[UtimeToken]) + U64OrZero(ws[StimeToken]) < U64_LIMIT
    ensures StatWellFormed(line)
    ensures ParseStat(Some(line)).Success?
    ensures ParseStat(Some(line)).value.0 == CommOf(ws[CommToken])
    ensures ParseStat(Some(line)).value.1 == U64OrZero(ws[UtimeToken]) + U64OrZero(ws[StimeToken])
  {
  }

  /** A stat line made of words is split back into those words. */
  lemma ParseStatOfWords(ws: seq<string>)
    requires AllWords(ws) && |ws| > StimeToken
    requires U64OrZero(ws[UtimeToken]) + U64OrZero(ws[StimeToken]) < U64_LIMIT
    ensures var line := Join(ws, " ");
      && StatWellFormed(line)
      && ParseStat(Some(line)).Success?
      && ParseStat(Some(line)).value.0 == CommOf(ws[CommToken])
      && ParseStat(Some(line)).value.1 == U64OrZero(ws[UtimeToken]) + U64OrZero(ws[StimeToken])
  {
    WordsOfJoin(ws);
    ParseStatOfSplit(Join(ws, " "), ws);
  }

  lemma StatWordsAt(pid: U32, comm: string, middle: seq<string>, utime: U64, stime: U64, rest: seq<string>)
    requires |middle| == 11
    ensures var ws := StatWords(pid, comm, middle, utime, stime, rest);
      && |ws| > StimeToken
      && ws[CommToken] == "(" + comm + ")"
      && ws[UtimeToken] == Decimal(utime)
      && ws[StimeToken] == Decimal(stime)
  {
  }

  /** A stat line written from a name and tick counts reads back as the name
      and the sum of the ticks. */
  lemma ParseStatLine(pid: U32, comm: string, middle: seq<string>, utime: U64, stime: U64, rest: seq<string>)
    requires PlainName(comm) && |middle| == 11 && AllWords(middle) && AllWords(rest)
    requires utime + stime < U64_LIMIT
    ensures var line := Join(StatWords(pid, comm, middle, utime, stime, rest), " ");
      && StatWellFormed(line)
      && ParseStat(Some(line)).Success?
      && ParseStat(Some(line)).value.0 == comm
      && ParseStat(Some(line)).value.1 == utime + stime
  {
    var ws := StatWords(pid, comm, middle, utime, stime, rest);
    StatWordsAreWords(pid, comm, middle, utime, stime, rest);
    StatWordsAt(pid, comm, middle, utime, stime, rest);
    U64OrZeroDecimal(utime);
    U64OrZeroDecimal(stime);
    CommOfParenthesised(comm);
    ParseStatOfWords(ws);
  }

  lemma CommOfOpenOnly(first: string)
    requires PlainName(first) && first != []
    ensures CommOf("(" + first) == first
  {
    assert "(" + first == "(" + first + [];
    TrimSetWindow("(", first, [], {'('});
    assert first == [] + first + [];
    TrimSetWindow([], first, [], {')'});
  }

  /** A name with a space in it is cut at the space, and every later token
      moves one place along: the ticks are then read from the tokens that a
      single-word name would have put at positions 12 and 13. */
  lemma StatNameWithSpace(pid: U32, first: string, second: string, fields: seq<string>)
    requires PlainName(first) && first != []
    requires IsWord(second + ")") && |fields| >= 12 && AllWords(fields)
    requires U64OrZero(fields[10]) + U64OrZero(fields[11]) < U64_LIMIT
    ensures var line := Join([Decimal(pid), "(" + first, second + ")"] + fields, " ");
      && StatWellFormed(line)
      && ParseStat(Some(line)).Success?
      && ParseStat(Some(line)).value.0 == first
      && ParseStat(Some(line)).value.1 == U64OrZero(fields[10]) + U64OrZero(fields[11])
  {
    var p := "(" + first;
    var head := [Decimal(pid), p, second + ")"];
    var ws := head + fields;
    DecimalIsOneWord(pid);
    assert IsWord(p) by {
      assert forall j :: 0 < j < |p| ==> p[j] == first[j - 1];
    }
    assert AllWords(head);
    AllWordsConcat(head, fields);
    assert ws[CommToken] == p && ws[UtimeToken] == fields[10] && ws[StimeToken] == fields[11];
    ParseStatOfWords(ws);
    CommOfOpenOnly(first);
  }

  // ---------------------------------------------------------------------
  // status and io
  // ---------------------------------------------------------------------

  /** Lines that `Lines` gives back unchanged once joined by line feeds. */
  predicate PlainLines(ls: seq<string>) {
    && (forall k :: 0 <= k < |ls| ==> '\n' !in ls[k])
    && (|ls| > 0 ==> ls[|ls| - 1] != [])
  }

  /** Only the first `VmRSS:` line counts; a later one is never looked at,
      not even to check that it has a value. */
  lemma StatusFirstLineWins(before: seq<string>, line: string, after: seq<string>)
    requires PlainLines(before + [line] + after)
    requires forall i :: 0 <= i < |before| ==> !StartsWith(before[i], VmRssKey)
    requires StartsWith(line, VmRssKey) && HasValue(line)
    ensures var status := Join(before + [line] + after, "\n");
      StatusWellFormed(status) && ParseStatus(Some(status)) == Success(LineValue(line))
  {
    LinesOfJoin(before + [line] + after);
    FirstLineWins(before, line, after, VmRssKey);
  }

  /** The kernel writes `VmRSS:`, a tab and spaces, the count and ` kB`; the
      count is read whatever the padding. */
  lemma StatusPaddedVmRss(before: seq<string>, gap: string, v: U64, after: seq<string>)
    requires Padding(gap)
    requires PlainLines(before + [VmRssKey + gap + Decimal(v) + " kB"] + after)
    requires forall i :: 0 <= i < |before| ==> !StartsWith(before[i], VmRssKey)
    ensures var status := Join(before + [VmRssKey + gap + Decimal(v) + " kB"] + after, "\n");
      StatusWellFormed(status) && ParseStatus(Some(status)) == Success(v)
  {
    var line := VmRssKey + gap + Decimal(v) + " kB";
    VisibleIsWord(VmRssKey);
    PaddedLineValue(VmRssKey, gap, v, " kB");
    StatusFirstLineWins(before, line, after);
  }

  /** Without a `VmRSS:` line the memory figure is 0, not an error. */
  lemma StatusWithoutVmRss(ls: seq<string>)
    requires PlainLines(ls)
    requires forall i :: 0 <= i < |ls| ==> !StartsWith(ls[i], VmRssKey)
    ensures StatusWellFormed(Join(ls, "\n")) && ParseStatus(Some(Join(ls, "\n"))) == Success(0)
  {
    LinesOfJoin(ls);
    AbsentKeyKeepsDefault(ls, VmRssKey, 0);
  }

  /** `parse_io` on lines joined by line feeds reads each key's last line. */
  lemma ParseIoOfLines(ls: seq<string>)
    requires PlainLines(ls) && IoLinesWellFormed(ls)
    ensures var io := Join(ls, "\n");
      && IoWellFormed(io)
      && ParseIo(Some(io)).Success?
      && ParseIo(Some(io)).value.0 == LastValue(ls, ReadBytesKey, 0)
      && ParseIo(Some(io)).value.1 == LastValue(ls, WriteBytesKey, 0)
  {
    LinesOfJoin(ls);
  }

  /** The last `read_bytes:` line sets the read count, and lines of either
      key never disturb the other count. */
  lemma IoReadLastLineWins(before: seq<string>, line: string, after: seq<string>)
    requires PlainLines(before + [line] + after) && IoLinesWellFormed(before + [line] + after)
    requires StartsWith(line, ReadBytesKey) && HasValue(line)
    requires forall i :: 0 <= i < |after| ==> !StartsWith(after[i], ReadBytesKey)
    ensures var io := Join(before + [line] + after, "\n");
      && IoWellFormed(io)
      && ParseIo(Some(io)).value.0 == LineValue(line)
      && ParseIo(Some(io)).value.1 == LastValue(before + [line] + after, WriteBytesKey, 0)
  {
    var ls := before + [line] + after;
    ParseIoOfLines(ls);
    LastLineWins(before, line, after, ReadBytesKey, 0);
  }

  lemma IoWriteLastLineWins(before: seq<string>, line: string, after: seq<string>)
    requires PlainLines(before + [line] + after) && IoLinesWellFormed(before + [line] + after)
    requires StartsWith(line, WriteBytesKey) && HasValue(line)
    requires forall i :: 0 <= i < |after| ==> !StartsWith(after[i], WriteBytesKey)
    ensures var io := Join(before + [line] + after, "\n");
      && IoWellFormed(io)
      && ParseIo(Some(io)).value.1 == LineValue(line)
      && ParseIo(Some(io)).value.0 == LastValue(before + [line] + after, ReadBytesKey, 0)
  {
    var ls := before + [line] + after;
    ParseIoOfLines(ls);
    LastLineWins(before, line, after, WriteBytesKey, 0);
  }

  /** One key may be present while the other is absent: the absent one is 0. */
  lemma IoMissingKey(ls: seq<string>, key: string)
    requires PlainLines(ls) && IoWellFormed(Join(ls, "\n"))
    requires key == ReadBytesKey || key == WriteBytesKey
    requires forall i :: 0 <= i < |ls| ==> !StartsWith(ls[i], key)
    ensures var r := ParseIo(Some(Join(ls, "\n"))).value;
      (if key == ReadBytesKey then r.0 else r.1) == 0
  {
    LinesOfJoin(ls);
    AbsentKeyKeepsDefault(ls, key, 0);
  }
}
