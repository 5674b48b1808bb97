/** Text files of `key: value` lines, as `/proc/<pid>/status`, `/proc/<pid>/io`
    and `/proc/meminfo` are read: a line is selected by the prefix it starts
    with, and its value is its second whitespace-separated word read as `u64`. */
module KeyedLines {
  import opened Outcomes
  import opened Strings
  import opened Numbers

  /** The line has a second word (indexing `parts[1]` does not panic). */
  predicate HasValue(line: string) {
    |Words(line)| >= 2
  }

  /** `parts[1].parse::<u64>().unwrap_or(0)`. */
  function LineValue(line: string): U64
    requires HasValue(line)
  {
    U64OrZero(Words(line)[1])
  }

  /** The padding the kernel puts between the fields of a line: a non-empty
      run of whitespace (spaces, tabs) that stays within the line. */
  predicate Padding(g: string) {
    |g| > 0 && AllSpace(g) && '\n' !in g
  }

  /** A line laid out as the kernel writes it, `key`, padding, the count,
      then nothing or a whitespace-led unit such as ` kB`, carries the count
      as its value, however wide the padding. */
  lemma PaddedLineValue(key: string, gap: string, v: U64, unit: string)
    requires IsWord(key) && Padding(gap)
    requires unit == [] || unit[0] in WhiteSpace
    ensures var line := key + gap + Decimal(v) + unit;
      && StartsWith(line, key) && HasValue(line)
      && ParseU64(Words(line)[1]) == Some(v) && LineValue(line) == v
  {
    var d := Decimal(v);
    var line := key + gap + d + unit;
    DecimalIsOneWord(v);
    assert line == key + gap + (d + unit);
    WordsSplit(key, gap, d + unit);
    WordsOfWordThen(key, []);
    assert key + [] == key;
    WordsOfWordThen(d, unit);
    assert Words(line) == [key] + ([d] + Words(unit));
    ParseDecimalU64(v);
    assert line[..|key|] == key;
  }

  /** Every line that starts with `key` has a second word. */
  predicate Valued(lines: seq<string>, key: string) {
    forall i :: 0 <= i < |lines| && StartsWith(lines[i], key) ==> HasValue(lines[i])
  }

  /** Index of the first line that starts with `key`, or `|lines|` if none does. */
  function FirstWith(lines: seq<string>, key: string): (k: nat)
    ensures k <= |lines|
    ensures forall j :: 0 <= j < k ==> !StartsWith(lines[j], key)
    ensures k < |lines| ==> StartsWith(lines[k], key)
  {
    if |lines| == 0 || StartsWith(lines[0], key) then 0
    else 1 + FirstWith(lines[1..], key)
  }

  /** Index of the last line that starts with `key`, or `|lines|` if none does. */
  function LastWith(lines: seq<string>, key: string): (k: nat)
    ensures k <= |lines|
    ensures k < |lines| ==> StartsWith(lines[k], key)
    ensures forall j :: k < j < |lines| ==> !StartsWith(lines[j], key)
    ensures k == |lines| ==> forall j :: 0 <= j < |lines| ==> !StartsWith(lines[j], key)
  {
    if |lines| == 0 then 0
    else if StartsWith(lines[|lines| - 1], key) then |lines| - 1
    else
      var k := LastWith(lines[..|lines| - 1], key);
      if k == |lines| - 1 then |lines| else k
  }

  /** Reference definition of a "last match wins" scan: the value of the last
      line starting with `key`, or `default` when there is none. */
  function LastValue(lines: seq<string>, key: string, default: U64): U64
    requires Valued(lines, key)
  {
    var k := LastWith(lines, key);
    if k < |lines| then LineValue(lines[k]) else default
  }

  /** The value of the first line starting with `key`, or 0 when there is none. */
  function FirstValue(lines: seq<string>, key: string): U64
    requires FirstWith(lines, key) < |lines| ==> HasValue(lines[FirstWith(lines, key)])
  {
    var k := FirstWith(lines, key);
    if k < |lines| then LineValue(lines[k]) else 0
  }

  /** What one line does to a "last match wins" variable. */
  function Assign(line: string, key: string, current: U64): U64
    requires StartsWith(line, key) ==> HasValue(line)
  {
    if StartsWith(line, key) then LineValue(line) else current
  }

  /** Scanning the first line and then the rest is the same as scanning all:
      a "last match wins" scan can be run front to back. */
  lemma LastValueCons(lines: seq<string>, key: string, default: U64)
    requires |lines| > 0 && Valued(lines, key)
    ensures Valued(lines[1..], key)
    ensures LastValue(lines, key, default) ==
            LastValue(lines[1..], key, Assign(lines[0], key, default))
  {
    var tail := lines[1..];
    assert forall i :: 0 <= i < |tail| ==> tail[i] == lines[i + 1];
    var k, kt := LastWith(lines, key), LastWith(tail, key);
    if kt < |tail| {
      // the last match lies in the tail, and nothing after it matches
      assert StartsWith(lines[kt + 1], key);
      assert k == kt + 1;
    } else if StartsWith(lines[0], key) {
      assert k == 0;
    } else {
      assert k == |lines|;
    }
  }

  /** Keys that disagree within their common length never select the same line. */
  lemma DistinctKeys(line: string, a: string, b: string, i: nat)
    requires i < |a| && i < |b| && a[i] != b[i]
    ensures !(StartsWith(line, a) && StartsWith(line, b))
  {
    if StartsWith(line, a) {
      assert line[i] == a[i];
      assert |b| <= |line| ==> line[..|b|][i] != b[i];
    }
  }

  /** The last line carrying `key` decides, whatever precedes it. */
  lemma LastLineWins(before: seq<string>, line: string, after: seq<string>, key: string, default: U64)
    requires StartsWith(line, key) && Valued(before + [line] + after, key)
    requires forall i :: 0 <= i < |after| ==> !StartsWith(after[i], key)
    ensures HasValue(line)
    ensures LastValue(before + [line] + after, key, default) == LineValue(line)
  {
    var lines := before + [line] + after;
    assert lines[|before|] == line;
    assert forall i :: |before| < i < |lines| ==> lines[i] == after[i - |before| - 1];
    assert LastWith(lines, key) == |before|;
  }

  /** Without a line carrying `key` the default stands. */
  lemma AbsentKeyKeepsDefault(lines: seq<string>, key: string, default: U64)
    requires forall i :: 0 <= i < |lines| ==> !StartsWith(lines[i], key)
    ensures Valued(lines, key)
    ensures LastValue(lines, key, default) == default
    ensures FirstValue(lines, key) == 0
  {
  }

  /** The first line carrying `key` decides, whatever follows it. */
  lemma FirstLineWins(before: seq<string>, line: string, after: seq<string>, key: string)
    requires forall i :: 0 <= i < |before| ==> !StartsWith(before[i], key)
    requires StartsWith(line, key) && HasValue(line)
    ensures FirstWith(before + [line] + after, key) == |before|
    ensures FirstValue(before + [line] + after, key) == LineValue(line)
  {
    var lines := before + [line] + after;
    assert lines[|before|] == line;
    assert forall i :: 0 <= i < |before| ==> lines[i] == before[i];
  }

  /** A line that does not carry `key` leaves a "last match wins" scan alone. */
  lemma LastValueSnocOther(lines: seq<string>, line: string, key: string, default: U64)
    requires Valued(lines, key) && !StartsWith(line, key)
    ensures Valued(lines + [line], key)
    ensures LastValue(lines + [line], key, default) == LastValue(lines, key, default)
  {
    var ext := lines + [line];
    assert ext[..|lines|] == lines;
    assert forall i :: 0 <= i < |lines| ==> ext[i] == lines[i];
  }

  /** A "last match wins" scan over one more line is `Assign` applied to the
      scan before it. */
  lemma LastValueSnoc(lines: seq<string>, line: string, key: string, default: U64)
    requires Valued(lines, key) && (StartsWith(line, key) ==> HasValue(line))
    ensures Valued(lines + [line], key)
    ensures LastValue(lines + [line], key, default) == Assign(line, key, LastValue(lines, key, default))
  {
    if StartsWith(line, key) {
      var ext := lines + [line];
      assert forall i :: 0 <= i < |lines| ==> ext[i] == lines[i];
      assert ext == lines + [line] + [];
      LastLineWins(lines, line, [], key, default);
    } else {
      LastValueSnocOther(lines, line, key, default);
    }
  }

  /** The line at `i` decides when no later line carries `key`. */
  lemma LastValueAt(lines: seq<string>, i: nat, key: string, default: U64)
    requires i < |lines| && StartsWith(lines[i], key) && Valued(lines, key)
    requires forall j :: i < j < |lines| ==> !StartsWith(lines[j], key)
    ensures HasValue(lines[i])
    ensures LastValue(lines, key, default) == LineValue(lines[i])
  {
    var before, after := lines[..i], lines[i + 1..];
    assert lines == before + [lines[i]] + after;
    assert forall j :: 0 <= j < |after| ==> after[j] == lines[i + 1 + j];
    LastLineWins(before, lines[i], after, key, default);
  }
}
