# Linux process manager — a Dafny model of its parsing core

The process manager is an interactive shell (`lpm>`) over Linux's `/proc`. This
project models the logic behind that shell that does not depend on the
machine it runs on:

- **The command parser** (`src/parser.rs`, module `CommandParser`). A line is
  trimmed and split on whitespace. Its first word is lower-cased and looked up
  among the aliases. The remaining words go to one of the sub-parsers for
  `ps`/`list`, `kill`, `info`/`show`, `stats`/`status` and `search`/`find`.
  `monitor`, `help` and `exit`/`quit` are handled inline, and any other word
  gives `Unknown`. `ParserProperties` proves:
  - how the `list` flag loop composes;
  - that only the lower-cased command word matters;
  - that every command except `Unknown` comes back from its canonical
    spelling (`ParseUnparse`).

  `ParserExamples` restates the three unit tests of `src/parser.rs` as lemmas.
- **The per-process readers** (`src/proc_reader.rs`, module `ProcReader`).
  `parse_stat`, `parse_status`, `parse_io` and `get_process_metrics` work on the
  contents of `/proc/<pid>/stat`, `status` and `io`. Each content is an
  `Option<string>`, and `None` is a read that failed.
  - `KeyedLines` holds the "line starting with a key, second word as `u64`"
    lookups shared with `/proc/meminfo`. It gives reference definitions for
    "first match" and "last match wins".
  - `ProcReaderProperties` proves that a stat line written from a name and
    two tick counts reads back as that name and the sum of the two counts
    (`utime + stime`).
  - A process name containing a space shifts every later token.
  - `VmRSS:` takes its first line, and `read_bytes:`/`write_bytes:` each take
    their last line.
- **The pure pieces of the front end** (`src/main.rs`, module `Manager`):
  - `get_memory_stats` over the text of `/proc/meminfo`;
  - the rule that a `/proc` entry is a process when its name parses as `u32`;
  - the listing of the records of those processes, over a snapshot of `/proc`
    given as a map from pid to the three file contents;
  - `info`;
  - the signal chosen by `kill` and the pid actually handed to `kill(2)`;
  - whether `stats` runs once or repeats.

  `ManagerProperties` proves that a `/proc/meminfo` written from four counters
  reads back as those counters. It also covers keys that are absent or
  repeated and keys such as `SwapCached:` that only look similar. Finally it
  shows how `kill` misbehaves on pids outside the `i32` range.

Supporting modules:
- `Outcomes`: `Option`, and `Result` for `io::Result`.
- `Strings`: `trim`, `trim_matches`, `split_whitespace`, `lines`, `join` and
  ASCII `to_lowercase`, with their round trips.
- `Numbers`: `u32`/`u64` as bounded naturals, `str::parse` and decimal
  rendering.

Rust's behaviour is modelled where the code relies on it:
- `str::parse::<u32>()` and `str::parse::<u64>()` accept one optional leading
  `+`, then digits only, and refuse values that do not fit.
- `split_whitespace` splits on the Unicode White_Space characters.
- `lines` splits on line feeds and does not open an empty last line after a
  final line feed.
- A panic of the source (`unwrap` on a malformed meminfo line, indexing past
  the tokens of a stat line) becomes a precondition of the member that would
  panic. So does `u64` overflow or underflow, which panics in debug builds and
  wraps around in release builds.

What the code computes, stated plainly:
- The process name is the second whitespace token of the stat line with
  parentheses trimmed from both ends (`src/proc_reader.rs:26`), so a name
  containing a space is cut at the space.
- `cpu_time` is the raw sum of the `utime` and `stime` ticks
  (`src/proc_reader.rs:27-30`). The comment at `src/main.rs:62` calls it
  `%CPU`, but no division by elapsed time or clock rate takes place.
- A failed read of `stat`, `status` or `io` aborts the whole record, since
  `get_process_metrics` propagates each error with `?`
  (`src/proc_reader.rs:65-82`).

## Model

| member | source | states |
|---|---|---|
| CommandParser.Parse | src/parser.rs:46-91 | A line is answered with `Help` and an empty raw input exactly when it is blank, i.e. made only of whitespace |
| CommandParser.Dispatch | src/parser.rs:58-89 | Each alias group's verb builds its own kind of command: both ways for `help`, `exit`/`quit`, `monitor`, `ps`/`list` and `stats`/`status`, while only `kill`, `info`/`show` and `search`/`find` can give their commands (whose errors are `Unknown`). The catch-all verb gives `Unknown` of the trimmed line. Raw input is the joined arguments for the five sub-parsed commands and the trimmed line otherwise |
| CommandParser.AnyIn | src/parser.rs:173 | `args.iter().any(..)`: true exactly when some argument belongs to the flag set |
| CommandParser.ParseList | src/parser.rs:93-123 | `ps`/`list` always yields `ListProcesses`, with the argument words re-joined by single spaces as raw input |
| CommandParser.ScanListSources | src/parser.rs:98-117 | The `while` loop over the list arguments (`ScanList`) sets `all` only from a starting `all` or some `-a`/`--all` argument and never clears it, and `user` and `sort_by` end either as they started or as the word right after some `-u`/`--user`, respectively `-s`/`--sort` |
| CommandParser.ParseKill | src/parser.rs:125-153 | No argument gives `Unknown("kill: missing PID")`. A first word that is not a `u32` gives `Unknown("kill: invalid PID '<word>'")`. Otherwise the result is `KillProcess` with that pid, carrying a signal exactly when a second word exists, and that word is the signal |
| CommandParser.ParseInfo | src/parser.rs:155-179 | The same missing/invalid PID errors as `kill`. On success, `detailed` holds exactly when some argument, the pid included, is `-d` or `--detailed` |
| CommandParser.LastRefreshMeans | src/parser.rs:184-197 | Reference definition of the refresh interval. It is absent exactly when no position supplies one. Otherwise it is the interval of a position after which no position supplies one |
| CommandParser.ScanStats | src/parser.rs:184-197 | Once an interval is set the loop keeps one, and the final interval is either the starting one or the one supplied at some position of the arguments |
| CommandParser.ScanStatsIsLastRefresh | src/parser.rs:184-197 | The `for` loop over the stats arguments ends with the last interval supplied by `--refresh=N` or `--refresh N`, where `N` must parse as `u64`, and agrees with the reference definition |
| CommandParser.ParseStats | src/parser.rs:181-203 | `stats` yields `SystemStats` carrying the last supplied interval; an unparseable value leaves the previous one |
| CommandParser.ParseSearch | src/parser.rs:205-220 | No argument gives `Unknown("search: missing process name")`. Otherwise the name is the first word, and `exact` holds exactly when some word, the name included, is `-e` or `--exact` |
| CommandParser.MonitorInterval | src/parser.rs:64-72 | The `monitor` interval is the first argument when it parses as `u64`, and 2 otherwise or when there is no argument |
| ParserProperties.ScanListShift | src/parser.rs:98-117 | Scanning the tail of `a + b` from inside `b` is scanning `b` alone |
| ParserProperties.ScanListAppend | src/parser.rs:98-117 | Unless `a` ends on a value-less `-u`/`-s`, the flag loop over `a + b` is the loop over `b` started from the options `a` left |
| ParserProperties.LaterValueFlagWins | src/parser.rs:102-113 | A later `-u X` or `-s X` overwrites the field it names and leaves the other fields as they were |
| ParserProperties.TrailingValueFlagIgnored | src/parser.rs:102-113 | A final `-u`/`-s` with no value after it changes nothing |
| ParserProperties.UnknownWordIgnored | src/parser.rs:114 | A word that is not a list flag, in flag position, is skipped |
| ParserProperties.AllStaysSet | src/parser.rs:101 | Once `all` is set, nothing later clears it |
| ParserProperties.AllFlagSetsAll | src/parser.rs:101 | An `-a`/`--all` in flag position sets `all`, whatever follows it |
| ParserProperties.AllNeedsFlag | src/parser.rs:99-117 | Conversely, `all` ends set only if it started set or some argument is `-a`/`--all` |
| ParserProperties.NoFlagsNoChange | src/parser.rs:99-117 | Arguments without any list flag leave the options untouched |
| ParserProperties.ListArgsScan | src/parser.rs:93-117 | The canonical flag words for given options scan back to exactly those options |
| ParserProperties.ParseDispatch | src/parser.rs:47-58 | A non-blank line is dispatched on its lower-cased first word, with the remaining words as arguments |
| ParserProperties.VerbAliases | src/parser.rs:58-89 | The alias table of `CommandParser.VerbOf`, both directions: each word selects exactly the command listed for it, and every other word selects none |
| ParserProperties.ParseAliases | src/parser.rs:58-89 | What each alias does with the argument words. `monitor`, `help` and `exit` keep the trimmed line, and any other word makes the whole trimmed line `Unknown` |
| ParserProperties.ParseRawInput | src/parser.rs:58-89 | Raw input is the joined arguments for the five sub-parsed commands and the whole trimmed line for the other four |
| ParserProperties.ParseCaseInsensitive | src/parser.rs:55-58 | Lines whose command words agree after lower-casing, and whose arguments agree, parse to the same command. The only exception is `Unknown`, which echoes its line verbatim |
| ParserProperties.DispatchIgnoresLine | src/parser.rs:58-89 | Only an unrecognised word puts the trimmed line into the command |
| ParserProperties.ParseOfWords | src/parser.rs:47-56 | Words joined by single spaces survive trimming and splitting unchanged |
| ParserProperties.DispatchKill | src/parser.rs:133-150 | A rendered pid, optionally followed by a signal word, parses to that pid and signal |
| ParserProperties.DispatchStats | src/parser.rs:184-197 | `--refresh N` for a rendered `N` parses to `N`, and no argument gives no interval |
| ParserProperties.ParseUnparseList | src/parser.rs:93-123 | The canonical spelling of a list command parses back to it |
| ParserProperties.ParseUnparseKill | src/parser.rs:125-153 | The canonical spelling of a kill command parses back to it |
| ParserProperties.ParseUnparseInfo | src/parser.rs:155-179 | The canonical spelling of an info command parses back to it |
| ParserProperties.ParseUnparseStats | src/parser.rs:181-203 | The canonical spelling of a stats command parses back to it |
| ParserProperties.ParseUnparseSearch | src/parser.rs:205-220 | The canonical spelling of a search command parses back to it |
| ParserProperties.ParseUnparseMonitor | src/parser.rs:64-77 | The canonical spelling of a monitor command parses back to it |
| ParserProperties.ParseUnparse | src/parser.rs:46-91 | Round trip: every command with a spelling (free-text fields are single words) parses back from it |
| ParserExamples.ParseHelpExample | src/parser.rs:255-259 | `help` parses to `Help` |
| ParserExamples.ParseKillLine | src/parser.rs:125-153 | `kill`, a pid word and a signal word parse to that pid and signal |
| ParserExamples.ParseKillExample | src/parser.rs:242-252 | `kill 1234 SIGTERM` parses to pid 1234 with signal `SIGTERM` |
| ParserExamples.ParseListLine | src/parser.rs:98-117 | An all flag, a user flag with a value and a sort flag with a value set all three options |
| ParserExamples.ParseListExample | src/parser.rs:228-239 | `ps -a -u root --sort cpu` sets `all`, user `root` and sort `cpu` |
| Strings.Words | src/parser.rs:55 | `split_whitespace` yields non-empty whitespace-free words, and no words exactly for a blank text; its contents are fixed by `WordsSplit` and `WordsOfInterleave` |
| Strings.WordsOfJoin | src/parser.rs:55 | Splitting words joined by single spaces gives the words back |
| Strings.WordsSplit | src/parser.rs:55 | Any non-empty run of whitespace, of any characters and length, separates: the words of `a + gap + b` are the words of `a` followed by those of `b` |
| Strings.WordsOfInterleave | src/parser.rs:55 | Words interleaved with arbitrary whitespace runs (possibly empty at the two ends, non-empty between words) split back into exactly those words, so tabs, repeated spaces and padding are all ignored |
| Strings.JoinLength | src/parser.rs:121 | `[T]::join` (`Strings.Join`) gives nothing for no parts and the part itself for one; otherwise its length is the parts' total length plus one separator between each two neighbours |
| Strings.JoinSnoc | src/parser.rs:121 | Joining one more part appends one separator and that part, so `Strings.Join` puts exactly one `sep` between neighbouring parts |
| Strings.StartsWithChars | src/main.rs:26 | `str::starts_with` (`Strings.StartsWith`) holds exactly when the text agrees with the prefix character by character, and exactly when the text is the prefix followed by something |
| Strings.Trim | src/parser.rs:47 | `trim` keeps a window of the text: everything before it and after it is whitespace, the window neither starts nor ends with whitespace, and it is empty exactly when the text is blank |
| Strings.TrimMatches | src/proc_reader.rs:26 | `trim_matches(c)` keeps a window: everything cut is `c`, the window neither starts nor ends with `c`, and it is empty exactly when the text is made of `c` only |
| Strings.ToLower | src/parser.rs:56 | Lower-casing keeps the length and maps each character on its own |
| Strings.TrimOfJoin | src/parser.rs:47 | Words joined by single spaces are already trimmed |
| Strings.ToLowerFacts | src/parser.rs:56 | Lower-casing maps each character on its own, leaves no upper-case letter, and fixes a text without one |
| Strings.ToLowerIdempotent | src/parser.rs:56 | Lower-casing twice is lower-casing once |
| Strings.Lines | src/main.rs:25 | `lines` yields pieces free of line feeds, and none exactly for the empty text |
| Strings.JoinOfLines | src/main.rs:25 | Re-joining the lines with line feeds restores the text, apart from a final line feed |
| Strings.LinesOfJoin | src/main.rs:25 | Splitting lines joined by line feeds gives the lines back |
| Strings.TrimSetWindow | src/proc_reader.rs:26 | Trimming a set of characters from both ends keeps exactly the window that starts and ends outside the set |
| Numbers.ParseU32 | src/parser.rs:133 | `parse::<u32>()` succeeds exactly when the text is a numeral (one optional `+`, then at least one digit) whose value is below 2^32, and then yields that value |
| Numbers.ParseU64 | src/parser.rs:192 | `parse::<u64>()` succeeds exactly when the text is a numeral whose value is below 2^64, and then yields that value |
| Numbers.U64OrZero | src/proc_reader.rs:28 | `parse::<u64>().unwrap_or(0)` is the numeral's value when it fits `u64`, and 0 for anything else |
| Numbers.ParseUnsigned | src/parser.rs:133 | A parsed number is below the type's limit, and the text was one optional `+` followed by digits |
| Numbers.DecimalValue | src/parser.rs:133 | The digits of a rendered number denote that number |
| Numbers.ParseDecimal | src/parser.rs:133 | Every number below the limit parses back from its rendering, with or without a `+`, and one at or above the limit does not parse |
| Numbers.ParseLeadingZero | src/parser.rs:133 | Leading zeros are accepted and ignored |
| Numbers.ParseRejectsNonDigit | src/parser.rs:133 | A non-digit anywhere, other than a single leading `+`, makes the parse fail |
| Numbers.U64OrZeroDecimal | src/proc_reader.rs:28 | `parse::<u64>().unwrap_or(0)` reads back a rendered `u64` |
| KeyedLines.FirstWith | src/proc_reader.rs:37-41 | The index at which a front-to-back search for the key stops: no earlier line carries the key, and the line there does, or no line does |
| KeyedLines.LastWith | src/proc_reader.rs:52-60 | The index of the last line carrying the key: it carries the key and no later line does, or no line at all does |
| KeyedLines.PaddedLineValue | src/proc_reader.rs:38-40 | A line laid out as `key`, any non-empty padding, a count and an optional unit starts with the key and has the count as its second word and value |
| KeyedLines.LastValueCons | src/proc_reader.rs:52-60 | A front-to-back loop that overwrites on each match ends as the last match's value, or its starting value |
| KeyedLines.LastValueSnoc | src/main.rs:25-35 | One more line changes a last-match value exactly when it carries the key |
| KeyedLines.LastLineWins | src/proc_reader.rs:52-60 | The last line carrying the key decides, whatever comes before it |
| KeyedLines.FirstLineWins | src/proc_reader.rs:37-41 | The first line carrying the key decides, whatever comes after it |
| KeyedLines.AbsentKeyKeepsDefault | src/proc_reader.rs:43 | With no line carrying the key, the default stands |
| KeyedLines.DistinctKeys | src/proc_reader.rs:53-56 | Keys that differ within their common length never select the same line |
| ProcReader.ParseStat | src/proc_reader.rs:22-31 | `parse_stat` fails exactly when the stat read fails, and then with that file's error |
| ProcReader.CommOf | src/proc_reader.rs:26 | The name is never longer than its token and neither starts nor ends with `)`, and a token with no parenthesis at either end is kept whole |
| ProcReader.StatusScan | src/proc_reader.rs:37-43 | The loop that returns at the first `VmRSS:` line gives the first-match value, or 0 |
| ProcReader.ParseStatus | src/proc_reader.rs:34-44 | `parse_status` fails exactly when the read fails. Otherwise it gives the value of the first `VmRSS:` line, or 0 |
| ProcReader.IoScan | src/proc_reader.rs:50-61 | The `else if` loop leaves each byte count as the value of its key's last line |
| ProcReader.ParseIo | src/proc_reader.rs:47-62 | `parse_io` fails exactly when the read fails. Otherwise each count is its key's last-line value, or 0 |
| ProcReader.GetProcessMetrics | src/proc_reader.rs:65-82 | The record fails exactly when one of the three reads fails, and with the first failing file's error. On success the pid is the argument, the user is `"user"`, and every other field is what the three parsers return |
| ProcReaderProperties.CommOfParenthesised | src/proc_reader.rs:26 | A parenthesised plain name is recovered by the trimming |
| ProcReaderProperties.ParseStatOfSplit | src/proc_reader.rs:25-30 | `parse_stat` takes token 1 as the name and the sum of tokens 13 and 14, each 0 if unparseable, as the CPU time |
| ProcReaderProperties.ParseStatOfWords | src/proc_reader.rs:25-30 | The same, for a line written as words joined by spaces |
| ProcReaderProperties.ParseStatLine | src/proc_reader.rs:22-31 | A stat line written from a pid, a name, eleven fields and two tick counts reads back as the name and the raw tick sum |
| ProcReaderProperties.CommOfOpenOnly | src/proc_reader.rs:26 | A token with only its opening parenthesis loses just that |
| ProcReaderProperties.StatNameWithSpace | src/proc_reader.rs:25-29 | A name with a space is cut at the space, and the ticks are read from the tokens one place earlier in the real layout |
| ProcReaderProperties.StatusFirstLineWins | src/proc_reader.rs:37-41 | Only the first `VmRSS:` line counts; later ones are never read |
| ProcReaderProperties.StatusPaddedVmRss | src/proc_reader.rs:37-41 | A status whose first `VmRSS:` line has any padding before the count reads back as that count |
| ProcReaderProperties.StatusWithoutVmRss | src/proc_reader.rs:43 | Without a `VmRSS:` line the memory figure is 0, not an error |
| ProcReaderProperties.ParseIoOfLines | src/proc_reader.rs:50-61 | For lines joined by line feeds, each count is its key's last-line value |
| ProcReaderProperties.IoReadLastLineWins | src/proc_reader.rs:53-55 | The last `read_bytes:` line sets the read count, and the write count is unaffected by where it lies |
| ProcReaderProperties.IoWriteLastLineWins | src/proc_reader.rs:56-58 | The last `write_bytes:` line sets the write count, and the read count is unaffected |
| ProcReaderProperties.IoMissingKey | src/proc_reader.rs:50-51 | One key may be present while the other is absent, and the absent one is 0 |
| Manager.MemScan | src/main.rs:25-35 | Each meminfo counter ends as the value of the last line starting with its key, or keeps its starting value |
| Manager.MemStep | src/main.rs:26-34 | One pass of the `else if` chain sets each of the four counters exactly as a last-match assignment for its own key would, leaving the others alone |
| Manager.MeminfoKeysDistinct | src/main.rs:26-33 | No line starts with two of the four keys, so the `else if` chain never hides an assignment |
| Manager.MemoryStats | src/main.rs:18-39 | Total and used memory are in MiB rounded down: `r.0 * 1024 <= total < (r.0 + 1) * 1024`, the same bound for used, and used never exceeds total |
| Manager.PidOfEntry | src/main.rs:54 | An entry is a pid exactly when its name is valid text that parses as `u32`, and the pid is that value |
| Manager.ProcPids | src/main.rs:95 | The selected pids are exactly those some entry's name parses to |
| Manager.MetricsOf | src/main.rs:96 | Reading a pid succeeds exactly when its three files could be read, and the record carries that pid |
| Manager.ReadingsOfSnapshot | src/main.rs:96 | The table of readings of a whole snapshot agrees with `get_process_metrics` on every pid, present or not |
| Manager.ListPids | src/main.rs:92-100 | Every listed record belongs to a selected pid and is that pid's successful reading |
| Manager.ListPidsComplete | src/main.rs:92-100 | Every selected pid whose reading succeeds is listed |
| Manager.Listing | src/main.rs:91-101 | The listing has no more records than there are entries, and every listed record is the successful reading of its own pid |
| Manager.ListingExact | src/main.rs:91-101 | Conversely and both ways: a process is listed exactly when some `/proc` entry names it and its files can be read |
| Manager.InfoOf | src/main.rs:114-118 | `info` gives a record exactly when the process's three files can be read, and a missing process fails on its stat file |
| Manager.SignalFor | src/main.rs:103-107 | `SIGKILL` is sent exactly when the signal argument is `SIGKILL`; anything else, or nothing, sends `SIGTERM` |
| Manager.AsI32 | src/main.rs:108 | `pid as i32` keeps the 32 bits and reads them as two's complement |
| Manager.ScopeOf | src/main.rs:108 | `kill(2)` signals a single process exactly when its target is positive |
| Manager.KillScopeAsWritten | src/main.rs:108 | As written, `kill` reaches just one process exactly when the pid is in 1..2^31-1; every other pid, 0 and 2^31 upwards, misfires |
| Manager.KillScopeAsWrittenMisfires | src/main.rs:108 | As written, pid 0 signals the caller's own process group, 4294967295 every process, and 2147483649 process group 2147483647 |
| Manager.KillTarget | src/main.rs:108 | Corrected target: present exactly when the pid fits `i32` and is not 0, and it then reaches just that process |
| Manager.KillTargetAgrees | src/main.rs:108 | Where the corrected target exists it is the written cast |
| Manager.KillRequestFor | src/main.rs:102-112 | Corrected `kill` handling: a request exactly for pids in 1..2^31-1, aimed at that one process with the mapped signal, and the pid returned as the error otherwise |
| Manager.StatsModeOf | src/main.rs:120-122 | `stats` repeats exactly when an interval greater than 0 is given, every that many seconds |
| ManagerProperties.KeyLineFacts | src/main.rs:27 | A `key`, padding, value, ` kB` line, for any non-empty padding, carries the key, stays one line, and its second word reads back as the value |
| ManagerProperties.MeminfoLines | src/main.rs:25 | A meminfo text of four key lines, each with its own padding, splits into those four lines |
| ManagerProperties.CountsOfLines | src/main.rs:25-35 | Four lines with one key each make each key's last value the value on its line |
| ManagerProperties.MibUnique | src/main.rs:38 | The floor bounds of `MemoryStats` determine the quotient by 1024 |
| ManagerProperties.MemoryStatsOfValues | src/main.rs:36-38 | `total_mb = MemTotal / 1024` and `used_mb = (MemTotal - MemFree - Buffers - Cached) / 1024`, given the last value of each key |
| ManagerProperties.MemoryStatsOfCounters | src/main.rs:18-39 | A meminfo written from four counters, with any padding after each key, gives back those counters' MiB figures |
| ManagerProperties.MemoryStatsExample | src/main.rs:36-38 | 2048000/512000/100000/400000 kB, laid out as the kernel writes them (key in a 16-column field, count right-aligned in 8), give 2000 MiB total and 1011 MiB used |
| ManagerProperties.MemScanSnoc | src/main.rs:25-35 | The counters after one more line are the loop body applied to the counters before it, so a later matching line overwrites an earlier one |
| ManagerProperties.AbsentKeyIsZero | src/main.rs:20-23 | A key with no line leaves its counter at 0 |
| ManagerProperties.OtherLineIgnored | src/main.rs:25-35 | A line starting with none of the four keys changes no counter |
| ManagerProperties.SwapCachedIgnored | src/main.rs:32 | A `SwapCached:` line, however padded, does not set `Cached`, because the match is on the prefix |
| ManagerProperties.MemAvailableIgnored | src/main.rs:26-33 | A `MemAvailable:` line, however padded, changes no counter |
| ManagerProperties.PidOfDecimalEntry | src/main.rs:54 | The directory named by a rendered `u32` is that pid |
| ManagerProperties.OtherEntriesSkipped | src/main.rs:54 | `self`, `meminfo`, an empty name and a name that is not valid text are skipped |
| ManagerProperties.PlusSignedEntry | src/main.rs:95 | A name such as `+42` is taken as pid 42, as Rust's parser accepts a leading `+` |
| ManagerProperties.OutOfRangeEntry | src/main.rs:95 | A number of 2^32 or more is not a pid |
| ManagerProperties.StatsModeOfInput | src/main.rs:120-122 | `stats --refresh N` repeats every `N` seconds when `N > 0`, and plain `stats` runs once |
| ManagerProperties.KillMisfiresFromInput | src/main.rs:108 | The typed lines `kill 4294967295` and `kill 0` reach every process and the own process group respectively |
| ManagerProperties.KillRequestOfInput | src/main.rs:102-108 | A typed `kill` line yields a request aimed at exactly the typed pid when it is in range, and a refusal otherwise |

## Left out

- File and directory reads (`fs::read_to_string`, `read_dir`) are not modelled. Their results are inputs: an `Option<string>` per process file, a `map` from pid to the three files for `/proc`, and a sequence of optional entry names. The `unwrap`s on `read_dir` and on the meminfo read are not modelled.
- Signal delivery through `nix::sys::signal::kill` is a call into the operating system. Only the chosen signal and the target pid handed to it are modelled.
- `sysinfo`'s global CPU usage is a foreign floating-point figure and is left out.
- The interactive loop is I/O and timing and is left out: the prompt, `println!` formatting, `show_help`, screen clearing, the endless `monitor_processes` and `stats --refresh` loops, and `thread::sleep`. One round of `monitor_processes` selects and reads processes exactly as `Listing` does.
- The list options `all`, `user` and `sort_by` are parsed but never used by the listing, `detailed` is parsed but ignored by `info` (`src/main.rs:114-118`), and `search` only prints its arguments. The model parses them and does nothing more with them.
- Panicking inputs are excluded by preconditions rather than modelled as panics: a stat line with fewer than 15 tokens, a `u64` tick sum that overflows (a panic in debug builds, a wrap-around in release builds), a selected `VmRSS:`/`read_bytes:`/`write_bytes:` line without a second word, a meminfo key line whose second word is missing or not a `u64`, and meminfo counters whose subtraction would go below zero (a panic in debug builds; in release builds `used_mb` wraps to a value near 2^64 / 1024).
- `to_lowercase` is modelled on ASCII letters only. Non-ASCII case mappings, such as the Kelvin sign lowering to `k`, are not modelled.
- A carriage return before a line feed is kept as part of the line. Every use of a line goes through `starts_with` and `split_whitespace`, where a trailing carriage return is whitespace, so this is not observable.
- CommandParser.ParseList: its contract states only the shape of the result. The option values are stated by `ScanList` and the `ParserProperties` lemmas about it.
- ProcReaderProperties.ParseStatLine: it covers only names without whitespace and without a parenthesis at either end. `StatNameWithSpace` covers names with a space.
- ParserProperties.ParseUnparse: it covers only commands whose free-text fields are single words, and a search name without `exact` that is not itself `-e`/`--exact`. Other commands have no spelling that the parser could give back.
- ManagerProperties.OutOfRangeEntry: it covers only rendered numbers. Other out-of-range spellings fail in the same way, through `Numbers.ParseUnsigned`'s bound.

## Findings

| source | as written | input that shows it | evidently intended | confidence | as-written member | corrected member |
|---|---|---|---|---|---|---|
| src/main.rs:108 | The `u32` pid is cast with `pid as i32` and handed to `kill(2)` | `kill 4294967295` becomes target -1, which signals every process the user may signal. `kill 0` signals the shell's own process group. `kill 2147483649` signals process group 2147483647 | Only the named process is signalled, and pids that are 0 or do not fit `i32` are refused | not executed | Manager.KillScopeAsWritten (counterexamples: Manager.KillScopeAsWrittenMisfires, ManagerProperties.KillMisfiresFromInput) | Manager.KillRequestFor (with Manager.KillTarget and ManagerProperties.KillRequestOfInput) |
