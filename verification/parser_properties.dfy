/** Properties of the command parser: how the `list` flag loop composes,
    how the first word selects a command regardless of case, and that every
    command (other than `Unknown`) is recovered from its canonical spelling. */
module ParserProperties {
  import opened Outcomes
  import opened Strings
  import opened Numbers
  import opened CommandParser

  // ---------------------------------------------------------------------
  // The `list` flag loop
  // ---------------------------------------------------------------------

  const ValueFlags: set<string> := UserFlags + SortFlags
  const ListFlagWords: set<string> := AllFlags + ValueFlags

  /** Whether the scan from `i` ends on a `-u`/`-s` that has no value: the
      only case in which appending words changes how `args` itself is read. */
  predicate Dangling(args: seq<string>, i: nat)
    requires i <= |args|
    decreases |args| - i
  {
    if i == |args| then false
    else if args[i] in ValueFlags then
      if i + 1 < |args| then Dangling(args, i + 2) else true
    else Dangling(args, i + 1)
  }

  /** Scanning the tail of `a + b` is scanning `b`. */
  lemma {:induction false} ScanListShift(a: seq<string>, b: seq<string>, j: nat, opts: ListOptions)
    requires j <= |b|
    ensures ScanList(a + b, |a| + j, opts) == ScanList(b, j, opts)
    decreases |b| - j
  {
    if j < |b| {
      assert (a + b)[|a| + j] == b[j];
      if j + 1 < |b| {
        assert (a + b)[|a| + j + 1] == b[j + 1];
        ScanListShift(a, b, j + 2, opts.(user := Some(b[j + 1])));
        ScanListShift(a, b, j + 2, opts.(sortBy := Some(b[j + 1])));
      }
      ScanListShift(a, b, j + 1, opts.(all := true));
      ScanListShift(a, b, j + 1, opts);
    }
  }

  /** Unless `a` ends on a value-less `-u`/`-s`, the scan of `a + b` is the
      scan of `b` started from the options `a` produced. */
  lemma {:induction false} ScanListAppend(a: seq<string>, b: seq<string>, i: nat, opts: ListOptions)
    requires i <= |a| && !Dangling(a, i)
    ensures ScanList(a + b, i, opts) == ScanList(b, 0, ScanList(a, i, opts))
    decreases |a| - i
  {
    if i == |a| {
      ScanListShift(a, b, 0, opts);
    } else {
      assert (a + b)[i] == a[i];
      if a[i] in AllFlags {
        ScanListAppend(a, b, i + 1, opts.(all := true));
      } else if a[i] in ValueFlags {
        assert i + 1 < |a|;
        assert (a + b)[i + 1] == a[i + 1];
        ScanListAppend(a, b, i + 2, opts.(user := Some(a[i + 1])));
        ScanListAppend(a, b, i + 2, opts.(sortBy := Some(a[i + 1])));
      } else {
        ScanListAppend(a, b, i + 1, opts);
      }
    }
  }

  /** A later `-u X` / `-s X` overrides whatever came before it, and leaves
      the other options as they were. */
  lemma LaterValueFlagWins(a: seq<string>, flag: string, x: string, opts: ListOptions)
    requires !Dangling(a, 0) && flag in ValueFlags
    ensures var before := ScanList(a, 0, opts);
      var after := ScanList(a + [flag, x], 0, opts);
      && after.all == before.all
      && (flag in UserFlags ==> after.user == Some(x) && after.sortBy == before.sortBy)
      && (flag in SortFlags ==> after.sortBy == Some(x) && after.user == before.user)
  {
    ScanListAppend(a, [flag, x], 0, opts);
  }

  /** A trailing `-u` / `-s` with no value is ignored: the field keeps its
      earlier value, which is `None` when it was never given. */
  lemma TrailingValueFlagIgnored(a: seq<string>, flag: string, opts: ListOptions)
    requires !Dangling(a, 0) && flag in ValueFlags
    ensures ScanList(a + [flag], 0, opts) == ScanList(a, 0, opts)
  {
    ScanListAppend(a, [flag], 0, opts);
  }

  /** A word that is not a flag, in flag position, is skipped. */
  lemma UnknownWordIgnored(a: seq<string>, w: string, b: seq<string>, opts: ListOptions)
    requires !Dangling(a, 0) && w !in ListFlagWords
    ensures ScanList(a + [w] + b, 0, opts) == ScanList(a + b, 0, opts)
  {
    assert a + [w] + b == a + ([w] + b);
    ScanListAppend(a, [w] + b, 0, opts);
    ScanListAppend(a, b, 0, opts);
    ScanListShift([w], b, 0, ScanList(a, 0, opts));
  }

  lemma {:induction false} AllStaysSet(args: seq<string>, i: nat, opts: ListOptions)
    requires i <= |args| && opts.all
    ensures ScanList(args, i, opts).all
    decreases |args| - i
  {
    if i < |args| {
      if i + 1 < |args| {
        AllStaysSet(args, i + 2, opts.(user := Some(args[i + 1])));
        AllStaysSet(args, i + 2, opts.(sortBy := Some(args[i + 1])));
      }
      AllStaysSet(args, i + 1, opts);
    }
  }

  /** `-a` / `--all` in flag position sets `all`, whatever follows. */
  lemma AllFlagSetsAll(a: seq<string>, flag: string, b: seq<string>, opts: ListOptions)
    requires !Dangling(a, 0) && flag in AllFlags
    ensures ScanList(a + [flag] + b, 0, opts).all
  {
    assert a + [flag] + b == a + ([flag] + b);
    ScanListAppend(a, [flag] + b, 0, opts);
    var o := ScanList(a, 0, opts);
    ScanListShift([flag], b, 0, o.(all := true));
    AllStaysSet(b, 0, o.(all := true));
  }

  /** Conversely, `all` is only ever set by an `-a` / `--all` word. */
  lemma {:induction false} AllNeedsFlag(args: seq<string>, i: nat, opts: ListOptions)
    requires i <= |args|
    ensures ScanList(args, i, opts).all ==>
      opts.all || exists k :: i <= k < |args| && args[k] in AllFlags
    decreases |args| - i
  {
    if i < |args| {
      if i + 1 < |args| {
        AllNeedsFlag(args, i + 2, opts.(user := Some(args[i + 1])));
        AllNeedsFlag(args, i + 2, opts.(sortBy := Some(args[i + 1])));
      }
      AllNeedsFlag(args, i + 1, opts.(all := true));
      AllNeedsFlag(args, i + 1, opts);
    }
  }

  /** Words without any list flag leave the options untouched. */
  lemma {:induction false} NoFlagsNoChange(args: seq<string>, i: nat, opts: ListOptions)
    requires i <= |args|
    requires forall k :: i <= k < |args| ==> args[k] !in ListFlagWords
    ensures ScanList(args, i, opts) == opts
    decreases |args| - i
  {
    if i < |args| {
      NoFlagsNoChange(args, i + 1, opts);
    }
  }

  // ---------------------------------------------------------------------
  // Dispatch
  // ---------------------------------------------------------------------

  /** A non-blank line is dispatched on its lower-cased first word, with the
      remaining words as arguments and the trimmed line as context. */
  lemma ParseDispatch(input: string)
    requires |Tokens(input)| > 0
    ensures Parse(input) == Dispatch(VerbOf(ToLower(Tokens(input)[0])), Tokens(input)[1..], Trim(input))
  {
    assert Trim(input) != [];
  }

  /** The alias table: each lower-cased word selects exactly one command. */
  lemma VerbAliases(w: string)
    ensures VerbOf(w) == ListVerb <==> w == "ps" || w == "list"
    ensures VerbOf(w) == KillVerb <==> w == "kill"
    ensures VerbOf(w) == InfoVerb <==> w == "info" || w == "show"
    ensures VerbOf(w) == StatsVerb <==> w == "stats" || w == "status"
    ensures VerbOf(w) == SearchVerb <==> w == "search" || w == "find"
    ensures VerbOf(w) == MonitorVerb <==> w == "monitor"
    ensures VerbOf(w) == HelpVerb <==> w == "help"
    ensures VerbOf(w) == ExitVerb <==> w == "exit" || w == "quit"
    ensures VerbOf(w) == OtherVerb <==>
      w !in {"ps", "list", "kill", "info", "show", "stats", "status", "search", "find",
             "monitor", "help", "exit", "quit"}
  {
  }

  /** What each verb makes of the argument words, and that any other word
      makes the whole trimmed line `Unknown`. */
  lemma ParseAliases(input: string)
    requires |Tokens(input)| > 0
    ensures var v, args, t := VerbOf(ToLower(Tokens(input)[0])), Tokens(input)[1..], Trim(input);
      && (v == ListVerb ==> Parse(input) == ParseList(args))
      && (v == KillVerb ==> Parse(input) == ParseKill(args))
      && (v == InfoVerb ==> Parse(input) == ParseInfo(args))
      && (v == StatsVerb ==> Parse(input) == ParseStats(args))
      && (v == SearchVerb ==> Parse(input) == ParseSearch(args))
      && (v == MonitorVerb ==> Parse(input) == ParseResult(Monitor(MonitorInterval(args)), t))
      && (v == HelpVerb ==> Parse(input) == ParseResult(Help, t))
      && (v == ExitVerb ==> Parse(input) == ParseResult(Exit, t))
      && (v == OtherVerb ==> Parse(input) == ParseResult(Unknown(t), t))
  {
    ParseDispatch(input);
  }

  /** `raw_input` is the argument words re-joined for the five commands with
      sub-parsers, and the whole trimmed line for the others. */
  lemma ParseRawInput(input: string)
    requires |Tokens(input)| > 0
    ensures var v := VerbOf(ToLower(Tokens(input)[0]));
      && (v in {ListVerb, KillVerb, InfoVerb, StatsVerb, SearchVerb} ==>
            Parse(input).rawInput == Join(Tokens(input)[1..], " "))
      && (v in {MonitorVerb, HelpVerb, ExitVerb, OtherVerb} ==>
            Parse(input).rawInput == Trim(input))
  {
    assert Trim(input) != [];
  }

  /** Only the lower-cased form of the first word matters: two lines that
      differ in the case of their command word parse to the same command,
      except that an unrecognised word is echoed back verbatim. */
  lemma ParseCaseInsensitive(a: string, b: string)
    requires |Tokens(a)| > 0 && |Tokens(b)| > 0
    requires ToLower(Tokens(a)[0]) == ToLower(Tokens(b)[0])
    requires Tokens(a)[1..] == Tokens(b)[1..]
    ensures Parse(a).command == Parse(b).command
         || (Parse(a).command.Unknown? && Parse(b).command.Unknown?)
    ensures VerbOf(ToLower(Tokens(a)[0])) in {ListVerb, KillVerb, InfoVerb, StatsVerb, SearchVerb} ==>
      Parse(a) == Parse(b)
  {
    ParseDispatch(a);
    ParseDispatch(b);
    DispatchIgnoresLine(VerbOf(ToLower(Tokens(a)[0])), Tokens(a)[1..], Trim(a), Trim(b));
  }

  /** Only `monitor`, `help`, `exit` and an unrecognised word keep the
      trimmed line, and only an unrecognised word puts it in the command. */
  lemma DispatchIgnoresLine(v: Verb, args: seq<string>, ta: string, tb: string)
    ensures Dispatch(v, args, ta).command == Dispatch(v, args, tb).command
         || (Dispatch(v, args, ta).command.Unknown? && Dispatch(v, args, tb).command.Unknown?)
    ensures v in {ListVerb, KillVerb, InfoVerb, StatsVerb, SearchVerb} ==>
      Dispatch(v, args, ta) == Dispatch(v, args, tb)
  {
  }

  // ---------------------------------------------------------------------
  // Round trip through a canonical spelling
  // ---------------------------------------------------------------------

  function Opt(present: bool, words: seq<string>): seq<string> {
    if present then words else []
  }

  function ListArgs(all: bool, user: Option<string>, sortBy: Option<string>): seq<string> {
    Opt(all, ["-a"])
      + (match user case Some(u) => ["-u", u] case None => [])
      + (match sortBy case Some(s) => ["-s", s] case None => [])
  }

  /** The word each verb is spelled with. */
  function VerbWord(v: Verb): string {
    match v
    case ListVerb => "ps"
    case KillVerb => "kill"
    case InfoVerb => "info"
    case StatsVerb => "stats"
    case SearchVerb => "search"
    case MonitorVerb => "monitor"
    case HelpVerb => "help"
    case ExitVerb => "exit"
    case OtherVerb => ""
  }

  /** The words that spell a command. */
  function CanonicalWords(c: Command): seq<string> {
    match c
    case ListProcesses(all, user, sortBy) => [VerbWord(ListVerb)] + ListArgs(all, user, sortBy)
    case KillProcess(pid, signal) =>
      [VerbWord(KillVerb)] + ([Decimal(pid)] + match signal case Some(s) => [s] case None => [])
    case ProcessInfo(pid, detailed) => [VerbWord(InfoVerb)] + ([Decimal(pid)] + Opt(detailed, ["-d"]))
    case SystemStats(refresh) =>
      [VerbWord(StatsVerb)] + (match refresh case Some(v) => [RefreshFlag, Decimal(v)] case None => [])
    case SearchProcess(name, exact) => [VerbWord(SearchVerb)] + ([name] + Opt(exact, ["-e"]))
    case Monitor(interval) => [VerbWord(MonitorVerb), Decimal(interval)]
    case Help => [VerbWord(HelpVerb)]
    case Exit => [VerbWord(ExitVerb)]
    case Unknown(message) => [message]
  }

  /** Commands that have a spelling: every free-text field is one word, and a
      search name that is itself `-e` needs the exact flag anyway. */
  predicate Spellable(c: Command) {
    match c
    case ListProcesses(_, user, sortBy) =>
      (user.Some? ==> IsWord(user.value)) && (sortBy.Some? ==> IsWord(sortBy.value))
    case KillProcess(_, signal) => signal.Some? ==> IsWord(signal.value)
    case SearchProcess(name, exact) => IsWord(name) && (!exact ==> name !in ExactFlags)
    case Unknown(_) => false
    case _ => true
  }

  /** The input line that spells `c`. */
  function Unparse(c: Command): string {
    Join(CanonicalWords(c), " ")
  }

  /** A rendered number is a word, and neither a flag nor a refresh setting. */
  lemma DecimalIsWord(n: nat)
    ensures IsWord(Decimal(n))
    ensures Decimal(n) !in ListFlagWords + DetailedFlags + ExactFlags + {RefreshFlag}
    ensures !StartsWith(Decimal(n), RefreshPrefix)
  {
    var d := Decimal(n);
    DecimalIsOneWord(n);
    assert IsDigit(d[0]);
  }

  lemma ListArgsScan(all: bool, user: Option<string>, sortBy: Option<string>)
    ensures ScanList(ListArgs(all, user, sortBy), 0, NoListOptions) == ListOptions(all, user, sortBy)
  {
    var a := Opt(all, ["-a"]);
    var u := match user case Some(x) => ["-u", x] case None => [];
    var s := match sortBy case Some(x) => ["-s", x] case None => [];
    assert !Dangling(a, 0);
    assert !Dangling(a + u, 0) by {
      assert !Dangling(u, 0);
      DanglingAppend(a, u, 0);
    }
    ScanListAppend(a + u, s, 0, NoListOptions);
    ScanListAppend(a, u, 0, NoListOptions);
  }

  /** Appending a non-dangling tail to a non-dangling prefix does not dangle. */
  lemma {:induction false} DanglingAppend(a: seq<string>, b: seq<string>, i: nat)
    requires i <= |a| && !Dangling(a, i) && !Dangling(b, 0)
    ensures !Dangling(a + b, i)
    decreases |a| - i
  {
    if i == |a| {
      DanglingShift(a, b, 0);
    } else {
      assert (a + b)[i] == a[i];
      if a[i] in ValueFlags {
        DanglingAppend(a, b, i + 2);
      } else {
        DanglingAppend(a, b, i + 1);
      }
    }
  }

  lemma {:induction false} DanglingShift(a: seq<string>, b: seq<string>, j: nat)
    requires j <= |b|
    ensures Dangling(a + b, |a| + j) == Dangling(b, j)
    decreases |b| - j
  {
    if j < |b| {
      assert (a + b)[|a| + j] == b[j];
      if j + 1 < |b| {
        DanglingShift(a, b, j + 2);
      }
      DanglingShift(a, b, j + 1);
    }
  }

  lemma ListArgsAreWords(all: bool, user: Option<string>, sortBy: Option<string>)
    requires Spellable(ListProcesses(all, user, sortBy))
    ensures AllWords(ListArgs(all, user, sortBy))
  {
    var a := Opt(all, ["-a"]);
    var u := match user case Some(x) => ["-u", x] case None => [];
    var s := match sortBy case Some(x) => ["-s", x] case None => [];
    assert AllWords(a) && AllWords(u) && AllWords(s);
    AllWordsConcat(a, u);
    AllWordsConcat(a + u, s);
  }

  /** A line of words joined by single spaces is dispatched on its first word
      with the remaining words as arguments. */
  lemma ParseOfWords(ws: seq<string>)
    requires |ws| > 0 && AllWords(ws)
    ensures Parse(Join(ws, " ")) == Dispatch(VerbOf(ToLower(ws[0])), ws[1..], Join(ws, " "))
  {
    TrimOfJoin(ws);
    WordsOfJoin(ws);
    JoinEnds(ws, " ");
  }

  lemma DispatchList(all: bool, user: Option<string>, sortBy: Option<string>, t: string)
    ensures Dispatch(ListVerb, ListArgs(all, user, sortBy), t).command == ListProcesses(all, user, sortBy)
  {
    ListArgsScan(all, user, sortBy);
  }

  lemma DispatchKill(pid: U32, signal: Option<string>, t: string)
    ensures var sg := match signal case Some(x) => [x] case None => [];
      Dispatch(KillVerb, [Decimal(pid)] + sg, t).command == KillProcess(pid, signal)
  {
    ParseDecimalU32(pid);
  }

  lemma DispatchInfo(pid: U32, detailed: bool, t: string)
    ensures Dispatch(InfoVerb, [Decimal(pid)] + Opt(detailed, ["-d"]), t).command == ProcessInfo(pid, detailed)
  {
    var args := [Decimal(pid)] + Opt(detailed, ["-d"]);
    ParseDecimalU32(pid);
    DecimalIsWord(pid);
    if detailed {
      assert args[1] in DetailedFlags;
    } else {
      assert args == [Decimal(pid)];
    }
  }

  lemma DispatchStats(refresh: Option<U64>, t: string)
    ensures var args := match refresh case Some(v) => [RefreshFlag, Decimal(v)] case None => [];
      Dispatch(StatsVerb, args, t).command == SystemStats(refresh)
  {
    if refresh.Some? {
      var args := [RefreshFlag, Decimal(refresh.value)];
      DecimalIsWord(refresh.value);
      ParseDecimalU64(refresh.value);
      assert RefreshAt(args, 1).None?;
      assert RefreshAt(args, 0) == refresh;
      assert LastRefresh(args, 2) == LastRefresh(args, 1) == refresh;
    }
  }

  lemma DispatchSearch(name: string, exact: bool, t: string)
    requires Spellable(SearchProcess(name, exact))
    ensures Dispatch(SearchVerb, [name] + Opt(exact, ["-e"]), t).command == SearchProcess(name, exact)
  {
    var args := [name] + Opt(exact, ["-e"]);
    if exact {
      assert args[1] in ExactFlags;
    } else {
      assert args == [name];
    }
  }

  lemma DispatchMonitor(interval: U64, t: string)
    ensures Dispatch(MonitorVerb, [Decimal(interval)], t).command == Monitor(interval)
  {
    ParseDecimalU64(interval);
  }

  /** A word without upper-case letters is its own lower-cased form. */
  lemma LowerFixed(w: string)
    requires !HasUpper(w)
    ensures ToLower(w) == w
  {
    ToLowerFacts(w);
  }

  /** A lower-case word selects the same verb after lower-casing. */
  lemma SelectsVerb(w: string, v: Verb)
    requires IsWord(w) && !HasUpper(w) && VerbOf(w) == v
    ensures IsWord(w) && VerbOf(ToLower(w)) == v
  {
    LowerFixed(w);
  }

  lemma SpellsList()
    ensures IsWord("ps") && VerbOf(ToLower("ps")) == ListVerb
  {
    SelectsVerb("ps", ListVerb);
  }

  lemma SpellsKill()
    ensures IsWord("kill") && VerbOf(ToLower("kill")) == KillVerb
  {
    SelectsVerb("kill", KillVerb);
  }

  lemma SpellsInfo()
    ensures IsWord("info") && VerbOf(ToLower("info")) == InfoVerb
  {
    SelectsVerb("info", InfoVerb);
  }

  lemma SpellsStats()
    ensures IsWord("stats") && VerbOf(ToLower("stats")) == StatsVerb
  {
    SelectsVerb("stats", StatsVerb);
  }

  lemma SpellsSearch()
    ensures IsWord("search") && VerbOf(ToLower("search")) == SearchVerb
  {
    SelectsVerb("search", SearchVerb);
  }

  lemma SpellsMonitor()
    ensures IsWord("monitor") && VerbOf(ToLower("monitor")) == MonitorVerb
  {
    SelectsVerb("monitor", MonitorVerb);
  }

  lemma SpellsHelp()
    ensures IsWord("help") && VerbOf(ToLower("help")) == HelpVerb
  {
    SelectsVerb("help", HelpVerb);
  }

  lemma SpellsExit()
    ensures IsWord("exit") && VerbOf(ToLower("exit")) == ExitVerb
  {
    SelectsVerb("exit", ExitVerb);
  }

  /** The canonical word of each verb is a word that selects that verb. */
  lemma VerbWordFacts(v: Verb)
    requires v != OtherVerb
    ensures IsWord(VerbWord(v)) && VerbOf(ToLower(VerbWord(v))) == v
  {
    match v
    case ListVerb => SpellsList();
    case KillVerb => SpellsKill();
    case InfoVerb => SpellsInfo();
    case StatsVerb => SpellsStats();
    case SearchVerb => SpellsSearch();
    case MonitorVerb => SpellsMonitor();
    case HelpVerb => SpellsHelp();
    case ExitVerb => SpellsExit();
  }

  /** A command spelled as its verb's word followed by `args` is dispatched
      to that verb with `args`. */
  lemma ParseSpelled(c: Command, v: Verb, args: seq<string>)
    requires v != OtherVerb && AllWords(args)
    requires CanonicalWords(c) == [VerbWord(v)] + args
    ensures Parse(Unparse(c)) == Dispatch(v, args, Unparse(c))
  {
    var ws := CanonicalWords(c);
    VerbWordFacts(v);
    AllWordsConcat([VerbWord(v)], args);
    assert ws[0] == VerbWord(v) && ws[1..] == args;
    ParseOfWords(ws);
  }

  lemma ParseUnparseList(all: bool, user: Option<string>, sortBy: Option<string>)
    requires Spellable(ListProcesses(all, user, sortBy))
    ensures Parse(Unparse(ListProcesses(all, user, sortBy))).command == ListProcesses(all, user, sortBy)
  {
    var c := ListProcesses(all, user, sortBy);
    var args := ListArgs(all, user, sortBy);
    ListArgsAreWords(all, user, sortBy);
    ParseSpelled(c, ListVerb, args);
    DispatchList(all, user, sortBy, Unparse(c));
  }

  lemma ParseUnparseKill(pid: U32, signal: Option<string>)
    requires Spellable(KillProcess(pid, signal))
    ensures Parse(Unparse(KillProcess(pid, signal))).command == KillProcess(pid, signal)
  {
    var c := KillProcess(pid, signal);
    var sg := match signal case Some(x) => [x] case None => [];
    var args := [Decimal(pid)] + sg;
    DecimalIsWord(pid);
    AllWordsConcat([Decimal(pid)], sg);
    ParseSpelled(c, KillVerb, args);
    DispatchKill(pid, signal, Unparse(c));
  }

  lemma ParseUnparseInfo(pid: U32, detailed: bool)
    ensures Parse(Unparse(ProcessInfo(pid, detailed))).command == ProcessInfo(pid, detailed)
  {
    var c := ProcessInfo(pid, detailed);
    var args := [Decimal(pid)] + Opt(detailed, ["-d"]);
    DecimalIsWord(pid);
    AllWordsConcat([Decimal(pid)], Opt(detailed, ["-d"]));
    ParseSpelled(c, InfoVerb, args);
    DispatchInfo(pid, detailed, Unparse(c));
  }

  lemma ParseUnparseStats(refresh: Option<U64>)
    ensures Parse(Unparse(SystemStats(refresh))).command == SystemStats(refresh)
  {
    var c := SystemStats(refresh);
    if refresh.Some? {
      var args := [RefreshFlag, Decimal(refresh.value)];
      DecimalIsWord(refresh.value);
      ParseSpelled(c, StatsVerb, args);
    } else {
      ParseSpelled(c, StatsVerb, []);
    }
    DispatchStats(refresh, Unparse(c));
  }

  lemma ParseUnparseSearch(name: string, exact: bool)
    requires Spellable(SearchProcess(name, exact))
    ensures Parse(Unparse(SearchProcess(name, exact))).command == SearchProcess(name, exact)
  {
    var c := SearchProcess(name, exact);
    var args := [name] + Opt(exact, ["-e"]);
    AllWordsConcat([name], Opt(exact, ["-e"]));
    ParseSpelled(c, SearchVerb, args);
    DispatchSearch(name, exact, Unparse(c));
  }

  lemma ParseUnparseMonitor(interval: U64)
    ensures Parse(Unparse(Monitor(interval))).command == Monitor(interval)
  {
    var c := Monitor(interval);
    DecimalIsWord(interval);
    ParseSpelled(c, MonitorVerb, [Decimal(interval)]);
    DispatchMonitor(interval, Unparse(c));
  }

  lemma ParseUnparseBare(c: Command, v: Verb)
    requires (c == Help && v == HelpVerb) || (c == Exit && v == ExitVerb)
    ensures Parse(Unparse(c)).command == c
  {
    ParseSpelled(c, v, []);
  }

  /** Parsing the spelling of a command gives the command back. */
  lemma ParseUnparse(c: Command)
    requires Spellable(c)
    ensures Parse(Unparse(c)).command == c
  {
    match c
    case ListProcesses(all, user, sortBy) => ParseUnparseList(all, user, sortBy);
    case KillProcess(pid, signal) => ParseUnparseKill(pid, signal);
    case ProcessInfo(pid, detailed) => ParseUnparseInfo(pid, detailed);
    case SystemStats(refresh) => ParseUnparseStats(refresh);
    case SearchProcess(name, exact) => ParseUnparseSearch(name, exact);
    case Monitor(interval) => ParseUnparseMonitor(interval);
    case Help => ParseUnparseBare(c, HelpVerb);
    case Exit => ParseUnparseBare(c, ExitVerb);
  }
}
