/** The interactive command language (`src/parser.rs`): a line is trimmed,
    split on whitespace, its first word lower-cased and looked up among the
    command aliases, and the remaining words handed to that command's
    sub-parser. Parsing is total: every line yields a `ParseResult`. */
module CommandParser {
  import opened Outcomes
  import opened Strings
  import opened Numbers

  datatype Command =
    | ListProcesses(all: bool, user: Option<string>, sortBy: Option<string>)
    | KillProcess(pid: U32, signal: Option<string>)
    | ProcessInfo(pid: U32, detailed: bool)
    | SystemStats(refreshInterval: Option<U64>)
    | SearchProcess(name: string, exact: bool)
    | Monitor(interval: U64)
    | Help
    | Exit
    | Unknown(message: string)

  datatype ParseResult = ParseResult(command: Command, rawInput: string)

  /** The command words, after lower-casing, grouped by the command they select. */
  datatype Verb = ListVerb | KillVerb | InfoVerb | StatsVerb | SearchVerb
                | MonitorVerb | HelpVerb | ExitVerb | OtherVerb

  /** The alias table (stated both ways by `VerbAliases`). */
  function VerbOf(word: string): Verb
  {
    if word == "ps" || word == "list" then ListVerb
    else if word == "kill" then KillVerb
    else if word == "info" || word == "show" then InfoVerb
    else if word == "stats" || word == "status" then StatsVerb
    else if word == "search" || word == "find" then SearchVerb
    else if word == "monitor" then MonitorVerb
    else if word == "help" then HelpVerb
    else if word == "exit" || word == "quit" then ExitVerb
    else OtherVerb
  }

  const AllFlags: set<string> := {"-a", "--all"}
  const UserFlags: set<string> := {"-u", "--user"}
  const SortFlags: set<string> := {"-s", "--sort"}
  const DetailedFlags: set<string> := {"-d", "--detailed"}
  const ExactFlags: set<string> := {"-e", "--exact"}
  const RefreshFlag: string := "--refresh"
  const RefreshPrefix: string := "--refresh="

  /** Interval used by `monitor` when no usable argument is given. */
  const DefaultMonitorInterval: U64 := 2

  /** The words of a line as the parser sees them: trimmed, then split. */
  function Tokens(input: string): seq<string> {
    Words(Trim(input))
  }

  /** Whether some argument is one of `flags` (`args.iter().any(..)`). */
  function AnyIn(args: seq<string>, flags: set<string>): (b: bool)
    ensures b <==> exists i :: 0 <= i < |args| && args[i] in flags
  {
    if |args| == 0 then false else args[0] in flags || AnyIn(args[1..], flags)
  }

  // ---------------------------------------------------------------------
  // list / ps
  // ---------------------------------------------------------------------

  datatype ListOptions = ListOptions(all: bool, user: Option<string>, sortBy: Option<string>)

  const NoListOptions := ListOptions(false, None, None)

  /** The flag loop of `parse_list_command` from position `i` on: `-u` and
      `-s` take the next word as their value when there is one (and skip
      it), a later flag overwrites an earlier one, anything else is ignored. */
  function ScanList(args: seq<string>, i: nat, opts: ListOptions): ListOptions
    requires i <= |args|
    decreases |args| - i
  {
    if i == |args| then opts
    else if args[i] in AllFlags then ScanList(args, i + 1, opts.(all := true))
    else if args[i] in UserFlags then
      if i + 1 < |args| then ScanList(args, i + 2, opts.(user := Some(args[i + 1])))
      else ScanList(args, i + 1, opts)
    else if args[i] in SortFlags then
      if i + 1 < |args| then ScanList(args, i + 2, opts.(sortBy := Some(args[i + 1])))
      else ScanList(args, i + 1, opts)
    else ScanList(args, i + 1, opts)
  }

  /** Where the options come from: `all` is only ever switched on, and by
      an `-a`/`--all` word; a user or sort key that differs from the one the
      loop started with is the word right after a `-u`/`--user` or
      `-s`/`--sort` word. */
  lemma {:induction false} ScanListSources(args: seq<string>, i: nat, opts: ListOptions)
    requires i <= |args|
    ensures var r := ScanList(args, i, opts);
      && (opts.all ==> r.all)
      && (r.all ==> opts.all || exists j :: i <= j < |args| && args[j] in AllFlags)
      && (r.user == opts.user ||
          exists j :: i < j < |args| && args[j - 1] in UserFlags && r.user == Some(args[j]))
      && (r.sortBy == opts.sortBy ||
          exists j :: i < j < |args| && args[j - 1] in SortFlags && r.sortBy == Some(args[j]))
    decreases |args| - i
  {
    if i < |args| {
      if args[i] in AllFlags {
        ScanListSources(args, i + 1, opts.(all := true));
      } else if args[i] in UserFlags && i + 1 < |args| {
        ScanListSources(args, i + 2, opts.(user := Some(args[i + 1])));
      } else if args[i] in SortFlags && i + 1 < |args| {
        ScanListSources(args, i + 2, opts.(sortBy := Some(args[i + 1])));
      } else {
        ScanListSources(args, i + 1, opts);
      }
    }
  }

  function ParseList(args: seq<string>): (r: ParseResult)
    ensures r.command.ListProcesses?
    ensures r.rawInput == Join(args, " ")
  {
    var o := ScanList(args, 0, NoListOptions);
    ParseResult(ListProcesses(o.all, o.user, o.sortBy), Join(args, " "))
  }

  // ---------------------------------------------------------------------
  // kill / info
  // ---------------------------------------------------------------------

  function ParseKill(args: seq<string>): (r: ParseResult)
    ensures r.rawInput == Join(args, " ")
    ensures |args| == 0 ==> r.command == Unknown("kill: missing PID")
    ensures |args| > 0 && ParseU32(args[0]).None? ==>
      r.command == Unknown("kill: invalid PID '" + args[0] + "'")
    ensures r.command.KillProcess? <==> |args| > 0 && ParseU32(args[0]).Some?
    ensures r.command.KillProcess? ==>
      && Some(r.command.pid) == ParseU32(args[0])
      && (r.command.signal.Some? <==> |args| > 1)
      && (|args| > 1 ==> r.command.signal == Some(args[1]))
  {
    var raw := Join(args, " ");
    if |args| == 0 then ParseResult(Unknown("kill: missing PID"), raw)
    else match ParseU32(args[0])
      case None => ParseResult(Unknown("kill: invalid PID '" + args[0] + "'"), raw)
      case Some(pid) =>
        var signal := if |args| > 1 then Some(args[1]) else None;
        ParseResult(KillProcess(pid, signal), raw)
  }

  function ParseInfo(args: seq<string>): (r: ParseResult)
    ensures r.rawInput == Join(args, " ")
    ensures |args| == 0 ==> r.command == Unknown("info: missing PID")
    ensures |args| > 0 && ParseU32(args[0]).None? ==>
      r.command == Unknown("info: invalid PID '" + args[0] + "'")
    ensures r.command.ProcessInfo? <==> |args| > 0 && ParseU32(args[0]).Some?
    ensures r.command.ProcessInfo? ==>
      && Some(r.command.pid) == ParseU32(args[0])
      && (r.command.detailed <==> exists i :: 0 <= i < |args| && args[i] in DetailedFlags)
  {
    var raw := Join(args, " ");
    if |args| == 0 then ParseResult(Unknown("info: missing PID"), raw)
    else match ParseU32(args[0])
      case None => ParseResult(Unknown("info: invalid PID '" + args[0] + "'"), raw)
      case Some(pid) => ParseResult(ProcessInfo(pid, AnyIn(args, DetailedFlags)), raw)
  }

  // ---------------------------------------------------------------------
  // stats / status
  // ---------------------------------------------------------------------

  /** The `for` loop of `parse_stats_command` from position `i` on: every
      position is examined, and a `--refresh=N` word or a `--refresh` word
      followed by `N` replaces the interval when `N` parses as `u64`. */
  function ScanStats(args: seq<string>, i: nat, acc: Option<U64>): (r: Option<U64>)
    requires i <= |args|
    ensures acc.Some? ==> r.Some?
    ensures r == acc || exists j :: i <= j < |args| && RefreshAt(args, j) == r
    decreases |args| - i
  {
    if i == |args| then acc
    else
      var arg := args[i];
      assert StartsWith(arg, RefreshPrefix) ==> arg != RefreshFlag;
      var acc' :=
        if StartsWith(arg, RefreshPrefix) then
          match ParseU64(arg[|RefreshPrefix|..])
          case Some(v) => Some(v)
          case None => acc
        else if arg == RefreshFlag && i + 1 < |args| then
          match ParseU64(args[i + 1])
          case Some(v) => Some(v)
          case None => acc
        else acc;
      assert acc' == acc || acc' == RefreshAt(args, i);
      ScanStats(args, i + 1, acc')
  }

  /** The interval position `i` supplies on its own, if any. */
  function RefreshAt(args: seq<string>, i: nat): Option<U64>
    requires i < |args|
  {
    if StartsWith(args[i], RefreshPrefix) then ParseU64(args[i][|RefreshPrefix|..])
    else if args[i] == RefreshFlag && i + 1 < |args| then ParseU64(args[i + 1])
    else None
  }

  /** Reference definition: the interval of the last position below `n`
      that supplies one, or none at all. */
  function LastRefresh(args: seq<string>, n: nat): Option<U64>
    requires n <= |args|
  {
    if n == 0 then None
    else if RefreshAt(args, n - 1).Some? then RefreshAt(args, n - 1)
    else LastRefresh(args, n - 1)
  }

  /** No interval unless some position supplies one; otherwise the interval
      of a position after which none does. */
  lemma {:induction false} LastRefreshMeans(args: seq<string>, n: nat)
    requires n <= |args|
    ensures LastRefresh(args, n).None? <==> forall i :: 0 <= i < n ==> RefreshAt(args, i).None?
    ensures LastRefresh(args, n).Some? ==> exists i :: (0 <= i < n && RefreshAt(args, i) == LastRefresh(args, n) &&
      forall j :: i < j < n ==> RefreshAt(args, j).None?)
    decreases n
  {
    if n > 0 {
      LastRefreshMeans(args, n - 1);
      if RefreshAt(args, n - 1).Some? {
        assert RefreshAt(args, n - 1) == LastRefresh(args, n);
      } else {
        forall i | 0 <= i < n - 1 && RefreshAt(args, i) == LastRefresh(args, n - 1)
          && (forall j :: i < j < n - 1 ==> RefreshAt(args, j).None?)
          ensures forall j :: i < j < n ==> RefreshAt(args, j).None?
        {
        }
      }
    }
  }

  /** What position `i` does to the loop state. */
  function RefreshStep(args: seq<string>, i: nat, acc: Option<U64>): Option<U64>
    requires i < |args|
  {
    match RefreshAt(args, i)
    case Some(v) => Some(v)
    case None => acc
  }

  lemma ScanStatsStep(args: seq<string>, i: nat, acc: Option<U64>)
    requires i < |args|
    ensures ScanStats(args, i, acc) == ScanStats(args, i + 1, RefreshStep(args, i, acc))
  {
    assert StartsWith(args[i], RefreshPrefix) ==> args[i] != RefreshFlag;
  }

  /** The reference definition grows one position at a time as the loop does. */
  lemma LastRefreshStep(args: seq<string>, i: nat)
    requires i < |args|
    ensures LastRefresh(args, i + 1) == RefreshStep(args, i, LastRefresh(args, i))
  {
  }

  /** The loop state after position `i` is the last interval supplied so far. */
  lemma {:induction false} ScanStatsIsLastRefresh(args: seq<string>, i: nat, acc: Option<U64>)
    requires i <= |args|
    requires acc == LastRefresh(args, i)
    ensures ScanStats(args, i, acc) == LastRefresh(args, |args|)
    decreases |args| - i
  {
    if i < |args| {
      ScanStatsStep(args, i, acc);
      LastRefreshStep(args, i);
      ScanStatsIsLastRefresh(args, i + 1, RefreshStep(args, i, acc));
    }
  }

  function ParseStats(args: seq<string>): (r: ParseResult)
    ensures r.rawInput == Join(args, " ")
    ensures r.command == SystemStats(LastRefresh(args, |args|))
  {
    ScanStatsIsLastRefresh(args, 0, None);
    ParseResult(SystemStats(ScanStats(args, 0, None)), Join(args, " "))
  }

  // ---------------------------------------------------------------------
  // search / find, monitor
  // ---------------------------------------------------------------------

  function ParseSearch(args: seq<string>): (r: ParseResult)
    ensures r.rawInput == Join(args, " ")
    ensures |args| == 0 ==> r.command == Unknown("search: missing process name")
    ensures |args| > 0 ==>
      && r.command.SearchProcess?
      && r.command.name == args[0]
      && (r.command.exact <==> exists i :: 0 <= i < |args| && args[i] in ExactFlags)
  {
    var raw := Join(args, " ");
    if |args| == 0 then ParseResult(Unknown("search: missing process name"), raw)
    else ParseResult(SearchProcess(args[0], AnyIn(args, ExactFlags)), raw)
  }

  /** The `monitor` interval: the first argument as `u64`, else the default. */
  function MonitorInterval(args: seq<string>): (r: U64)
    ensures |args| > 0 && ParseU64(args[0]).Some? ==> Some(r) == ParseU64(args[0])
    ensures !(|args| > 0 && ParseU64(args[0]).Some?) ==> r == DefaultMonitorInterval
  {
    if |args| > 0 then ParseU64(args[0]).GetOr(DefaultMonitorInterval)
    else DefaultMonitorInterval
  }

  // ---------------------------------------------------------------------
  // The dispatcher
  // ---------------------------------------------------------------------

  /** `CommandParser::parse`. A blank line is `Help` with an empty raw input;
      otherwise the lower-cased first word selects the command. */
  function Parse(input: string): (r: ParseResult)
    ensures AllSpace(input) <==> r == ParseResult(Help, [])
  {
    var t := Trim(input);
    TrimSetFacts(input, WhiteSpace);
    if t == [] then ParseResult(Help, t)
    else
      var parts := Tokens(input);
      assert |parts| > 0 by {
        assert t[0] !in WhiteSpace;
      }
      var v := VerbOf(ToLower(parts[0]));
      DispatchIsNotBlank(v, parts[1..], t);
      Dispatch(v, parts[1..], t)
  }

  /** A recognised line never yields the result a blank line does: only the
      `help` verb builds `Help`, and it keeps the non-empty line. */
  lemma DispatchIsNotBlank(v: Verb, args: seq<string>, t: string)
    requires t != []
    ensures Dispatch(v, args, t) != ParseResult(Help, [])
  {
  }

  /** The verbs whose sub-parser keeps the argument words as raw input. */
  const SubParsed: set<Verb> := {ListVerb, KillVerb, InfoVerb, StatsVerb, SearchVerb}

  /** The command a verb builds from its argument words `args`; `t` is the
      whole trimmed line. */
  function Dispatch(v: Verb, args: seq<string>, t: string): (r: ParseResult)
    ensures r.command == Help <==> v == HelpVerb
    ensures r.command == Exit <==> v == ExitVerb
    ensures r.command.Monitor? <==> v == MonitorVerb
    ensures r.command.ListProcesses? <==> v == ListVerb
    ensures r.command.SystemStats? <==> v == StatsVerb
    ensures r.command.KillProcess? ==> v == KillVerb
    ensures r.command.ProcessInfo? ==> v == InfoVerb
    ensures r.command.SearchProcess? ==> v == SearchVerb
    ensures v == OtherVerb ==> r.command == Unknown(t)
    ensures v in SubParsed ==> r.rawInput == Join(args, " ")
    ensures v !in SubParsed ==> r.rawInput == t
  {
    match v
    case ListVerb => ParseList(args)
    case KillVerb => ParseKill(args)
    case InfoVerb => ParseInfo(args)
    case StatsVerb => ParseStats(args)
    case SearchVerb => ParseSearch(args)
    case MonitorVerb => ParseResult(Monitor(MonitorInterval(args)), t)
    case HelpVerb => ParseResult(Help, t)
    case ExitVerb => ParseResult(Exit, t)
    case OtherVerb => ParseResult(Unknown(t), t)
  }
}
