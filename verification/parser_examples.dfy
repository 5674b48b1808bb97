/** The three lines the parser's own unit tests feed it, and what each one
    parses to. A line of several words is written as those words joined by
    single spaces. */
module ParserExamples {
  import opened Outcomes
  import opened Strings
  import opened Numbers
  import opened CommandParser
  import opened ParserProperties

  /** `help` parses to `Help`. */
  lemma ParseHelpExample()
    ensures Parse("help").command == Help
  {
    SpellsHelp();
    ParseOfWords(["help"]);
  }

  /** `kill`, a pid word and a signal word. */
  lemma ParseKillLine(pidWord: string, pid: U32, sig: string)
    requires IsWord(pidWord) && ParseU32(pidWord) == Some(pid) && IsWord(sig)
    ensures Parse(Join(["kill", pidWord, sig], " ")).command == KillProcess(pid, Some(sig))
  {
    var ws := ["kill", pidWord, sig];
    SpellsKill();
    assert AllWords(ws);
    ParseOfWords(ws);
    assert ws[1..] == [pidWord, sig];
  }

  /** `kill 1234 SIGTERM` asks for signal `SIGTERM` to pid 1234. */
  lemma ParseKillExample()
    ensures Parse(Join(["kill", "1234", "SIGTERM"], " ")).command == KillProcess(1234, Some("SIGTERM"))
  {
    VisibleIsWord("1234");
    VisibleIsWord("SIGTERM");
    ParseDecimalU32(1234);
    assert Decimal(1234) == "1234";
    ParseKillLine("1234", 1234, "SIGTERM");
  }

  /** `ps`, an all flag, a user flag and its value, a sort flag and its value. */
  lemma ParseListLine(a: string, u: string, user: string, o: string, sortBy: string)
    requires a in AllFlags && u in UserFlags && o in SortFlags
    requires IsWord(a) && IsWord(u) && IsWord(user) && IsWord(o) && IsWord(sortBy)
    ensures Parse(Join(["ps", a, u, user, o, sortBy], " ")).command == ListProcesses(true, Some(user), Some(sortBy))
  {
    var args := [a, u, user, o, sortBy];
    var ws := ["ps"] + args;
    SpellsList();
    assert AllWords(ws);
    ParseOfWords(ws);
    assert ws[1..] == args;
    var all := NoListOptions.(all := true);
    var withUser := all.(user := Some(user));
    assert ScanList(args, 0, NoListOptions) == ScanList(args, 1, all);
    assert ScanList(args, 1, all) == ScanList(args, 3, withUser);
    assert ScanList(args, 3, withUser) == ScanList(args, 5, withUser.(sortBy := Some(sortBy)));
  }

  /** `ps -a -u root --sort cpu` sets all three list options. */
  lemma ParseListExample()
    ensures Parse(Join(["ps", "-a", "-u", "root", "--sort", "cpu"], " ")).command
      == ListProcesses(true, Some("root"), Some("cpu"))
  {
    VisibleIsWord("-a");
    VisibleIsWord("-u");
    VisibleIsWord("root");
    VisibleIsWord("--sort");
    VisibleIsWord("cpu");
    ParseListLine("-a", "-u", "root", "--sort", "cpu");
  }
}
