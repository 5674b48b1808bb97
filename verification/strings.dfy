/** The pieces of Rust's `str` API the process manager relies on: `trim`,
    `trim_matches`, `split_whitespace`, `lines`, `starts_with`, `join` and
    `to_lowercase`, each over `string` (a sequence of Unicode scalar values). */
module Strings {

  /** The characters `char::is_whitespace` accepts (the Unicode White_Space set). */
  const WhiteSpace: set<char> :=
    {'\t', '\n', '\U{B}', '\U{C}', '\r', ' ', '\U{85}', '\U{A0}', '\U{1680}',
     '\U{2000}', '\U{2001}', '\U{2002}', '\U{2003}', '\U{2004}', '\U{2005}',
     '\U{2006}', '\U{2007}', '\U{2008}', '\U{2009}', '\U{200A}', '\U{2028}',
     '\U{2029}', '\U{202F}', '\U{205F}', '\U{3000}'}

  predicate AllIn(s: string, cs: set<char>) {
    forall i :: 0 <= i < |s| ==> s[i] in cs
  }

  predicate AllSpace(s: string) {
    AllIn(s, WhiteSpace)
  }

  /** A token `split_whitespace` can yield: non-empty and free of whitespace. */
  predicate IsWord(w: string) {
    |w| > 0 && forall j :: 0 <= j < |w| ==> w[j] !in WhiteSpace
  }

  /** A non-empty run of printable ASCII other than the space is a word. */
  lemma VisibleIsWord(w: string)
    requires |w| > 0 && forall j :: 0 <= j < |w| ==> '!' <= w[j] <= '~'
    ensures IsWord(w)
  {
  }

  lemma WordHasNoLineFeed(w: string)
    requires IsWord(w)
    ensures '\n' !in w
  {
    forall j | 0 <= j < |w| ensures w[j] != '\n' {
      assert w[j] !in WhiteSpace;
    }
  }

  predicate AllWords(ws: seq<string>) {
    forall k :: 0 <= k < |ws| ==> IsWord(ws[k])
  }

  lemma AllWordsConcat(a: seq<string>, b: seq<string>)
    requires AllWords(a) && AllWords(b)
    ensures AllWords(a + b)
  {
    assert forall k :: |a| <= k < |a + b| ==> (a + b)[k] == b[k - |a|];
  }

  /** `str::starts_with` (stated by `StartsWithChars`). */
  predicate StartsWith(s: string, prefix: string)
  {
    |prefix| <= |s| && s[..|prefix|] == prefix
  }

  /** A text starts with `prefix` exactly when it agrees with `prefix`
      character by character, that is, exactly when it is `prefix` followed
      by something. */
  lemma StartsWithChars(s: string, prefix: string)
    ensures StartsWith(s, prefix) <==>
      |prefix| <= |s| && forall i :: 0 <= i < |prefix| ==> s[i] == prefix[i]
    ensures StartsWith(s, prefix) <==> exists rest :: s == prefix + rest
  {
    if StartsWith(s, prefix) {
      assert s == prefix + s[|prefix|..];
    }
    if exists rest :: s == prefix + rest {
      var rest :| s == prefix + rest;
      assert s[..|prefix|] == prefix;
    }
  }

  /** Number of leading characters of `s` that belong to `cs`. */
  function Lead(s: string, cs: set<char>): (n: nat)
    ensures n <= |s|
    ensures forall i :: 0 <= i < n ==> s[i] in cs
    ensures n < |s| ==> s[n] !in cs
  {
    if |s| > 0 && s[0] in cs then 1 + Lead(s[1..], cs) else 0
  }
  /** End of `s` once its trailing characters from `cs` are dropped. */
  function Trail(s: string, cs: set<char>): (n: nat)
    ensures n <= |s|
    ensures forall i :: n <= i < |s| ==> s[i] in cs
    ensures n > 0 ==> s[n - 1] !in cs
  {
    if |s| > 0 && s[|s| - 1] in cs then Trail(s[..|s| - 1], cs) else |s|
  }
  /** Strips `cs` characters from both ends (see `TrimSetFacts`). */
  function TrimSet(s: string, cs: set<char>): string {
    var lo := Lead(s, cs);
    s[lo..lo + Trail(s[lo..], cs)]
  }

  /** Trimming keeps the window of `s` that starts and ends outside `cs`, and
      everything cut away is in `cs`. */
  lemma TrimSetFacts(s: string, cs: set<char>)
    ensures var r, lo := TrimSet(s, cs), Lead(s, cs);
      && lo + |r| <= |s|
      && r == s[lo..lo + |r|]
      && (forall i :: 0 <= i < lo ==> s[i] in cs)
      && (forall i :: lo + |r| <= i < |s| ==> s[i] in cs)
      && (r == [] || (r[0] !in cs && r[|r| - 1] !in cs))
      && (r == [] <==> AllIn(s, cs))
  {
    TrimSetTail(s, cs, Lead(s, cs));
    TrimSetEnds(s, cs);
    TrimSetEmpty(s, cs);
  }

  /** The trimmed window neither starts nor ends with a character of `cs`. */
  lemma TrimSetEnds(s: string, cs: set<char>)
    ensures var r := TrimSet(s, cs); r == [] || (r[0] !in cs && r[|r| - 1] !in cs)
  {
    var lo := Lead(s, cs);
    var t := s[lo..];
    var r := t[..Trail(t, cs)];
    assert TrimSet(s, cs) == r;
    if r != [] {
      assert r[0] == t[0];
      assert r[|r| - 1] == t[Trail(t, cs) - 1];
    }
  }

  /** Trimming leaves nothing exactly when every character is in `cs`. */
  lemma TrimSetEmpty(s: string, cs: set<char>)
    ensures TrimSet(s, cs) == [] <==> AllIn(s, cs)
  {
    var lo := Lead(s, cs);
    TrimSetTail(s, cs, lo);
    if lo < |s| {
      assert s[lo] !in cs;
      assert Trail(s[lo..], cs) > 0 by {
        assert s[lo..][0] !in cs;
      }
    }
  }

  /** What `Trail` cuts from the part after the leading run lies in `cs`. */
  lemma TrimSetTail(s: string, cs: set<char>, lo: nat)
    requires lo <= |s|
    ensures forall i :: lo + Trail(s[lo..], cs) <= i < |s| ==> s[i] in cs
  {
    var t := s[lo..];
    forall i | lo + Trail(t, cs) <= i < |s| ensures s[i] in cs {
      assert s[i] == t[i - lo];
    }
  }

  /** `str::trim`: the window of `s` left once the whitespace at either end
      is cut away; only whitespace is cut, and the window neither starts nor
      ends with whitespace. */
  function Trim(s: string): (r: string)
    ensures var lo := Lead(s, WhiteSpace);
      && lo + |r| <= |s| && r == s[lo..lo + |r|]
      && forall i :: lo + |r| <= i < |s| ==> s[i] in WhiteSpace
    ensures r == [] || (r[0] !in WhiteSpace && r[|r| - 1] !in WhiteSpace)
    ensures r == [] <==> AllSpace(s)
  {
    TrimSetFacts(s, WhiteSpace);
    TrimSet(s, WhiteSpace)
  }

  /** `str::trim_matches(c)` for a single character `c`: the window of `s`
      left once the runs of `c` at either end are cut away. */
  function TrimMatches(s: string, c: char): (r: string)
    ensures var lo := Lead(s, {c});
      && lo + |r| <= |s| && r == s[lo..lo + |r|]
      && forall i :: lo + |r| <= i < |s| ==> s[i] == c
    ensures r == [] || (r[0] != c && r[|r| - 1] != c)
    ensures r == [] <==> AllIn(s, {c})
  {
    TrimSetFacts(s, {c});
    TrimSet(s, {c})
  }

  /** Length of the leading run of non-whitespace characters. */
  function WordLength(s: string): (n: nat)
    ensures n <= |s|
    ensures forall j :: 0 <= j < n ==> s[j] !in WhiteSpace
    ensures n < |s| ==> s[n] in WhiteSpace
  {
    if |s| == 0 || s[0] in WhiteSpace then 0 else 1 + WordLength(s[1..])
  }

  /** `str::split_whitespace`: the maximal whitespace-free runs, in order. */
  function Words(s: string): (r: seq<string>)
    ensures forall k :: 0 <= k < |r| ==> IsWord(r[k])
    ensures |r| == 0 <==> AllSpace(s)
    decreases |s|
  {
    if |s| == 0 then []
    else if s[0] in WhiteSpace then Words(s[1..])
    else
      var n := WordLength(s);
      [s[..n]] + Words(s[n..])
  }

  /** Total number of characters in `parts`. */
  function TotalLength(parts: seq<string>): nat {
    if |parts| == 0 then 0 else |parts[0]| + TotalLength(parts[1..])
  }

  /** `[T]::join(sep)`: nothing for no parts, the part itself for one, and
      one `sep` between each two neighbouring parts otherwise (stated by
      `JoinLength` and `JoinSnoc`). */
  function Join(parts: seq<string>, sep: string): string {
    if |parts| == 0 then []
    else if |parts| == 1 then parts[0]
    else parts[0] + sep + Join(parts[1..], sep)
  }

  /** First index of `c` in `s`, or `|s|` when `c` does not occur. */
  function IndexOf(s: string, c: char): (k: nat)
    ensures k <= |s|
    ensures forall j :: 0 <= j < k ==> s[j] != c
    ensures k < |s| ==> s[k] == c
  {
    if |s| == 0 || s[0] == c then 0 else 1 + IndexOf(s[1..], c)
  }

  /** `str::lines`: the text between line feeds; a final line feed does not
      open an extra empty line. */
  function Lines(s: string): (r: seq<string>)
    ensures forall k :: 0 <= k < |r| ==> '\n' !in r[k]
    ensures |r| == 0 <==> |s| == 0
    decreases |s|
  {
    if |s| == 0 then []
    else
      var k := IndexOf(s, '\n');
      if k == |s| then [s] else [s[..k]] + Lines(s[k + 1..])
  }

  function LowerChar(c: char): char {
    if 'A' <= c <= 'Z' then (c as int + 32) as char else c
  }

  /** `str::to_lowercase`, restricted to the ASCII letters: each character
      is lowered on its own. */
  function ToLower(s: string): (r: string)
    ensures |r| == |s|
    ensures forall i :: 0 <= i < |s| ==> r[i] == LowerChar(s[i])
  {
    if |s| == 0 then [] else [LowerChar(s[0])] + ToLower(s[1..])
  }

  // ---------------------------------------------------------------------
  // Properties
  // ---------------------------------------------------------------------

  predicate HasUpper(s: string) {
    exists i :: 0 <= i < |s| && 'A' <= s[i] <= 'Z'
  }

  /** Lower-casing maps every character through `LowerChar`, leaves no
      upper-case ASCII letter behind, and fixes words that have none. */
  lemma {:induction false} ToLowerFacts(s: string)
    ensures forall i :: 0 <= i < |s| ==> ToLower(s)[i] == LowerChar(s[i])
    ensures !HasUpper(ToLower(s))
    ensures !HasUpper(s) ==> ToLower(s) == s
  {
    if |s| > 0 {
      ToLowerFacts(s[1..]);
      var r := ToLower(s);
      assert r == [LowerChar(s[0])] + ToLower(s[1..]);
      forall i | 0 < i < |s| ensures r[i] == LowerChar(s[i]) {
        assert r[i] == ToLower(s[1..])[i - 1];
      }
      if !HasUpper(s) {
        assert !HasUpper(s[1..]) by {
          forall i | 0 <= i < |s| - 1 ensures !('A' <= s[1..][i] <= 'Z') {
            assert s[1..][i] == s[i + 1];
          }
        }
        assert s == [s[0]] + s[1..];
      }
    }
  }

  /** Lower-casing is idempotent, so a lower-case word is its own key. */
  lemma ToLowerIdempotent(s: string)
    ensures ToLower(ToLower(s)) == ToLower(s)
  {
    ToLowerFacts(s);
    ToLowerFacts(ToLower(s));
  }

  lemma JoinCons(w: string, rest: seq<string>, sep: string)
    requires |rest| > 0
    ensures Join([w] + rest, sep) == w + sep + Join(rest, sep)
  {
    assert ([w] + rest)[1..] == rest;
  }

  /** The joined text holds every character of the parts and one `sep`
      between each two neighbouring parts, and nothing else. */
  lemma {:induction false} JoinLength(parts: seq<string>, sep: string)
    ensures |parts| == 0 ==> Join(parts, sep) == []
    ensures |parts| == 1 ==> Join(parts, sep) == parts[0]
    ensures |parts| > 0 ==> |Join(parts, sep)| == TotalLength(parts) + (|parts| - 1) * |sep|
  {
    if |parts| > 1 {
      JoinLength(parts[1..], sep);
    }
  }

  /** Joining one more part appends a separator and that part: `Join` read
      from the back, as the parts are pushed one by one. */
  lemma {:induction false} JoinSnoc(parts: seq<string>, p: string, sep: string)
    requires |parts| > 0
    ensures Join(parts + [p], sep) == Join(parts, sep) + sep + p
  {
    var ext := parts + [p];
    if |parts| == 1 {
      assert ext[1..] == [p];
    } else {
      assert ext[1..] == parts[1..] + [p];
      JoinSnoc(parts[1..], p, sep);
    }
  }

  /** A word followed by whitespace ends exactly where the word ends. */
  lemma WordLengthOfWord(w: string, tail: string)
    requires IsWord(w)
    requires tail == [] || tail[0] in WhiteSpace
    ensures WordLength(w + tail) == |w|
  {
    var s := w + tail;
    assert forall j :: 0 <= j < |w| ==> s[j] == w[j];
    assert |w| < |s| ==> s[|w|] == tail[0];
  }

  /** Splitting words joined by single spaces gives the words back. */
  lemma {:induction false} WordsOfJoin(ws: seq<string>)
    requires AllWords(ws)
    ensures Words(Join(ws, " ")) == ws
  {
    if |ws| == 0 {
    } else if |ws| == 1 {
      var w := ws[0];
      WordLengthOfWord(w, []);
      assert w + [] == w;
      assert w[..|w|] == w;
      assert w[|w|..] == [];
    } else {
      var w, rest := ws[0], ws[1..];
      var j := Join(rest, " ");
      JoinCons(w, rest, " ");
      assert [w] + rest == ws;
      var s := w + " " + j;
      assert s == w + (" " + j);
      WordLengthOfWord(w, " " + j);
      assert s[..|w|] == w;
      assert s[|w|..] == " " + j;
      assert (" " + j)[1..] == j;
      WordsOfJoin(rest);
    }
  }

  /** Leading whitespace yields no word. */
  lemma {:induction false} WordsAfterSpace(a: string, s: string)
    requires AllSpace(a)
    ensures Words(a + s) == Words(s)
    decreases |a|
  {
    if |a| > 0 {
      var t := a + s;
      assert t[0] == a[0] && t[1..] == a[1..] + s;
      assert Words(t) == Words(t[1..]);
      assert AllSpace(a[1..]) by {
        forall i | 0 <= i < |a| - 1 ensures a[1..][i] in WhiteSpace {
          assert a[1..][i] == a[i + 1];
        }
      }
      WordsAfterSpace(a[1..], s);
    } else {
      assert a + s == s;
    }
  }

  /** A word followed by nothing or by whitespace is split off whole. */
  lemma WordsOfWordThen(w: string, s: string)
    requires IsWord(w)
    requires s == [] || s[0] in WhiteSpace
    ensures Words(w + s) == [w] + Words(s)
  {
    var t := w + s;
    WordLengthOfWord(w, s);
    assert t[0] == w[0];
    assert t[..|w|] == w && t[|w|..] == s;
  }

  /** Appending text that starts with whitespace does not lengthen the
      leading word. */
  lemma {:induction false} WordLengthAppend(a: string, t: string)
    requires t == [] || t[0] in WhiteSpace
    ensures WordLength(a + t) == WordLength(a)
    decreases |a|
  {
    if |a| > 0 && a[0] !in WhiteSpace {
      var s := a + t;
      assert s[0] == a[0] && s[1..] == a[1..] + t;
      WordLengthAppend(a[1..], t);
    }
  }

  /** A non-empty run of whitespace separates: the words of the text around it
      are the words before it followed by the words after it, whatever the
      run holds (spaces, tabs, several of them). */
  lemma {:induction false} WordsSplit(a: string, g: string, b: string)
    requires |g| > 0 && AllSpace(g)
    ensures Words(a + g + b) == Words(a) + Words(b)
    decreases |a|
  {
    var s := a + g + b;
    if |a| == 0 {
      assert s == g + b;
      WordsAfterSpace(g, b);
    } else if a[0] in WhiteSpace {
      assert s[0] == a[0] && s[1..] == a[1..] + g + b;
      WordsSplit(a[1..], g, b);
    } else {
      var n := WordLength(a);
      assert s == a + (g + b);
      WordLengthAppend(a, g + b);
      assert s[0] == a[0];
      assert s[..n] == a[..n] && s[n..] == a[n..] + g + b;
      WordsSplit(a[n..], g, b);
    }
  }

  /** Words laid out between whitespace runs: `gaps[0] ws[0] gaps[1] ...
      ws[n-1] gaps[n]`. */
  function Interleave(gaps: seq<string>, ws: seq<string>): string
    requires |gaps| == |ws| + 1
  {
    if |ws| == 0 then gaps[0] else gaps[0] + ws[0] + Interleave(gaps[1..], ws[1..])
  }

  /** Every run is whitespace, and the runs between two words are not empty;
      the runs at either end may be. */
  predicate Separators(gaps: seq<string>) {
    forall k :: 0 <= k < |gaps| ==> AllSpace(gaps[k]) && (0 < k < |gaps| - 1 ==> |gaps[k]| > 0)
  }

  /** Splitting words laid out with any whitespace between them, and any
      leading or trailing whitespace, gives the words back. */
  lemma {:induction false} WordsOfInterleave(gaps: seq<string>, ws: seq<string>)
    requires |gaps| == |ws| + 1 && Separators(gaps) && AllWords(ws)
    ensures Words(Interleave(gaps, ws)) == ws
    decreases |ws|
  {
    if |ws| > 0 {
      var r := Interleave(gaps[1..], ws[1..]);
      assert Interleave(gaps, ws) == gaps[0] + (ws[0] + r);
      WordsAfterSpace(gaps[0], ws[0] + r);
      if |ws| > 1 {
        assert r == gaps[1] + ws[1] + Interleave(gaps[2..], ws[2..]);
        assert r[0] == gaps[1][0];
      } else {
        assert r == gaps[1];
      }
      WordsOfWordThen(ws[0], r);
      assert Separators(gaps[1..]) by {
        forall k | 0 <= k < |gaps[1..]| ensures gaps[1..][k] == gaps[k + 1] { }
      }
      WordsOfInterleave(gaps[1..], ws[1..]);
      assert [ws[0]] + ws[1..] == ws;
    }
  }

  /** The first character of a join is the first character of its first part. */
  lemma {:induction false} JoinEnds(ws: seq<string>, sep: string)
    requires |ws| > 0 && forall k :: 0 <= k < |ws| ==> |ws[k]| > 0
    ensures var j := Join(ws, sep);
      |j| > 0 && j[0] == ws[0][0] && j[|j| - 1] == ws[|ws| - 1][|ws[|ws| - 1]| - 1]
  {
    if |ws| > 1 {
      JoinEnds(ws[1..], sep);
    }
  }

  /** Words joined by single spaces are already trimmed. */
  lemma TrimOfJoin(ws: seq<string>)
    requires |ws| > 0 && AllWords(ws)
    ensures Trim(Join(ws, " ")) == Join(ws, " ")
  {
    var j := Join(ws, " ");
    JoinEnds(ws, " ");
    TrimSetFacts(j, WhiteSpace);
    assert Lead(j, WhiteSpace) == 0;
    assert j[0..] == j;
    assert Trail(j, WhiteSpace) == |j|;
    assert j[0..|j|] == j;
  }

  /** The line feed a text ends with, if any. */
  function FinalNewline(s: string): string {
    if |s| > 0 && s[|s| - 1] == '\n' then "\n" else ""
  }

  /** A text with a line feed at `k` is the text before it, the line feed,
      and the text after it; the text after it ends the same way. */
  lemma SplitAt(s: string, k: nat)
    requires k < |s| && s[k] == '\n'
    ensures s == s[..k] + "\n" + s[k + 1..]
    ensures |s[k + 1..]| > 0 ==> FinalNewline(s) == FinalNewline(s[k + 1..])
  {
    assert s == s[..k] + [s[k]] + s[k + 1..];
    if |s[k + 1..]| > 0 {
      assert s[|s| - 1] == s[k + 1..][|s| - k - 2];
    }
  }

  /** Re-joining the lines with line feeds restores the text, apart from a
      final line feed that `Lines` absorbs. */
  lemma {:induction false} JoinOfLines(s: string)
    ensures Join(Lines(s), "\n") + FinalNewline(s) == s
    decreases |s|
  {
    if |s| > 0 {
      var k := IndexOf(s, '\n');
      if k == |s| {
        assert Lines(s) == [s];
      } else {
        var head, rest := s[..k], s[k + 1..];
        SplitAt(s, k);
        assert Lines(s) == [head] + Lines(rest);
        if |rest| == 0 {
          assert Lines(s) == [head];
        } else {
          var ls := Lines(rest);
          JoinOfLines(rest);
          JoinCons(head, ls, "\n");
          var jr, f := Join(ls, "\n"), FinalNewline(rest);
          assert head + "\n" + jr + f == head + "\n" + (jr + f);
        }
      }
    }
  }

  /** Trimming a text whose `cs` characters all lie in a leading and a
      trailing run gives back what lies between the runs. */
  lemma TrimSetWindow(a: string, m: string, b: string, cs: set<char>)
    requires AllIn(a, cs) && AllIn(b, cs)
    requires m == [] || (m[0] !in cs && m[|m| - 1] !in cs)
    ensures TrimSet(a + m + b, cs) == m
  {
    var s := a + m + b;
    TrimSetFacts(s, cs);
    assert forall i :: 0 <= i < |a| ==> s[i] == a[i];
    assert forall i :: |a| + |m| <= i < |s| ==> s[i] == b[i - |a| - |m|];
    if m == [] {
      assert AllIn(s, cs);
    } else {
      var r := TrimSet(s, cs);
      assert s[|a|] == m[0];
      assert s[|a| + |m| - 1] == m[|m| - 1];
      assert Lead(s, cs) == |a|;
      assert |r| == |m|;
      assert r == s[|a|..|a| + |m|];
    }
  }

  /** A text without line feeds is a single line. */
  lemma IndexOfLineFeed(a: string, b: string)
    requires '\n' !in a
    ensures IndexOf(a + "\n" + b, '\n') == |a|
  {
    var s := a + "\n" + b;
    assert s[|a|] == '\n';
    assert forall j :: 0 <= j < |a| ==> s[j] == a[j];
  }

  /** Splitting lines joined by line feeds gives the lines back, provided no
      line holds a line feed and the last one is not empty. */
  lemma {:induction false} LinesOfJoin(ls: seq<string>)
    requires forall k :: 0 <= k < |ls| ==> '\n' !in ls[k]
    requires |ls| > 0 ==> ls[|ls| - 1] != []
    ensures Lines(Join(ls, "\n")) == ls
  {
    if |ls| == 1 {
      var s := ls[0];
      assert IndexOf(s, '\n') == |s|;
    } else if |ls| > 1 {
      var rest := Join(ls[1..], "\n");
      var s := ls[0] + "\n" + rest;
      IndexOfLineFeed(ls[0], rest);
      assert s[..|ls[0]|] == ls[0];
      assert s[|ls[0]| + 1..] == rest;
      LinesOfJoin(ls[1..]);
      assert [ls[0]] + ls[1..] == ls;
    }
  }
}
