// The generated shell completion: which arm of the option cases fires, and
// that quoted words reach the shell unchanged.

module ShellQuoting {
  import opened Options

  const NUL := '\0'

  /** Closes the quotes around each single quote: ' becomes '\''. */
  function EscapeSingle(s: string): string {
    if s == [] then [] else (if s[0] == '\'' then "'\\''" else [s[0]]) + EscapeSingle(s[1..])
  }

  function ShellQuote(s: string): string { "'" + EscapeSingle(s) + "'" }

  /** A word read from shell text, and what is left after it. */
  datatype Read = Read(word: string, rest: string)

  /**
   * Reads one word: section 2.2.2 of the POSIX Shell Command Language inside single quotes, section 2.2.1 for a backslash
   * outside, and an unquoted space ends the word. Other unquoted characters and a NUL are not read here.
   */
  function ReadWord(s: string, quoted: bool): (r: Option<Read>)
    ensures r.Some? ==> |r.value.rest| <= |s|
    decreases |s|
  {
    if s == [] then (if quoted then None else Some(Read("", "")))
    else if s[0] == NUL then None
    else if quoted then (if s[0] == '\'' then ReadWord(s[1..], false) else Prefixed(s[0], ReadWord(s[1..], true)))
    else if s[0] == '\'' then ReadWord(s[1..], true)
    else if s[0] == '\\' then (if |s| < 2 || s[1] == '\n' || s[1] == NUL then None else Prefixed(s[1], ReadWord(s[2..], false)))
    else if s[0] == ' ' then Some(Read("", s))
    else None
  }

  function Prefixed(c: char, r: Option<Read>): Option<Read> {
    if r.None? then None else Some(Read([c] + r.value.word, r.value.rest))
  }

  /** Quoted words separated by single spaces, as an array literal lists them. */
  function QuoteAll(words: seq<string>): string {
    if words == [] then "" else if |words| == 1 then ShellQuote(words[0]) else ShellQuote(words[0]) + " " + QuoteAll(words[1..])
  }

  function ReadWords(s: string): Option<seq<string>>
    decreases |s|
  {
    if s == [] then Some([])
    else match ReadWord(s, false)
      case None => None
      case Some(r) =>
        if r.rest == [] then Some([r.word])
        else if r.rest == [' '] then None
        else
          match ReadWords(r.rest[1..])
          case None => None
          case Some(words) => Some([r.word] + words)
  }

  predicate HasNoNul(s: string) { NUL !in s }

  lemma EscapedQuoteReads(rest: string)
    ensures ReadWord("'\\''" + rest, true) == Prefixed('\'', ReadWord(rest, true))
  {
    var text := "'\\''" + rest;
    assert text[1..] == "\\''" + rest && text[1..][2..] == "'" + rest && ("'" + rest)[1..] == rest;
    assert ReadWord(text[1..], false) == Prefixed('\'', ReadWord("'" + rest, false));
  }

  /** Inside quotes, the escaped text is read up to where it ends: exactly, if it holds no NUL. */
  lemma {:induction false} EscapedReads(s: string, tail: string)
    requires tail == "" || tail[0] == ' '
    ensures ReadWord(EscapeSingle(s) + "'" + tail, true) == if HasNoNul(s) then Some(Read(s, tail)) else None
    decreases |s|
  {
    var text := EscapeSingle(s) + "'" + tail;
    if s == [] {
      assert text == "'" + tail && text[1..] == tail;
    } else {
      var rest := EscapeSingle(s[1..]) + "'" + tail;
      EscapedReads(s[1..], tail);
      assert HasNoNul(s) <==> s[0] != NUL && HasNoNul(s[1..]);
      if s[0] == '\'' {
        assert text == "'\\''" + rest;
        EscapedQuoteReads(rest);
        hide ReadWord;
      } else {
        assert text == [s[0]] + rest && text[1..] == rest;
      }
      assert s == [s[0]] + s[1..];
    }
  }

  /** A quoted word is read back unchanged exactly when it holds no NUL, whatever follows it. */
  lemma QuotedWordReadsBack(s: string, tail: string)
    requires tail == "" || tail[0] == ' '
    ensures ReadWord(ShellQuote(s) + tail, false) == if HasNoNul(s) then Some(Read(s, tail)) else None
  {
    var text := ShellQuote(s) + tail;
    assert text[1..] == EscapeSingle(s) + "'" + tail;
    EscapedReads(s, tail);
  }

  /** An array literal of quoted words is read back as the very list of words. */
  lemma {:induction false} QuotedListReadsBack(words: seq<string>)
    requires forall w :: w in words ==> HasNoNul(w)
    ensures ReadWords(QuoteAll(words)) == Some(words)
    decreases |words|
  {
    if |words| == 1 {
      QuotedWordReadsBack(words[0], "");
      assert ShellQuote(words[0]) + "" == ShellQuote(words[0]);
      assert words == [words[0]];
    } else if |words| > 1 {
      var tail := " " + QuoteAll(words[1..]);
      assert ShellQuote(words[0]) + " " + QuoteAll(words[1..]) == ShellQuote(words[0]) + tail;
      QuotedWordReadsBack(words[0], tail);
      QuotedListReadsBack(words[1..]);
      assert tail[1..] == QuoteAll(words[1..]) && QuoteAll(words[1..]) != [];
      assert words == [words[0]] + words[1..];
    }
  }
}

module CompletionDispatch {
  import opened Options
  import opened CommandTree

  datatype Entry = Entry(path: string, options: seq<string>)

  /** String.prototype.split on a space; the empty string has one empty word. */
  function Split(s: string): (words: seq<string>)
    ensures words != []
  {
    if s == [] then [""]
    else
      var rest := Split(s[1..]);
      if s[0] == ' ' then [""] + rest else [[s[0]] + rest[0]] + rest[1..]
  }

  /** An option arm: the quoted path itself, or the quoted path and a space followed by anything. */
  predicate ArmMatches(path: string, typed: string) {
    typed == path || path + " " <= typed
  }

  /** The arms are the entries with options, sorted by falling word count. */
  ghost predicate IsStaticOrder(entries: seq<Entry>, arms: seq<Entry>) {
    && (forall e :: e in arms <==> e in entries && e.options != [])
    && (forall i, j :: 0 <= i < j < |arms| ==> |Split(arms[i].path)| >= |Split(arms[j].path)|)
  }

  /** A shell case statement: the first arm that matches. */
  method Dispatch(arms: seq<Entry>, typed: string) returns (r: Option<Entry>)
    ensures r == FirstArm(arms, typed)
  {
    for i := 0 to |arms|
      invariant FirstArm(arms, typed) == FirstArm(arms[i..], typed)
    {
      assert arms[i..][0] == arms[i] && arms[i..][1..] == arms[i + 1..];
      if ArmMatches(arms[i].path, typed) { return Some(arms[i]); }
    }
    r := None;
  }

  function FirstArm(arms: seq<Entry>, typed: string): (r: Option<Entry>)
    ensures match r
      case Some(e) => e in arms && ArmMatches(e.path, typed)
      case None => forall e :: e in arms ==> !ArmMatches(e.path, typed)
  {
    if arms == [] then None
    else if ArmMatches(arms[0].path, typed) then Some(arms[0])
    else FirstArm(arms[1..], typed)
  }

  /** Matching an arm means that its words are a prefix of the typed words. */
  lemma {:induction false} MatchIsWordPrefix(path: string, typed: string)
    ensures ArmMatches(path, typed) <==> Split(path) <= Split(typed)
    decreases |path|
  {
    if path == [] {
      if typed != [] {
        assert Split(typed)[0] == "" <==> typed[0] == ' ';
        assert "" + " " <= typed <==> typed[0] == ' ';
      }
    } else if typed == [] {
      assert Split(path)[0] == "" ==> path[0] == ' ' && |Split(path)| > 1;
    } else {
      MatchIsWordPrefix(path[1..], typed[1..]);
      MatchStep(path, typed);
      SplitStep(path, typed);
    }
  }

  lemma MatchStep(path: string, typed: string)
    requires path != [] && typed != []
    ensures ArmMatches(path, typed) <==> path[0] == typed[0] && ArmMatches(path[1..], typed[1..])
  {
    assert path == [path[0]] + path[1..] && typed == [typed[0]] + typed[1..];
    assert (path + " ")[1..] == path[1..] + " ";
    if path[0] == typed[0] && path[1..] + " " <= typed[1..] {
      assert path + " " == [path[0]] + (path[1..] + " ");
    }
    if path + " " <= typed {
      assert forall i :: 0 <= i < |path[1..] + " "| ==> (path[1..] + " ")[i] == (path + " ")[i + 1] == typed[i + 1];
    }
  }

  lemma SplitStep(path: string, typed: string)
    requires path != [] && typed != []
    ensures Split(path) <= Split(typed) <==> path[0] == typed[0] && Split(path[1..]) <= Split(typed[1..])
  {
    var p, t := Split(path), Split(typed);
    var q, u := Split(path[1..]), Split(typed[1..]);
    if path[0] == ' ' && typed[0] == ' ' {
      assert p[1..] == q && t[1..] == u;
      PrefixStep(p, t);
    } else if path[0] != ' ' && typed[0] != ' ' {
      PrefixStep(p, t);
      PrefixStep(q, u);
      assert p[1..] == q[1..] && t[1..] == u[1..];
      assert p[0] == t[0] <==> path[0] == typed[0] && q[0] == u[0] by {
        assert p[0][1..] == q[0] && t[0][1..] == u[0];
        assert p[0][0] == path[0] && t[0][0] == typed[0];
      }
    } else {
      assert p[0] != t[0];
    }
  }

  lemma PrefixStep<T>(p: seq<T>, t: seq<T>)
    requires p != [] && t != []
    ensures p <= t <==> p[0] == t[0] && p[1..] <= t[1..]
  {
    if p[0] == t[0] && p[1..] <= t[1..] {
      forall i | 0 <= i < |p| ensures p[i] == t[i] { if i > 0 { assert p[1..][i - 1] == t[1..][i - 1]; } }
    }
  }

  lemma FirstArmIsEarliest(arms: seq<Entry>, typed: string, e: Entry)
    requires e in arms && ArmMatches(e.path, typed)
    requires forall i, j :: 0 <= i < j < |arms| ==> |Split(arms[i].path)| >= |Split(arms[j].path)|
    ensures FirstArm(arms, typed).Some? && |Split(FirstArm(arms, typed).value.path)| >= |Split(e.path)|
  {
    if !ArmMatches(arms[0].path, typed) {
      assert e in arms[1..];
      FirstArmIsEarliest(arms[1..], typed, e);
    } else {
      var i :| 0 <= i < |arms| && arms[i] == e;
    }
  }

  /** The option arm that fires belongs to the deepest entry with options whose words start the typed words. */
  lemma DispatchIsDeepest(entries: seq<Entry>, arms: seq<Entry>, typed: string)
    requires IsStaticOrder(entries, arms)
    ensures match FirstArm(arms, typed)
      case Some(e) =>
        && e in entries && e.options != [] && Split(e.path) <= Split(typed)
        && forall d :: d in entries && d.options != [] && Split(d.path) <= Split(typed) ==> Split(d.path) <= Split(e.path)
      case None => forall d :: d in entries && d.options != [] ==> !(Split(d.path) <= Split(typed))
  {
    var r := FirstArm(arms, typed);
    if r.Some? { MatchIsWordPrefix(r.value.path, typed); }
    forall d | d in entries && d.options != [] && Split(d.path) <= Split(typed)
      ensures r.Some? && Split(d.path) <= Split(r.value.path)
    {
      MatchIsWordPrefix(d.path, typed);
      FirstArmIsEarliest(arms, typed, d);
    }
  }

  lemma {:induction false} SplitInvertsJoin(words: seq<string>)
    requires words != [] && forall w :: w in words ==> ' ' !in w
    ensures Split(Join(words)) == words
    decreases |words|
  {
    if |words| == 1 {
      SplitWord(words[0], "");
      assert words[0] + "" == words[0] && words == [words[0]];
    } else {
      var tail := " " + Join(words[1..]);
      assert Join(words) == words[0] + tail;
      hide Split, Join;
      SplitInvertsJoin(words[1..]);
      SplitWord(words[0], tail);
      SplitSpace(Join(words[1..]));
      assert words == [words[0]] + words[1..];
    }
  }

  lemma SplitSpace(s: string)
    ensures Split(" " + s) == [""] + Split(s)
  {
    assert (" " + s)[1..] == s;
  }

  lemma {:induction false} SplitWord(w: string, tail: string)
    requires ' ' !in w && (tail == "" || tail[0] == ' ')
    ensures Split(w + tail) == [w] + Split(tail)[1..]
    decreases |w|
  {
    if w == [] {
      assert w + tail == tail;
    } else {
      assert (w + tail)[0] == w[0] && (w + tail)[1..] == w[1..] + tail;
      SplitWord(w[1..], tail);
      assert [w[0]] + w[1..] == w;
    }
  }

  predicate IsPlainPath(words: seq<string>) {
    forall w :: w in words ==> w != "" && ' ' !in w
  }

  /**
   * On paths of plain words the arm of a command matches exactly when its path starts the typed path, except that the
   * arm of the root never matches a typed command.
   */
  lemma ArmMatchesPrefix(path: seq<string>, typed: seq<string>)
    requires IsPlainPath(path) && IsPlainPath(typed)
    ensures ArmMatches(Join(path), Join(typed)) <==> path <= typed && (path == [] ==> typed == [])
  {
    MatchIsWordPrefix(Join(path), Join(typed));
    if path != [] { SplitInvertsJoin(path); } else { assert Split(Join(path)) == [""]; }
    if typed != [] { SplitInvertsJoin(typed); } else { assert Split(Join(typed)) == [""]; }
    if path == [] && typed != [] { assert typed[0] in typed; }
    if path != [] && typed == [] { assert path[0] in path; }
  }
}
