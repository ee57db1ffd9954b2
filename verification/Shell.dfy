/** quoteArg and canonicalRescan of report.js, read back by a lexer for POSIX shell words (sections 2.2.1,
    2.2.2 and 2.3 of the Shell Command Language, IEEE Std 1003.1-2017). */
module Shell {
  import opened Common

  // ---- the lexer --------------------------------------------------------------------------

  datatype Mode =
    | Between
    | Bare(word: string)
    | Quoted(word: string)          // inside single quotes
    | Escaped(before: Mode)         // after an unquoted backslash

  predicate Blank(c: char) {
    c == ' ' || c == '\t'
  }

  /** Unquoted characters that are an operator, start an expansion, a pattern, a comment or a tilde prefix,
      can form a reserved word alone, or open double quotes: a line that has one is not just words. */
  predicate Active(c: char) {
    c in "|&;<>()$`\"*?[]#~{}!\n"
  }

  function WordOf(mode: Mode): string {
    match mode
    case Between => ""
    case Bare(word) => word
    case Quoted(word) => word
    case Escaped(before) => WordOf(before)
  }

  /** The words of a line after quote removal; None when the line is unterminated or is more than words. */
  function Lex(s: string, mode: Mode): Option<seq<string>>
    decreases |s|
  {
    if s == "" then
      match mode
      case Between => Some([])
      case Bare(word) => Some([word])
      case _ => None
    else
      var c, rest := s[0], s[1..];
      if mode.Quoted? then
        if c == '\'' then Lex(rest, Bare(mode.word)) else Lex(rest, Quoted(mode.word + [c]))
      else if mode.Escaped? then
        if c == '\n' then Lex(rest, mode.before) else Lex(rest, Bare(WordOf(mode.before) + [c]))
      else if Blank(c) then
        var words := Lex(rest, Between);
        if mode.Between? then words else Flush(mode.word, words)
      else if c == '\'' then Lex(rest, Quoted(WordOf(mode)))
      else if c == '\\' then Lex(rest, Escaped(mode))
      else if Active(c) then None
      else Lex(rest, Bare(WordOf(mode) + [c]))
  }

  function Flush(word: string, words: Option<seq<string>>): Option<seq<string>> {
    if words.None? then None else Some([word] + words.value)
  }

  // ---- the printer ------------------------------------------------------------------------

  predicate Safe(c: char) {
    'A' <= c <= 'Z' || 'a' <= c <= 'z' || '0' <= c <= '9'
    || c == '_' || c == '.' || c == '/' || c == ':' || c == '=' || c == '@' || c == '+' || c == '-'
  }

  predicate AllSafe(s: string) {
    forall i | 0 <= i < |s| :: Safe(s[i])
  }

  function ReplaceQuotes(s: string): string {
    if s == "" then "" else (if s[0] == '\'' then "'\\''" else [s[0]]) + ReplaceQuotes(s[1..])
  }

  function QuoteArg(s: string): string {
    if s != "" && AllSafe(s) then s else "'" + ReplaceQuotes(s) + "'"
  }

  function CommandLine(args: seq<string>): string {
    if args == [] then ""
    else if |args| == 1 then QuoteArg(args[0])
    else QuoteArg(args[0]) + " " + CommandLine(args[1..])
  }

  /** displayed is the report path after displayReportPath. */
  function CanonicalRescan(target: string, displayed: string): string {
    "node index.js " + QuoteArg(target) + " --report " + QuoteArg(displayed)
  }

  // ---- reading back -----------------------------------------------------------------------

  lemma SafeStep(c: char, tail: string, mode: Mode)
    requires Safe(c) && (mode.Between? || mode.Bare?)
    ensures Lex([c] + tail, mode) == Lex(tail, Bare(WordOf(mode) + [c]))
  {
    assert ([c] + tail)[1..] == tail;
  }

  lemma {:induction false} SafeRun(s: string, rest: string, mode: Mode)
    requires AllSafe(s) && ((mode.Between? && s != "") || mode.Bare?)
    ensures Lex(s + rest, mode) == Lex(rest, Bare(WordOf(mode) + s))
    decreases |s|
  {
    if s == "" {
      assert s + rest == rest && WordOf(mode) + s == WordOf(mode);
    } else {
      hide Lex;
      SafeStep(s[0], s[1..] + rest, mode);
      SafeRun(s[1..], rest, Bare(WordOf(mode) + [s[0]]));
      assert s + rest == [s[0]] + (s[1..] + rest);
      assert WordOf(mode) + [s[0]] + s[1..] == WordOf(mode) + s;
    }
  }

  /** A quote inside a quoted argument closes it, stands escaped, and opens it again. */
  lemma QuoteStep(tail: string, word: string)
    ensures Lex("'\\''" + tail, Quoted(word)) == Lex(tail, Quoted(word + "'"))
  {
    var line := "'\\''" + tail;
    assert line == ['\'', '\\', '\'', '\''] + tail;
    assert line[1..][1..][1..][1..] == tail;
    assert Lex(line, Quoted(word)) == Lex(line[1..], Bare(word));
    assert Lex(line[1..], Bare(word)) == Lex(line[1..][1..], Escaped(Bare(word)));
    assert Lex(line[1..][1..], Escaped(Bare(word))) == Lex(line[1..][1..][1..], Bare(word + ['\'']));
  }

  lemma LiteralStep(c: char, tail: string, word: string)
    requires c != '\''
    ensures Lex([c] + tail, Quoted(word)) == Lex(tail, Quoted(word + [c]))
  {
    assert ([c] + tail)[1..] == tail;
  }

  lemma {:induction false} QuotedRun(s: string, rest: string, word: string)
    ensures Lex(ReplaceQuotes(s) + "'" + rest, Quoted(word)) == Lex(rest, Bare(word + s))
    decreases |s|
  {
    if s == "" {
      assert ReplaceQuotes(s) + "'" + rest == ['\''] + rest;
      assert (['\''] + rest)[1..] == rest && word + s == word;
    } else {
      hide Lex;
      var tail := ReplaceQuotes(s[1..]) + "'" + rest;
      QuotedRun(s[1..], rest, word + [s[0]]);
      assert word + [s[0]] + s[1..] == word + s;
      if s[0] == '\'' {
        assert ReplaceQuotes(s) + "'" + rest == "'\\''" + tail;
        QuoteStep(tail, word);
      } else {
        assert ReplaceQuotes(s) + "'" + rest == [s[0]] + tail;
        LiteralStep(s[0], tail, word);
      }
    }
  }

  lemma ArgumentReadBack(s: string, rest: string)
    ensures Lex(QuoteArg(s) + rest, Between) == Lex(rest, Bare(s))
  {
    if s != "" && AllSafe(s) {
      SafeRun(s, rest, Between);
      assert "" + s == s;
    } else {
      QuotedRun(s, rest, "");
      var line := QuoteArg(s) + rest;
      assert line == ['\''] + (ReplaceQuotes(s) + "'" + rest);
      assert line[1..] == ReplaceQuotes(s) + "'" + rest && "" + s == s;
    }
  }

  /** A word ends at a blank, or with the line. */
  lemma WordEnds(word: string, more: string)
    ensures Lex(" " + more, Bare(word)) == Flush(word, Lex(more, Between))
    ensures Lex("", Bare(word)) == Some([word])
  {
    var line := " " + more;
    assert line[0] == ' ' && line[1..] == more;
  }

  /** Any argument list, with empty strings, blanks and quotes, survives printing and lexing. */
  lemma {:induction false} CommandLineReadBack(args: seq<string>)
    ensures Lex(CommandLine(args), Between) == Some(args)
  {
    if args == [] {
    } else {
      hide Lex, QuoteArg, AllSafe, ReplaceQuotes;
      var more := CommandLine(args[1..]);
      WordEnds(args[0], more);
      if |args| == 1 {
        ArgumentReadBack(args[0], "");
        assert QuoteArg(args[0]) + "" == QuoteArg(args[0]);
        assert args == [args[0]];
      } else {
        ArgumentReadBack(args[0], " " + more);
        assert CommandLine(args) == QuoteArg(args[0]) + (" " + more);
        CommandLineReadBack(args[1..]);
        assert args == [args[0]] + args[1..];
      }
    }
  }

  lemma OneMore(word: string, args: seq<string>)
    requires args != []
    ensures CommandLine([word] + args) == QuoteArg(word) + " " + CommandLine(args)
  {
    assert ([word] + args)[1..] == args;
  }

  /** The rescan line is exactly five words, whatever the target and the report path are. */
  lemma RescanReadBack(target: string, displayed: string)
    ensures Lex(CanonicalRescan(target, displayed), Between) == Some(["node", "index.js", target, "--report", displayed])
  {
    hide Lex, ReplaceQuotes;
    LiteralWords();
    OneMore("--report", [displayed]);
    OneMore(target, ["--report", displayed]);
    OneMore("index.js", [target, "--report", displayed]);
    OneMore("node", ["index.js", target, "--report", displayed]);
    assert ["--report"] + [displayed] == ["--report", displayed];
    assert [target] + ["--report", displayed] == [target, "--report", displayed];
    assert ["index.js"] + [target, "--report", displayed] == ["index.js", target, "--report", displayed];
    var args := ["node"] + ["index.js", target, "--report", displayed];
    assert args == ["node", "index.js", target, "--report", displayed];
    SameLine(QuoteArg(target), QuoteArg(displayed));
    CommandLineReadBack(args);
  }

  lemma SameLine(t: string, d: string)
    ensures "node" + " " + ("index.js" + " " + (t + " " + ("--report" + " " + d))) == "node index.js " + t + " --report " + d
  {
    assert "node" + " " + "index.js" + " " == "node index.js ";
    assert " " + "--report" + " " == " --report ";
  }

  lemma LiteralWords()
    ensures QuoteArg("node") == "node" && QuoteArg("index.js") == "index.js" && QuoteArg("--report") == "--report"
  {
    ReportOption();
  }

  lemma ReportOption()
    ensures QuoteArg("--report") == "--report"
  {
    var s := "--report";
    assert Safe(s[0]) && Safe(s[1]) && Safe(s[2]) && Safe(s[3]) && Safe(s[4]) && Safe(s[5]) && Safe(s[6]) && Safe(s[7]);
    assert AllSafe(s);
  }

  /** The characters that need no quotes, by their codes. */
  predicate PlainCode(n: int) {
    n == 0x2b || 0x2d <= n <= 0x3a || n == 0x3d || 0x40 <= n <= 0x5a || n == 0x5f || 0x61 <= n <= 0x7a
  }

  lemma {:induction false} ReplacedIsLonger(s: string)
    ensures |s| <= |ReplaceQuotes(s)|
  {
    if s != "" { ReplacedIsLonger(s[1..]); }
  }

  /** An argument stays as it is exactly when it is not empty and has none but these characters. */
  lemma QuotedUnlessPlain(s: string)
    ensures QuoteArg(s) == s <==> s != "" && forall i | 0 <= i < |s| :: PlainCode(s[i] as int)
  {
    hide ReplaceQuotes;
    ReplacedIsLonger(s);
    assert forall c :: Safe(c) <==> PlainCode(c as int);
  }
}
