/** Shell quoting of suggested commands, against the way a POSIX shell takes words apart. */
module ShellQuote {
  import opened Wrappers
  import Text

  predicate IsSafe(c: char) {
    'a' <= c <= 'z' || 'A' <= c <= 'Z' || '0' <= c <= '9' || c in ['-', '_', '.', '/', ':', '@']
  }

  predicate AllSafe(s: string) {
    forall i :: 0 <= i < |s| ==> IsSafe(s[i])
  }

  /** `str::replace` of one character. */
  function Replace(s: string, c: char, sub: string): string {
    if s == "" then "" else (if s[0] == c then sub else [s[0]]) + Replace(s[1..], c, sub)
  }

  const ESCAPED_QUOTE := "'\\''"

  /** The quoted form of a value that is not safe as it is. */
  function InQuotes(v: string): string {
    "'" + Replace(v, '\'', ESCAPED_QUOTE) + "'"
  }

  function ShellQuoteArg(value: string): string {
    if value != "" && AllSafe(value) then value
    else InQuotes(value)
  }

  // ---------------------------------------------------------------- the shell

  /**
   Characters that mean something when unquoted (XCU section 2.2), apart from the two quoting characters
   and the blanks handled below: operators, expansions, patterns, comments, tildes, assignments, braces.
   */
  predicate IsSpecial(c: char) {
    c in ['|', '&', ';', '<', '>', '(', ')', '$', '`', '"', '\n', '*', '?', '[', '#', '~', '=', '%', '{', '}', '!']
  }

  predicate IsBlank(c: char) {
    c == ' ' || c == '\t'
  }

  /** The text up to the closing single quote, and what follows it (section 2.2.2). */
  function SingleQuoted(s: string): (r: Option<(string, string)>)
    ensures r.Some? ==> |r.value.1| < |s|
  {
    if s == "" then None
    else if s[0] == '\'' then Some(("", s[1..]))
    else
      match SingleQuoted(s[1..])
      case None => None
      case Some((text, rest)) => Some(([s[0]] + text, rest))
  }

  /**
   The words a POSIX shell reads from `s`, with quotes removed: escape characters (section 2.2.1), single
   quotes (2.2.2) and token recognition (2.3). `word` is the word being read, if any. None when something
   unquoted would make the shell do more than read words, or a quotation does not end.
   */
  function Words(s: string, word: Option<string>): Option<seq<string>>
    decreases |s|
  {
    if s == "" then Some(if word.Some? then [word.value] else [])
    else if s[0] == '\'' then
      (match SingleQuoted(s[1..])
       case None => None
       case Some((text, rest)) => Words(rest, Some(word.UnwrapOr("") + text)))
    else if s[0] == '\\' then
      if |s| < 2 then None
      else if s[1] == '\n' then Words(s[2..], word)     // a line continuation is removed
      else Words(s[2..], Some(word.UnwrapOr("") + [s[1]]))
    else if IsBlank(s[0]) then
      match Words(s[1..], None)
      case None => None
      case Some(rest) => Some((if word.Some? then [word.value] else []) + rest)
    else if IsSpecial(s[0]) then None
    else Words(s[1..], Some(word.UnwrapOr("") + [s[0]]))
  }

  function ShellWords(s: string): Option<seq<string>> {
    Words(s, None)
  }

  // ---------------------------------------------------------------- quoting is undone

  lemma {:induction false} SafeIsPlain(c: char)
    requires IsSafe(c)
    ensures c != '\'' && c != '\\' && !IsBlank(c) && !IsSpecial(c)
  {
  }

  /** A run of safe characters goes into the word as it is. */
  lemma {:induction false} SafeExtendsWord(v: string, rest: string, word: string)
    requires AllSafe(v)
    ensures Words(v + rest, Some(word)) == Words(rest, Some(word + v))
    decreases |v|
  {
    if v == "" {
      assert v + rest == rest && word + v == word;
    } else {
      SafeIsPlain(v[0]);
      assert (v + rest)[0] == v[0] && (v + rest)[1..] == v[1..] + rest;
      SafeExtendsWord(v[1..], rest, word + [v[0]]);
      assert word + [v[0]] + v[1..] == word + v;
    }
  }

  /** Inside single quotes, text without a quote ends at the first quote after it. */
  lemma {:induction false} QuoteEnds(text: string, rest: string)
    requires '\'' !in text
    ensures SingleQuoted(text + "'" + rest) == Some((text, rest))
    decreases |text|
  {
    var s := text + "'" + rest;
    if text == "" {
      assert s[0] == '\'' && s[1..] == rest;
    } else {
      assert s[0] == text[0] && s[1..] == text[1..] + "'" + rest;
      QuoteEnds(text[1..], rest);
      assert [text[0]] + text[1..] == text;
    }
  }

  /** The text before the first quote, which `Replace` leaves alone. */
  function Plain(v: string): (n: nat)
    ensures n <= |v|
    ensures forall i :: 0 <= i < n ==> v[i] != '\''
    ensures n < |v| ==> v[n] == '\''
  {
    if v == "" || v[0] == '\'' then 0 else 1 + Plain(v[1..])
  }

  lemma {:induction false} ReplaceSplits(v: string, sub: string)
    ensures Replace(v, '\'', sub) == v[..Plain(v)] + (
      if Plain(v) == |v| then "" else sub + Replace(v[Plain(v) + 1..], '\'', sub))
    decreases |v|
  {
    if v != "" && v[0] != '\'' {
      ReplaceSplits(v[1..], sub);
      assert v[..Plain(v)] == [v[0]] + v[1..][..Plain(v[1..])];
      assert Plain(v) < |v| ==> v[Plain(v) + 1..] == v[1..][Plain(v[1..]) + 1..];
    }
  }

  lemma {:induction false} InQuotesPlain(v: string, rest: string)
    requires Plain(v) == |v|
    ensures InQuotes(v) + rest == "'" + (v + "'" + rest)
  {
    ReplaceSplits(v, ESCAPED_QUOTE);
    assert v[..|v|] == v;
  }

  lemma {:induction false} Regroup(text: string, more: string, rest: string)
    ensures "'" + (text + (ESCAPED_QUOTE + more)) + "'" + rest == "'" + (text + "'" + ("\\'" + ("'" + more + "'" + rest)))
  {
  }

  lemma {:induction false} InQuotesMore(v: string, rest: string)
    requires Plain(v) < |v|
    ensures InQuotes(v) + rest == "'" + (v[..Plain(v)] + "'" + ("\\'" + (InQuotes(v[Plain(v) + 1..]) + rest)))
  {
    ReplaceSplits(v, ESCAPED_QUOTE);
    Regroup(v[..Plain(v)], Replace(v[Plain(v) + 1..], '\'', ESCAPED_QUOTE), rest);
  }

  lemma {:induction false} ReadsQuotation(text: string, tail: string, word: Option<string>)
    requires '\'' !in text
    ensures Words("'" + (text + "'" + tail), word) == Words(tail, Some(word.UnwrapOr("") + text))
  {
    var s := "'" + (text + "'" + tail);
    assert s[0] == '\'' && s[1..] == text + "'" + tail;
    QuoteEnds(text, tail);
  }

  lemma {:induction false} ReadsEscapedQuote(tail: string, word: string)
    ensures Words("\\'" + tail, Some(word)) == Words(tail, Some(word + "'"))
  {
  }

  lemma {:induction false} QuoteRejoins(v: string, word: string)
    requires Plain(v) < |v|
    ensures word + v[..Plain(v)] + "'" + v[Plain(v) + 1..] == word + v
  {
  }

  /** The quoted form, read from its opening quote on, adds exactly `v` to the word. */
  lemma {:induction false} QuotedExtendsWord(v: string, rest: string, word: Option<string>)
    ensures Words(InQuotes(v) + rest, word) == Words(rest, Some(word.UnwrapOr("") + v))
    decreases |v|
  {
    var n := Plain(v);
    if n == |v| {
      InQuotesPlain(v, rest);
      ReadsQuotation(v, rest, word);
    } else {
      var text, more := v[..n], v[n + 1..];
      var tail := InQuotes(more) + rest;
      InQuotesMore(v, rest);
      ReadsQuotation(text, "\\'" + tail, word);
      var read := word.UnwrapOr("") + text;
      ReadsEscapedQuote(tail, read);
      QuotedExtendsWord(more, rest, Some(read + "'"));
      QuoteRejoins(v, word.UnwrapOr(""));
    }
  }

  lemma {:induction false} SafeStartsWord(v: string, rest: string)
    requires v != "" && AllSafe(v)
    ensures Words(v + rest, None) == Words(rest, Some(v))
  {
    SafeIsPlain(v[0]);
    ReadsPlain(v[0], v[1..] + rest);
    Glued([v[0]], v[1..], rest);
    HeadAndTail(v);
    SafeExtendsWord(v[1..], rest, [v[0]]);
  }

  lemma {:induction false} ReadsPlain(c: char, tail: string)
    requires c != '\'' && c != '\\' && !IsBlank(c) && !IsSpecial(c)
    ensures Words([c] + tail, None) == Words(tail, Some([c]))
  {
    var s := [c] + tail;
    assert s[0] == c && s[1..] == tail && "" + [c] == [c];
  }

  /** Whatever the value, its quoted form is read back as that value, before anything that follows. */
  lemma {:induction false} QuotedIsOneArgument(v: string, rest: string)
    ensures Words(ShellQuoteArg(v) + rest, None) == Words(rest, Some(v))
  {
    if v != "" && AllSafe(v) {
      SafeStartsWord(v, rest);
    } else {
      QuotedExtendsWord(v, rest, None);
      assert "" + v == v;
    }
  }

  /** For every string, including the empty one and strings of quotes: one word, the string itself. */
  lemma {:induction false} QuoteRoundTrip(v: string)
    ensures ShellWords(ShellQuoteArg(v)) == Some([v])
  {
    QuotedIsOneArgument(v, "");
    assert ShellQuoteArg(v) + "" == ShellQuoteArg(v);
  }

  /** Different values have different quoted forms. */
  lemma {:induction false} QuoteIsInjective(v: string, w: string)
    requires ShellQuoteArg(v) == ShellQuoteArg(w)
    ensures v == w
  {
    QuoteRoundTrip(v);
    QuoteRoundTrip(w);
  }

  // ---------------------------------------------------------------- whole commands

  /** Quoted arguments, separated by spaces. */
  function CommandLine(args: seq<string>): string {
    if args == [] then ""
    else if |args| == 1 then ShellQuoteArg(args[0])
    else ShellQuoteArg(args[0]) + " " + CommandLine(args[1..])
  }

  function Then(word: string, rest: Option<seq<string>>): Option<seq<string>> {
    match rest case None => None case Some(words) => Some([word] + words)
  }

  /** A blank ends the word before it (section 2.3). */
  lemma {:induction false} ReadsBlank(tail: string, word: string)
    ensures Words(" " + tail, Some(word)) == Then(word, Words(tail, None))
  {
  }

  lemma {:induction false} ReadsFirst(arg: string, line: string)
    ensures ShellWords(ShellQuoteArg(arg) + " " + line) == Then(arg, ShellWords(line))
  {
    QuotedIsOneArgument(arg, " " + line);
    ReadsBlank(line, arg);
    Glued(ShellQuoteArg(arg), " ", line);
  }

  lemma {:induction false} Glued(a: string, b: string, c: string)
    ensures a + (b + c) == a + b + c
  {
  }

  lemma {:induction false} HeadAndTail<T>(s: seq<T>)
    requires s != []
    ensures [s[0]] + s[1..] == s
  {
  }

  /** The shell reads a line of quoted arguments as those arguments. */
  lemma {:induction false} ArgumentsRoundTrip(args: seq<string>)
    ensures ShellWords(CommandLine(args)) == Some(args)
    decreases |args|
  {
    if args != [] {
      HeadAndTail(args);
      if |args| == 1 {
        assert args == [args[0]];
        QuoteRoundTrip(args[0]);
      } else {
        ReadsFirst(args[0], CommandLine(args[1..]));
        ArgumentsRoundTrip(args[1..]);
      }
    }
  }

  function ResumeCommand(sessionId: string): string {
    "codex resume " + ShellQuoteArg(sessionId)
  }

  function ResumeArgv(sessionId: string): seq<string> {
    ["codex", "resume", sessionId]
  }

  lemma {:induction false} SafeQuotesToItself(s: string)
    requires s != "" && AllSafe(s)
    ensures ShellQuoteArg(s) == s
  {
  }

  lemma {:induction false} ResumeSplits(id: string)
    ensures "codex resume " + id == "codex" + " " + ("resume" + " " + id)
  {
  }

  lemma {:induction false} CommandLineOf(arg: string, more: seq<string>)
    ensures CommandLine([arg] + more) ==
      if more == [] then ShellQuoteArg(arg) else ShellQuoteArg(arg) + " " + CommandLine(more)
  {
  }

  /** The command shown for resuming a session is the argument list given beside it. */
  lemma {:induction false} ResumeCommandIsItsArgv(sessionId: string)
    ensures ShellWords(ResumeCommand(sessionId)) == Some(ResumeArgv(sessionId))
  {
    SafeQuotesToItself("codex");
    SafeQuotesToItself("resume");
    ResumeSplits(ShellQuoteArg(sessionId));
    CommandLineOf("codex", ["resume", sessionId]);
    CommandLineOf("resume", [sessionId]);
    CommandLineOf(sessionId, []);
    assert ["codex"] + ["resume", sessionId] == ResumeArgv(sessionId);
    assert ["resume"] + [sessionId] == ["resume", sessionId] && [sessionId] + [] == [sessionId];
    ArgumentsRoundTrip(ResumeArgv(sessionId));
  }

  // ---------------------------------------------------------------- what was searched for

  predicate Blank(s: string) {
    Text.Trim(s) == ""
  }

  function Rendered(terms: seq<string>): seq<string> {
    if terms == [] then []
    else (if Blank(terms[0]) then [] else ["--term " + ShellQuoteArg(terms[0])]) + Rendered(terms[1..])
  }

  function JoinSpace(parts: seq<string>): string {
    if parts == [] then "" else if |parts| == 1 then parts[0] else parts[0] + " " + JoinSpace(parts[1..])
  }

  function SearchTarget(query: string, terms: seq<string>): string {
    if !Blank(query) then ShellQuoteArg(query)
    else if Rendered(terms) == [] then "search"
    else JoinSpace(Rendered(terms))
  }

  /** The arguments of the search. */
  function TermArgs(terms: seq<string>): seq<string> {
    if terms == [] then []
    else (if Blank(terms[0]) then [] else ["--term", terms[0]]) + TermArgs(terms[1..])
  }

  lemma {:induction false} TermSplits(quoted: string)
    ensures "--term " + quoted == "--term" + " " + quoted
  {
  }

  lemma {:induction false} JoinOf(part: string, others: seq<string>)
    ensures JoinSpace([part] + others) == if others == [] then part else part + " " + JoinSpace(others)
  {
  }

  lemma {:induction false} Associates(a: string, b: string, c: string, d: string)
    ensures a + b + c + d == a + (b + c + d)
  {
  }

  lemma {:induction false} TermRendered(term: string, others: seq<string>, more: seq<string>)
    requires JoinSpace(others) == CommandLine(more) && (others == [] <==> more == [])
    ensures JoinSpace(["--term " + ShellQuoteArg(term)] + others) == CommandLine(["--term"] + ([term] + more))
  {
    var quoted := ShellQuoteArg(term);
    SafeQuotesToItself("--term");
    JoinOf("--term " + quoted, others);
    CommandLineOf("--term", [term] + more);
    CommandLineOf(term, more);
    TermSplits(quoted);
    Associates("--term" + " ", quoted, " ", JoinSpace(others));
  }

  lemma {:induction false} RenderedFirst(terms: seq<string>)
    requires terms != []
    ensures Blank(terms[0]) ==> Rendered(terms) == Rendered(terms[1..]) && TermArgs(terms) == TermArgs(terms[1..])
    ensures !Blank(terms[0]) ==> Rendered(terms) == ["--term " + ShellQuoteArg(terms[0])] + Rendered(terms[1..])
    ensures !Blank(terms[0]) ==> TermArgs(terms) == ["--term"] + ([terms[0]] + TermArgs(terms[1..]))
  {
    TwoFirst("--term", terms[0], TermArgs(terms[1..]));
  }

  lemma {:induction false} TwoFirst<T>(a: T, b: T, s: seq<T>)
    ensures [a, b] + s == [a] + ([b] + s)
  {
  }

  lemma {:induction false} RenderedIsCommandLine(terms: seq<string>)
    ensures JoinSpace(Rendered(terms)) == CommandLine(TermArgs(terms))
    ensures Rendered(terms) == [] <==> TermArgs(terms) == []
    decreases |terms|
  {
    if terms != [] {
      RenderedIsCommandLine(terms[1..]);
      RenderedFirst(terms);
      if !Blank(terms[0]) {
        TermRendered(terms[0], Rendered(terms[1..]), TermArgs(terms[1..]));
      }
    }
  }

  /** The target named when nothing was found is read back as the query or the terms searched for. */
  lemma {:induction false} SearchTargetReadsBack(query: string, terms: seq<string>)
    ensures ShellWords(SearchTarget(query, terms)) == Some(
      if !Blank(query) then [query] else if TermArgs(terms) == [] then ["search"] else TermArgs(terms))
  {
    if !Blank(query) {
      QuoteRoundTrip(query);
    } else {
      RenderedIsCommandLine(terms);
      if TermArgs(terms) == [] {
        SafeQuotesToItself("search");
        QuoteRoundTrip("search");
      } else {
        ArgumentsRoundTrip(TermArgs(terms));
      }
    }
  }
}
