/** `tokenizeConservative`, the lexer used when the shell is known.  It rejects
    whatever it cannot read the way that shell would. */
module ConservativeLexer {
  import opened Lexers

  datatype Shell = Posix(zsh: bool) | Fish | PowerShell

  datatype Reader = Reader(words: seq<string>, current: string, quote: char, started: bool)

  const FRESH := Reader([], "", NO_QUOTE, false)

  function FlushReader(s: Reader): Reader {
    if s.started then Reader(s.words + [s.current], "", s.quote, false) else s
  }

  predicate UnsafeShellCharacter(c: char, shell: Shell, startsWord: bool) {
    || c == ';' || c == '|' || c == '&' || c == '(' || c == ')' || c == '<' || c == '>' || c == '$'
    || c == '*' || c == '?' || c == '[' || c == ']' || c == '{' || c == '}' || c == '\n' || c == '#' || c == '`'
    || (shell.PowerShell? && (c == '@' || c == ','))
    || (shell.Posix? && shell.zsh && c == '!')
    || (startsWord && c == '~')
  }

  datatype Move = Advance(width: nat, state: Reader) | Stop(reason: Result<seq<string>>)

  /** What a backslash can escape inside double quotes in a POSIX shell. */
  predicate Escapable(c: char) { c == '$' || c == '`' || c == '\\' || c == '"' || c == '\n' }

  /** The escape after a backslash inside double quotes. */
  function DoubleQuoteEscape(next: char, shell: Shell): string {
    (if shell.Posix? && !Escapable(next) then "\\" else "") + (if next != '\n' then [next] else "")
  }

  function ReadQuoted(rest: string, s: Reader, shell: Shell): (m: Move)
    requires rest != "" && s.quote != NO_QUOTE
    ensures m.Advance? ==> 1 <= m.width <= |rest|
    ensures m.Stop? ==> !m.reason.Ok?
  {
    var c := rest[0];
    if s.quote == '\'' && shell.PowerShell? && c == '\'' && |rest| > 1 && rest[1] == '\'' then
      Advance(2, s.(current := s.current + [c], started := true))
    else if c == s.quote then Advance(1, s.(quote := NO_QUOTE))
    else if s.quote == '"' && c == '\\' && !shell.PowerShell? then
      if |rest| == 1 then Stop(Incomplete)
      else Advance(2, s.(current := s.current + DoubleQuoteEscape(rest[1], shell), started := true))
    else if c == '`' || (s.quote == '"' && c == '$') then Stop(Unsupported)
    else Advance(1, s.(current := s.current + [c], started := true))
  }

  function ReadBare(rest: string, s: Reader, shell: Shell): (m: Move)
    requires rest != ""
    ensures m.Advance? ==> 1 <= m.width <= |rest|
    ensures m.Stop? ==> !m.reason.Ok?
  {
    var c := rest[0];
    if IsBlank(c) then Advance(1, FlushReader(s))
    else if IsQuote(c) then Advance(1, s.(quote := c, started := true))
    else if c == '\\' && !shell.PowerShell? then
      if |rest| == 1 then Stop(Incomplete)
      else Advance(2, s.(current := s.current + (if rest[1] != '\n' then [rest[1]] else ""), started := true))
    else if UnsafeShellCharacter(c, shell, !s.started) then Stop(Unsupported)
    else Advance(1, s.(current := s.current + [c], started := true))
  }

  function Read(rest: string, s: Reader, shell: Shell): (m: Move)
    requires rest != ""
    ensures m.Advance? ==> 1 <= m.width <= |rest|
    ensures m.Stop? ==> !m.reason.Ok?
  {
    if s.quote != NO_QUOTE then ReadQuoted(rest, s, shell) else ReadBare(rest, s, shell)
  }

  function ReadAll(rest: string, s: Reader, shell: Shell): Result<seq<string>>
    decreases |rest|
  {
    if rest == "" then EndOfLine(s)
    else
      match Read(rest, s, shell)
      case Stop(reason) => reason
      case Advance(width, next) => ReadAll(rest[width..], next, shell)
  }

  function Conservative(line: string, shell: Shell): Result<seq<string>> { ReadAll(line, FRESH, shell) }

  /** The part of an iteration that runs inside quotes. */
  method QuotedIteration(line: string, index: nat, s: Reader, shell: Shell) returns (m: Move)
    requires index < |line| && s.quote != NO_QUOTE
    ensures m == ReadQuoted(line[index..], s, shell)
  {
    var c, current := line[index], s.current;
    if s.quote == '\'' && shell.PowerShell? && c == '\'' && index + 1 < |line| && line[index + 1] == '\'' {
      return Advance(2, Reader(s.words, current + [c], s.quote, true));
    }
    if c == s.quote { return Advance(1, s.(quote := NO_QUOTE)); }
    if s.quote == '"' && c == '\\' && !shell.PowerShell? {
      if index + 1 == |line| { return Stop(Incomplete); }
      var next := line[index + 1];
      if shell.Posix? && !Escapable(next) { current := current + [c]; }
      if next != '\n' { current := current + [next]; }
      assert current == s.current + DoubleQuoteEscape(next, shell);
      return Advance(2, Reader(s.words, current, s.quote, true));
    }
    if c == '`' || (s.quote == '"' && c == '$') { return Stop(Unsupported); }
    m := Advance(1, Reader(s.words, current + [c], s.quote, true));
  }

  method BareIteration(line: string, index: nat, s: Reader, shell: Shell) returns (m: Move)
    requires index < |line|
    ensures m == ReadBare(line[index..], s, shell)
  {
    var c := line[index];
    if IsBlank(c) { return Advance(1, FlushReader(s)); }
    if IsQuote(c) { return Advance(1, Reader(s.words, s.current, c, true)); }
    if c == '\\' && !shell.PowerShell? {
      if index + 1 == |line| { return Stop(Incomplete); }
      var current := s.current;
      if line[index + 1] != '\n' { current := current + [line[index + 1]]; }
      assert current == s.current + (if line[index + 1] != '\n' then [line[index + 1]] else "");
      return Advance(2, Reader(s.words, current, s.quote, true));
    }
    if UnsafeShellCharacter(c, shell, !s.started) { return Stop(Unsupported); }
    m := Advance(1, Reader(s.words, s.current + [c], s.quote, true));
  }

  method Iteration(line: string, index: nat, s: Reader, shell: Shell) returns (m: Move)
    requires index < |line|
    ensures m.Stop? ==> !m.reason.Ok? && ReadAll(line[index..], s, shell) == m.reason
    ensures m.Advance? ==> m.width > 0 && index + m.width <= |line|
    ensures m.Advance? ==> ReadAll(line[index..], s, shell) == ReadAll(line[index + m.width..], m.state, shell)
  {
    if s.quote != NO_QUOTE {
      m := QuotedIteration(line, index, s, shell);
    } else {
      m := BareIteration(line, index, s, shell);
    }
    ReadAllStep(line, index, s, shell);
  }

  method TokenizeConservative(line: string, shell: Shell) returns (r: Result<seq<string>>)
    ensures r == Conservative(line, shell)
    ensures r.Ok? ==> !HasUnsupportedShellSyntax(r.value)
  {
    var s, index := FRESH, 0;
    ghost var goal := Conservative(line, shell);
    assert line[0..] == line;
    while index < |line|
      invariant 0 <= index <= |line|
      invariant ReadAll(line[index..], s, shell) == goal
    {
      var move := Iteration(line, index, s, shell);
      if move.Stop? { return move.reason; }
      s, index := move.state, index + move.width;
    }
    r := EndOfLine(s);
  }

  /** What the lexer returns once it has read the whole line. */
  function EndOfLine(s: Reader): (r: Result<seq<string>>)
    ensures r.Ok? ==> !HasUnsupportedShellSyntax(r.value)
  {
    if s.quote != NO_QUOTE then Incomplete
    else
      var words := FlushReader(s).words;
      if HasUnsupportedShellSyntax(words) then Unsupported else Ok(words)
  }

  lemma ReadAllStep(line: string, index: nat, s: Reader, shell: Shell)
    requires index < |line|
    ensures var move := Read(line[index..], s, shell);
            ReadAll(line[index..], s, shell) ==
            if move.Stop? then move.reason else ReadAll(line[index + move.width..], move.state, shell)
  {
    var move := Read(line[index..], s, shell);
    if move.Advance? { assert line[index..][move.width..] == line[index + move.width..]; }
  }

  // ------------------------------------------------------------ the lexers agree

  /** Every escape in `rest`, read from within `quote`, means the same to the shell and to `tokenize`: a
      backslash stands before a rune and not before a newline; inside double quotes of a POSIX shell it stands
      before a rune it can escape; PowerShell has no backslash escapes and doubles no single quote. */
  predicate EscapesAlike(rest: string, quote: char, shell: Shell)
    decreases |rest|
  {
    if rest == "" then true
    else if rest[0] == '\\' && quote != '\'' then
      && !shell.PowerShell? && |rest| > 1 && rest[1] != '\n'
      && (shell.Posix? && quote == '"' ==> Escapable(rest[1]))
      && EscapesAlike(rest[2..], quote, shell)
    else if quote == NO_QUOTE then EscapesAlike(rest[1..], if IsQuote(rest[0]) then rest[0] else quote, shell)
    else if rest[0] != quote then EscapesAlike(rest[1..], quote, shell)
    else
      && (shell.PowerShell? && quote == '\'' ==> |rest| == 1 || rest[1] != '\'')
      && EscapesAlike(rest[1..], NO_QUOTE, shell)
  }

  /** `rewriteCompatible` for a named shell: no quotes and no backslashes. */
  predicate RewriteCompatible(line: string) { forall i :: 0 <= i < |line| ==> !IsQuote(line[i]) && line[i] != '\\' }

  ghost predicate SameSituation(s: Scan, r: Reader) {
    && s.Valid() && !s.escaped && s.quote == r.quote && s.current == r.current && s.started == r.started
    && Texts(s.items) == r.words && forall i :: 0 <= i < |s.items| ==> s.items[i].Word?
  }

  /** A rune that is no escape. */
  lemma ReadFollowsStep(rest: string, s: Scan, r: Reader, shell: Shell)
    requires rest != "" && SameSituation(s, r) && EscapesAlike(rest, s.quote, shell) && Read(rest, r, shell).Advance?
    requires rest[0] != '\\' || s.quote == '\''
    ensures Read(rest, r, shell).width == StepWidth(rest, s) == 1
    ensures SameSituation(Step(rest, s), Read(rest, r, shell).state)
    ensures EscapesAlike(rest[1..], Step(rest, s).quote, shell)
  {
    assert IsOperatorChar(rest[0]) ==> UnsafeShellCharacter(rest[0], shell, !r.started);
  }

  /** A backslash and the rune it escapes. */
  lemma EscapeFollowsSteps(rest: string, s: Scan, r: Reader, shell: Shell)
    requires rest != "" && SameSituation(s, r) && EscapesAlike(rest, s.quote, shell) && Read(rest, r, shell).Advance?
    requires rest[0] == '\\' && s.quote != '\''
    ensures |rest| > 1 && Read(rest, r, shell).width == 2
    ensures StepWidth(rest, s) == StepWidth(rest[1..], Step(rest, s)) == 1
    ensures SameSituation(Step(rest[1..], Step(rest, s)), Read(rest, r, shell).state)
    ensures EscapesAlike(rest[2..], s.quote, shell) && Step(rest[1..], Step(rest, s)).quote == s.quote
  {
    assert DoubleQuoteEscape(rest[1], shell) == [rest[1]] || s.quote != '"';
  }

  lemma {:induction false} ReadAllFollowsRun(rest: string, s: Scan, r: Reader, shell: Shell)
    requires SameSituation(s, r) && EscapesAlike(rest, s.quote, shell)
    requires ReadAll(rest, r, shell).Ok?
    ensures var f := Run(rest, s);
            && f.Closed() && Texts(Flush(f).items) == ReadAll(rest, r, shell).value
            && forall i :: 0 <= i < |Flush(f).items| ==> Flush(f).items[i].Word?
    decreases |rest|
  {
    if rest != "" {
      if rest[0] == '\\' && s.quote != '\'' {
        EscapeFollowsSteps(rest, s, r, shell);
        assert rest[1..][1..] == rest[2..];
        ReadAllFollowsRun(rest[2..], Step(rest[1..], Step(rest, s)), Read(rest, r, shell).state, shell);
      } else {
        ReadFollowsStep(rest, s, r, shell);
        ReadAllFollowsRun(rest[1..], Step(rest, s), Read(rest, r, shell).state, shell);
      }
    }
  }

  lemma {:induction false} AllWordTexts(items: seq<Lexeme>)
    requires forall i :: 0 <= i < |items| ==> items[i].Word?
    ensures WordTexts(items) == Texts(items)
    decreases |items|
  {
    if items != [] {
      var n := |items| - 1;
      AllWordTexts(items[..n]);
      assert Texts(items) == Texts(items[..n]) + [items[n].text];
    }
  }

  /** If the conservative lexer accepts a line whose escapes mean the same to `tokenize`, all three lexers
      read the same words from it. */
  lemma LexersAgree(line: string, shell: Shell)
    requires EscapesAlike(line, NO_QUOTE, shell) && Conservative(line, shell).Ok?
    ensures var words := Conservative(line, shell).value;
            && Lex(line).Ok? && Texts(Lex(line).value) == words
            && Values(Ranges(line)) == words
  {
    ReadAllFollowsRun(line, START, FRESH, shell);
    AllWordTexts(Lex(line).value);
    RangesFollowTokenize(line);
  }

  lemma {:induction false} NothingToEscape(line: string, shell: Shell)
    requires RewriteCompatible(line)
    ensures EscapesAlike(line, NO_QUOTE, shell)
    decreases |line|
  {
    if line != "" { NothingToEscape(line[1..], shell); }
  }

  /** In particular every line on which the engine may rewrite for a named shell. */
  lemma RewriteCompatibleLexersAgree(line: string, shell: Shell)
    requires RewriteCompatible(line) && Conservative(line, shell).Ok?
    ensures var words := Conservative(line, shell).value;
            && Lex(line).Ok? && Texts(Lex(line).value) == words && Values(Ranges(line)) == words
  {
    NothingToEscape(line, shell);
    LexersAgree(line, shell);
  }
}
