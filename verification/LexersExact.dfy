/** Exactly when the shell's lexer and `tokenize` read the same words.

    Both are followed along the line while certain runes of their words are
    counted: an escape that they read differently leaves one of them with a rune
    too many, and nothing later makes up for it. */
module LexersExact {
  import opened Lexers
  import opened ConservativeLexer

  // --------------------------------------------------------------------------- counting

  function Tally(text: string, x: char): nat {
    if text == "" then 0 else Tally(text[..|text| - 1], x) + if text[|text| - 1] == x then 1 else 0
  }

  function Tallies(words: seq<string>, x: char): nat {
    if words == [] then 0 else Tallies(words[..|words| - 1], x) + Tally(words[|words| - 1], x)
  }

  lemma TallyPush(text: string, c: char, x: char)
    ensures Tally(text + [c], x) == Tally(text, x) + if c == x then 1 else 0
  {
    assert (text + [c])[..|text|] == text;
  }

  lemma TalliesPush(words: seq<string>, word: string, x: char)
    ensures Tallies(words + [word], x) == Tallies(words, x) + Tally(word, x)
  {
    assert (words + [word])[..|words|] == words;
  }

  /** The tally of a text from its front. */
  lemma {:induction false} TallyFront(text: string, x: char)
    requires text != ""
    ensures Tally(text, x) == Tally(text[1..], x) + if text[0] == x then 1 else 0
    decreases |text|
  {
    var n := |text| - 1;
    if n == 0 {
      assert text[..0] == "" && text[1..] == "";
    } else {
      TallyFront(text[..n], x);
      assert text[..n][1..] == text[1..][..n - 1] && text[1..][n - 1] == text[n];
    }
  }

  function ScanTally(s: Scan, x: char): nat { Tallies(Texts(s.items), x) + Tally(s.current, x) }

  function ReaderTally(r: Reader, x: char): nat { Tallies(r.words, x) + Tally(r.current, x) }

  lemma FlushTally(s: Scan, x: char)
    requires s.Valid()
    ensures Flush(s).Valid() || !s.Closed()
    ensures ScanTally(Flush(s), x) == ScanTally(s, x)
  {
    TextsPush(s.items, Word(s.current));
    TalliesPush(Texts(s.items), s.current, x);
  }

  lemma FlushReaderTally(r: Reader, x: char)
    ensures r.started || r.current == "" ==> ReaderTally(FlushReader(r), x) == ReaderTally(r, x)
  {
    TalliesPush(r.words, r.current, x);
  }

  // ------------------------------------------------------------------------ step by step

  /** The two lexers are in the same quotes, and both inside a word or both between words. */
  ghost predicate Synced(s: Scan, r: Reader) {
    s.Valid() && !s.escaped && s.quote == r.quote && s.started == r.started && (!r.started ==> r.current == "")
  }

  /** How many more runes `x` the first lexer has. */
  function Lead(s: Scan, r: Reader, x: char): int { ScanTally(s, x) - ReaderTally(r, x) }

  /** Any rune that starts no escape, and closes no quote that PowerShell doubles. */
  predicate Ordinary(rest: string, quote: char, shell: Shell)
    requires rest != ""
  {
    && (rest[0] == '\\' ==> quote == '\'')
    && !(shell.PowerShell? && quote == '\'' && rest[0] == '\'' && |rest| > 1 && rest[1] == '\'')
  }

  function NextQuote(quote: char, c: char): char {
    if quote == NO_QUOTE then (if IsQuote(c) then c else NO_QUOTE) else if c == quote then NO_QUOTE else quote
  }

  /** Both lexers end their word, or both enter or leave quotes, or both take the rune. */
  ghost predicate MoveAlike(s: Scan, r: Reader, t: Scan, q: Reader, c: char) {
    || (t == Flush(s) && q == FlushReader(r) && s.quote == NO_QUOTE && !IsQuote(c))
    || (t == s.(quote := NextQuote(s.quote, c), started := true)
        && q == r.(quote := NextQuote(s.quote, c), started := true))
    || (t == s.(current := s.current + [c], started := true) && q == r.(current := r.current + [c], started := true)
        && NextQuote(s.quote, c) == s.quote)
  }

  lemma OrdinaryMove(rest: string, s: Scan, r: Reader, shell: Shell)
    requires rest != "" && Synced(s, r) && Ordinary(rest, s.quote, shell) && Read(rest, r, shell).Advance?
    ensures StepWidth(rest, s) == Read(rest, r, shell).width == 1
    ensures MoveAlike(s, r, Step(rest, s), Read(rest, r, shell).state, rest[0])
  {
    assert IsOperatorChar(rest[0]) ==> UnsafeShellCharacter(rest[0], shell, !r.started);
  }

  lemma AlikeKeepsLead(s: Scan, r: Reader, t: Scan, q: Reader, c: char, x: char)
    requires Synced(s, r) && MoveAlike(s, r, t, q, c)
    ensures Synced(t, q) && Lead(t, q, x) == Lead(s, r, x) && t.quote == NextQuote(s.quote, c)
  {
    TallyPush(s.current, c, x);
    TallyPush(r.current, c, x);
    FlushTally(s, x);
    FlushReaderTally(r, x);
  }

  lemma OrdinaryStep(rest: string, s: Scan, r: Reader, shell: Shell, x: char)
    requires rest != "" && Synced(s, r) && Ordinary(rest, s.quote, shell) && Read(rest, r, shell).Advance?
    ensures StepWidth(rest, s) == Read(rest, r, shell).width == 1
    ensures Synced(Step(rest, s), Read(rest, r, shell).state) && Step(rest, s).quote == NextQuote(s.quote, rest[0])
    ensures Lead(Step(rest, s), Read(rest, r, shell).state, x) == Lead(s, r, x)
  {
    OrdinaryMove(rest, s, r, shell);
    AlikeKeepsLead(s, r, Step(rest, s), Read(rest, r, shell).state, rest[0], x);
  }

  /** A backslash before a rune, outside single quotes, in a POSIX shell or fish. */
  lemma EscapeMove(rest: string, s: Scan, r: Reader, shell: Shell)
    requires |rest| > 1 && rest[0] == '\\' && s.quote != '\'' && Synced(s, r) && !shell.PowerShell?
    ensures Read(rest, r, shell).Advance? && Read(rest, r, shell).width == 2
    ensures StepWidth(rest, s) == StepWidth(rest[1..], Step(rest, s)) == 1
    ensures Step(rest[1..], Step(rest, s)) == s.(current := s.current + [rest[1]], started := true)
    ensures var text := if s.quote == '"' then DoubleQuoteEscape(rest[1], shell)
                        else if rest[1] != '\n' then [rest[1]] else "";
            Read(rest, r, shell).state == r.(current := r.current + text, started := true)
  {
  }

  predicate LosesBackslash(shell: Shell, quote: char, next: char) { shell.Posix? && quote == '"' && !Escapable(next) }

  lemma EscapeStep(rest: string, s: Scan, r: Reader, shell: Shell)
    requires |rest| > 1 && rest[0] == '\\' && s.quote != '\'' && Synced(s, r) && !shell.PowerShell?
    ensures Read(rest, r, shell).Advance? && Read(rest, r, shell).width == 2
    ensures StepWidth(rest, s) == StepWidth(rest[1..], Step(rest, s)) == 1
    ensures var t, q := Step(rest[1..], Step(rest, s)), Read(rest, r, shell).state;
            && Synced(t, q) && t.quote == s.quote
            && Lead(t, q, '\n') == Lead(s, r, '\n') + (if rest[1] == '\n' then 1 else 0)
            && Lead(t, q, '\\') == Lead(s, r, '\\') - (if LosesBackslash(shell, s.quote, rest[1]) then 1 else 0)
  {
    EscapeMove(rest, s, r, shell);
    TallyPush(s.current, rest[1], '\n');
    TallyPush(s.current, rest[1], '\\');
    ReaderTakes(r, shell, rest[1], '\n');
    ReaderTakes(r, shell, rest[1], '\\');
  }

  /** What the shell's lexer makes of an escaped rune. */
  lemma ReaderTakes(r: Reader, shell: Shell, next: char, x: char)
    ensures Tally(r.current + DoubleQuoteEscape(next, shell), x)
            == Tally(r.current, x) + (if shell.Posix? && !Escapable(next) && x == '\\' then 1 else 0)
               + (if next != '\n' && next == x then 1 else 0)
    ensures Tally(r.current + (if next != '\n' then [next] else ""), x)
            == Tally(r.current, x) + (if next != '\n' && next == x then 1 else 0)
  {
    assert r.current + "" == r.current;
    TallyPush(r.current, next, x);
    TallyPush(r.current, '\\', x);
    TallyPush(r.current + ['\\'], next, x);
    assert !Escapable(next) ==> r.current + ("\\" + [next]) == r.current + ['\\'] + [next];
    assert "" + [next] == [next] && "" + "" == "";
  }

  // ------------------------------------------------------------------ POSIX shells and fish

  /** Two lexers in step end in step.  `tokenize` gains every escaped newline, the shell's lexer every
      backslash that escapes nothing; unless all escapes are read alike, one of them gains something. */
  lemma {:induction false} Gains(rest: string, s: Scan, r: Reader, shell: Shell)
    requires Synced(s, r) && !shell.PowerShell? && ReadAll(rest, r, shell).Ok?
    ensures Run(rest, s).Closed()
    ensures var t, words := Flush(Run(rest, s)), ReadAll(rest, r, shell).value;
            var newlines := ScanTally(t, '\n') - Tallies(words, '\n');
            var backslashes := Tallies(words, '\\') - ScanTally(t, '\\');
            && newlines >= Lead(s, r, '\n') && backslashes >= -Lead(s, r, '\\')
            && (!EscapesAlike(rest, s.quote, shell) ==> newlines + backslashes > Lead(s, r, '\n') - Lead(s, r, '\\'))
    decreases |rest|
  {
    if rest == "" {
      FinalTallies(s, r, '\n');
      FinalTallies(s, r, '\\');
    } else if rest[0] == '\\' && s.quote != '\'' {
      assert |rest| > 1;
      EscapeStep(rest, s, r, shell);
      assert rest[1..][1..] == rest[2..];
      Gains(rest[2..], Step(rest[1..], Step(rest, s)), Read(rest, r, shell).state, shell);
    } else {
      OrdinaryStep(rest, s, r, shell, '\n');
      OrdinaryStep(rest, s, r, shell, '\\');
      Gains(rest[1..], Step(rest, s), Read(rest, r, shell).state, shell);
    }
  }

  lemma FinalTallies(s: Scan, r: Reader, x: char)
    requires Synced(s, r) && EndOfLine(r).Ok?
    ensures s.Closed() && ScanTally(Flush(s), x) == ScanTally(s, x)
    ensures Tallies(EndOfLine(r).value, x) == ReaderTally(r, x)
  {
    FlushTally(s, x);
    FlushReaderTally(r, x);
  }

  // ---------------------------------------------------------------------------- PowerShell

  predicate Settled(r: Reader) {
    (r.quote == NO_QUOTE || IsQuote(r.quote)) && (!r.started ==> r.current == "" && r.quote == NO_QUOTE)
  }

  /** PowerShell's lexer keeps every backslash. */
  lemma {:induction false} KeepsBackslashes(rest: string, r: Reader)
    requires Settled(r) && ReadAll(rest, r, PowerShell).Ok?
    ensures Tallies(ReadAll(rest, r, PowerShell).value, '\\') == ReaderTally(r, '\\') + Tally(rest, '\\')
    decreases |rest|
  {
    if rest == "" {
      FlushReaderTally(r, '\\');
      assert FlushReader(r).current == "";
    } else {
      var m := Read(rest, r, PowerShell);
      KeptByRead(rest, r);
      KeepsBackslashes(rest[m.width..], m.state);
    }
  }

  lemma KeptByRead(rest: string, r: Reader)
    requires rest != "" && Settled(r) && Read(rest, r, PowerShell).Advance?
    ensures var m := Read(rest, r, PowerShell);
            && Settled(m.state)
            && ReaderTally(m.state, '\\') + Tally(rest[m.width..], '\\') == ReaderTally(r, '\\') + Tally(rest, '\\')
  {
    var m, c := Read(rest, r, PowerShell), rest[0];
    TallyFront(rest, '\\');
    TallyPush(r.current, c, '\\');
    FlushReaderTally(r, '\\');
    if m.width == 2 {
      TallyFront(rest[1..], '\\');
      assert rest[1..][1..] == rest[2..];
    } else {
      PowerShellMove(rest, r);
    }
  }

  lemma PowerShellMove(rest: string, r: Reader)
    requires rest != "" && Settled(r) && Read(rest, r, PowerShell).Advance? && Read(rest, r, PowerShell).width != 2
    ensures var m, c := Read(rest, r, PowerShell), rest[0];
            && m.width == 1
            && (|| (m.state == FlushReader(r) && c != '\\')
                || (m.state == r.(quote := m.state.quote, started := true) && c != '\\')
                || m.state == r.(current := r.current + [c], started := true))
  {
  }

  /** `tokenize` meets a backslash that escapes. */
  predicate Escapes(rest: string, s: Scan)
    decreases |rest|
  {
    && rest != ""
    && ((!s.escaped && rest[0] == '\\' && s.quote != '\'') || Escapes(rest[StepWidth(rest, s)..], Step(rest, s)))
  }

  /** `tokenize` has no more backslashes than the line, and fewer if one of them escapes. */
  lemma {:induction false} LosesBackslashes(rest: string, s: Scan)
    requires s.Valid()
    ensures ScanTally(Flush(Run(rest, s)), '\\') <= ScanTally(s, '\\') + Tally(rest, '\\')
    ensures Escapes(rest, s) ==> ScanTally(Flush(Run(rest, s)), '\\') < ScanTally(s, '\\') + Tally(rest, '\\')
    decreases |rest|
  {
    if rest == "" {
      FlushTally(s, '\\');
    } else {
      LostByStep(rest, s);
      LosesBackslashes(rest[StepWidth(rest, s)..], Step(rest, s));
    }
  }

  lemma LostByStep(rest: string, s: Scan)
    requires rest != "" && s.Valid()
    ensures var t, tail := Step(rest, s), rest[StepWidth(rest, s)..];
            && t.Valid()
            && var lost := if !s.escaped && rest[0] == '\\' && s.quote != '\'' then 1 else 0;
               ScanTally(t, '\\') + Tally(tail, '\\') + lost == ScanTally(s, '\\') + Tally(rest, '\\')
  {
    TallyFront(rest, '\\');
    TallyPush(s.current, rest[0], '\\');
    FlushTally(s, '\\');
    if s.Closed() && IsOperatorChar(rest[0]) { OperatorTally(rest, s); }
  }

  lemma OperatorTally(rest: string, s: Scan)
    requires rest != "" && s.Valid() && s.Closed() && IsOperatorChar(rest[0])
    ensures ScanTally(Step(rest, s), '\\') == ScanTally(Flush(s), '\\')
    ensures Tally(rest[OperatorWidth(rest)..], '\\') == Tally(rest, '\\')
  {
    var f, text := Flush(s), OperatorText(rest);
    TextsPush(f.items, Operator(text));
    TalliesPush(Texts(f.items), text, '\\');
    OperatorIsCompound(rest);
    NoBackslashInOperator(text);
    TallyFront(rest, '\\');
    if OperatorWidth(rest) == 2 {
      TallyFront(rest[1..], '\\');
      assert rest[1..][1..] == rest[2..];
    }
  }

  lemma NoBackslashInOperator(text: string)
    requires IsCompoundOperator(text)
    ensures Tally(text, '\\') == 0
  {
    assert text[..1][..0] == "";
    assert text[..|text| - 1] == if |text| == 1 then "" else text[..1];
  }

  /** Where no backslash escapes, PowerShell's lexer gains every doubled quote. */
  lemma {:induction false} GainsQuotes(rest: string, s: Scan, r: Reader)
    requires Synced(s, r) && ReadAll(rest, r, PowerShell).Ok? && !Escapes(rest, s)
    ensures var t, words := Flush(Run(rest, s)), ReadAll(rest, r, PowerShell).value;
            var quotes := Tallies(words, '\'') - ScanTally(t, '\'');
            && quotes >= -Lead(s, r, '\'')
            && (!EscapesAlike(rest, s.quote, PowerShell) ==> quotes > -Lead(s, r, '\''))
    decreases |rest|
  {
    if rest == "" {
      FinalTallies(s, r, '\'');
    } else if Ordinary(rest, s.quote, PowerShell) {
      OrdinaryStep(rest, s, r, PowerShell, '\'');
      GainsQuotes(rest[1..], Step(rest, s), Read(rest, r, PowerShell).state);
    } else {
      DoubledQuote(rest, s, r);
      assert rest[1..][1..] == rest[2..];
      GainsQuotes(rest[2..], Step(rest[1..], Step(rest, s)), Read(rest, r, PowerShell).state);
    }
  }

  lemma DoubledQuote(rest: string, s: Scan, r: Reader)
    requires |rest| > 1 && s.quote == '\'' && rest[0] == rest[1] == '\'' && Synced(s, r)
    ensures Read(rest, r, PowerShell) == Advance(2, r.(current := r.current + ['\''], started := true))
    ensures StepWidth(rest, s) == StepWidth(rest[1..], Step(rest, s)) == 1
    ensures Step(rest[1..], Step(rest, s)) == s
    ensures Lead(s, Read(rest, r, PowerShell).state, '\'') == Lead(s, r, '\'') - 1
  {
    TallyPush(r.current, '\'', '\'');
  }

  // ---------------------------------------------------------------------- main theorem

  lemma LexTally(line: string, x: char)
    ensures ScanTally(Flush(Run(line, START)), x) == Tallies(Texts(Flush(Run(line, START)).items), x)
  {
    PrefixRelated(line);
    assert Flush(Run(line, START)).current == "";
  }

  /** On every line the shell's lexer accepts, `tokenize` reads the same words if and only if every escape
      means the same to both; and then so does the range scanner. */
  lemma LexersAgreeExactly(line: string, shell: Shell)
    requires Conservative(line, shell).Ok?
    ensures Lex(line).Ok? && Texts(Lex(line).value) == Conservative(line, shell).value
            <==> EscapesAlike(line, NO_QUOTE, shell)
    ensures EscapesAlike(line, NO_QUOTE, shell) ==> Values(Ranges(line)) == Conservative(line, shell).value
  {
    LexTally(line, '\n');
    LexTally(line, '\\');
    LexTally(line, '\'');
    if EscapesAlike(line, NO_QUOTE, shell) {
      LexersAgree(line, shell);
    } else if !shell.PowerShell? {
      Gains(line, START, FRESH, shell);
    } else {
      KeepsBackslashes(line, FRESH);
      LosesBackslashes(line, START);
      if !Escapes(line, START) { GainsQuotes(line, START, FRESH); }
    }
  }
}
