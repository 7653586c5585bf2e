/** Quoting round trips: what a shell's quoting writes, its lexer reads back. */
module ShellQuoting {
  import opened Lexers
  import opened ConservativeLexer
  import opened Rewrite

  /** The lexer's answer to a line that is just this word: it refuses some words however they are quoted. */
  function Alone(text: string): Result<seq<string>> {
    if UnsupportedWord(text) then Unsupported else Ok([text])
  }

  function Taking(s: Reader, text: string): Reader { s.(current := s.current + text, started := true) }

  function Closing(s: Reader): Reader { s.(quote := NO_QUOTE) }

  lemma OneRead(rest: string, s: Reader, shell: Shell, w: nat, t: Reader)
    requires rest != "" && Read(rest, s, shell) == Advance(w, t)
    ensures w <= |rest| && ReadAll(rest, s, shell) == ReadAll(rest[w..], t, shell)
  {
  }

  lemma OneStop(rest: string, s: Reader, shell: Shell)
    requires rest != "" && Read(rest, s, shell) == Stop(Unsupported)
    ensures ReadAll(rest, s, shell) == Unsupported
  {
  }

  lemma TakingMore(s: Reader, c: char, text: string)
    ensures Taking(Taking(s, [c]), text) == Taking(s, [c] + text)
  {
    assert s.current + [c] + text == s.current + ([c] + text);
  }

  lemma TakingNothing(s: Reader)
    requires s.started
    ensures Taking(s, "") == s
  {
    assert s.current + "" == s.current;
  }

  // ------------------------------------------------------------------------ double quotes

  /** The closing quote, and the end of the line. */
  lemma Closed(q: char, s: Reader, shell: Shell)
    requires s.quote == q && IsQuote(q)
    ensures ReadAll([q], s, shell) == EndOfLine(Closing(s))
  {
    OneRead([q], s, shell, 1, Closing(s));
    assert [q][1..] == "";
  }

  lemma {:induction false} InDoubleQuotes(text: string, s: Reader, shell: Shell)
    requires s.quote == '"' && s.started && !shell.PowerShell?
    ensures ReadAll(EscapeDouble(text) + "\"", s, shell) == EndOfLine(Closing(Taking(s, text)))
    decreases |text|
  {
    if text == "" {
      TakingNothing(s);
      Closed('"', s, shell);
      assert EscapeDouble(text) + "\"" == ['"'];
    } else {
      var c, tail := text[0], EscapeDouble(text[1..]) + "\"";
      var written := if NeedsDoubleEscape(c) then "\\" + [c] else [c];
      assert EscapeDouble(text) + "\"" == written + tail;
      assert (written + tail)[|written|..] == tail;
      DoubleRune(written + tail, s, shell, c);
      OneRead(written + tail, s, shell, |written|, Taking(s, [c]));
      InDoubleQuotes(text[1..], Taking(s, [c]), shell);
      TakingMore(s, c, text[1..]);
      assert [c] + text[1..] == text;
    }
  }

  lemma DoubleRune(rest: string, s: Reader, shell: Shell, c: char)
    requires s.quote == '"' && s.started && !shell.PowerShell? && rest != ""
    requires if NeedsDoubleEscape(c) then |rest| > 1 && rest[0] == '\\' && rest[1] == c else rest[0] == c
    ensures Read(rest, s, shell) == Advance(if NeedsDoubleEscape(c) then 2 else 1, Taking(s, [c]))
  {
  }

  // ------------------------------------------------------------------------ single quotes

  /** PowerShell doubles a single quote inside single quotes. */
  function DoubleUp(text: string): string {
    if text == "" then "" else (if text[0] == '\'' then "''" else [text[0]]) + DoubleUp(text[1..])
  }

  /** What stands between single quotes for `text`. */
  function InnerSingle(text: string, shell: Shell): string {
    if shell.PowerShell? then DoubleUp(text) else EscapeSingle(text)
  }

  lemma InnerSingleFront(text: string, shell: Shell)
    requires text != ""
    ensures InnerSingle(text, shell)
            == (if text[0] != '\'' then [text[0]] else if shell.PowerShell? then "''" else "'\\''")
               + InnerSingle(text[1..], shell)
  {
  }

  /** Everything reads back except a backquote, which no quotes protect. */
  lemma {:induction false} InSingleQuotes(text: string, s: Reader, shell: Shell)
    requires s.quote == '\'' && s.started
    ensures ReadAll(InnerSingle(text, shell) + "'", s, shell)
            == if '`' in text then Unsupported else EndOfLine(Closing(Taking(s, text)))
    decreases |text|
  {
    if text == "" {
      TakingNothing(s);
      Closed('\'', s, shell);
      assert InnerSingle(text, shell) + "'" == ['\''];
    } else {
      var c, tail := text[0], InnerSingle(text[1..], shell) + "'";
      var written := if c != '\'' then [c] else if shell.PowerShell? then "''" else "'\\''";
      InnerSingleFront(text, shell);
      assert InnerSingle(text, shell) + "'" == written + tail;
      assert [c] + text[1..] == text;
      if c == '`' {
        OneStop(written + tail, s, shell);
      } else {
        SingleRune(c, written, tail, s, shell);
        InSingleQuotes(text[1..], Taking(s, [c]), shell);
        TakingMore(s, c, text[1..]);
      }
    }
  }

  lemma SingleRune(c: char, written: string, tail: string, s: Reader, shell: Shell)
    requires s.quote == '\'' && s.started && c != '`'
    requires written == if c != '\'' then [c] else if shell.PowerShell? then "''" else "'\\''"
    ensures ReadAll(written + tail, s, shell) == ReadAll(tail, Taking(s, [c]), shell)
  {
    var line := written + tail;
    if c == '\'' && !shell.PowerShell? {
      var outside := Closing(s);
      assert line[1..] == "\\''" + tail && line[1..][2..] == "'" + tail && ("'" + tail)[1..] == tail;
      OneRead(line, s, shell, 1, outside);
      OneRead(line[1..], outside, shell, 2, Taking(outside, "'"));
      OneRead("'" + tail, Taking(outside, "'"), shell, 1, Taking(s, [c]));
    } else {
      assert line[|written|..] == tail;
      OneRead(line, s, shell, |written|, Taking(s, [c]));
    }
  }

  // ----------------------------------------------------------------- PowerShell, verbatim

  /** PowerShell has no escapes inside double quotes but the backquote, which is refused. */
  lemma {:induction false} VerbatimInDouble(text: string, s: Reader)
    requires s.quote == '"' && s.started && '"' !in text
    ensures ReadAll(text + "\"", s, PowerShell)
            == if '`' in text || '$' in text then Unsupported else EndOfLine(Closing(Taking(s, text)))
    decreases |text|
  {
    var line := text + "\"";
    if text == "" {
      TakingNothing(s);
      Closed('"', s, PowerShell);
      assert line == ['"'];
    } else {
      var c := text[0];
      assert line[0] == c && line[1..] == text[1..] + "\"" && [c] + text[1..] == text;
      if c == '`' || c == '$' {
        OneStop(line, s, PowerShell);
      } else {
        OneRead(line, s, PowerShell, 1, Taking(s, [c]));
        VerbatimInDouble(text[1..], Taking(s, [c]));
        TakingMore(s, c, text[1..]);
      }
    }
  }

  // ---------------------------------------------------------- POSIX, idle backslashes

  /** No rune that double quotes treat specially, and every backslash before a rune it cannot escape. */
  predicate IdleBackslashes(text: string) {
    if text == "" then true
    else if text[0] == '\\' then |text| > 1 && !Escapable(text[1]) && IdleBackslashes(text[2..])
    else text[0] != '"' && text[0] != '$' && text[0] != '`' && IdleBackslashes(text[1..])
  }

  /** Inside double quotes a POSIX shell keeps a backslash that escapes nothing. */
  lemma {:induction false} IdleInDouble(text: string, s: Reader, zsh: bool)
    requires s.quote == '"' && s.started && IdleBackslashes(text)
    ensures ReadAll(text + "\"", s, Posix(zsh)) == EndOfLine(Closing(Taking(s, text)))
    decreases |text|
  {
    var line, shell := text + "\"", Posix(zsh);
    if text == "" {
      TakingNothing(s);
      Closed('"', s, shell);
      assert line == ['"'];
    } else if text[0] == '\\' {
      assert line[1] == text[1] && line[2..] == text[2..] + "\"" && ['\\', text[1]] + text[2..] == text;
      OneRead(line, s, shell, 2, Taking(s, ['\\', text[1]]));
      IdleInDouble(text[2..], Taking(s, ['\\', text[1]]), zsh);
      assert s.current + ['\\', text[1]] + text[2..] == s.current + text;
    } else {
      assert line[0] == text[0] && line[1..] == text[1..] + "\"" && [text[0]] + text[1..] == text;
      OneRead(line, s, shell, 1, Taking(s, [text[0]]));
      IdleInDouble(text[1..], Taking(s, [text[0]]), zsh);
      TakingMore(s, text[0], text[1..]);
    }
  }

  // ------------------------------------------------------------------------ outside quotes

  function Backslashed(text: string): string {
    if text == "" then "" else ['\\', text[0]] + Backslashed(text[1..])
  }

  lemma {:induction false} BackslashedReads(text: string, s: Reader, shell: Shell)
    requires s.quote == NO_QUOTE && !shell.PowerShell? && '\n' !in text && (text == "" ==> s.started)
    ensures ReadAll(Backslashed(text), s, shell) == EndOfLine(Taking(s, text))
    decreases |text|
  {
    if text == "" {
      TakingNothing(s);
    } else {
      var line := Backslashed(text);
      assert line[0] == '\\' && line[1] == text[0] && line[2..] == Backslashed(text[1..]);
      OneRead(line, s, shell, 2, Taking(s, [text[0]]));
      BackslashedReads(text[1..], Taking(s, [text[0]]), shell);
      TakingMore(s, text[0], text[1..]);
      assert [text[0]] + text[1..] == text;
    }
  }

  /** A backslash before a newline continues the line. */
  lemma ContinuationVanishes(rest: string, s: Reader, shell: Shell)
    requires s.quote == NO_QUOTE && !shell.PowerShell?
    ensures ReadAll("\\\n" + rest, s, shell) == ReadAll(rest, s.(started := true), shell)
  {
    var line := "\\\n" + rest;
    assert line[2..] == rest && s.current + "" == s.current;
    OneRead(line, s, shell, 2, s.(started := true));
  }

  // --------------------------------------------------------------------------- main theorems

  lemma AloneAtEnd(text: string)
    ensures EndOfLine(Reader([], text, NO_QUOTE, true)) == Alone(text)
  {
    assert [] + [text] == [text];
    assert UnsupportedWord([text][0]) <==> HasUnsupportedShellSyntax([text]);
  }

  lemma OpeningQuote(q: char, inner: string, shell: Shell)
    requires IsQuote(q)
    ensures Conservative([q] + inner, shell) == ReadAll(inner, Reader([], "", q, true), shell)
    ensures forall text :: Closing(Taking(Reader([], "", q, true), text)) == Reader([], text, NO_QUOTE, true)
  {
    assert ([q] + inner)[1..] == inner;
    OneRead([q] + inner, FRESH, shell, 1, Reader([], "", q, true));
    assert forall text :: "" + text == text;
  }

  /** In a POSIX shell and in fish, any text escaped and put in double quotes, or put in single quotes with
      each single quote written as '\'', reads as exactly that one word; and so it does in PowerShell in single
      quotes with each of them doubled. */
  lemma QuotedReadsBack(text: string, shell: Shell)
    ensures !shell.PowerShell? ==> Conservative(['"'] + (EscapeDouble(text) + "\""), shell) == Alone(text)
    ensures Conservative(['\''] + (InnerSingle(text, shell) + "'"), shell) == Alone(text)
  {
    AloneAtEnd(text);
    OpeningQuote('"', EscapeDouble(text) + "\"", shell);
    OpeningQuote('\'', InnerSingle(text, shell) + "'", shell);
    if !shell.PowerShell? { InDoubleQuotes(text, Reader([], "", '"', true), shell); }
    InSingleQuotes(text, Reader([], "", '\'', true), shell);
  }

  /** PowerShell reads text between double quotes as it stands, backslashes included. */
  lemma PowerShellReadsVerbatim(text: string)
    requires '"' !in text
    ensures Conservative(['"'] + (text + "\""), PowerShell) == Alone(text)
  {
    AloneAtEnd(text);
    OpeningQuote('"', text + "\"", PowerShell);
    VerbatimInDouble(text, Reader([], "", '"', true));
  }

  /** A POSIX shell keeps idle backslashes between double quotes. */
  lemma IdleBackslashesStay(text: string, zsh: bool)
    requires IdleBackslashes(text)
    ensures Conservative(['"'] + (text + "\""), Posix(zsh)) == Alone(text)
  {
    AloneAtEnd(text);
    OpeningQuote('"', text + "\"", Posix(zsh));
    IdleInDouble(text, Reader([], "", '"', true), zsh);
  }

  /** A text with a backslash before each rune reads as that one word. */
  lemma BackslashedReadsBack(text: string, shell: Shell)
    requires !shell.PowerShell? && text != "" && '\n' !in text
    ensures Conservative(Backslashed(text), shell) == Alone(text)
  {
    AloneAtEnd(text);
    BackslashedReads(text, FRESH, shell);
    assert "" + text == text;
  }
}
