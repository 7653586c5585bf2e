/** For which replacements the buffer rewrite keeps the other words.

    `quotedReplacement` inserts the replacement verbatim when the token it
    replaces is not wholly quoted, so the rewrite can go wrong there.  This
    module shows that it goes wrong for every replacement that is not a plain
    word. */
module RewriteExact {
  import opened Options
  import opened Lexers
  import opened Rewrite

  // ------------------------------------------------------------ shape of a run

  lemma {:induction false} ItemsGrow(rest: string, s: Scan)
    ensures s.items <= Run(rest, s).items <= Flush(Run(rest, s)).items
    decreases |rest|
  {
    if rest != "" {
      assert s.items <= Step(rest, s).items;
      ItemsGrow(rest[StepWidth(rest, s)..], Step(rest, s));
    }
  }

  /** Lexing never lengthens: the open word is no longer than the runes consumed, and as long only
      when they are all plain; a word already flushed is strictly shorter. */
  lemma {:induction false} RunShrinks(rest: string, s: Scan, consumed: nat)
    requires s.Valid() && |s.current| <= consumed
    ensures var m := Run(rest, s);
            && (m.items == s.items ==> |m.current| <= consumed + |rest|)
            && (m.items == s.items && |m.current| == consumed + |rest| && s.Closed()
                ==> forall i :: 0 <= i < |rest| ==> IsPlain(rest[i]))
            && (m.items == s.items && |m.current| == consumed + |rest| ==> |s.current| == consumed)
            && (m.items != s.items ==> |s.items| < |m.items|)
            && (m.items != s.items && m.items[|s.items|].Word?
                ==> |m.items[|s.items|].text| < consumed + |rest|)
    decreases |rest|
  {
    if rest != "" {
      var w, t := StepWidth(rest, s), Step(rest, s);
      var tail := rest[w..];
      ItemsGrow(tail, t);
      if t.items == s.items {
        RunShrinks(tail, t, consumed + w);
        assert w == 1;
        if s.Closed() && IsPlain(rest[0]) {
          assert t.Closed();
          assert forall i :: 0 < i < |rest| ==> rest[i] == tail[i - 1];
        }
      }
    }
  }

  lemma {:induction false} OperatorLeads(rest: string)
    requires rest != "" && IsOperatorChar(rest[0]) && Lex(rest).Ok?
    ensures Lex(rest).value != [] && Lex(rest).value[0].Operator?
  {
    ItemsGrow(rest[StepWidth(rest, START)..], Step(rest, START));
  }

  // -------------------------------------------------------- the word under way

  /** The lexer in the middle of a word of which nothing has been kept. */
  function Bare(s: Scan): Scan { Scan([], "", s.quote, s.escaped, true) }

  /** `rest` finishes the word under way with `end` and then adds `more`. */
  ghost predicate Finishes(rest: string, s: Scan, end: string, more: seq<Lexeme>) {
    Flush(Run(rest, s)).items == s.items + [Word(s.current + end)] + more
  }

  /** How a word under way ends, and what follows, depends only on the quoting. */
  lemma {:induction false} WordEnds(rest: string, s: Scan) returns (end: string, more: seq<Lexeme>)
    requires s.started
    ensures Finishes(rest, s, end, more) && Finishes(rest, Bare(s), end, more)
    decreases |rest|
  {
    if rest == "" {
      end, more := "", [];
      assert s.current + end == s.current && "" + end == "";
    } else if Step(rest, s).started {
      var tail, t, b := rest[StepWidth(rest, s)..], Step(rest, s), Step(rest, Bare(s));
      assert Bare(t) == Bare(b);
      end, more := WordEnds(tail, t);
      var end', more' := WordEnds(tail, b);
      SameEnding(tail, Bare(t), end, more, end', more');
      end := WordGoesOn(rest, s, end, more);
    } else {
      end := "";
      more := WordFlushed(rest, s);
      var more' := WordFlushed(rest, Bare(s));
    }
  }

  lemma WordGoesOn(rest: string, s: Scan, after: string, more: seq<Lexeme>) returns (end: string)
    requires s.started && rest != "" && Step(rest, s).started
    requires var tail := rest[StepWidth(rest, s)..];
             Finishes(tail, Step(rest, s), after, more) && Finishes(tail, Step(rest, Bare(s)), after, more)
    ensures Finishes(rest, s, end, more) && Finishes(rest, Bare(s), end, more)
  {
    StepInWord(rest, s);
    var added := Step(rest, Bare(s)).current;
    end := added + after;
    assert s.current + end == s.current + added + after && "" + end == end;
  }

  lemma StepInWord(rest: string, s: Scan)
    requires s.started && rest != "" && Step(rest, s).started
    ensures var t, b := Step(rest, s), Step(rest, Bare(s));
            && StepWidth(rest, Bare(s)) == StepWidth(rest, s)
            && t.items == s.items && b.items == [] && t.current == s.current + b.current
  {
  }

  lemma SameEnding(rest: string, s: Scan, end: string, more: seq<Lexeme>, end': string, more': seq<Lexeme>)
    requires Finishes(rest, s, end, more) && Finishes(rest, s, end', more')
    ensures end == end' && more == more'
  {
    var n, f := |s.items|, Flush(Run(rest, s)).items;
    assert f[n] == Word(s.current + end) && f[n] == Word(s.current + end');
    assert (s.current + end)[|s.current|..] == end && (s.current + end')[|s.current|..] == end';
    assert f[n + 1..] == more && f[n + 1..] == more';
  }

  /** A word that the next step ends. */
  lemma WordFlushed(rest: string, s: Scan) returns (more: seq<Lexeme>)
    requires s.started && rest != "" && !Step(rest, s).started
    ensures more == Flush(Run(rest, CleanAt([]))).items
    ensures Finishes(rest, s, "", more)
  {
    more := Flush(Run(rest, CleanAt([]))).items;
    assert AtBoundary(rest) && s == InWord(s.items, s.current);
    var before := s.items + [Word(s.current)];
    BoundaryFlushes(rest, s.items, s.current);
    RunShift(rest, CleanAt([]), before);
    assert before + [] == before;
    assert s.current + "" == s.current;
  }

  // --------------------------------------- an unfinished replacement cannot work

  ghost predicate AllWords(items: seq<Lexeme>) { forall i :: 0 <= i < |items| ==> items[i].Word? }

  predicate EndsIn(s: string, c: char) { s != "" && s[|s| - 1] == c }

  predicate Sane(s: Scan) { (s.quote == NO_QUOTE || IsQuote(s.quote)) && (s.quote == '\'' ==> !s.escaped) }

  /** Two lexers of the same text in different quotes.  When only one of them has a backslash pending,
      the other one has just copied it. */
  ghost predicate Apart(a: Scan, b: Scan) {
    && Sane(a) && Sane(b) && a.quote != b.quote
    && (a.escaped && !b.escaped ==> b.started && EndsIn(b.current, '\\'))
    && (b.escaped && !a.escaped ==> a.started && EndsIn(a.current, '\\'))
  }

  /** They read alike from now on, but their words differ in the last rune. */
  ghost predicate MetTooLate(a: Scan, b: Scan) {
    && a.started && b.started && a.quote == b.quote && !a.escaped && !b.escaped
    && a.current != "" && b.current != "" && a.current[|a.current| - 1] != b.current[|b.current| - 1]
  }

  /** Two lexers in different quotes can only fall into step on a quote that one of them has escaped:
      that one keeps the quote, while the other has kept the backslash. */
  lemma StepApart(rest: string, a: Scan, b: Scan)
    requires Apart(a, b) && rest != "" && StepWidth(rest, a) == StepWidth(rest, b) == 1
    ensures Apart(Step(rest, a), Step(rest, b)) || MetTooLate(Step(rest, a), Step(rest, b))
  {
  }

  lemma OperatorStays(rest: string, s: Scan)
    requires rest != ""
    ensures AllWords(Flush(Run(rest, s)).items) ==> StepWidth(rest, s) == 1
  {
    var t := Step(rest, s);
    ItemsGrow(rest[StepWidth(rest, s)..], t);
    if s.Closed() && IsOperatorChar(rest[0]) {
      var i := |t.items| - 1;
      assert t.items[i].Operator? && Flush(Run(rest, s)).items[i] == t.items[i];
    }
  }

  lemma {:induction false} NeverMeet(rest: string, a: Scan, b: Scan, before: seq<Lexeme>)
    requires Apart(a, b) && Run(rest, a).Closed() && Run(rest, b).Closed()
    requires AllWords(Flush(Run(rest, a)).items) && AllWords(Flush(Run(rest, b)).items)
    ensures Flush(Run(rest, a)).items != before + Flush(Run(rest, b)).items
    decreases |rest|
  {
    if rest != "" {
      OperatorStays(rest, a);
      OperatorStays(rest, b);
      StepApart(rest, a, b);
      if Apart(Step(rest, a), Step(rest, b)) {
        NeverMeet(rest[1..], Step(rest, a), Step(rest, b), before);
      } else {
        TooLate(rest[1..], Step(rest, a), Step(rest, b), before);
      }
    }
  }

  lemma TooLate(rest: string, a: Scan, b: Scan, before: seq<Lexeme>)
    requires MetTooLate(a, b)
    ensures Flush(Run(rest, a)).items != before + Flush(Run(rest, b)).items
  {
    var end, more := WordEnds(rest, a);
    var end', more' := WordEnds(rest, b);
    SameEnding(rest, Bare(a), end, more, end', more');
    DifferInLast(a.current, b.current, end);
    var x, y := a.items + [Word(a.current + end)] + more, before + (b.items + [Word(b.current + end)] + more);
    if |x| == |y| {
      assert x[|x| - |more| - 1] == Word(a.current + end) && y[|y| - |more| - 1] == Word(b.current + end);
    }
  }

  lemma DifferInLast(a: string, b: string, end: string)
    requires a != "" && b != "" && a[|a| - 1] != b[|b| - 1]
    ensures a + end != b + end
  {
    if |a| == |b| { assert (a + end)[|a| - 1] != (b + end)[|b| - 1]; }
  }

  lemma {:induction false} EscapeIsLast(rest: string, s: Scan)
    requires rest != "" && Run(rest, s).escaped
    ensures EndsIn(rest, '\\')
    decreases |rest|
  {
    var tail := rest[StepWidth(rest, s)..];
    if tail != "" { EscapeIsLast(tail, Step(rest, s)); }
  }

  // ------------------------------------------------------------- main theorem

  /** In a supported line, an unquoted token between `items` and `rest`: splicing `r` verbatim gives
      the same lexemes with only that one changed only if `r` is a plain word. */
  lemma VerbatimNeedsPlain(front: string, r: string, rest: string, items: seq<Lexeme>)
    requires Run(front, START) == CleanAt(items)
    requires AllWords(items) && AtBoundary(rest) && Lex(rest).Ok? && AllWords(Lex(rest).value)
    ensures Lex(front + r + rest) == Ok(items + [Word(r)] + Lex(rest).value) ==> PlainWord(r)
  {
    var s := CleanAt(items);
    var m, target := Run(r, s), items + [Word(r)] + Lex(rest).value;
    if rest != "" && IsOperatorChar(rest[0]) { OperatorLeads(rest); }
    RunAppend(front, r, START);
    RunAppend(front + r, rest, START);
    assert Run(front + r + rest, START) == Run(rest, m);
    assert target[|items|] == Word(r);
    RunShrinks(r, s, 0);
    if m.items != items {
      ItemsGrow(rest, m);
      assert Flush(Run(rest, m)).items[|items|] == m.items[|items|];
    } else if m.Closed() {
      ClosedReplacement(r, rest, items, m);
    } else {
      OpenReplacement(r, rest, items, m);
    }
  }

  lemma ClosedReplacement(r: string, rest: string, items: seq<Lexeme>, m: Scan)
    requires m == Run(r, CleanAt(items)) && m.items == items && m.Closed()
    requires AtBoundary(rest) && Lex(rest).Ok?
    ensures Flush(Run(rest, m)).items == items + [Word(r)] + Lex(rest).value ==> PlainWord(r)
  {
    var tail := Lex(rest).value;
    RunStartsOrClean(r, CleanAt(items));
    RunShrinks(r, CleanAt(items), 0);
    if m.started {
      var before := items + [Word(m.current)];
      BoundaryFlushes(rest, items, m.current);
      assert m == InWord(items, m.current);
      ShiftedLex(rest, before);
      assert (before + tail)[|items|] == Word(m.current);
      assert (items + [Word(r)] + tail)[|items|] == Word(r);
    } else {
      assert m == CleanAt(items);
      ShiftedLex(rest, items);
      assert |items + tail| != |items + [Word(r)] + tail|;
    }
  }

  lemma {:induction false} RunStartsOrClean(rest: string, s: Scan)
    requires s.Valid()
    ensures Run(rest, s).Valid()
    decreases |rest|
  {
    if rest != "" { RunStartsOrClean(rest[StepWidth(rest, s)..], Step(rest, s)); }
  }

  lemma ShiftedLex(rest: string, before: seq<Lexeme>)
    requires Lex(rest).Ok?
    ensures Flush(Run(rest, CleanAt(before))).items == before + Lex(rest).value
  {
    RunShift(rest, START, before);
    assert before + START.items == before && CleanAt(before) == START.(items := before + START.items);
  }

  lemma OpenReplacement(r: string, rest: string, items: seq<Lexeme>, m: Scan)
    requires m == Run(r, CleanAt(items)) && m.items == items && !m.Closed()
    requires (rest == "" || IsBlank(rest[0])) && Lex(rest).Ok? && AllWords(items) && AllWords(Lex(rest).value)
    ensures Run(rest, m).Closed() ==> Flush(Run(rest, m)).items != items + [Word(r)] + Lex(rest).value
  {
    if rest != "" && Run(rest, m).Closed() {
      RunIsSane(r, CleanAt(items));
      assert Step(rest, START) == START;
      if m.quote == NO_QUOTE {
        EscapedBlank(r, rest, items, m);
      } else if AllWords(Flush(Run(rest, m)).items) {
        NeverMeet(rest[1..], Step(rest, m), START, items + [Word(r)]);
      }
    }
  }

  lemma {:induction false} RunIsSane(rest: string, s: Scan)
    requires Sane(s)
    ensures Sane(Run(rest, s))
    decreases |rest|
  {
    if rest != "" { RunIsSane(rest[StepWidth(rest, s)..], Step(rest, s)); }
  }

  /** A replacement that ends in a backslash joins the blank behind it. */
  lemma EscapedBlank(r: string, rest: string, items: seq<Lexeme>, m: Scan)
    requires m == Run(r, CleanAt(items)) && m.items == items && m.escaped && m.quote == NO_QUOTE
    requires rest != "" && IsBlank(rest[0])
    ensures Flush(Run(rest, m)).items != items + [Word(r)] + Flush(Run(rest, START)).items
  {
    EscapeIsLast(r, CleanAt(items));
    var word, tail := m.current + [rest[0]], rest[1..];
    assert Step(rest, m) == InWord(items, word);
    var target := items + [Word(r)] + Flush(Run(rest, START)).items;
    assert target[|items|] == Word(r);
    if AtBoundary(tail) {
      BoundaryFlushes(tail, items, word);
      ItemsGrow(tail, CleanAt(items + [Word(word)]));
      assert Flush(Run(tail, CleanAt(items + [Word(word)]))).items[|items|] == Word(word);
      assert EndsIn(word, rest[0]);
    } else {
      var end, more := WordEnds(tail, InWord(items, word));
      assert Step(tail, START) == Step(tail, Bare(InWord(items, word)));
      assert |Flush(Run(rest, START)).items| == 1 + |more|;
    }
  }

  /** In a line `tokenize` accepts without unsupported syntax, replacing word `p` yields the same
      lexemes with only that one changed if and only if the old token is wholly quoted or the
      replacement is a plain word. */
  lemma RewriteExactlyWhenPlain(line: string, p: nat, replacement: string) returns (token: TokenRange)
    requires Lex(line).Ok? && p < |Lex(line).value|
    requires !HasUnsupportedShellSyntax(Texts(Lex(line).value))
    ensures ChosenToken(line, Texts(Lex(line).value), p) == Some(token) && token.start < token.end <= |line|
    ensures Lex(Raw(line, token)) == Ok([Lex(line).value[p]])
    ensures var words := Texts(Lex(line).value);
            Replaced(line, words[p], replacement, Count(words[..p + 1], words[p]))
            == Some(Splice(line, token, replacement))
    ensures Lex(Splice(line, token, replacement)) == Ok(Lex(line).value[p := Word(replacement)])
            <==> WhollyQuoted(Raw(line, token)) || PlainWord(replacement)
  {
    var all := Lex(line).value;
    SupportedIsAllWords(line);
    token := RewritePreservesWords(line, p, replacement);
    if !WhollyQuoted(Raw(line, token)) {
      UnquotedTarget(line, p, replacement, token);
    }
  }

  lemma LexOperators(line: string)
    requires Lex(line).Ok?
    ensures forall i :: 0 <= i < |Lex(line).value| && Lex(line).value[i].Operator?
              ==> IsCompoundOperator(Lex(line).value[i].text)
  {
    OperatorTexts(line, START);
  }

  lemma SupportedIsAllWords(line: string)
    requires Lex(line).Ok? && !HasUnsupportedShellSyntax(Texts(Lex(line).value))
    ensures forall i :: 0 <= i < |Lex(line).value|
              ==> Lex(line).value[i].Word? && !IsCompoundOperator(Lex(line).value[i].text)
  {
    var all := Lex(line).value;
    LexOperators(line);
    forall i | 0 <= i < |all|
      ensures all[i].Word? && !IsCompoundOperator(all[i].text)
    {
      assert !UnsupportedWord(Texts(all)[i]);
    }
  }

  /** What stands before and behind the token of word `p`. */
  lemma Surroundings(line: string, p: nat, token: TokenRange)
    requires Lex(line).Ok? && p < |Lex(line).value| && !HasUnsupportedShellSyntax(Texts(Lex(line).value))
    requires ChosenToken(line, Texts(Lex(line).value), p) == Some(token)
    ensures token.start < token.end <= |line| && AtBoundary(line[token.end..])
    ensures Run(line[..token.start], START) == CleanAt(Lex(line).value[..p]) && AllWords(Lex(line).value)
    ensures Lex(line[token.end..]) == Ok(Lex(line).value[p + 1..])
  {
    SupportedIsAllWords(line);
    var j := RangeOfLexeme(line, p);
    ChosenRange(line, p, j);
  }

  lemma UnquotedTarget(line: string, p: nat, replacement: string, token: TokenRange)
    requires Lex(line).Ok? && p < |Lex(line).value| && !HasUnsupportedShellSyntax(Texts(Lex(line).value))
    requires token.start < token.end <= |line| && !WhollyQuoted(Raw(line, token))
    requires ChosenToken(line, Texts(Lex(line).value), p) == Some(token)
    ensures Lex(Splice(line, token, replacement)) == Ok(Lex(line).value[p := Word(replacement)])
            ==> PlainWord(replacement)
  {
    var all := Lex(line).value;
    Surroundings(line, p, token);
    assert all[p := Word(replacement)] == all[..p] + [Word(replacement)] + all[p + 1..];
    VerbatimNeedsPlain(line[..token.start], replacement, line[token.end..], all[..p]);
  }

  // ------------------------------------------------------- the words, as the engine sees them

  /** The texts of the edited line.  An operator is a word like any other to the engine, so replacing a
      token by an operator's text also gives the wanted words, if as an operator. */
  lemma RewriteExactOnTexts(line: string, p: nat, replacement: string) returns (token: TokenRange)
    requires Lex(line).Ok? && p < |Lex(line).value|
    requires !HasUnsupportedShellSyntax(Texts(Lex(line).value))
    ensures ChosenToken(line, Texts(Lex(line).value), p) == Some(token) && token.start < token.end <= |line|
    ensures Lex(Raw(line, token)) == Ok([Lex(line).value[p]])
    ensures var words := Texts(Lex(line).value);
            Replaced(line, words[p], replacement, Count(words[..p + 1], words[p]))
            == Some(Splice(line, token, replacement))
    ensures Reads(Splice(line, token, replacement), Texts(Lex(line).value)[p := replacement])
            <==> WhollyQuoted(Raw(line, token)) || PlainWord(replacement) || IsCompoundOperator(replacement)
  {
    var edited, all := "", Lex(line).value;
    token := RewriteExactlyWhenPlain(line, p, replacement);
    edited := Splice(line, token, replacement);
    TextsOfUpdate(all, p, replacement);
    if IsCompoundOperator(replacement) && !WhollyQuoted(Raw(line, token)) {
      OperatorTarget(line, p, replacement, token);
    } else if Reads(edited, Texts(all)[p := replacement]) && !IsCompoundOperator(replacement) {
      ReadAsWords(line, p, replacement, edited);
    }
  }

  /** `line` lexes to exactly these texts. */
  predicate Reads(line: string, words: seq<string>) { Lex(line).Ok? && Texts(Lex(line).value) == words }

  lemma TextsOfUpdate(items: seq<Lexeme>, p: nat, word: string)
    requires p < |items|
    ensures Texts(items[p := Word(word)]) == Texts(items)[p := word]
  {
    var updated := items[p := Word(word)];
    assert forall i :: 0 <= i < |items| ==> updated[i].text == Texts(items)[p := word][i];
  }

  /** Without operator texts among them, the texts of a line are its words. */
  lemma ReadAsWords(line: string, p: nat, replacement: string, edited: string)
    requires Lex(line).Ok? && p < |Lex(line).value| && !HasUnsupportedShellSyntax(Texts(Lex(line).value))
    requires Reads(edited, Texts(Lex(line).value)[p := replacement]) && !IsCompoundOperator(replacement)
    ensures Lex(edited) == Ok(Lex(line).value[p := Word(replacement)])
  {
    var all, read := Lex(line).value, Lex(edited).value;
    SupportedIsAllWords(line);
    LexOperators(edited);
    forall i | 0 <= i < |read|
      ensures read[i] == all[p := Word(replacement)][i]
    {
      assert Texts(read)[i] == Texts(all)[p := replacement][i];
    }
    assert read == all[p := Word(replacement)];
  }

  lemma OperatorTarget(line: string, p: nat, operator: string, token: TokenRange)
    requires Lex(line).Ok? && p < |Lex(line).value| && !HasUnsupportedShellSyntax(Texts(Lex(line).value))
    requires token.start < token.end <= |line| && !WhollyQuoted(Raw(line, token)) && IsCompoundOperator(operator)
    requires ChosenToken(line, Texts(Lex(line).value), p) == Some(token)
    ensures Reads(Splice(line, token, operator), Texts(Lex(line).value)[p := operator])
  {
    var all := Lex(line).value;
    Surroundings(line, p, token);
    OperatorBetween(line[..token.start], operator, line[token.end..], all[..p]);
    var read := all[..p] + [Operator(operator)] + all[p + 1..];
    assert Texts(read) == Texts(all)[p := operator];
  }

  lemma OperatorBetween(front: string, operator: string, rest: string, items: seq<Lexeme>)
    requires Run(front, START) == CleanAt(items) && AllWords(items) && IsCompoundOperator(operator)
    requires AtBoundary(rest) && Lex(rest).Ok? && AllWords(Lex(rest).value)
    ensures Lex(front + operator + rest) == Ok(items + [Operator(operator)] + Lex(rest).value)
  {
    if rest != "" && IsOperatorChar(rest[0]) { OperatorLeads(rest); }
    var after := items + [Operator(operator)];
    OperatorRun(operator, items);
    RunAppend(front, operator, START);
    RunAppend(front + operator, rest, START);
    assert Run(front + operator + rest, START) == Run(rest, CleanAt(after));
    RunShift(rest, START, after);
    assert after + START.items == after && CleanAt(after) == START.(items := after + START.items);
    ShiftedLex(rest, after);
  }

  lemma OperatorRun(operator: string, items: seq<Lexeme>)
    requires IsCompoundOperator(operator)
    ensures Run(operator, CleanAt(items)) == CleanAt(items + [Operator(operator)])
  {
    var w := OperatorWidth(operator);
    assert w == |operator| && operator[..w] == operator && operator[w..] == "";
  }
}
