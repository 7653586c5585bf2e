/** The word lexers of the diagnosis engine.

    `tokenize` and `shellTokenRanges` are hand-written loops over the same
    notion of quoting.  Each is proved against a fold, and the folds are then
    related: see `RangesFollowTokenize`.  A line is a sequence of runes. */
module Lexers {

  // The source's `quote` variable holds rune 0 outside quotes.
  const NO_QUOTE: char := '\0'

  datatype Result<+T> = Ok(value: T) | Incomplete | Unsupported

  /** What `tokenize` appends to its result: a word, or an unquoted operator. */
  datatype Lexeme = Word(text: string) | Operator(text: string)

  function Texts(items: seq<Lexeme>): (texts: seq<string>)
    ensures |texts| == |items|
    ensures forall i :: 0 <= i < |items| ==> texts[i] == items[i].text
  {
    seq(|items|, i requires 0 <= i < |items| => items[i].text)
  }

  /** The words among the lexemes, operators dropped. */
  function WordTexts(items: seq<Lexeme>): (texts: seq<string>)
    ensures |texts| <= |items|
  {
    if items == [] then []
    else
      var front := WordTexts(items[..|items| - 1]);
      var last := items[|items| - 1];
      if last.Word? then front + [last.text] else front
  }

  predicate IsBlank(c: char) { c == ' ' || c == '\t' }

  predicate IsQuote(c: char) { c == '\'' || c == '"' }

  predicate IsOperatorChar(c: char) {
    c == ';' || c == '&' || c == '|' || c == '(' || c == ')' || c == '\n'
  }

  /** A rune that every lexer copies into the current word. */
  predicate IsPlain(c: char) { !IsBlank(c) && !IsQuote(c) && !IsOperatorChar(c) && c != '\\' }

  predicate PlainWord(word: string) {
    word != "" && forall i :: 0 <= i < |word| ==> IsPlain(word[i])
  }

  predicate IsCompoundOperator(value: string) {
    value == ";" || value == "&" || value == "&&" || value == "|" || value == "|&" || value == "||"
    || value == "(" || value == ")"
  }

  predicate HasUnsupportedShellSyntax(words: seq<string>) {
    exists i :: 0 <= i < |words| && UnsupportedWord(words[i])
  }

  predicate Unsupports(c: char) {
    c == '<' || c == '>' || c == '`' || c == '$' || c == '*' || c == '?' || c == '[' || c == ']' || c == '{' || c == '}'
  }

  predicate UnsupportedWord(word: string) {
    IsCompoundOperator(word) || exists i :: 0 <= i < |word| && Unsupports(word[i])
  }

  /** How many runes of `runes` form a compound operator: 0 when there is none. */
  function OperatorWidth(runes: string): (w: nat)
    ensures w <= |runes| && w <= 2
    ensures w == 0 <==> runes == "" || !IsOperatorChar(runes[0])
  {
    if runes == "" || !IsOperatorChar(runes[0]) then 0
    else if |runes| > 1 && runes[0] == '&' && runes[1] == '&' then 2
    else if |runes| > 1 && runes[0] == '|' && (runes[1] == '|' || runes[1] == '&') then 2
    else 1
  }

  /** The compound operator at the front of `runes`; a newline reads as a semicolon. */
  function OperatorText(runes: string): string {
    if OperatorWidth(runes) == 1 && runes[0] == '\n' then ";" else runes[..OperatorWidth(runes)]
  }

  lemma OperatorIsCompound(runes: string)
    requires OperatorWidth(runes) > 0
    ensures IsCompoundOperator(OperatorText(runes)) && |OperatorText(runes)| == OperatorWidth(runes)
  {
    var w := OperatorWidth(runes);
    assert w == 1 ==> runes[..w] == [runes[0]];
    assert w == 2 ==> runes[..w] == [runes[0], runes[1]];
  }

  // ---------------------------------------------------------------- tokenize

  datatype Scan = Scan(items: seq<Lexeme>, current: string, quote: char, escaped: bool, started: bool) {
    /** Outside quotes and escapes. */
    predicate Closed() { quote == NO_QUOTE && !escaped }

    /** Between words. */
    predicate Clean() { Closed() && !started && current == "" }

    ghost predicate Valid() {
      && (!started ==> Closed() && current == "")
      && (quote == NO_QUOTE || IsQuote(quote))
    }
  }

  const START := Scan([], "", NO_QUOTE, false, false)

  function Flush(s: Scan): Scan {
    if s.started then s.(items := s.items + [Word(s.current)], current := "", started := false) else s
  }

  /** How many runes one iteration of `tokenize` consumes. */
  function StepWidth(rest: string, s: Scan): (w: nat)
    requires rest != ""
    ensures 1 <= w <= |rest| && w <= 2
  {
    if s.Closed() && IsOperatorChar(rest[0]) then OperatorWidth(rest) else 1
  }

  /** One iteration of `tokenize`. */
  function Step(rest: string, s: Scan): Scan
    requires rest != ""
  {
    var c := rest[0];
    if s.escaped then s.(current := s.current + [c], escaped := false, started := true)
    else if c == '\\' && s.quote != '\'' then s.(escaped := true, started := true)
    else if s.quote != NO_QUOTE then
      if c == s.quote then s.(quote := NO_QUOTE, started := true)
      else s.(current := s.current + [c], started := true)
    else if IsQuote(c) then s.(quote := c, started := true)
    else if IsOperatorChar(c) then
      var f := Flush(s);
      f.(items := f.items + [Operator(OperatorText(rest))])
    else if IsBlank(c) then Flush(s)
    else s.(current := s.current + [c], started := true)
  }

  function Run(rest: string, s: Scan): Scan
    decreases |rest|
  {
    if rest == "" then s else Run(rest[StepWidth(rest, s)..], Step(rest, s))
  }

  /** The lexemes of a whole line. */
  function Lex(line: string): Result<seq<Lexeme>> {
    var s := Run(line, START);
    if s.Closed() then Ok(Flush(s).items) else Incomplete
  }

  /** The branches of `tokenize` for a rune that is escaped, quoted or part of quoting; `taken` says
      whether one of them applied. */
  method QuotedRune(c: char, current: string, quote: char, escaped: bool, ghost rest: string, ghost s: Scan)
    returns (taken: bool, current': string, quote': char, escaped': bool)
    requires rest != "" && rest[0] == c && s == Scan(s.items, current, quote, escaped, s.started)
    ensures taken <==> escaped || quote != NO_QUOTE || c == '\\' || IsQuote(c)
    ensures taken ==> StepWidth(rest, s) == 1 && Step(rest, s) == Scan(s.items, current', quote', escaped', true)
  {
    taken, current', quote', escaped' := true, current, quote, escaped;
    if escaped {
      current', escaped' := current + [c], false;
    } else if c == '\\' && quote != '\'' {
      escaped' := true;
    } else if quote != NO_QUOTE {
      if c == quote { quote' := NO_QUOTE; } else { current' := current + [c]; }
    } else if IsQuote(c) {
      quote' := c;
    } else {
      taken := false;
    }
  }

  /** The branches for a rune outside quotes; `width` is the width of the operator there. */
  method BareRune(c: char, width: nat, operator: string, result: seq<string>, current: string, started: bool,
                  ghost rest: string, ghost s: Scan)
    returns (result': seq<string>, current': string, started': bool)
    requires rest != "" && rest[0] == c && width == OperatorWidth(rest) && operator == OperatorText(rest)
    requires s == Scan(s.items, current, NO_QUOTE, false, started) && result == Texts(s.items)
    requires c != '\\' && !IsQuote(c)
    ensures Step(rest, s) == Scan(Step(rest, s).items, current', NO_QUOTE, false, started')
    ensures result' == Texts(Step(rest, s).items)
  {
    result', current', started' := result, current, started;
    if width > 0 || IsBlank(c) {
      if started { result', current', started' := result + [current], "", false; }
      if width > 0 { result' := result' + [operator]; }
    } else {
      current', started' := current + [c], true;
    }
  }

  /** One turn of the loop of `tokenize`. */
  method ScanRune(rest: string, result: seq<string>, current: string, quote: char, escaped: bool, started: bool,
                  ghost s: Scan)
    returns (width: nat, result': seq<string>, current': string, quote': char, escaped': bool, started': bool)
    requires rest != "" && s == Scan(s.items, current, quote, escaped, started) && result == Texts(s.items)
    ensures width == StepWidth(rest, s) && 0 < width <= |rest| && result' == Texts(Step(rest, s).items)
    ensures Step(rest, s) == Scan(Step(rest, s).items, current', quote', escaped', started')
  {
    var taken;
    taken, current', quote', escaped' := QuotedRune(rest[0], current, quote, escaped, rest, s);
    if taken { return 1, result, current', quote', escaped', true; }
    width, quote', escaped' := OperatorWidth(rest), quote, escaped;
    result', current', started' := BareRune(rest[0], width, OperatorText(rest), result, current, started, rest, s);
    if width == 0 { width := 1; }
  }

  /** The loop of `tokenize`: its variables after the whole line are the fold's state. */
  method ScanLine(line: string)
    returns (result: seq<string>, current: string, quote: char, escaped: bool, started: bool, ghost s: Scan)
    ensures s == Run(line, START) && s == Scan(s.items, current, quote, escaped, started) && result == Texts(s.items)
  {
    result := [];
    current, quote, escaped, started, s := "", NO_QUOTE, false, false, START;
    ghost var last := Run(line, START);
    var index := 0;
    assert line[0..] == line;
    while index < |line|
      invariant 0 <= index <= |line|
      invariant Run(line[index..], s) == last
      invariant s == Scan(s.items, current, quote, escaped, started)
      invariant result == Texts(s.items)
    {
      RunUnfold(line, index, s);
      var width;
      width, result, current, quote, escaped, started :=
        ScanRune(line[index..], result, current, quote, escaped, started, s);
      s, index := Step(line[index..], s), index + width;
    }
  }

  /** `tokenize`: the lexemes' texts, or an incomplete-input error. */
  method Tokenize(line: string) returns (r: Result<seq<string>>)
    ensures Lex(line).Ok? ==> r == Ok(Texts(Lex(line).value))
    ensures !Lex(line).Ok? ==> r == Incomplete
  {
    var result, current, quote, escaped, started, s := ScanLine(line);
    if escaped || quote != NO_QUOTE { return Incomplete; }
    TextsPush(s.items, Word(current));
    r := Ok(if started then result + [current] else result);
  }

  lemma TextsPush(items: seq<Lexeme>, x: Lexeme)
    ensures Texts(items + [x]) == Texts(items) + [x.text]
  {
  }

  lemma RunUnfold(line: string, index: nat, s: Scan)
    requires index < |line|
    ensures var rest := line[index..]; Run(rest, s) == Run(line[index + StepWidth(rest, s)..], Step(rest, s))
  {
    var rest := line[index..];
    assert rest[StepWidth(rest, s)..] == line[index + StepWidth(rest, s)..];
  }

  // -------------------------------------------------------- shellTokenRanges

  datatype TokenRange = TokenRange(start: nat, end: nat, value: string)

  function Values(ranges: seq<TokenRange>): (values: seq<string>)
    ensures |values| == |ranges|
    ensures forall i :: 0 <= i < |ranges| ==> values[i] == ranges[i].value
  {
    seq(|ranges|, i requires 0 <= i < |ranges| => ranges[i].value)
  }

  /** `start` is -1 between tokens, as in the source. */
  datatype RangeScan = RangeScan(ranges: seq<TokenRange>, value: string, start: int, quote: char, escaped: bool,
                                 pos: nat) {
    predicate Closed() { quote == NO_QUOTE && !escaped }
  }

  const RANGE_START := RangeScan([], "", -1, NO_QUOTE, false, 0)

  function FlushRange(s: RangeScan): RangeScan {
    if s.start >= 0 then
      s.(ranges := s.ranges + [TokenRange(s.start, s.pos, s.value)], value := "", start := -1)
    else s
  }

  function Open(s: RangeScan): RangeScan { if s.start < 0 then s.(start := s.pos) else s }

  function RangeStep(s: RangeScan, c: char): RangeScan {
    var next :=
      if s.escaped then s.(value := s.value + [c], escaped := false)
      else if c == '\\' && s.quote != '\'' then Open(s).(escaped := true)
      else if s.quote != NO_QUOTE then
        if c == s.quote then s.(quote := NO_QUOTE) else s.(value := s.value + [c])
      else if IsQuote(c) then Open(s).(quote := c)
      else if IsBlank(c) || IsOperatorChar(c) then FlushRange(s)
      else Open(s).(value := s.value + [c]);
    next.(pos := s.pos + 1)
  }

  function RangeRun(line: string): (s: RangeScan)
    ensures s.pos == |line|
  {
    if line == "" then RANGE_START else RangeStep(RangeRun(line[..|line| - 1]), line[|line| - 1])
  }

  function Ranges(line: string): seq<TokenRange> { FlushRange(RangeRun(line)).ranges }

  method ShellTokenRanges(line: string) returns (ranges: seq<TokenRange>)
    ensures ranges == Ranges(line)
  {
    ranges := [];
    var value, start, quote, escaped := "", -1, NO_QUOTE, false;
    var index := 0;
    while index < |line|
      invariant 0 <= index <= |line|
      invariant RangeRun(line[..index]) == RangeScan(ranges, value, start, quote, escaped, index)
      invariant start >= -1
    {
      var c := line[index];
      assert line[..index + 1][..index] == line[..index];
      if escaped {
        value, escaped := value + [c], false;
      } else if c == '\\' && quote != '\'' {
        if start < 0 { start := index; }
        escaped := true;
      } else if quote != NO_QUOTE {
        if c == quote { quote := NO_QUOTE; } else { value := value + [c]; }
      } else if IsQuote(c) {
        if start < 0 { start := index; }
        quote := c;
      } else if IsBlank(c) || IsOperatorChar(c) {
        if start >= 0 { ranges, value, start := ranges + [TokenRange(start, index, value)], "", -1; }
      } else {
        if start < 0 { start := index; }
        value := value + [c];
      }
      index := index + 1;
    }
    assert line[..index] == line;
    if start >= 0 { ranges := ranges + [TokenRange(start, index, value)]; }
  }

  // ------------------------------------------------------- the two folds agree

  ghost predicate Related(s: Scan, t: RangeScan) {
    && s.Valid()
    && s.quote == t.quote && s.escaped == t.escaped && s.current == t.value
    && s.started == (t.start >= 0)
    && WordTexts(s.items) == Values(t.ranges)
  }

  function RangeFold(t: RangeScan, rest: string): RangeScan
    decreases |rest|
  {
    if rest == "" then t else RangeFold(RangeStep(t, rest[0]), rest[1..])
  }

  lemma {:induction false} RangeRunIsFold(front: string, rest: string)
    ensures RangeFold(RangeRun(front), rest) == RangeRun(front + rest)
    decreases |rest|
  {
    if rest == "" {
      assert front + rest == front;
    } else {
      assert (front + [rest[0]])[..|front|] == front;
      assert front + [rest[0]] + rest[1..] == front + rest;
      RangeRunIsFold(front + [rest[0]], rest[1..]);
    }
  }

  lemma WordTextsPush(items: seq<Lexeme>, x: Lexeme)
    ensures WordTexts(items + [x]) == if x.Word? then WordTexts(items) + [x.text] else WordTexts(items)
  {
    assert (items + [x])[..|items|] == items;
  }

  lemma ValuesPush(ranges: seq<TokenRange>, x: TokenRange)
    ensures Values(ranges + [x]) == Values(ranges) + [x.value]
  {
  }

  lemma FlushRelated(s: Scan, t: RangeScan)
    requires Related(s, t)
    ensures Related(Flush(s).(quote := s.quote), FlushRange(t)) || !s.Closed()
    ensures WordTexts(Flush(s).items) == Values(FlushRange(t).ranges)
  {
    if s.started {
      WordTextsPush(s.items, Word(s.current));
      ValuesPush(t.ranges, TokenRange(t.start, t.pos, t.value));
    }
  }

  lemma FoldOne(t: RangeScan, rest: string)
    requires |rest| == 1
    ensures RangeFold(t, rest) == RangeStep(t, rest[0])
  {
    assert rest[1..] == "";
  }

  lemma FoldTwo(t: RangeScan, rest: string)
    requires |rest| == 2
    ensures RangeFold(t, rest) == RangeStep(RangeStep(t, rest[0]), rest[1])
  {
    FoldOne(RangeStep(t, rest[0]), rest[1..]);
  }

  /** An unquoted operator ends the word in both lexers; its second rune changes nothing more. */
  lemma OperatorRelated(rest: string, s: Scan, t: RangeScan)
    requires rest != "" && Related(s, t) && s.Closed() && IsOperatorChar(rest[0])
    ensures Related(Step(rest, s), RangeFold(t, rest[..StepWidth(rest, s)]))
  {
    FlushRelated(s, t);
    WordTextsPush(Flush(s).items, Operator(OperatorText(rest)));
    OperatorFold(rest, t);
    assert Step(rest, s) == Flush(s).(items := Flush(s).items + [Operator(OperatorText(rest))]);
  }

  lemma OperatorFold(rest: string, t: RangeScan)
    requires rest != "" && t.Closed() && IsOperatorChar(rest[0])
    ensures var w := OperatorWidth(rest); RangeFold(t, rest[..w]) == FlushRange(t).(pos := t.pos + w)
  {
    var w := OperatorWidth(rest);
    if w == 1 { FoldOne(t, rest[..1]); } else { FoldTwo(t, rest[..2]); }
  }

  lemma BlankRelated(rest: string, s: Scan, t: RangeScan)
    requires rest != "" && Related(s, t) && s.Closed() && IsBlank(rest[0])
    ensures Related(Step(rest, s), RangeStep(t, rest[0]))
  {
    FlushRelated(s, t);
    assert Step(rest, s) == Flush(s) && RangeStep(t, rest[0]) == FlushRange(t).(pos := t.pos + 1);
  }

  /** Any other rune leaves the finished words alone. */
  lemma RuneRelated(rest: string, s: Scan, t: RangeScan)
    requires rest != "" && Related(s, t) && !(s.Closed() && (IsBlank(rest[0]) || IsOperatorChar(rest[0])))
    ensures Step(rest, s).items == s.items && RangeStep(t, rest[0]).ranges == t.ranges
    ensures Related(Step(rest, s), RangeStep(t, rest[0]))
  {
  }

  lemma StepRelated(rest: string, s: Scan, t: RangeScan)
    requires rest != "" && Related(s, t)
    ensures Related(Step(rest, s), RangeFold(t, rest[..StepWidth(rest, s)]))
  {
    if s.Closed() && IsOperatorChar(rest[0]) {
      OperatorRelated(rest, s, t);
    } else {
      FoldOne(t, rest[..1]);
      if s.Closed() && IsBlank(rest[0]) { BlankRelated(rest, s, t); } else { RuneRelated(rest, s, t); }
    }
  }

  lemma {:induction false} RangeFoldAppend(t: RangeScan, a: string, b: string)
    ensures RangeFold(t, a + b) == RangeFold(RangeFold(t, a), b)
    decreases |a|
  {
    if a == "" {
      assert a + b == b;
    } else {
      assert (a + b)[1..] == a[1..] + b;
      RangeFoldAppend(RangeStep(t, a[0]), a[1..], b);
    }
  }

  lemma {:induction false} RunRelated(rest: string, s: Scan, t: RangeScan)
    requires Related(s, t)
    ensures Related(Run(rest, s), RangeFold(t, rest))
    decreases |rest|
  {
    if rest != "" {
      var w := StepWidth(rest, s);
      StepRelated(rest, s, t);
      RunRelated(rest[w..], Step(rest, s), RangeFold(t, rest[..w]));
      RangeFoldAppend(t, rest[..w], rest[w..]);
      assert rest[..w] + rest[w..] == rest;
    }
  }

  /** On every prefix of a line the two lexers are in the same situation. */
  lemma PrefixRelated(line: string)
    ensures Related(Run(line, START), RangeRun(line))
  {
    RunRelated(line, START, RANGE_START);
    RangeRunIsFold("", line);
    assert "" + line == line;
  }

  /** The ranges of a complete line hold exactly the words of `tokenize`, unquoted operators dropped. */
  lemma RangesFollowTokenize(line: string)
    requires Lex(line).Ok?
    ensures Values(Ranges(line)) == WordTexts(Lex(line).value)
  {
    PrefixRelated(line);
    FlushRelated(Run(line, START), RangeRun(line));
  }

  ghost predicate OrderedRanges(ranges: seq<TokenRange>, limit: nat) {
    && (forall i :: 0 <= i < |ranges| ==> ranges[i].start < ranges[i].end <= limit)
    && (forall i, j :: 0 <= i < j < |ranges| ==> ranges[i].end <= ranges[j].start)
  }

  lemma {:induction false} RangesOrderedUpTo(line: string)
    ensures var t := RangeRun(line);
            && OrderedRanges(t.ranges, |line|)
            && t.start < |line| + (if line == "" then 1 else 0)
            && (t.start >= 0 ==> forall i :: 0 <= i < |t.ranges| ==> t.ranges[i].end <= t.start)
            && (t.start < 0 ==> t.Closed())
    decreases |line|
  {
    if line != "" { RangesOrderedUpTo(line[..|line| - 1]); }
  }

  /** On every line, complete or not, the ranges are non-empty, ascending, disjoint and inside the line. */
  lemma RangesAscendDisjoint(line: string)
    ensures OrderedRanges(Ranges(line), |line|)
  {
    RangesOrderedUpTo(line);
  }
}
