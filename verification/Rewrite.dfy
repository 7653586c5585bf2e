/** The buffer rewrite: replace one token of a command line in place.

    `ReplaceTokenOccurrence` splices a re-quoted replacement over one token
    range.  `RewritePreservesWords` shows that the spliced line lexes to the
    old words with exactly one changed, and `RewriteExactlyWhenPlain` says
    for which replacements that holds. */
module Rewrite {
  import opened Options
  import opened Lexers

  /** How often `v` occurs in `xs`. */
  function Count(xs: seq<string>, v: string): (n: nat)
    ensures n <= |xs|
  {
    if xs == [] then 0
    else Count(xs[..|xs| - 1], v) + (if xs[|xs| - 1] == v then 1 else 0)
  }

  /** The index of the k-th occurrence of `v`, or -1. */
  function FindNth(xs: seq<string>, v: string, k: int): (j: int)
    ensures -1 <= j < |xs|
    ensures j >= 0 ==> xs[j] == v && Count(xs[..j + 1], v) == k
  {
    if xs == [] then -1
    else
      var n := |xs| - 1;
      var earlier := FindNth(xs[..n], v, k);
      if earlier >= 0 then
        assert xs[..n][..earlier + 1] == xs[..earlier + 1];
        earlier
      else if xs[n] == v && Count(xs, v) == k then
        assert xs[..n + 1] == xs;
        n
      else -1
  }

  lemma {:induction false} CountMonotone(xs: seq<string>, v: string, i: nat, j: nat)
    requires i <= j <= |xs|
    ensures Count(xs[..i], v) <= Count(xs[..j], v)
    decreases j
  {
    if i < j {
      assert xs[..j][..j - 1] == xs[..j - 1];
      CountMonotone(xs, v, i, j - 1);
    }
  }

  /** `FindNth` misses no occurrence. */
  lemma FindNthUnique(xs: seq<string>, v: string, j: nat)
    requires j < |xs| && xs[j] == v
    ensures FindNth(xs, v, Count(xs[..j + 1], v)) == j
  {
    var k := Count(xs[..j + 1], v);
    FindNthExists(xs, v, j);
    var f := FindNth(xs, v, k);
    if f < j {
      assert xs[..j + 1][..j] == xs[..j];
      CountMonotone(xs, v, f + 1, j);
    } else if f > j {
      assert xs[..f + 1][..f] == xs[..f];
      CountMonotone(xs, v, j + 1, f);
    }
  }

  lemma {:induction false} FindNthExists(xs: seq<string>, v: string, j: nat)
    requires j < |xs| && xs[j] == v
    ensures FindNth(xs, v, Count(xs[..j + 1], v)) >= 0
    decreases |xs|
  {
    var n := |xs| - 1;
    if j < n {
      assert xs[..n][..j + 1] == xs[..j + 1];
      FindNthExists(xs[..n], v, j);
    } else {
      assert xs[..j + 1] == xs;
    }
  }

  // ------------------------------------------------------------- the operations

  method TokenOccurrence(words: seq<string>, position: nat) returns (occurrence: nat)
    requires position < |words|
    ensures occurrence == Count(words[..position + 1], words[position])
  {
    occurrence := 0;
    for index := 0 to position + 1
      invariant occurrence == Count(words[..index], words[position])
    {
      assert words[..index + 1][..index] == words[..index];
      if words[index] == words[position] { occurrence := occurrence + 1; }
    }
  }

  /** strings.ReplaceAll(replacement, "'", "'\''") */
  function EscapeSingle(text: string): string {
    if text == "" then ""
    else (if text[0] == '\'' then "'\\''" else [text[0]]) + EscapeSingle(text[1..])
  }

  predicate NeedsDoubleEscape(c: char) { c == '\\' || c == '"' || c == '$' || c == '`' }

  function EscapeDouble(text: string): string {
    if text == "" then ""
    else (if NeedsDoubleEscape(text[0]) then ['\\', text[0]] else [text[0]]) + EscapeDouble(text[1..])
  }

  predicate WrappedIn(raw: string, q: char) { |raw| >= 2 && raw[0] == q && raw[|raw| - 1] == q }

  predicate WhollyQuoted(raw: string) { WrappedIn(raw, '\'') || WrappedIn(raw, '"') }

  function QuotedReplacement(raw: string, replacement: string): string {
    if WrappedIn(raw, '\'') then "'" + EscapeSingle(replacement) + "'"
    else if WrappedIn(raw, '"') then "\"" + EscapeDouble(replacement) + "\""
    else replacement
  }

  function Raw(line: string, token: TokenRange): string
    requires token.start <= token.end <= |line|
  {
    line[token.start..token.end]
  }

  function Splice(line: string, token: TokenRange, replacement: string): string
    requires token.start <= token.end <= |line|
  {
    line[..token.start] + QuotedReplacement(Raw(line, token), replacement) + line[token.end..]
  }

  /** The line after replacing the given occurrence of `original`, if there is one. */
  function Replaced(line: string, original: string, replacement: string, occurrence: int): Option<string> {
    RangesAscendDisjoint(line);
    var j := FindNth(Values(Ranges(line)), original, occurrence);
    if j < 0 then None else Some(Splice(line, Ranges(line)[j], replacement))
  }

  /** The range that the engine edits for word `p`: the `tokenOccurrence`-th with that value. */
  function ChosenToken(line: string, words: seq<string>, p: nat): Option<TokenRange>
    requires p < |words|
  {
    var j := FindNth(Values(Ranges(line)), words[p], Count(words[..p + 1], words[p]));
    if j < 0 then None else Some(Ranges(line)[j])
  }

  method ReplaceTokenOccurrence(line: string, original: string, replacement: string, occurrence: int)
    returns (r: Option<string>)
    ensures r == Replaced(line, original, replacement, occurrence)
  {
    RangesAscendDisjoint(line);
    var ranges := ShellTokenRanges(line);
    ghost var values := Values(ranges);
    var matched, i := 0, 0;
    while i < |ranges|
      invariant 0 <= i <= |ranges|
      invariant matched == Count(values[..i], original)
      invariant FindNth(values[..i], original, occurrence) == -1
    {
      NextOccurrence(values, i, original, occurrence);
      if ranges[i].value == original {
        matched := matched + 1;
        if matched == occurrence { return Some(Splice(line, ranges[i], replacement)); }
      }
      i := i + 1;
    }
    assert values[..i] == values;
    r := None;
  }

  lemma NextOccurrence(xs: seq<string>, i: nat, v: string, k: int)
    requires i < |xs| && FindNth(xs[..i], v, k) == -1
    ensures Count(xs[..i + 1], v) == Count(xs[..i], v) + (if xs[i] == v then 1 else 0)
    ensures var hit := xs[i] == v && Count(xs[..i + 1], v) == k;
            (hit ==> FindNth(xs, v, k) == i) && (!hit ==> FindNth(xs[..i + 1], v, k) == -1)
  {
    assert xs[..i + 1][..i] == xs[..i];
    if xs[i] == v && Count(xs[..i + 1], v) == k { FindNthUnique(xs, v, i); }
  }

  // -------------------------------------------- composing `tokenize` at a boundary

  function CleanAt(items: seq<Lexeme>): Scan { Scan(items, "", NO_QUOTE, false, false) }

  function InWord(items: seq<Lexeme>, word: string): Scan { Scan(items, word, NO_QUOTE, false, true) }

  /** No two-rune operator can straddle the end of what `t` has consumed and `rest`. */
  predicate Joins(t: Scan, rest: string) {
    || rest == "" || (rest[0] != '&' && rest[0] != '|')
    || t.started || t.items == [] || t.items[|t.items| - 1].Word?
  }

  /** Text further right changes a step only by completing a two-rune operator. */
  lemma StepAppend(a: string, b: string, s: Scan)
    requires a != ""
    requires |a| == 1 ==> Joins(Step(a, s), b)
    ensures StepWidth(a + b, s) == StepWidth(a, s) && Step(a + b, s) == Step(a, s)
    ensures (a + b)[StepWidth(a, s)..] == a[StepWidth(a, s)..] + b
  {
    assert (a + b)[0] == a[0] && (|a| > 1 ==> (a + b)[1] == a[1]);
    var w := OperatorWidth(a);
    assert (a + b)[..w] == a[..w];
    if s.Closed() && IsOperatorChar(a[0]) {
      assert OperatorWidth(a + b) == w;
      assert OperatorText(a + b) == OperatorText(a);
    }
  }

  lemma RunLast(a: string, s: Scan)
    requires |a| == 1
    ensures Run(a, s) == Step(a, s)
  {
    assert a[1..] == "";
  }

  lemma {:induction false} RunAppend(a: string, b: string, s: Scan)
    requires Joins(Run(a, s), b)
    ensures Run(a + b, s) == Run(b, Run(a, s))
    decreases |a|
  {
    if a == "" {
      assert a + b == b;
    } else {
      if |a| == 1 { RunLast(a, s); }
      StepAppend(a, b, s);
      RunAppend(a[StepWidth(a, s)..], b, Step(a, s));
    }
  }

  /** What has been collected so far does not influence the rest of the run. */
  lemma {:induction false} RunShift(rest: string, s: Scan, before: seq<Lexeme>)
    ensures Run(rest, s.(items := before + s.items))
            == Run(rest, s).(items := before + Run(rest, s).items)
    decreases |rest|
  {
    if rest != "" {
      var s' := s.(items := before + s.items);
      assert StepWidth(rest, s') == StepWidth(rest, s);
      assert Step(rest, s').items == before + Step(rest, s).items;
      assert Step(rest, s') == Step(rest, s).(items := before + Step(rest, s).items);
      RunShift(rest[StepWidth(rest, s)..], Step(rest, s), before);
    }
  }

  predicate AtBoundary(rest: string) { rest == "" || IsBlank(rest[0]) || IsOperatorChar(rest[0]) }

  /** Reaching a boundary inside a word is the same as having flushed it first. */
  lemma BoundaryFlushes(rest: string, items: seq<Lexeme>, word: string)
    requires AtBoundary(rest)
    ensures Flush(Run(rest, InWord(items, word))) == Flush(Run(rest, CleanAt(items + [Word(word)])))
  {
    if rest == "" {
    } else {
      var s, t := InWord(items, word), CleanAt(items + [Word(word)]);
      assert Step(rest, s) == Step(rest, t) && StepWidth(rest, s) == StepWidth(rest, t);
    }
  }

  /** Lexing a line in which a token stands between a clean prefix and a boundary. */
  lemma LexAround(front: string, token: string, rest: string, items: seq<Lexeme>, word: string)
    requires Run(front, START) == CleanAt(items)
    requires Run(token, CleanAt(items)) == InWord(items, word)
    requires token != "" && Joins(CleanAt(items), token)
    requires AtBoundary(rest)
    ensures Lex(front + token + rest) ==
            if Lex(rest).Ok? then Ok(items + [Word(word)] + Lex(rest).value) else Incomplete
  {
    RunAppend(front, token, START);
    RunAppend(front + token, rest, START);
    BoundaryFlushes(rest, items, word);
    var before := items + [Word(word)];
    RunShift(rest, START, before);
    assert before + START.items == before;
    assert CleanAt(before) == START.(items := before + START.items);
    var plain, shifted := Run(rest, START), Run(rest, CleanAt(before));
    assert Flush(shifted).items == before + Flush(plain).items;
    var s := Run(front + token + rest, START);
    assert s == Run(rest, InWord(items, word));
    assert s.Closed() == Flush(s).Closed() == Flush(shifted).Closed() == plain.Closed();
  }

  // ----------------------------------------------------- where each token stands

  /** `token` is delimited in `line`, and `before` are the ranges to its left. */
  ghost predicate Located(line: string, before: seq<TokenRange>, token: TokenRange) {
    && token.start < token.end <= |line|
    && RangeRun(line[..token.start]).ranges == before
    && RangeRun(line[..token.start]).start < 0
    && RangeRun(line[..token.end]) == RangeScan(before, token.value, token.start, NO_QUOTE, false, token.end)
    && (forall i :: token.start < i <= token.end ==> RangeRun(line[..i]).start >= 0)
    && !AtBoundary(line[token.start..])
    && AtBoundary(line[token.end..])
  }

  ghost predicate OpenToken(line: string, t: RangeScan) {
    && 0 <= t.start < t.pos <= |line|
    && RangeRun(line[..t.start]).ranges == t.ranges
    && RangeRun(line[..t.start]).start < 0
    && (forall i :: t.start < i <= t.pos ==> RangeRun(line[..i]).start >= 0)
    && !AtBoundary(line[t.start..])
  }

  lemma {:induction false} LocatedUpTo(line: string, n: nat)
    requires n <= |line|
    ensures var t := RangeRun(line[..n]);
            && (forall j :: 0 <= j < |t.ranges| ==> Located(line, t.ranges[..j], t.ranges[j]))
            && (t.start >= 0 ==> OpenToken(line, t))
            && (t.start < 0 ==> t.Closed() && t.value == "")
    decreases n
  {
    if n > 0 {
      LocatedUpTo(line, n - 1);
      var s, t := RangeRun(line[..n - 1]), RangeRun(line[..n]);
      StepKeepsOpenToken(line, n - 1);
      if s.ranges != t.ranges {
        FlushLocates(line, n - 1);
        AppendLocated(line, s.ranges, TokenRange(s.start, n - 1, s.value));
      }
    }
  }

  /** One rune either keeps the ranges, with a located open token or none, or closes the open token. */
  lemma StepKeepsOpenToken(line: string, n: nat)
    requires n < |line|
    requires var s := RangeRun(line[..n]);
             && (s.start >= 0 ==> OpenToken(line, s)) && (s.start < 0 ==> s.Closed() && s.value == "")
    ensures var s, t := RangeRun(line[..n]), RangeRun(line[..n + 1]);
            && (t.start >= 0 ==> OpenToken(line, t)) && (t.start < 0 ==> t.Closed() && t.value == "")
            && (t.ranges != s.ranges ==>
                  && s.start >= 0 && s.Closed() && AtBoundary(line[n..])
                  && t.ranges == s.ranges + [TokenRange(s.start, n, s.value)])
  {
    var s, t, c := RangeRun(line[..n]), RangeRun(line[..n + 1]), line[n];
    assert line[..n + 1][..n] == line[..n];
    assert t == RangeStep(s, c);
    assert line[n..][0] == c;
    if t.start >= 0 {
      assert t.ranges == s.ranges;
      forall i | t.start < i <= t.pos
        ensures RangeRun(line[..i]).start >= 0
      {
        if i == n + 1 { } else { assert s.start == t.start; }
      }
    }
  }

  lemma AppendLocated(line: string, ranges: seq<TokenRange>, token: TokenRange)
    requires forall j :: 0 <= j < |ranges| ==> Located(line, ranges[..j], ranges[j])
    requires Located(line, ranges, token)
    ensures var rs := ranges + [token]; forall j :: 0 <= j < |rs| ==> Located(line, rs[..j], rs[j])
  {
    var rs := ranges + [token];
    forall j | 0 <= j < |rs|
      ensures Located(line, rs[..j], rs[j])
    {
      if j < |ranges| {
        assert rs[..j] == ranges[..j];
        assert Located(line, ranges[..j], ranges[j]);
      } else {
        assert rs[..j] == ranges;
      }
    }
  }

  /** Closing an open token at a boundary yields a located range. */
  lemma FlushLocates(line: string, n: nat)
    requires n <= |line|
    requires var t := RangeRun(line[..n]); t.start >= 0 && t.Closed() && OpenToken(line, t)
    requires AtBoundary(line[n..])
    ensures var t := RangeRun(line[..n]); Located(line, t.ranges, TokenRange(t.start, n, t.value))
  {
  }

  lemma AllLocated(line: string)
    requires Lex(line).Ok?
    ensures var rs := Ranges(line); forall j :: 0 <= j < |rs| ==> Located(line, rs[..j], rs[j])
  {
    var n := |line|;
    assert line[..n] == line;
    LocatedUpTo(line, n);
    PrefixRelated(line);
    var t := RangeRun(line);
    if t.start >= 0 {
      FlushLocates(line, n);
      AppendLocated(line, t.ranges, TokenRange(t.start, n, t.value));
    }
  }

  /** While a word is open, no lexeme is appended. */
  lemma {:induction false} NoItemsInsideWord(token: string, s: Scan)
    requires s.Clean()
    requires token == "" || !AtBoundary(token)
    requires forall i :: 0 < i <= |token| ==> Run(token[..i], s).started
    ensures Run(token, s).items == s.items
    decreases |token|
  {
    if token != "" {
      var n := |token| - 1;
      var front, last := token[..n], [token[n]];
      assert token == front + last;
      forall i | 0 < i <= n
        ensures Run(front[..i], s).started
      {
        assert front[..i] == token[..i];
      }
      assert n > 0 ==> token[..n] == front && Run(token[..n], s).started;
      assert n > 0 ==> front[0] == token[0];
      NoItemsInsideWord(front, s);
      assert token[..n + 1] == token;
      assert Joins(Run(front, s), last);
      RunAppend(front, last, s);
      var m := Run(front, s);
      assert last[1..] == "" && StepWidth(last, m) == 1;
      assert Run(last[1..], Step(last, m)) == Step(last, m);
    }
  }

  /** A located range in terms of `tokenize`: a clean prefix, one word, a boundary. */
  lemma TokenInScan(line: string, before: seq<TokenRange>, token: TokenRange)
    returns (items: seq<Lexeme>)
    requires Located(line, before, token)
    ensures Run(line[..token.start], START) == CleanAt(items)
    ensures Run(Raw(line, token), CleanAt(items)) == InWord(items, token.value)
    ensures WordTexts(items) == Values(before)
  {
    var front, raw := line[..token.start], Raw(line, token);
    PrefixRelated(front);
    items := Run(front, START).items;
    assert line[token.start..][0] == raw[0];
    forall i | 0 < i <= |raw|
      ensures Run(raw[..i], CleanAt(items)).started
    {
      TokenPrefix(line, token, i, items);
    }
    NoItemsInsideWord(raw, CleanAt(items));
    TokenPrefix(line, token, |raw|, items);
    assert raw[..|raw|] == raw;
  }

  /** Part of a token, lexed from the clean state before it. */
  lemma TokenPrefix(line: string, token: TokenRange, i: nat, items: seq<Lexeme>)
    requires token.start < token.end <= |line| && 0 < i <= token.end - token.start
    requires Run(line[..token.start], START) == CleanAt(items) && !IsOperatorChar(line[token.start])
    ensures Related(Run(Raw(line, token)[..i], CleanAt(items)), RangeRun(line[..token.start + i]))
  {
    var front, part := line[..token.start], Raw(line, token)[..i];
    assert part == line[token.start..token.start + i];
    assert part[0] == line[token.start];
    RunAppend(front, part, START);
    assert front + part == line[..token.start + i];
    PrefixRelated(line[..token.start + i]);
  }

  // -------------------------------------------------- the replacement as a token

  lemma RunOne(c: char, rest: string, line: string, s: Scan, next: Scan)
    requires line == [c] + rest
    requires !s.Closed() || !IsOperatorChar(c)
    requires Step([c], s) == next
    ensures Run(line, s) == Run(rest, next)
  {
    assert line[1..] == rest;
  }

  function InQuotes(items: seq<Lexeme>, word: string, q: char): Scan { Scan(items, word, q, false, true) }

  lemma CloseAndEscape(rest: string, line: string, items: seq<Lexeme>, sofar: string)
    requires line == "'\\" + rest
    ensures Run(line, InQuotes(items, sofar, '\'')) == Run(rest, Scan(items, sofar, NO_QUOTE, true, true))
  {
    RunOne('\'', "\\" + rest, line, InQuotes(items, sofar, '\''), InWord(items, sofar));
    RunOne('\\', rest, "\\" + rest, InWord(items, sofar), Scan(items, sofar, NO_QUOTE, true, true));
  }

  lemma LiteralAndReopen(rest: string, line: string, items: seq<Lexeme>, sofar: string)
    requires line == "''" + rest
    ensures Run(line, Scan(items, sofar, NO_QUOTE, true, true)) == Run(rest, InQuotes(items, sofar + "'", '\''))
  {
    RunOne('\'', "'" + rest, line, Scan(items, sofar, NO_QUOTE, true, true), InWord(items, sofar + "'"));
    RunOne('\'', rest, "'" + rest, InWord(items, sofar + "'"), InQuotes(items, sofar + "'", '\''));
  }

  lemma EscapedRune(c: char, rest: string, line: string, items: seq<Lexeme>, sofar: string)
    requires line == ['\\', c] + rest
    ensures Run(line, InQuotes(items, sofar, '"')) == Run(rest, InQuotes(items, sofar + [c], '"'))
  {
    RunOne('\\', [c] + rest, line, InQuotes(items, sofar, '"'), Scan(items, sofar, '"', true, true));
    RunOne(c, rest, [c] + rest, Scan(items, sofar, '"', true, true), InQuotes(items, sofar + [c], '"'));
  }

  lemma {:induction false} SingleQuotedRun(text: string, line: string, items: seq<Lexeme>, sofar: string)
    requires line == EscapeSingle(text) + "'"
    ensures Run(line, InQuotes(items, sofar, '\'')) == InWord(items, sofar + text)
    decreases |text|
  {
    if text == "" {
      RunOne('\'', "", line, InQuotes(items, sofar, '\''), InWord(items, sofar));
      assert sofar + text == sofar;
    } else {
      var rest := EscapeSingle(text[1..]) + "'";
      SingleQuotedRun(text[1..], rest, items, sofar + [text[0]]);
      assert sofar + [text[0]] + text[1..] == sofar + text;
      if text[0] == '\'' {
        CloseAndEscape("''" + rest, line, items, sofar);
        LiteralAndReopen(rest, "''" + rest, items, sofar);
      } else {
        RunOne(text[0], rest, line, InQuotes(items, sofar, '\''), InQuotes(items, sofar + [text[0]], '\''));
      }
    }
  }

  lemma {:induction false} DoubleQuotedRun(text: string, line: string, items: seq<Lexeme>, sofar: string)
    requires line == EscapeDouble(text) + "\""
    ensures Run(line, InQuotes(items, sofar, '"')) == InWord(items, sofar + text)
    decreases |text|
  {
    if text == "" {
      RunOne('"', "", line, InQuotes(items, sofar, '"'), InWord(items, sofar));
      assert sofar + text == sofar;
    } else {
      var rest := EscapeDouble(text[1..]) + "\"";
      DoubleQuotedRun(text[1..], rest, items, sofar + [text[0]]);
      assert sofar + [text[0]] + text[1..] == sofar + text;
      if NeedsDoubleEscape(text[0]) {
        EscapedRune(text[0], rest, line, items, sofar);
      } else {
        RunOne(text[0], rest, line, InQuotes(items, sofar, '"'), InQuotes(items, sofar + [text[0]], '"'));
      }
    }
  }

  lemma {:induction false} PlainRun(text: string, s: Scan)
    requires s.Closed()
    requires forall i :: 0 <= i < |text| ==> IsPlain(text[i])
    ensures Run(text, s) == if text == "" then s else InWord(s.items, s.current + text)
    decreases |text|
  {
    if text != "" {
      PlainRun(text[1..], InWord(s.items, s.current + [text[0]]));
      assert s.current + [text[0]] + text[1..] == s.current + text;
    }
  }

  /** The spliced-in text lexes, from a clean state, to the replacement itself. */
  lemma ReplacementIsOneWord(raw: string, replacement: string, items: seq<Lexeme>)
    requires WhollyQuoted(raw) || PlainWord(replacement)
    ensures var q := QuotedReplacement(raw, replacement);
            && q != "" && !IsOperatorChar(q[0])
            && Run(q, CleanAt(items)) == InWord(items, replacement)
  {
    var q := QuotedReplacement(raw, replacement);
    if WrappedIn(raw, '\'') {
      var rest := EscapeSingle(replacement) + "'";
      RunOne('\'', rest, q, CleanAt(items), InQuotes(items, "", '\''));
      SingleQuotedRun(replacement, rest, items, "");
    } else if WrappedIn(raw, '"') {
      var rest := EscapeDouble(replacement) + "\"";
      RunOne('"', rest, q, CleanAt(items), InQuotes(items, "", '"'));
      DoubleQuotedRun(replacement, rest, items, "");
    } else {
      PlainRun(replacement, CleanAt(items));
    }
    assert "" + replacement == replacement;
  }

  // ------------------------------------------- which range belongs to which lexeme

  lemma {:induction false} WordTextsAppend(a: seq<Lexeme>, b: seq<Lexeme>)
    ensures WordTexts(a + b) == WordTexts(a) + WordTexts(b)
    decreases |b|
  {
    if b == [] {
      assert a + b == a;
    } else {
      var n := |b| - 1;
      assert (a + b)[..|a + b| - 1] == a + b[..n];
      WordTextsAppend(a, b[..n]);
    }
  }

  /** The rank of a word among the words determines its position among the lexemes. */
  lemma SameRankSamePosition(items: seq<Lexeme>, p: nat, q: nat)
    requires p < |items| && q < |items| && items[p].Word? && items[q].Word?
    requires |WordTexts(items[..p])| == |WordTexts(items[..q])|
    ensures p == q
  {
    var lo, hi := if p < q then p else q, if p < q then q else p;
    if lo < hi {
      assert items[..lo + 1][..lo] == items[..lo];
      assert items[..hi] == items[..lo + 1] + items[lo + 1..hi];
      WordTextsAppend(items[..lo + 1], items[lo + 1..hi]);
    }
  }

  /** Counting a text that is no operator gives the same number among words and among lexemes. */
  lemma {:induction false} CountWords(items: seq<Lexeme>, v: string)
    requires forall i :: 0 <= i < |items| && items[i].Operator? ==> items[i].text != v
    ensures Count(WordTexts(items), v) == Count(Texts(items), v)
    decreases |items|
  {
    if items != [] {
      var n := |items| - 1;
      CountWords(items[..n], v);
      assert Texts(items)[..n] == Texts(items[..n]);
      assert items[n].Word? ==> WordTexts(items)[..|WordTexts(items)| - 1] == WordTexts(items[..n]);
    }
  }

  lemma {:induction false} OperatorTexts(rest: string, s: Scan)
    requires forall i :: 0 <= i < |s.items| && s.items[i].Operator? ==> IsCompoundOperator(s.items[i].text)
    ensures forall i :: 0 <= i < |Run(rest, s).items| && Run(rest, s).items[i].Operator?
              ==> IsCompoundOperator(Run(rest, s).items[i].text)
    decreases |rest|
  {
    if rest != "" {
      if OperatorWidth(rest) > 0 { OperatorIsCompound(rest); }
      OperatorTexts(rest[StepWidth(rest, s)..], Step(rest, s));
    }
  }

  /** The range stands in the line as lexeme `p`: what is before it, its own text, and what is behind it. */
  ghost predicate StandsFor(line: string, token: TokenRange, p: nat)
    requires Lex(line).Ok? && p < |Lex(line).value|
  {
    && token.start < token.end <= |line| && Lex(line).value[p] == Word(token.value)
    && !AtBoundary(line[token.start..]) && AtBoundary(line[token.end..])
    && Run(line[..token.start], START) == CleanAt(Lex(line).value[..p])
    && Run(Raw(line, token), CleanAt(Lex(line).value[..p])) == InWord(Lex(line).value[..p], token.value)
    && Lex(line[token.end..]) == Ok(Lex(line).value[p + 1..])
  }

  /** Lexeme `p`, a word, stands in the line as the range of the same rank. */
  lemma RangeOfLexeme(line: string, p: nat) returns (j: nat)
    requires Lex(line).Ok? && p < |Lex(line).value| && Lex(line).value[p].Word?
    ensures j < |Ranges(line)| && StandsFor(line, Ranges(line)[j], p)
    ensures Values(Ranges(line)[..j + 1]) == WordTexts(Lex(line).value[..p + 1])
    ensures Ranges(line)[j].value == Lex(line).value[p].text
  {
    RangesFollowTokenize(line);
    j := |WordTexts(Lex(line).value[..p])|;
    RankOfWord(Lex(line).value, p, Ranges(line));
    var q := LexemeOfRange(line, j);
    SameRankSamePosition(Lex(line).value, p, q);
  }

  /** The number of words before a word is its index among the values. */
  lemma RankOfWord(all: seq<Lexeme>, p: nat, ranges: seq<TokenRange>)
    requires p < |all| && all[p].Word? && Values(ranges) == WordTexts(all)
    ensures var j := |WordTexts(all[..p])|;
            j < |ranges| && Values(ranges[..j + 1]) == WordTexts(all[..p + 1]) && ranges[j].value == all[p].text
  {
    assert all[..p + 1] == all[..p] + [all[p]] && all == all[..p + 1] + all[p + 1..];
    RankBetween(all[..p], all[p], all[p + 1..], ranges);
  }

  lemma RankBetween(front: seq<Lexeme>, x: Lexeme, back: seq<Lexeme>, ranges: seq<TokenRange>)
    requires x.Word? && Values(ranges) == WordTexts(front + [x] + back)
    ensures var j := |WordTexts(front)|;
            j < |ranges| && Values(ranges[..j + 1]) == WordTexts(front + [x]) && ranges[j].value == x.text
  {
    WordTextsPush(front, x);
    WordTextsAppend(front + [x], back);
    RankAmong(ranges, WordTexts(front), x.text, WordTexts(back));
  }

  lemma RankAmong(ranges: seq<TokenRange>, front: seq<string>, x: string, back: seq<string>)
    requires Values(ranges) == front + [x] + back
    ensures |front| < |ranges| && Values(ranges[..|front| + 1]) == front + [x] && ranges[|front|].value == x
  {
    assert Values(ranges)[|front|] == x;
    assert Values(ranges[..|front| + 1]) == Values(ranges)[..|front| + 1];
  }

  lemma LexemeOfRange(line: string, j: nat) returns (q: nat)
    requires Lex(line).Ok? && j < |Ranges(line)|
    ensures q < |Lex(line).value| && StandsFor(line, Ranges(line)[j], q)
    ensures |WordTexts(Lex(line).value[..q])| == j
  {
    AllLocated(line);
    q := LocatedLexeme(line, Ranges(line)[..j], Ranges(line)[j]);
  }

  lemma LocatedLexeme(line: string, before: seq<TokenRange>, token: TokenRange) returns (q: nat)
    requires Lex(line).Ok? && Located(line, before, token)
    ensures q < |Lex(line).value| && StandsFor(line, token, q)
    ensures |WordTexts(Lex(line).value[..q])| == |before|
  {
    var all := Lex(line).value;
    var items := TokenInScan(line, before, token);
    var rest := line[token.end..];
    assert line[..token.start] + Raw(line, token) + rest == line;
    assert line[token.start..][0] == Raw(line, token)[0];
    LexAround(line[..token.start], Raw(line, token), rest, items, token.value);
    q := |items|;
    AroundOne(all, items, Word(token.value), Lex(rest).value);
  }

  lemma AroundOne(all: seq<Lexeme>, front: seq<Lexeme>, x: Lexeme, back: seq<Lexeme>)
    requires all == front + [x] + back
    ensures all[..|front|] == front && all[|front|] == x && all[|front| + 1..] == back
  {
  }

  /** The token that `replaceTokenOccurrence` picks for lexeme `p` is that lexeme's own range. */
  lemma ChosenRange(line: string, p: nat, j: nat)
    requires Lex(line).Ok? && p < |Lex(line).value|
    requires !IsCompoundOperator(Lex(line).value[p].text)
    requires j < |Ranges(line)| && Ranges(line)[j].value == Lex(line).value[p].text
    requires Values(Ranges(line)[..j + 1]) == WordTexts(Lex(line).value[..p + 1])
    ensures var words := Texts(Lex(line).value);
            FindNth(Values(Ranges(line)), words[p], Count(words[..p + 1], words[p])) == j
  {
    var all, values := Lex(line).value, Values(Ranges(line));
    OperatorTexts(line, START);
    CountWords(all[..p + 1], all[p].text);
    assert Texts(all)[..p + 1] == Texts(all[..p + 1]);
    assert values[..j + 1] == Values(Ranges(line)[..j + 1]);
    FindNthUnique(values, all[p].text, j);
  }

  // ------------------------------------------------------------- main theorems

  /** Replacing the occurrence that `tokenOccurrence` counts for word `p` changes only that token's
      text, and the new line lexes to the same lexemes with exactly lexeme `p` replaced. */
  lemma RewritePreservesWords(line: string, p: nat, replacement: string)
    returns (token: TokenRange)
    requires Lex(line).Ok? && p < |Lex(line).value| && Lex(line).value[p].Word?
    requires !IsCompoundOperator(Lex(line).value[p].text)
    ensures ChosenToken(line, Texts(Lex(line).value), p) == Some(token) && token.start < token.end <= |line|
    ensures Lex(Raw(line, token)) == Ok([Lex(line).value[p]])
    ensures var words := Texts(Lex(line).value);
            Replaced(line, words[p], replacement, Count(words[..p + 1], words[p]))
            == Some(Splice(line, token, replacement))
    ensures WhollyQuoted(Raw(line, token)) || PlainWord(replacement)
            ==> Lex(Splice(line, token, replacement)) == Ok(Lex(line).value[p := Word(replacement)])
  {
    var j := RangeOfLexeme(line, p);
    ChosenRange(line, p, j);
    token := Ranges(line)[j];
    LexAlone(Raw(line, token), Lex(line).value[..p], token.value);
    if WhollyQuoted(Raw(line, token)) || PlainWord(replacement) { ReplacedReads(line, p, token, replacement); }
  }

  lemma ReplacedReads(line: string, p: nat, token: TokenRange, replacement: string)
    requires Lex(line).Ok? && p < |Lex(line).value| && StandsFor(line, token, p)
    requires WhollyQuoted(Raw(line, token)) || PlainWord(replacement)
    ensures Lex(Splice(line, token, replacement)) == Ok(Lex(line).value[p := Word(replacement)])
  {
    var all, raw, rest := Lex(line).value, Raw(line, token), line[token.end..];
    ReplacementIsOneWord(raw, replacement, all[..p]);
    LexAround(line[..token.start], QuotedReplacement(raw, replacement), rest, all[..p], replacement);
    assert all[p := Word(replacement)] == all[..p] + [Word(replacement)] + all[p + 1..];
  }

  lemma LexAlone(raw: string, items: seq<Lexeme>, word: string)
    requires Run(raw, CleanAt(items)) == InWord(items, word)
    ensures Lex(raw) == Ok([Word(word)])
  {
    RunShift(raw, START, items);
    assert items + START.items == items && CleanAt(items) == START.(items := items + START.items);
    var plain := Run(raw, START);
    assert items + plain.items == items;
    assert plain.items == [];
    assert [] + [Word(word)] == [Word(word)];
  }
}
