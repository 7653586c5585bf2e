/** Matching a command's words against the resolved packs. */
module PackMatching {
  import opened Options
  import opened Packs
  import opened Lexers
  import opened Rewrite
  import opened RiskAssessment
  import opened Strings

  /** The rule's regular expression: whether it matches a whole text, and how its templates expand. */
  datatype Regex = Regex(full: (Rule, string) -> bool, expand: (Rule, string, string) -> string)

  datatype Match = Match(
    pack: string, rule: string, suggestion: string, cause: string, risk: Risk,
    original: string, replacement: string, occurrence: nat)

  /** Control and bidirectional characters, by their Unicode class; a parameter. */
  type Hidden = char -> bool

  predicate UnsafeInTail(c: char) {
    IsBlank(c) || c == '\r' || IsQuote(c) || c == '\\' || IsOperatorChar(c) || Unsupports(c)
  }

  predicate SafeWord(word: string, hidden: Hidden) {
    word != "" && forall i :: 0 <= i < |word| ==> !UnsafeInTail(word[i]) && !hidden(word[i])
  }

  predicate SafeTail(words: seq<string>, hidden: Hidden) { forall i :: 0 <= i < |words| ==> SafeWord(words[i], hidden) }

  /** Rule `rule` applies to the first `n` arguments and leaves the others as the tail. */
  predicate Applies(rule: Rule, words: seq<string>, n: int, regex: Regex, hidden: Hidden) {
    && 0 < n < |words| && rule.command == words[0]
    && (n == |words| - 1 || rule.preserveTail)
    && SafeTail(words[n + 1..], hidden)
    && regex.full(rule, Join(words[1..n + 1]))
  }

  function Build(pack: Pack, rule: Rule, words: seq<string>, n: nat, regex: Regex): Match
    requires 0 < n < |words|
  {
    var value, tail := Join(words[1..n + 1]), words[n + 1..];
    var expanded := regex.expand(rule, rule.replacement, value);
    var replacement := if tail == [] then expanded else expanded + " " + Join(tail);
    var cause := regex.expand(rule, rule.cause, value);
    var suggestion := words[0] + " " + replacement;
    if |words| == 2 && tail == [] && ' ' !in replacement then
      Match(pack.id, rule.id, suggestion, cause, rule.risk, words[1], replacement, 1)
    else
      Match(pack.id, rule.id, suggestion, cause, rule.risk, "", "", 0)
  }

  datatype Found = Found(pack: nat, rule: nat, count: nat) | Nothing

  /** Position (p, r, n) comes before (p', r', n'): earlier pack, then earlier rule, then more arguments. */
  predicate Earlier(p: int, r: int, n: int, p': int, r': int, n': int) {
    p < p' || (p == p' && (r < r' || (r == r' && n > n')))
  }

  ghost predicate AppliesAt(packs: seq<Pack>, words: seq<string>, regex: Regex, hidden: Hidden, p: int, r: int, n: int)
  {
    0 <= p < |packs| && 0 <= r < |packs[p].rules| && Applies(packs[p].rules[r], words, n, regex, hidden)
  }

  /** The innermost loop: the longest argument prefix a rule applies to, or 0. */
  method LongestPrefix(rule: Rule, words: seq<string>, regex: Regex, hidden: Hidden) returns (count: nat)
    requires |words| >= 2
    ensures count > 0 ==> Applies(rule, words, count, regex, hidden)
    ensures forall n :: n > count ==> !Applies(rule, words, n, regex, hidden)
  {
    if rule.command != words[0] { return 0; }
    count := |words| - 1;
    while count > 0
      invariant 0 <= count < |words|
      invariant forall n :: n > count ==> !Applies(rule, words, n, regex, hidden)
    {
      if count != |words| - 1 && !rule.preserveTail { return 0; }
      if SafeTail(words[count + 1..], hidden) && regex.full(rule, Join(words[1..count + 1])) { return; }
      count := count - 1;
    }
  }

  /** `MatchWordsContext`: the first match in (pack, rule, longest prefix) order; none only if there is none. */
  method MatchWords(packs: seq<Pack>, words: seq<string>, regex: Regex, hidden: Hidden)
    returns (found: Found, match_: Option<Match>)
    ensures found.Nothing? <==> forall p, r, n :: !AppliesAt(packs, words, regex, hidden, p, r, n)
    ensures found.Nothing? <==> match_.None?
    ensures found.Found? ==>
              && AppliesAt(packs, words, regex, hidden, found.pack, found.rule, found.count)
              && (forall p, r, n :: AppliesAt(packs, words, regex, hidden, p, r, n)
                    ==> !Earlier(p, r, n, found.pack, found.rule, found.count))
              && var pack := packs[found.pack];
                 match_ == Some(Build(pack, pack.rules[found.rule], words, found.count, regex))
  {
    if |words| < 2 { return Nothing, None; }
    var i := 0;
    while i < |packs|
      invariant 0 <= i <= |packs|
      invariant forall p, r, n :: p < i ==> !AppliesAt(packs, words, regex, hidden, p, r, n)
    {
      var k := 0;
      while k < |packs[i].rules|
        invariant 0 <= k <= |packs[i].rules|
        invariant forall r, n :: r < k ==> !AppliesAt(packs, words, regex, hidden, i, r, n)
      {
        var count := LongestPrefix(packs[i].rules[k], words, regex, hidden);
        if count > 0 {
          assert AppliesAt(packs, words, regex, hidden, i, k, count);
          return Found(i, k, count), Some(Build(packs[i], packs[i].rules[k], words, count, regex));
        }
        assert forall n :: !AppliesAt(packs, words, regex, hidden, i, k, n);
        k := k + 1;
      }
      i := i + 1;
    }
    found, match_ := Nothing, None;
  }

  // ------------------------------------------------------------------ the tail survives

  function Words(texts: seq<string>): seq<Lexeme> { seq(|texts|, i requires 0 <= i < |texts| => Word(texts[i])) }

  lemma SafeIsPlain(word: string, hidden: Hidden)
    requires SafeWord(word, hidden)
    ensures PlainWord(word)
  {
    forall i | 0 <= i < |word|
      ensures IsPlain(word[i])
    {
      assert !UnsafeInTail(word[i]);
    }
  }

  lemma {:induction false} JoinedTailLexes(tail: seq<string>, hidden: Hidden)
    requires tail != [] && SafeTail(tail, hidden)
    ensures Lex(Join(tail)) == Ok(Words(tail))
    ensures Join(tail) != "" && IsPlain(Join(tail)[0])
    decreases |tail|
  {
    SafeIsPlain(tail[0], hidden);
    if |tail| == 1 {
      PlainLexes(tail[0], "");
      assert tail[0] + "" == tail[0];
    } else {
      var rest := Join(tail[1..]);
      JoinedTailLexes(tail[1..], hidden);
      BlankLeads(rest);
      PlainLexes(tail[0], " " + rest);
      assert Join(tail) == tail[0] + (" " + rest);
    }
    assert Words(tail) == [Word(tail[0])] + Words(tail[1..]);
  }

  lemma PlainLexes(word: string, rest: string)
    requires PlainWord(word) && AtBoundary(rest) && Lex(rest).Ok?
    ensures Lex(word + rest) == Ok([Word(word)] + Lex(rest).value)
  {
    PlainRun(word, START);
    assert "" + word == word && START == CleanAt([]);
    LexAround("", word, rest, [], word);
    assert "" + word + rest == word + rest && [] + [Word(word)] == [Word(word)];
  }

  lemma BlankLeads(rest: string)
    ensures Lex(" " + rest) == Lex(rest)
  {
    assert (" " + rest)[1..] == rest;
  }

  /** Whatever the rule's template expands to, as long as it lexes, the suggestion lexes to it followed
      by exactly the tail words. */
  lemma TailSurvives(head: string, tail: seq<string>, hidden: Hidden)
    requires Lex(head).Ok? && tail != [] && SafeTail(tail, hidden)
    ensures Lex(head + " " + Join(tail)) == Ok(Lex(head).value + Words(tail))
  {
    var rest, s := Join(tail), Run(head, START);
    JoinedTailLexes(tail, hidden);
    RunAppend(head, " " + rest, START);
    assert head + " " + rest == head + (" " + rest);
    assert (" " + rest)[1..] == rest;
    assert Run(" " + rest, s) == Run(rest, Flush(s));
    FlushedIsClean(head);
    RunShift(rest, START, Flush(s).items);
    assert Flush(s).items + START.items == Flush(s).items;
    assert Flush(s) == START.(items := Flush(s).items + START.items);
    assert Flush(Run(rest, Flush(s))).items == Flush(s).items + Flush(Run(rest, START)).items;
  }

  lemma FlushedIsClean(head: string)
    requires Lex(head).Ok?
    ensures Flush(Run(head, START)) == CleanAt(Lex(head).value)
  {
    PrefixRelated(head);
  }

  /** A match suggests the command, the expanded template and the tail words, verbatim. */
  lemma MatchKeepsTail(pack: Pack, rule: Rule, words: seq<string>, n: nat, regex: Regex, hidden: Hidden)
    requires Applies(rule, words, n, regex, hidden)
    ensures var head := words[0] + " " + regex.expand(rule, rule.replacement, Join(words[1..n + 1]));
            Lex(head).Ok? ==>
              Lex(Build(pack, rule, words, n, regex).suggestion) == Ok(Lex(head).value + Words(words[n + 1..]))
  {
    var head := words[0] + " " + regex.expand(rule, rule.replacement, Join(words[1..n + 1]));
    var tail := words[n + 1..];
    if Lex(head).Ok? && tail != [] { TailSurvives(head, tail, hidden); }
    assert Lex(head).Ok? && tail == [] ==> Lex(head).value + Words(tail) == Lex(head).value;
    assert Build(pack, rule, words, n, regex).suggestion == if tail == [] then head else head + " " + Join(tail);
  }
}
