/** What the verbatim splice can do.

    A path repair assesses a directory entry's name as one word, splices it
    verbatim, and does not look at the resulting line again.  Here a long
    mistyped name and an entry that continues it with ";rm" lead to an
    automatic rewrite, reported as safe, to a line that runs `rm`.

    A pack match names the first occurrence of its argument's text.  Here that
    is the command's own name, and the wrong word is replaced. */
module RewriteHazard {
  import opened Options
  import Strings
  import opened Lexers
  import opened ConservativeLexer
  import opened Rewrite
  import opened RewriteExact
  import opened EditDistance
  import opened Redaction
  import opened RiskAssessment
  import opened PackMatching
  import opened Packs
  import opened PackConflicts
  import opened PackVersion
  import opened Engine
  import opened EngineGuarantees

  /** A name of lower-case letters, long enough for three more runes to keep a confidence of 0.9. */
  predicate LongName(name: string) { |name| >= 27 && forall i :: 0 <= i < |name| ==> 'a' <= name[i] <= 'z' }

  const ZSH := Known(Posix(true))

  function Entry(name: string): string { name + ";rm" }

  function Line(name: string): string { "cat " + ("./" + name) }

  function Typed(name: string): seq<string> { ["cat", "./" + name] }

  function Dirs(path: string): (string, string) { if "./" <= path then ("./", path[2..]) else ("", path) }

  const UNLIMITED := Limits((line: string) => false, false, (d: Decision) => false)

  /** Rewrite mode; `cat` exists; the working directory holds just the entry; there are no packs. */
  function Place(name: string): Env {
    Env(Config(RewriteMode, true, false), UNLIMITED, (line: string) => false, (c: char) => c, ORDINARY, false, ["cat"],
        (word: string) => word == "cat", (path: string) => false, (path: string) => Dirs(path),
        (dir: string, entry: string) => if dir == "./" then entry else dir + entry,
        (dir: string) => if dir == "./" then Some([Entry(name)]) else None,
        [], {}, Regex((rule, text) => false, (rule, template, text) => template), (c: char) => false)
  }

  // --------------------------------------------------------------------- the line's words

  predicate Ordinary(c: char) { ('a' <= c <= 'z') || c == '.' || c == '/' }

  ghost predicate OrdinaryText(text: string) { forall i :: 0 <= i < |text| ==> Ordinary(text[i]) }

  ghost predicate OrdinaryReader(s: Reader) {
    s.quote == NO_QUOTE && OrdinaryText(s.current) && forall i :: 0 <= i < |s.words| ==> OrdinaryText(s.words[i])
  }

  /** A line of ordinary runes and blanks is accepted. */
  lemma {:induction false} Accepts(rest: string, s: Reader)
    requires OrdinaryReader(s) && forall i :: 0 <= i < |rest| ==> Ordinary(rest[i]) || rest[i] == ' '
    ensures ReadAll(rest, s, ZSH.shell).Ok?
    decreases |rest|
  {
    if rest == "" {
      OrdinaryIsSupported(FlushReader(s).words);
    } else {
      OrdinaryMove(rest, s);
      Accepts(rest[1..], Read(rest, s, ZSH.shell).state);
    }
  }

  lemma OrdinaryMove(rest: string, s: Reader)
    requires rest != "" && OrdinaryReader(s) && (Ordinary(rest[0]) || rest[0] == ' ')
    ensures var m := Read(rest, s, ZSH.shell); m.Advance? && m.width == 1 && OrdinaryReader(m.state)
  {
  }

  lemma OrdinaryIsSupported(words: seq<string>)
    requires forall i :: 0 <= i < |words| ==> OrdinaryText(words[i])
    ensures !HasUnsupportedShellSyntax(words)
  {
    forall i | 0 <= i < |words|
      ensures !UnsupportedWord(words[i])
    {
      assert words[i] != "" ==> Ordinary(words[i][0]);
    }
  }

  lemma TwoWordsLex(first: string, second: string)
    requires PlainWord(first) && PlainWord(second)
    ensures Lex(first + (" " + second)) == Ok([Word(first), Word(second)])
  {
    assert second + "" == second && Lex("") == Ok([]);
    PlainLexes(second, "");
    BlankLeads(second);
    PlainLexes(first, " " + second);
    assert [Word(first)] + ([Word(second)] + []) == [Word(first), Word(second)];
  }

  lemma LineReads(name: string)
    requires LongName(name)
    ensures ForShell(ZSH, Line(name)) == Ok(Typed(name)) && Supported(ZSH, Line(name))
    ensures RewriteCompatible(Line(name)) && Reads(Line(name), Typed(name))
  {
    var line, path := Line(name), "./" + name;
    OrdinaryRunes(name);
    AcceptedAsLexed(line);
    TwoWordsLex("cat", path);
    assert line == "cat" + (" " + path);
    assert Lexers.Texts([Word("cat"), Word(path)]) == Typed(name);
  }

  lemma AcceptedAsLexed(line: string)
    requires RewriteCompatible(line) && forall i :: 0 <= i < |line| ==> Ordinary(line[i]) || line[i] == ' '
    ensures Lex(line).Ok? && ForShell(ZSH, line) == Ok(Lexers.Texts(Lex(line).value)) && Supported(ZSH, line)
  {
    Accepts(line, FRESH);
    RewriteCompatibleLexersAgree(line, ZSH.shell);
    AcceptedIsSupported(line);
  }

  lemma {:induction false} AcceptedIsSupported(line: string)
    requires Conservative(line, ZSH.shell).Ok?
    ensures !HasUnsupportedShellSyntax(Conservative(line, ZSH.shell).value)
  {
    AcceptedFrom(line, FRESH);
  }

  lemma {:induction false} AcceptedFrom(rest: string, s: Reader)
    requires ReadAll(rest, s, ZSH.shell).Ok?
    ensures !HasUnsupportedShellSyntax(ReadAll(rest, s, ZSH.shell).value)
    decreases |rest|
  {
    if rest != "" { AcceptedFrom(rest[Read(rest, s, ZSH.shell).width..], Read(rest, s, ZSH.shell).state); }
  }

  lemma OrdinaryRunes(name: string)
    requires LongName(name)
    ensures var line := Line(name);
            && (forall i :: 0 <= i < |line| ==> Ordinary(line[i]) || line[i] == ' ')
            && PlainWord("./" + name) && RewriteCompatible(line)
  {
    var line := Line(name);
    forall i | 0 <= i < |line|
      ensures Ordinary(line[i]) || line[i] == ' '
    {
      if i >= 6 { assert line[i] == name[i - 6]; }
    }
    assert forall i :: 0 <= i < |"./" + name| ==> ("./" + name)[i] == line[i + 4];
  }

  // ------------------------------------------------------------------------- the repair

  lemma {:induction false} KeepAll(name: string, tail: string) returns (edits: seq<Edit>)
    ensures Aligns(edits, name, name + tail) && Cost(edits) == |tail|
    decreases |name| + |tail|
  {
    if tail != "" {
      var n := |tail| - 1;
      edits := KeepAll(name, tail[..n]);
      ExtendAligns(edits, Insert(tail[n]), name, name + tail[..n]);
      edits := edits + [Insert(tail[n])];
      assert name + "" == name && name + tail[..n] + [tail[n]] == name + tail;
    } else if name != "" {
      var n := |name| - 1;
      edits := KeepAll(name[..n], "");
      assert name[..n] + "" == name[..n] && name + "" == name && name[..n] + [name[n]] == name;
      ExtendAligns(edits, Keep(name[n]), name[..n], name[..n]);
      edits := edits + [Keep(name[n])];
    } else {
      edits := [];
    }
  }

  /** The entry is three insertions away, near enough for an automatic repair. */
  lemma EntryIsNear(name: string)
    requires LongName(name)
    ensures Distance(name, Entry(name)) == 3 && Confidence(name, Entry(name)) >= 0.90
    ensures Repairs(Place(name), PathRepair, name, [Entry(name)], Entry(name))
  {
    var edits := KeepAll(name, ";rm");
    AlignmentCost(edits, name, Entry(name));
    DistanceBounds(name, Entry(name));
    var longer := |name| as real + 3.0;
    assert 3.0 / longer <= 0.10;
  }

  lemma NothingElse(name: string)
    requires LongName(name)
    ensures CommandSilent(Place(name), Typed(name)) && PacksSilent(Place(name), ZSH, Typed(name))
  {
    var words := Typed(name);
    assert Expects(words, 0) && !Expects(words, 1);
    assert forall p, b :: !CommandRepairAt(Place(name), words, p, b);
  }

  function Repaired(name: string): seq<string> { ["cat", Entry(name)] }

  /** Taken as one word, the entry is harmless. */
  lemma RepairLooksSafe(name: string)
    requires LongName(name)
    ensures Assess(ORDINARY, Repaired(name)) == Safe
    ensures Redaction.RedactedWords(ORDINARY.redactor, Repaired(name)) == Repaired(name)
  {
    var words := Repaired(name);
    var entry := words[1];
    assert Expects(words, 0) && !Expects(words, 1);
    assert forall i :: 0 <= i < |entry| ==> entry[i] != '=' && entry[i] != '>' && entry[i] != '-';
    assert !ContainsSecret(ORDINARY.redactor, words);
    assert RunsCommand(words, 0) && HarmlessAt(ORDINARY, words, 0);
  }

  function Proposal(name: string): Decision {
    Decision(NoAction, false, Strings.Join(Repaired(name)), PathRepair, false, Confidence(name, Entry(name)), Safe,
             false, "./" + name, Entry(name), 1)
  }

  lemma PathIsRepaired(name: string)
    requires LongName(name)
    ensures RepairsPath(Place(name), "./" + name, Entry(name))
  {
    var path := "./" + name;
    assert path[0] == '.' && path[1] == '/' && path[2..] == name && path[..1] == ".";
    EntryIsNear(name);
  }

  lemma ProposalFits(name: string)
    requires LongName(name)
    ensures Proposes(Place(name), Typed(name), 1, Entry(name), Proposal(name))
  {
    RepairLooksSafe(name);
    FirstOfTwo(Typed(name));
    assert Typed(name)[1 := Entry(name)] == Repaired(name) && Typed(name)[..2] == Typed(name);
  }

  lemma ProposalIsMade(name: string)
    requires LongName(name)
    ensures Diagnosis(Place(name), ZSH, Typed(name), ByPath(1, Entry(name)), Proposal(name))
  {
    NothingElse(name);
    PathIsRepaired(name);
    ProposalFits(name);
    assert ("./" + name)[2..] == name;
    assert PathRepairAt(Place(name), Typed(name), 1, Entry(name));
    assert Proposal(name).suggestion != "" by { assert Proposal(name).suggestion[0] == 'c'; }
  }

  // ----------------------------------------------------------------------- the buffer

  function Harm(name: string): seq<string> { ["cat", name, ";", "rm"] }

  /** The entry between a clean prefix and a boundary is two words and an operator. */
  lemma EntrySplits(front: string, name: string, rest: string)
    requires LongName(name) && Run(front, START) == CleanAt([Word("cat")])
    requires AtBoundary(rest) && Lex(rest) == Ok([])
    ensures Reads(front + Entry(name) + rest, Harm(name))
  {
    var cat, tail := [Word("cat")], ";" + ("rm" + rest);
    TailLexes(rest);
    NameRuns(name, cat);
    LexAround(front, name, tail, cat, name);
    assert front + name + tail == front + Entry(name) + rest;
    assert cat + [Word(name)] + [Operator(";"), Word("rm")] == [Word("cat"), Word(name), Operator(";"), Word("rm")];
    assert Lexers.Texts([Word("cat"), Word(name), Operator(";"), Word("rm")]) == Harm(name);
  }

  lemma NameRuns(name: string, items: seq<Lexeme>)
    requires LongName(name)
    ensures Run(name, CleanAt(items)) == InWord(items, name)
  {
    PlainRun(name, CleanAt(items));
    assert "" + name == name;
  }

  lemma TailLexes(rest: string)
    requires AtBoundary(rest) && Lex(rest) == Ok([])
    ensures Lex(";" + ("rm" + rest)) == Ok([Operator(";"), Word("rm")])
  {
    PlainLexes("rm", rest);
    OperatorLeadsOn("rm" + rest);
    assert [Operator(";")] + ([Word("rm")] + []) == [Operator(";"), Word("rm")];
  }

  lemma OperatorLeadsOn(rest: string)
    requires Lex(rest).Ok?
    ensures Lex(";" + rest) == Ok([Operator(";")] + Lex(rest).value)
  {
    assert (";" + rest)[1..] == rest && (";" + rest)[..1] == ";";
    ShiftedLex(rest, [Operator(";")]);
    RunShift(rest, START, [Operator(";")]);
    assert Step(";" + rest, START) == CleanAt([Operator(";")]);
    assert CleanAt([Operator(";")]) == START.(items := [Operator(";")] + START.items);
  }

  lemma HarmIsHigh(name: string)
    requires LongName(name)
    ensures Assess(ORDINARY, Harm(name)) == High
  {
    assert IsCompoundOperator(Harm(name)[2]) && Expects(Harm(name), 3);
    assert RunsCommand(Harm(name), 3) by { assert '=' !in "rm"; }
    assert DangerAt(ORDINARY, Harm(name), 3);
  }

  lemma TokenBetween(name: string, token: TokenRange)
    requires LongName(name) && Reads(Line(name), Typed(name))
    requires ChosenToken(Line(name), Lexers.Texts(Lex(Line(name)).value), 1) == Some(token)
    ensures token.start < token.end <= |Line(name)|
    ensures var front, rest := Line(name)[..token.start], Line(name)[token.end..];
            Run(front, START) == CleanAt([Word("cat")]) && AtBoundary(rest) && Lex(rest) == Ok([])
  {
    var line := Line(name);
    var all := Lex(line).value;
    LineReads(name);
    Surroundings(line, 1, token);
    assert Lexers.Texts(all)[0] == "cat" && all[..1] == [Word("cat")] && all[2..] == [];
  }

  lemma BufferHarms(name: string) returns (token: TokenRange)
    requires LongName(name)
    ensures token.start < token.end <= |Line(name)|
    ensures var edited := Splice(Line(name), token, Entry(name));
            Replaced(Line(name), "./" + name, Entry(name), 1) == Some(edited) && Reads(edited, Harm(name))
  {
    var line := Line(name);
    LineReads(name);
    FirstOfTwo(Typed(name));
    assert Typed(name)[..2] == Typed(name);
    token := EditOfOneWord(ZSH, line, 1, Entry(name));
    TokenBetween(name, token);
    EntrySplits(line[..token.start], name, line[token.end..]);
  }

  /** In this place the engine rewrites the line by itself, calls the result safe, and puts a line into
      the buffer whose own words are high-risk: it runs `rm`. */
  lemma SafeRewriteRunsRm(name: string)
    requires LongName(name)
    ensures var d := Finished(Place(name).config, ZSH, Line(name), true, Proposal(name));
            && IsAnswer(Place(name), ZSH, Line(name), true, d)
            && d.action.RewriteBuffer? && d.risk.Safe?
            && Reads(d.suggestion, Harm(name)) && Assess(ORDINARY, Harm(name)).High?
  {
    LineReads(name);
    ProposalIsMade(name);
    AnswerBy(Place(name), ZSH, Line(name), true, ByPath(1, Entry(name)), Proposal(name));
    var token := BufferHarms(name);
    FinishedHere(name);
    HarmIsHigh(name);
  }

  lemma FinishedHere(name: string)
    requires LongName(name) && RewriteCompatible(Line(name)) && Replaced(Line(name), "./" + name, Entry(name), 1).Some?
    ensures var d := Finished(Place(name).config, ZSH, Line(name), true, Proposal(name));
            && d.action.RewriteBuffer? && d.risk.Safe?
            && Some(d.suggestion) == Replaced(Line(name), "./" + name, Entry(name), 1)
  {
    EntryIsNear(name);
    assert Proposal(name).suggestion[0] == 'c';
  }

  // ------------------------------------------------------------- the first occurrence

  /** A rule that matches its own command's name. */
  const AGAIN := Rule("again", "echo", "echo", "d", false, "why", Safe, "risk")

  function Bundle(version: string): Pack { Pack(1, "demo", version, "acme", "", [], [AGAIN]) }

  /** Rewrite mode; `echo` exists; one bundled pack, whose pattern matches exactly its own text. */
  function Shop(version: string): Env {
    Env(Config(RewriteMode, true, false), UNLIMITED, (line: string) => false, (c: char) => c, ORDINARY, false, ["echo"],
        (word: string) => word == "echo", (path: string) => true, (path: string) => ("", path),
        (dir: string, entry: string) => dir + entry, (dir: string) => None,
        [Bundle(version)], {},
        Regex((rule: Rule, text: string) => text == rule.pattern, (rule, template, text) => template),
        (c: char) => false)
  }

  const ECHOES := ["echo", "echo"]

  lemma EchoReads(second: string)
    requires second == "echo" || second == "d"
    ensures var line := "echo" + (" " + second);
            && ForShell(ZSH, line) == Ok(["echo", second]) && Supported(ZSH, line) && RewriteCompatible(line)
  {
    var line := "echo" + (" " + second);
    assert forall i :: 0 <= i < |line| ==> Ordinary(line[i]) || line[i] == ' ' by {
      assert forall i :: 5 <= i < |line| ==> line[i] == second[i - 5];
    }
    AcceptedAsLexed(line);
    TwoWordsLex("echo", second);
    assert Lexers.Texts([Word("echo"), Word(second)]) == ["echo", second];
  }

  /** The pack is valid. */
  lemma BundleCompiles(lib: Library, version: string)
    requires Usual(lib) && lib.captures("echo").Some? && Semantic(version)
    ensures Compiles(lib, Bundle(version))
  {
    ExampleRule(lib, AGAIN);
    ExamplePack(lib, Bundle(version));
  }

  lemma RuleMatches(version: string)
    ensures FirstMatch(Shop(version), ECHOES, 0, 0, 1)
    ensures MatchOf(Shop(version), ECHOES, 0, 0, 1)
            == Match("demo", "again", "echo" + (" " + "d"), "why", Safe, "echo", "d", 1)
  {
    var e := Shop(version);
    assert ECHOES[1..2] == ["echo"] && ECHOES[2..] == [] && Strings.Join(["echo"]) == "echo";
    assert AppliesAt(e.packs, ECHOES, e.regex, e.hidden, 0, 0, 1);
    assert "echo" + " " + "d" == "echo" + (" " + "d");
  }

  function Suggestion(): Decision {
    Decision(NoAction, false, Strings.Join(["echo", "d"]), SemanticRepair, false, 1.0, Safe, false, "echo", "d", 1)
  }

  lemma EchoIsFine()
    ensures !ContainsSecret(ORDINARY.redactor, ["echo", "d"])
    ensures Redaction.RedactedWords(ORDINARY.redactor, ["echo", "d"]) == ["echo", "d"]
  {
  }

  lemma SuggestionIsMade(version: string)
    ensures Diagnosis(Shop(version), ZSH, ECHOES, ByPack(0, 0, 1), Suggestion())
  {
    RuleMatches(version);
    EchoReads("d");
    EchoIsFine();
    assert Expects(ECHOES, 0) && !Expects(ECHOES, 1);
    assert NoCommandRepair(Shop(version), ECHOES);
    assert Suggestion().suggestion[0] == 'e';
  }

  lemma EchoEdited(line: string)
    requires ForShell(ZSH, line) == Ok(ECHOES) && Supported(ZSH, line) && RewriteCompatible(line)
    ensures Replaced(line, "echo", "d", 1).Some? && Reads(Replaced(line, "echo", "d", 1).value, ["d", "echo"])
  {
    var token := PackEditHitsArgument(ZSH, line, "d");
  }

  lemma EchoFinished(version: string, line: string)
    requires RewriteCompatible(line) && Replaced(line, "echo", "d", 1).Some?
    ensures var d := Finished(Shop(version).config, ZSH, line, true, Suggestion());
            d.action.RewriteBuffer? && Some(d.suggestion) == Replaced(line, "echo", "d", 1)
  {
    assert Suggestion().suggestion[0] == 'e';
  }

  lemma EchoAnswered(version: string, line: string)
    requires ForShell(ZSH, line) == Ok(ECHOES) && Supported(ZSH, line)
    ensures IsAnswer(Shop(version), ZSH, line, true, Finished(Shop(version).config, ZSH, line, true, Suggestion()))
  {
    SuggestionIsMade(version);
    AnswerBy(Shop(version), ZSH, line, true, ByPack(0, 0, 1), Suggestion());
  }

  /** A valid bundled pack, and a line in which the command's name is also the argument: the match
      suggests `echo d`, and the buffer gets `d echo`. */
  lemma PackEditHitsCommand(version: string, line: string)
    requires line == "echo" + (" " + "echo")
    ensures var d := Finished(Shop(version).config, ZSH, line, true, Suggestion());
            && IsAnswer(Shop(version), ZSH, line, true, d) && d.action.RewriteBuffer?
            && FirstMatch(Shop(version), ECHOES, 0, 0, 1)
            && MatchOf(Shop(version), ECHOES, 0, 0, 1).suggestion == "echo" + (" " + "d")
            && Reads(d.suggestion, ["d", "echo"])
  {
    EchoReads("echo");
    RuleMatches(version);
    EchoAnswered(version, line);
    EchoEdited(line);
    EchoFinished(version, line);
  }
}
