/** The diagnosis engine: from a line to a decision.

    Executable names, directory contents and pack contents are inputs, and so is
    whether a limit is exceeded. */
module Engine {
  import opened Options
  import opened Strings
  import opened Lexers
  import opened ConservativeLexer
  import opened Rewrite
  import opened EditDistance
  import opened Ranking
  import opened Redaction
  import opened RiskAssessment
  import opened Packs
  import opened PackMatching

  /** A shell's name as the engine reads it: absent, only blanks, one it knows, or any other. */
  datatype ShellName = Absent | Blank | Known(shell: Shell) | Other

  datatype Mode = OffMode | HintMode | InterruptMode | RewriteMode

  datatype Config = Config(mode: Mode, autoApplySafe: bool, riskInterrupt: bool)

  datatype Action = NoAction | Hint | Interrupt | RewriteBuffer

  datatype Class = NoClass | CommandRepair | SemanticRepair | PathRepair

  /** Input too long; deadline passed or request cancelled; decision too large. */
  datatype Limits = Limits(tooLong: string -> bool, late: bool, oversized: Decision -> bool)

  /** The facts around the engine: its configuration, the executables on the search path, the file
      system below the working directory, and the packs with the ids of the installed ones. */
  datatype Env = Env(
    config: Config,
    limits: Limits,
    excepted: string -> bool,
    lower: Fold,
    context: Context,
    windows: bool,
    commands: seq<string>,
    isCommand: string -> bool,
    present: string -> bool,
    splitPath: string -> (string, string),
    joinPath: (string, string) -> string,
    entries: string -> Option<seq<string>>,
    packs: seq<Pack>,
    installedIds: set<string>,
    regex: Regex,
    hidden: Hidden)

  datatype Decision = Decision(
    action: Action, eligible: bool, suggestion: string, class_: Class, installed: bool, confidence: real, risk: Risk,
    incomplete: bool, original: string, replacement: string, occurrence: nat)

  const NO_DECISION := Decision(NoAction, false, "", NoClass, false, 0.0, Safe, false, "", "", 0)

  /** What a repair rests on: a word in command position and its replacement, a rule of a pack and how
      many arguments it takes, or a path argument and its replacement. */
  datatype Reason =
    | ByCommand(p: nat, best: string)
    | ByPack(pack: nat, rule: nat, count: nat)
    | ByPath(p: nat, best: string)

  // ---------------------------------------------------------------------- thresholds

  function Threshold(c: Class): real {
    match c
    case CommandRepair => 0.60
    case SemanticRepair => 0.75
    case PathRepair => 0.90
    case NoClass => 1.0
  }

  predicate MeetsThreshold(c: Class, confidence: real) { !c.NoClass? && confidence >= Threshold(c) }

  function MaxDistance(word: string): nat { if |word| <= 4 then 1 else if |word| <= 8 then 2 else 3 }

  /** `best` is the candidate nearest to `word`, and near enough for the class. */
  ghost predicate Repairs(e: Env, class_: Class, word: string, candidates: seq<string>, best: string) {
    && candidates != [] && IsNearest(e.lower, word, Ranking.Texts(candidates), best) && best != ""
    && Distance(word, best) <= MaxDistance(word)
    && MeetsThreshold(class_, Confidence(word, best))
  }

  /** The common part of `commandDecision` and `pathDecision`: the nearest candidate, if near enough. */
  method NearEnough(e: Env, class_: Class, word: string, candidates: seq<string>) returns (r: Option<string>)
    ensures forall b :: Repairs(e, class_, word, candidates, b) <==> r == Some(b)
  {
    var best, distance := Nearest(e.lower, word, candidates);
    forall b | Repairs(e, class_, word, candidates, b)
      ensures b == best
    {
      NearestIsCanonical(e.lower, word, candidates, candidates, best, b);
    }
    if best == "" || distance > MaxDistance(word) || !MeetsThreshold(class_, Confidence(word, best)) { return None; }
    r := Some(best);
  }

  // ----------------------------------------------------------------------- resolvers

  /** `d` proposes `replacement` for word `p`: the suggestion and the risk are those of the whole line
      with that word replaced, and (original, occurrence) locates the word. */
  ghost predicate Proposes(e: Env, words: seq<string>, p: nat, replacement: string, d: Decision) {
    && p < |words|
    && d.suggestion == Join(RedactedWords(e.context.redactor, words[p := replacement]))
    && d.risk == Assess(e.context, words[p := replacement])
    && d.original == words[p] && d.replacement == replacement && d.occurrence == Count(words[..p + 1], words[p])
    && !d.installed && !d.incomplete && d.action.NoAction? && !d.eligible
  }

  method Propose(e: Env, words: seq<string>, p: nat, replacement: string, class_: Class, confidence: real)
    returns (d: Decision)
    requires p < |words|
    ensures Proposes(e, words, p, replacement, d) && d.class_ == class_ && d.confidence == confidence
  {
    var replaced := words[p := replacement];
    var redacted, containsSecret := Command(e.context.redactor, replaced);
    assert redacted[..] == RedactedWords(e.context.redactor, replaced);
    var risk := AssessRisk(e.context, replaced, containsSecret);
    var occurrence := TokenOccurrence(words, p);
    d := Decision(NoAction, false, Join(redacted[..]), class_, false, confidence, risk, false, words[p], replacement,
                  occurrence);
  }

  predicate PathQualified(e: Env, word: string) { '/' in word || (e.windows && '\\' in word) }

  ghost predicate CommandRepairAt(e: Env, words: seq<string>, p: int, best: string) {
    && RunsCommand(words, p) && !PathQualified(e, words[p]) && !e.isCommand(words[p])
    && Repairs(e, CommandRepair, words[p], e.commands, best)
  }

  ghost predicate IsCommandDecision(e: Env, words: seq<string>, p: nat, best: string, d: Decision) {
    && CommandRepairAt(e, words, p, best) && (forall q, b :: q < p ==> !CommandRepairAt(e, words, q, b))
    && Proposes(e, words, p, best, d) && d.class_ == CommandRepair && d.confidence == Confidence(words[p], best)
  }

  ghost predicate NoCommandRepair(e: Env, words: seq<string>) { forall p, b :: !CommandRepairAt(e, words, p, b) }

  method NearCommand(e: Env, words: seq<string>, at: nat) returns (r: Option<string>)
    requires RunsCommand(words, at)
    ensures forall b :: CommandRepairAt(e, words, at, b) <==> r == Some(b)
  {
    if PathQualified(e, words[at]) || e.isCommand(words[at]) { return None; }
    r := NearEnough(e, CommandRepair, words[at], e.commands);
  }

  ghost predicate NoCommandRepairBefore(e: Env, words: seq<string>, n: int) {
    forall q, b :: q < n ==> !CommandRepairAt(e, words, q, b)
  }

  method ProposeCommand(e: Env, words: seq<string>, at: nat, best: string) returns (d: Decision)
    requires CommandRepairAt(e, words, at, best) && NoCommandRepairBefore(e, words, at)
    ensures IsCommandDecision(e, words, at, best, d)
  {
    d := Propose(e, words, at, best, CommandRepair, Confidence(words[at], best));
  }

  /** `commandDecision`: the first word in command position that has a repair gets it. */
  method CommandDecision(e: Env, words: seq<string>) returns (r: Option<Decision>, ghost p: nat, ghost best: string)
    ensures r.None? ==> NoCommandRepair(e, words)
    ensures r.Some? ==> IsCommandDecision(e, words, p, best, r.value)
  {
    p, best := 0, "";
    var positions := CommandPositions(words);
    for n := 0 to |positions|
      invariant forall k, b :: 0 <= k < n ==> !CommandRepairAt(e, words, positions[k], b)
    {
      var at := positions[n];
      assert at in positions;
      var repair := NearCommand(e, words, at);
      if repair.Some? {
        p, best := at, repair.value;
        assert CommandRepairAt(e, words, at, best);
        EarlierPositions(e, words, positions, n);
        var d := ProposeCommand(e, words, at, repair.value);
        return Some(d), p, best;
      }
    }
    EarlierPositions(e, words, positions, |positions|);
    r := None;
  }

  lemma EarlierPositions(e: Env, words: seq<string>, positions: seq<int>, n: nat)
    requires Lists(positions, words, |words|) && n <= |positions|
    requires forall k, b :: 0 <= k < n ==> !CommandRepairAt(e, words, positions[k], b)
    ensures forall q, b :: n == |positions| || q < positions[n] ==> !CommandRepairAt(e, words, q, b)
  {
    forall q, b | CommandRepairAt(e, words, q, b)
      ensures n < |positions| && positions[n] <= q
    {
      assert q in positions;
      var k :| 0 <= k < |positions| && positions[k] == q;
    }
  }

  /** The word looks like a path and names nothing. */
  predicate MissingPath(e: Env, word: string) {
    !("-" <= word) && ('/' in word || "." <= word) && !e.present(word)
  }

  /** The entry `best` of its directory repairs the missing path `word`. */
  ghost predicate RepairsPath(e: Env, word: string, best: string) {
    && MissingPath(e, word) && e.entries(e.splitPath(word).0).Some?
    && Repairs(e, PathRepair, e.splitPath(word).1, e.entries(e.splitPath(word).0).value, best)
  }

  ghost predicate PathRepairAt(e: Env, words: seq<string>, p: int, best: string) {
    1 <= p < |words| && RepairsPath(e, words[p], best)
  }

  ghost predicate IsPathDecision(e: Env, words: seq<string>, p: nat, best: string, d: Decision) {
    && PathRepairAt(e, words, p, best) && (forall q, b :: q < p ==> !PathRepairAt(e, words, q, b))
    && Proposes(e, words, p, e.joinPath(e.splitPath(words[p]).0, best), d)
    && d.class_ == PathRepair && d.confidence == Confidence(e.splitPath(words[p]).1, best)
  }

  ghost predicate NoPathRepair(e: Env, words: seq<string>) { forall p, b :: !PathRepairAt(e, words, p, b) }

  method NearSibling(e: Env, word: string) returns (r: Option<string>)
    ensures forall b :: RepairsPath(e, word, b) <==> r == Some(b)
  {
    if !MissingPath(e, word) { return None; }
    var (dir, base) := e.splitPath(word);
    var entries := e.entries(dir);
    if entries.None? { return None; }
    r := NearEnough(e, PathRepair, base, entries.value);
  }

  ghost predicate NoPathRepairBefore(e: Env, words: seq<string>, n: int) {
    forall q, b :: q < n ==> !PathRepairAt(e, words, q, b)
  }

  method ProposePath(e: Env, words: seq<string>, at: nat, best: string) returns (d: Decision)
    requires PathRepairAt(e, words, at, best) && NoPathRepairBefore(e, words, at)
    ensures IsPathDecision(e, words, at, best, d)
  {
    var (dir, base) := e.splitPath(words[at]);
    d := Propose(e, words, at, e.joinPath(dir, best), PathRepair, Confidence(base, best));
  }

  /** `pathDecision`: the first argument that looks like a missing path and has a near sibling. */
  method PathDecision(e: Env, words: seq<string>) returns (r: Option<Decision>, ghost p: nat, ghost best: string)
    ensures r.None? ==> NoPathRepair(e, words)
    ensures r.Some? ==> IsPathDecision(e, words, p, best, r.value)
  {
    p, best := 0, "";
    var i := 1;
    while i < |words|
      invariant 1 <= i
      invariant NoPathRepairBefore(e, words, i)
    {
      var repair := NearSibling(e, words[i]);
      if repair.Some? {
        p, best := i, repair.value;
        assert RepairsPath(e, words[i], best);
        var d := ProposePath(e, words, i, repair.value);
        return Some(d), p, best;
      }
      NoPathRepairSoFar(e, words, i);
      i := i + 1;
    }
    r := None;
  }

  lemma NoPathRepairSoFar(e: Env, words: seq<string>, i: nat)
    requires i < |words| && NoPathRepairBefore(e, words, i) && forall b :: !RepairsPath(e, words[i], b)
    ensures NoPathRepairBefore(e, words, i + 1)
  {
  }

  // ------------------------------------------------------------------ pack resolution

  function ForShell(shell: ShellName, line: string): Result<seq<string>> {
    match shell
    case Known(s) => Conservative(line, s)
    case Other => Unsupported
    case _ =>
      match Lex(line)
      case Ok(items) => Ok(Lexers.Texts(items))
      case Incomplete => Incomplete
      case Unsupported => Unsupported
  }

  method TokenizeForShell(shell: ShellName, line: string) returns (r: Result<seq<string>>)
    ensures r == ForShell(shell, line)
  {
    match shell {
      case Known(s) => r := TokenizeConservative(line, s);
      case Other => r := Unsupported;
      case _ => r := Tokenize(line);
    }
  }

  /** The line lexes to words without unsupported syntax. */
  predicate Supported(shell: ShellName, line: string) {
    ForShell(shell, line).Ok? && !HasUnsupportedShellSyntax(ForShell(shell, line).value)
  }

  /** Rule `r` of pack `p`, taking `n` arguments, is the first match. */
  ghost predicate FirstMatch(e: Env, words: seq<string>, p: nat, r: nat, n: nat) {
    && AppliesAt(e.packs, words, e.regex, e.hidden, p, r, n)
    && forall p', r', n' :: AppliesAt(e.packs, words, e.regex, e.hidden, p', r', n') ==> !Earlier(p', r', n', p, r, n)
  }

  ghost function MatchOf(e: Env, words: seq<string>, p: nat, r: nat, n: nat): Match
    requires AppliesAt(e.packs, words, e.regex, e.hidden, p, r, n)
  {
    Build(e.packs[p], e.packs[p].rules[r], words, n, e.regex)
  }

  predicate Usable(shell: ShellName, m: Match) {
    && m.pack != "" && m.rule != "" && m.suggestion != ""
    && Supported(shell, m.suggestion) && ForShell(shell, m.suggestion).value != []
  }

  ghost predicate IsSemanticDecision(e: Env, shell: ShellName, words: seq<string>, p: nat, r: nat, n: nat, d: Decision)
  {
    && FirstMatch(e, words, p, r, n)
    && var m := MatchOf(e, words, p, r, n);
    && Usable(shell, m)
    && var suggested := ForShell(shell, m.suggestion).value;
    && d.suggestion == Join(RedactedWords(e.context.redactor, suggested))
    && d.risk == (if ContainsSecret(e.context.redactor, suggested) then High else m.risk)
    && d.installed == (m.pack in e.installedIds)
    && d.original == m.original && d.replacement == m.replacement && d.occurrence == m.occurrence
    && d.class_ == SemanticRepair && d.confidence == 1.0 && !d.incomplete && d.action.NoAction? && !d.eligible
  }

  ghost predicate NoSemanticRepair(e: Env, shell: ShellName, words: seq<string>) {
    forall p, r, n :: FirstMatch(e, words, p, r, n) ==> !Usable(shell, MatchOf(e, words, p, r, n))
  }

  /** `semanticDecision`: the first pack match, unless its suggestion is one the shell may not get. */
  method SemanticDecision(e: Env, shell: ShellName, words: seq<string>)
    returns (d: Option<Decision>, ghost p: nat, ghost r: nat, ghost n: nat)
    ensures d.None? ==> NoSemanticRepair(e, shell, words)
    ensures d.Some? ==> IsSemanticDecision(e, shell, words, p, r, n, d.value)
  {
    d, p, r, n := None, 0, 0, 0;
    var found, match_ := MatchWords(e.packs, words, e.regex, e.hidden);
    if match_.None? { return; }
    var m := match_.value;
    p, r, n := found.pack, found.rule, found.count;
    OneFirstMatch(e, words, p, r, n);
    if m.pack == "" || m.rule == "" || m.suggestion == "" { return; }
    var suggested := TokenizeForShell(shell, m.suggestion);
    if !suggested.Ok? || suggested.value == [] || HasUnsupportedShellSyntax(suggested.value) { return; }
    var redacted, containsSecret := Command(e.context.redactor, suggested.value);
    assert redacted[..] == RedactedWords(e.context.redactor, suggested.value);
    d := Some(Decision(NoAction, false, Join(redacted[..]), SemanticRepair, m.pack in e.installedIds, 1.0,
                       if containsSecret then High else m.risk, false, m.original, m.replacement, m.occurrence));
  }

  lemma OneFirstMatch(e: Env, words: seq<string>, p: nat, r: nat, n: nat)
    requires FirstMatch(e, words, p, r, n)
    ensures forall p', r', n' :: FirstMatch(e, words, p', r', n') ==> p' == p && r' == r && n' == n
  {
  }

  // -------------------------------------------------------------------------- policy

  predicate IntrinsicRewriteEligible(d: Decision) {
    && d.suggestion != "" && !d.incomplete && d.risk.Safe? && d.confidence >= 0.80
    && MeetsThreshold(d.class_, d.confidence) && !(d.class_.SemanticRepair? && d.installed)
  }

  predicate ShouldInterrupt(config: Config, pre: bool, d: Decision) {
    && pre && (config.mode.InterruptMode? || (config.mode.RewriteMode? && config.riskInterrupt))
    && d.suggestion != "" && !d.incomplete && d.confidence >= 0.90 && MeetsThreshold(d.class_, d.confidence)
  }

  function ApplyMode(config: Config, pre: bool, d: Decision): Decision {
    var rated := d.(eligible := IntrinsicRewriteEligible(d));
    if pre && config.mode.RewriteMode? && config.autoApplySafe && IntrinsicRewriteEligible(d) then
      rated.(action := RewriteBuffer)
    else if ShouldInterrupt(config, pre, rated) then rated.(action := Interrupt)
    else rated.(action := Hint)
  }

  predicate MayEdit(shell: ShellName, line: string) { shell.Absent? || RewriteCompatible(line) }

  /** The decision the engine hands out: mode applied, downgraded where the line may not be edited, and
      with the edited line for a suggestion where one word is replaced. */
  function Finished(config: Config, shell: ShellName, line: string, pre: bool, d: Decision): Decision {
    var decided := ApplyMode(config, pre, d);
    if !decided.action.RewriteBuffer? then decided
    else if !MayEdit(shell, line) then decided.(action := Hint)
    else if d.original == "" || d.replacement == "" then decided
    else
      match Replaced(line, d.original, d.replacement, d.occurrence)
      case None => NO_DECISION
      case Some(buffer) => decided.(suggestion := buffer)
  }

  /** Finishing takes too long, or the decision is too large before or after the line is edited. */
  predicate Overruns(limits: Limits, config: Config, shell: ShellName, line: string, pre: bool, d: Decision) {
    || limits.late || limits.oversized(d)
    || (var finished := Finished(config, shell, line, pre, d);
        && finished.action.RewriteBuffer? && d.original != "" && d.replacement != "" && limits.oversized(finished))
  }

  method Finish(limits: Limits, config: Config, shell: ShellName, line: string, pre: bool, d: Decision)
    returns (r: Decision, failed: bool)
    ensures failed <==> Overruns(limits, config, shell, line, pre, d)
    ensures r == if failed then NO_DECISION else Finished(config, shell, line, pre, d)
  {
    if limits.late || limits.oversized(d) { return NO_DECISION, true; }
    r, failed := ApplyMode(config, pre, d), false;
    if r.action.RewriteBuffer? && !MayEdit(shell, line) { r := r.(action := Hint); }
    if r.action.RewriteBuffer? && d.original != "" && d.replacement != "" {
      var buffer := ReplaceTokenOccurrence(line, d.original, d.replacement, d.occurrence);
      if buffer.None? { return NO_DECISION, false; }
      r := r.(suggestion := buffer.value);
      if limits.oversized(r) { return NO_DECISION, true; }
    }
  }

  // A resolver is silent when it finds no repair, or one whose suggestion is empty.

  ghost predicate CommandSilent(e: Env, words: seq<string>) {
    NoCommandRepair(e, words) || exists p, b, d :: IsCommandDecision(e, words, p, b, d) && d.suggestion == ""
  }

  ghost predicate PacksSilent(e: Env, shell: ShellName, words: seq<string>) {
    || NoSemanticRepair(e, shell, words)
    || exists p, r, n, d :: IsSemanticDecision(e, shell, words, p, r, n, d) && d.suggestion == ""
  }

  ghost predicate PathSilent(e: Env, words: seq<string>) {
    NoPathRepair(e, words) || exists p, b, d :: IsPathDecision(e, words, p, b, d) && d.suggestion == ""
  }

  /** `base` is the repair made for `reason`, all earlier resolvers being silent. */
  ghost predicate Diagnosis(e: Env, shell: ShellName, words: seq<string>, reason: Reason, base: Decision) {
    && base.suggestion != ""
    && match reason
       case ByCommand(p, best) => IsCommandDecision(e, words, p, best, base)
       case ByPack(p, r, n) => CommandSilent(e, words) && IsSemanticDecision(e, shell, words, p, r, n, base)
       case ByPath(p, best) =>
         CommandSilent(e, words) && PacksSilent(e, shell, words) && IsPathDecision(e, words, p, best, base)
  }

  /** The engine looks into the line at all. */
  predicate Examined(e: Env, shell: ShellName, line: string) {
    Supported(shell, line) && ForShell(shell, line).value != [] && !e.config.mode.OffMode? && !e.excepted(line)
  }

  ghost predicate AllSilent(e: Env, shell: ShellName, words: seq<string>) {
    CommandSilent(e, words) && PacksSilent(e, shell, words) && PathSilent(e, words)
  }

  /** `d` is the engine's answer: nothing for a line it does not examine or finds no repair in, and
      otherwise the finished repair of the first resolver that is not silent. */
  ghost predicate IsAnswer(e: Env, shell: ShellName, line: string, pre: bool, d: Decision) {
    if !Examined(e, shell, line) then
      d == NO_DECISION.(incomplete := ForShell(shell, line).Incomplete? && !e.excepted(line))
    else
      var words := ForShell(shell, line).value;
      || (d == NO_DECISION && AllSilent(e, shell, words))
      || exists reason, base ::
           Diagnosis(e, shell, words, reason, base) && d == Finished(e.config, shell, line, pre, base)
  }

  /** `CheckShellContext`: the answer, or nothing and an error when a limit is exceeded. */
  method CheckShell(e: Env, shell: ShellName, line: string, pre: bool)
    returns (d: Decision, failed: bool, ghost found: Option<Reason>, ghost base: Decision)
    ensures if failed then d == NO_DECISION else IsAnswer(e, shell, line, pre, d)
    ensures found.Some? ==> Examined(e, shell, line)
    ensures found.Some? ==> Diagnosis(e, shell, ForShell(shell, line).value, found.value, base)
    ensures found.Some? && !failed ==> d == Finished(e.config, shell, line, pre, base)
    ensures found.None? && !failed ==> d.action.NoAction? && d == NO_DECISION.(incomplete := d.incomplete)
    ensures found.None? && Examined(e, shell, line) ==>
              e.limits.tooLong(line) || AllSilent(e, shell, ForShell(shell, line).value)
    ensures failed <==>
              || e.limits.tooLong(line)
              || (Examined(e, shell, line)
                  && (e.limits.late || (found.Some? && Overruns(e.limits, e.config, shell, line, pre, base))))
  {
    d, failed, found, base := NO_DECISION, false, None, NO_DECISION;
    if e.limits.tooLong(line) { return NO_DECISION, true, None, base; }
    if e.excepted(line) { return; }
    var lexed := TokenizeForShell(shell, line);
    if !lexed.Ok? {
      d := d.(incomplete := lexed.Incomplete?);
      return;
    }
    var words := lexed.value;
    if words == [] || e.config.mode.OffMode? || HasUnsupportedShellSyntax(words) { return; }
    var repair, reason := Diagnose(e, shell, words);
    if repair.Some? {
      found, base := Some(reason), repair.value;
      d, failed := Finish(e.limits, e.config, shell, line, pre, repair.value);
      AnswerBy(e, shell, line, pre, reason, base);
    } else {
      failed := e.limits.late;
    }
  }

  lemma AnswerBy(e: Env, shell: ShellName, line: string, pre: bool, reason: Reason, base: Decision)
    requires Examined(e, shell, line) && Diagnosis(e, shell, ForShell(shell, line).value, reason, base)
    ensures IsAnswer(e, shell, line, pre, Finished(e.config, shell, line, pre, base))
  {
  }

  /** The three resolvers in turn. */
  method Diagnose(e: Env, shell: ShellName, words: seq<string>) returns (repair: Option<Decision>, ghost reason: Reason)
    ensures repair.Some? ==> Diagnosis(e, shell, words, reason, repair.value)
    ensures repair.None? ==> AllSilent(e, shell, words)
  {
    var command, p, best := CommandDecision(e, words);
    reason := ByCommand(p, best);
    if command.Some? && command.value.suggestion != "" { return command, reason; }
    var semantic, sp, sr, sn := SemanticDecision(e, shell, words);
    reason := ByPack(sp, sr, sn);
    if semantic.Some? && semantic.value.suggestion != "" { return semantic, reason; }
    var path, pp, pbest := PathDecision(e, words);
    reason := ByPath(pp, pbest);
    if path.Some? && path.value.suggestion != "" { return path, reason; }
    repair := None;
  }
}
