/** What every decision of the engine guarantees. */
module EngineGuarantees {
  import opened Options
  import opened Lexers
  import opened ConservativeLexer
  import opened Rewrite
  import opened RewriteExact
  import opened EditDistance
  import opened Redaction
  import opened RiskAssessment
  import opened Packs
  import opened Engine

  /** `validateProtocol`; actions and risks are valid by their types. */
  predicate ValidProtocol(d: Decision) { 0.0 <= d.confidence <= 1.0 }

  /** The words whose redaction and risk the decision was based on. */
  ghost function AssessedWords(e: Env, shell: ShellName, words: seq<string>, reason: Reason, base: Decision)
    : seq<string>
    requires Diagnosis(e, shell, words, reason, base)
  {
    match reason
    case ByCommand(p, _) => words[p := base.replacement]
    case ByPath(p, _) => words[p := base.replacement]
    case ByPack(p, r, n) => ForShell(shell, MatchOf(e, words, p, r, n).suggestion).value
  }

  /** A repair judged safe hides no secret and is not made by a tail-preserving rule. */
  ghost predicate SafeBasis(e: Env, shell: ShellName, words: seq<string>, reason: Reason, base: Decision)
    requires Diagnosis(e, shell, words, reason, base)
  {
    && !ContainsSecret(e.context.redactor, AssessedWords(e, shell, words, reason, base))
    && (reason.ByPack? ==> !e.packs[reason.pack].rules[reason.rule].preserveTail)
  }

  /** What a diagnosis promises, whichever resolver made it. */
  ghost predicate Sound(e: Env, shell: ShellName, words: seq<string>, reason: Reason, base: Decision)
    requires Diagnosis(e, shell, words, reason, base)
  {
    && ValidProtocol(base)
    && (base.installed ==> base.class_.SemanticRepair?)
    && (base.risk.Safe? ==> SafeBasis(e, shell, words, reason, base))
  }

  lemma CommandIsSound(e: Env, shell: ShellName, words: seq<string>, p: nat, best: string, base: Decision)
    requires Diagnosis(e, shell, words, ByCommand(p, best), base)
    ensures Sound(e, shell, words, ByCommand(p, best), base)
  {
    ConfidenceInRange(words[p], best);
  }

  lemma PathIsSound(e: Env, shell: ShellName, words: seq<string>, p: nat, best: string, base: Decision)
    requires Diagnosis(e, shell, words, ByPath(p, best), base)
    ensures Sound(e, shell, words, ByPath(p, best), base)
  {
    ConfidenceInRange(e.splitPath(words[p]).1, best);
  }

  lemma PackIsSound(e: Env, shell: ShellName, words: seq<string>, p: nat, r: nat, n: nat, base: Decision)
    requires Diagnosis(e, shell, words, ByPack(p, r, n), base) && TailsAreHigh(e.packs)
    ensures Sound(e, shell, words, ByPack(p, r, n), base)
  {
    assert MatchOf(e, words, p, r, n).risk == e.packs[p].rules[r].risk;
  }

  lemma DiagnosisIsSound(e: Env, shell: ShellName, words: seq<string>, reason: Reason, base: Decision)
    requires Diagnosis(e, shell, words, reason, base) && TailsAreHigh(e.packs)
    ensures Sound(e, shell, words, reason, base)
  {
    match reason
    case ByCommand(p, best) => CommandIsSound(e, shell, words, p, best, base);
    case ByPack(p, r, n) => PackIsSound(e, shell, words, p, r, n, base);
    case ByPath(p, best) => PathIsSound(e, shell, words, p, best, base);
  }

  lemma EditIsNotEmpty(line: string, original: string, replacement: string, occurrence: int)
    requires replacement != ""
    ensures Replaced(line, original, replacement, occurrence) != Some("")
  {
    RangesAscendDisjoint(line);
    var j := FindNth(Values(Ranges(line)), original, occurrence);
    if j >= 0 {
      var token := Ranges(line)[j];
      assert QuotedReplacement(Raw(line, token), replacement) != "";
      assert |Splice(line, token, replacement)| >= |QuotedReplacement(Raw(line, token), replacement)|;
    }
  }

  predicate MayRewrite(config: Config) { config.mode.RewriteMode? && config.autoApplySafe }

  predicate MayInterrupt(config: Config) {
    config.mode.InterruptMode? || (config.mode.RewriteMode? && config.riskInterrupt)
  }

  /** The policy for each action, whatever the repair. */
  predicate Permitted(config: Config, pre: bool, base: Decision, d: Decision) {
    match d.action
    case NoAction => d == NO_DECISION
    case Hint => d.suggestion == base.suggestion
    case Interrupt =>
      pre && MayInterrupt(config) && d.confidence >= 0.90 && d.suggestion == base.suggestion
    case RewriteBuffer =>
      && pre && MayRewrite(config) && d.confidence >= 0.80 && base.risk.Safe?
      && !(base.class_.SemanticRepair? && base.installed)
  }

  lemma FinishedIsPermitted(config: Config, shell: ShellName, line: string, pre: bool, base: Decision)
    requires base.suggestion != ""
    ensures var d := Finished(config, shell, line, pre, base);
            && Permitted(config, pre, base, d)
            && (d.action.NoAction?
                || (d.suggestion != "" && d.confidence == base.confidence && d.risk == base.risk
                    && d.installed == base.installed))
            && (!pre ==> d.action.Hint?)
  {
    if base.replacement != "" { EditIsNotEmpty(line, base.original, base.replacement, base.occurrence); }
  }

  // ------------------------------------------- the edited line is the assessed line

  /** Where the engine may edit, its own lexers agree on the line's words. */
  lemma EditableWords(shell: ShellName, line: string)
    requires Supported(shell, line) && MayEdit(shell, line)
    ensures Lex(line).Ok? && Texts(Lex(line).value) == ForShell(shell, line).value
  {
    if shell.Known? { RewriteCompatibleLexersAgree(line, shell.shell); }
  }

  lemma UnquotedToken(line: string, token: TokenRange)
    requires token.start < token.end <= |line| && RewriteCompatible(line)
    ensures !WhollyQuoted(Raw(line, token))
  {
    assert Raw(line, token)[0] == line[token.start];
  }

  /** What `quotedReplacement` makes of the replacement reads as that one text. */
  predicate KeepsWords(line: string, token: TokenRange, replacement: string)
    requires token.start < token.end <= |line|
  {
    WhollyQuoted(Raw(line, token)) || PlainWord(replacement) || IsCompoundOperator(replacement)
  }

  /** The edit replaces the token of word `p` and nothing else, and the new line reads as the old words
      with that one replaced if and only if the token is wholly quoted or the replacement is plain or an
      operator.  For a named shell the token is never quoted. */
  lemma EditOfOneWord(shell: ShellName, line: string, p: nat, replacement: string) returns (token: TokenRange)
    requires Supported(shell, line) && MayEdit(shell, line) && p < |ForShell(shell, line).value|
    ensures Reads(line, ForShell(shell, line).value)
    ensures ChosenToken(line, Texts(Lex(line).value), p) == Some(token) && token.start < token.end <= |line|
    ensures Lex(Raw(line, token)) == Ok([Lex(line).value[p]])
    ensures var words, edited := ForShell(shell, line).value, Splice(line, token, replacement);
            && Replaced(line, words[p], replacement, Count(words[..p + 1], words[p])) == Some(edited)
            && (Reads(edited, words[p := replacement]) <==> KeepsWords(line, token, replacement))
    ensures !shell.Absent? ==> !WhollyQuoted(Raw(line, token))
  {
    EditableWords(shell, line);
    token := RewriteExactOnTexts(line, p, replacement);
    if !shell.Absent? { UnquotedToken(line, token); }
  }

  lemma RewriteIsEdit(config: Config, shell: ShellName, line: string, base: Decision)
    requires base.original != "" && base.replacement != ""
    requires Finished(config, shell, line, true, base).action.RewriteBuffer?
    ensures MayEdit(shell, line) && base.risk.Safe?
    ensures Replaced(line, base.original, base.replacement, base.occurrence)
            == Some(Finished(config, shell, line, true, base).suggestion)
  {
  }

  /** The line lexes to words that are safe and free of secrets. */
  ghost predicate LexesToSafe(e: Env, line: string, words: seq<string>) {
    Reads(line, words) && Assess(e.context, words).Safe? && !ContainsSecret(e.context.redactor, words)
  }

  /** A rewritten buffer for a mistyped command or path is the line with that one token replaced.  It
      reads as the words that were assessed if and only if the token is wholly quoted or the replacement
      is plain or an operator; and then it is safe and free of secrets. */
  lemma RewrittenLineWasAssessed(e: Env, shell: ShellName, line: string, reason: Reason, base: Decision)
    returns (token: TokenRange)
    requires Supported(shell, line) && Diagnosis(e, shell, ForShell(shell, line).value, reason, base) && !reason.ByPack?
    requires base.original != "" && base.replacement != ""
    requires Finished(e.config, shell, line, true, base).action.RewriteBuffer?
    ensures token.start < token.end <= |line| && (!shell.Absent? ==> !WhollyQuoted(Raw(line, token)))
    ensures var buffer := Finished(e.config, shell, line, true, base).suggestion;
            var assessed := AssessedWords(e, shell, ForShell(shell, line).value, reason, base);
            && buffer == Splice(line, token, base.replacement)
            && (Reads(buffer, assessed) <==> KeepsWords(line, token, base.replacement))
            && (KeepsWords(line, token, base.replacement) ==> LexesToSafe(e, buffer, assessed))
  {
    ProposalOf(e, shell, ForShell(shell, line).value, reason, base);
    RewriteIsEdit(e.config, shell, line, base);
    token := EditOfProposal(e, shell, line, reason.p, base);
  }

  lemma EditOfProposal(e: Env, shell: ShellName, line: string, p: nat, base: Decision) returns (token: TokenRange)
    requires Supported(shell, line) && MayEdit(shell, line)
    requires Proposes(e, ForShell(shell, line).value, p, base.replacement, base) && base.risk.Safe?
    ensures token.start < token.end <= |line| && (!shell.Absent? ==> !WhollyQuoted(Raw(line, token)))
    ensures var edited, words := Splice(line, token, base.replacement), ForShell(shell, line).value;
            && Replaced(line, base.original, base.replacement, base.occurrence) == Some(edited)
            && (Reads(edited, words[p := base.replacement]) <==> KeepsWords(line, token, base.replacement))
            && (KeepsWords(line, token, base.replacement) ==> LexesToSafe(e, edited, words[p := base.replacement]))
  {
    token := EditOfOneWord(shell, line, p, base.replacement);
  }

  lemma ProposalOf(e: Env, shell: ShellName, words: seq<string>, reason: Reason, base: Decision)
    requires Diagnosis(e, shell, words, reason, base) && !reason.ByPack?
    ensures Proposes(e, words, reason.p, base.replacement, base)
  {
  }

  // ------------------------------------------------------------------------ every answer

  /** What is known of the buffer that a command or path rewrite hands out. */
  ghost predicate BufferAssessed(e: Env, shell: ShellName, line: string, reason: Reason, base: Decision, buffer: string)
    requires Supported(shell, line) && Diagnosis(e, shell, ForShell(shell, line).value, reason, base)
  {
    var assessed := AssessedWords(e, shell, ForShell(shell, line).value, reason, base);
    exists token: TokenRange | token.start < token.end <= |line| ::
      && buffer == Splice(line, token, base.replacement)
      && (Reads(buffer, assessed) <==> KeepsWords(line, token, base.replacement))
      && (KeepsWords(line, token, base.replacement) ==> LexesToSafe(e, buffer, assessed))
  }

  /** The repair edits one word of the line rather than replacing all of it. */
  predicate EditsOneWord(reason: Reason, base: Decision) {
    !reason.ByPack? && base.original != "" && base.replacement != ""
  }

  /** Every decision passes the protocol's own validation.  The engine edits the buffer only before the
      line is sent, in rewrite mode, with safe repairs allowed, for a safe repair without secrets that
      is neither from an installed pack nor from a tail-preserving rule; and where it edits one word, the
      buffer itself is safe and without secrets under the condition of `KeepsWords`. */
  lemma RewritesAreJustified(e: Env, shell: ShellName, line: string, pre: bool, reason: Reason, base: Decision)
    requires Supported(shell, line) && Diagnosis(e, shell, ForShell(shell, line).value, reason, base)
    requires TailsAreHigh(e.packs)
    ensures var d := Finished(e.config, shell, line, pre, base);
            && ValidProtocol(d) && Permitted(e.config, pre, base, d) && (!pre ==> d.action.Hint?)
            && (d.action.RewriteBuffer? ==>
                  && d.risk.Safe? && d.suggestion != "" && !d.installed
                  && SafeBasis(e, shell, ForShell(shell, line).value, reason, base)
                  && (EditsOneWord(reason, base) ==> BufferAssessed(e, shell, line, reason, base, d.suggestion)))
  {
    DiagnosisIsSound(e, shell, ForShell(shell, line).value, reason, base);
    FinishedIsPermitted(e.config, shell, line, pre, base);
    if Finished(e.config, shell, line, pre, base).action.RewriteBuffer? && EditsOneWord(reason, base) {
      BufferWasAssessed(e, shell, line, reason, base);
    }
  }

  lemma BufferWasAssessed(e: Env, shell: ShellName, line: string, reason: Reason, base: Decision)
    requires Supported(shell, line) && Diagnosis(e, shell, ForShell(shell, line).value, reason, base)
    requires EditsOneWord(reason, base) && Finished(e.config, shell, line, true, base).action.RewriteBuffer?
    ensures BufferAssessed(e, shell, line, reason, base, Finished(e.config, shell, line, true, base).suggestion)
  {
    var token := RewrittenLineWasAssessed(e, shell, line, reason, base);
  }

  /** Every answer of the engine passes validation, and only a line examined before it is sent, in
      rewrite mode and with safe repairs allowed, is ever edited. */
  lemma AnswersAreValid(e: Env, shell: ShellName, line: string, pre: bool, d: Decision)
    requires IsAnswer(e, shell, line, pre, d) && TailsAreHigh(e.packs)
    ensures ValidProtocol(d) && (!pre ==> d.action.NoAction? || d.action.Hint?)
    ensures d.action.RewriteBuffer? ==>
              && pre && e.config.mode.RewriteMode? && e.config.autoApplySafe
              && d.risk.Safe? && d.suggestion != "" && !d.installed
  {
    if Examined(e, shell, line) {
      var words := ForShell(shell, line).value;
      if reason, base :| Diagnosis(e, shell, words, reason, base) && d == Finished(e.config, shell, line, pre, base) {
        RewritesAreJustified(e, shell, line, pre, reason, base);
      }
    }
  }

  // ------------------------------------------------------------- edits made by packs

  /** A pack match locates its one argument as the first occurrence of that text.  If argument and
      command name differ, the edited line reads as the command with the new argument if and only if the
      token is wholly quoted or the replacement is plain or an operator.  If they are equal, the command's
      name is replaced instead, and the edited line is the wanted one only if that changes nothing. */
  lemma PackEditHitsArgument(shell: ShellName, line: string, replacement: string) returns (token: TokenRange)
    requires Supported(shell, line) && MayEdit(shell, line) && |ForShell(shell, line).value| == 2
    ensures token.start < token.end <= |line|
    ensures var words := ForShell(shell, line).value;
            var edited := Splice(line, token, replacement);
            && Replaced(line, words[1], replacement, 1) == Some(edited)
            && (words[0] != words[1]
                ==> (Reads(edited, [words[0], replacement]) <==> KeepsWords(line, token, replacement)))
            && (words[0] == words[1]
                ==> (Reads(edited, [replacement, words[1]]) <==> KeepsWords(line, token, replacement)))
            && (words[0] == words[1] && KeepsWords(line, token, replacement)
                ==> (Reads(edited, [words[0], replacement]) <==> replacement == words[0]))
  {
    var words := ForShell(shell, line).value;
    var p := if words[0] == words[1] then 0 else 1;
    FirstOfTwo(words);
    token := EditOfOneWord(shell, line, p, replacement);
    assert words[p := replacement] == if p == 0 then [replacement, words[1]] else [words[0], replacement];
  }

  lemma FirstOfTwo(words: seq<string>)
    requires |words| == 2
    ensures Count(words[..1], words[0]) == 1
    ensures words[0] != words[1] ==> Count(words[..2], words[1]) == 1
  {
    assert words[..1] == [words[0]] && words[..2] == words && words == [words[0], words[1]];
  }
}
