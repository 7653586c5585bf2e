/** Which action a repair gets, exactly. */
module EngineActions {
  import opened Options
  import opened Lexers
  import opened Rewrite
  import opened EditDistance
  import opened RiskAssessment
  import opened PackMatching
  import opened Engine
  import opened EngineGuarantees

  /** The repair may be applied without asking. */
  predicate Harmless(base: Decision) { base.risk.Safe? && !base.installed && base.confidence >= 0.80 }

  /** What every repair has: it met the threshold of its class, and it is complete. */
  lemma RepairsMeetThreshold(e: Env, shell: ShellName, words: seq<string>, reason: Reason, base: Decision)
    requires Diagnosis(e, shell, words, reason, base)
    ensures Complete(base)
    ensures !reason.ByCommand? ==> base.confidence >= 0.90
  {
  }

  /** Where the line may be edited at all, the word to be replaced is found. */
  lemma EditSucceeds(e: Env, shell: ShellName, line: string, reason: Reason, base: Decision)
    requires Supported(shell, line) && MayEdit(shell, line)
    requires Diagnosis(e, shell, ForShell(shell, line).value, reason, base)
    requires base.original != "" && base.replacement != ""
    ensures Replaced(line, base.original, base.replacement, base.occurrence).Some?
  {
    var words := ForShell(shell, line).value;
    if reason.ByPack? {
      var token := PackEditHitsArgument(shell, line, base.replacement);
    } else {
      ProposalOf(e, shell, words, reason, base);
      var token := EditOfOneWord(shell, line, reason.p, base.replacement);
    }
  }

  /** The word to be replaced is found, if there is one and the line may be edited. */
  predicate Locatable(shell: ShellName, line: string, base: Decision) {
    MayEdit(shell, line) && base.original != "" && base.replacement != ""
    ==> Replaced(line, base.original, base.replacement, base.occurrence).Some?
  }

  predicate Complete(base: Decision) {
    && base.suggestion != "" && !base.incomplete && MeetsThreshold(base.class_, base.confidence)
    && (base.installed ==> base.class_.SemanticRepair?)
  }

  predicate Interrupts(config: Config, pre: bool, base: Decision) {
    pre && MayInterrupt(config) && base.confidence >= 0.90 && !(MayRewrite(config) && Harmless(base))
  }

  predicate Applies(config: Config, shell: ShellName, line: string, pre: bool, base: Decision) {
    pre && MayRewrite(config) && Harmless(base) && MayEdit(shell, line)
  }

  predicate ActionLaw(config: Config, shell: ShellName, line: string, pre: bool, base: Decision, d: Decision) {
    && (d.eligible <==> Harmless(base))
    && (d.action.RewriteBuffer? <==> Applies(config, shell, line, pre, base))
    && (d.action.Interrupt? <==> Interrupts(config, pre, base))
    && !d.action.NoAction?
  }

  lemma ModeExactly(config: Config, pre: bool, base: Decision)
    requires Complete(base)
    ensures var d := ApplyMode(config, pre, base);
            && (d.eligible <==> Harmless(base))
            && (d.action.RewriteBuffer? <==> pre && MayRewrite(config) && Harmless(base))
            && (d.action.Interrupt? <==> Interrupts(config, pre, base))
            && !d.action.NoAction?
  {
  }

  lemma FinishedExactly(config: Config, shell: ShellName, line: string, pre: bool, base: Decision)
    requires Complete(base) && Locatable(shell, line, base)
    ensures ActionLaw(config, shell, line, pre, base, Finished(config, shell, line, pre, base))
  {
    ModeExactly(config, pre, base);
  }

  /** A repair always reaches the user.  It is applied exactly if the line is about to be sent, the
      configuration allows it, the repair is harmless and the line may be edited; it interrupts exactly if
      the configuration allows that, the repair is nearly certain and it would not have been applied to a
      line that may be edited; and in all other cases it is a hint. */
  lemma ActionsExactly(e: Env, shell: ShellName, line: string, pre: bool, reason: Reason, base: Decision)
    requires Supported(shell, line) && Diagnosis(e, shell, ForShell(shell, line).value, reason, base)
    ensures ActionLaw(e.config, shell, line, pre, base, Finished(e.config, shell, line, pre, base))
  {
    RepairsMeetThreshold(e, shell, ForShell(shell, line).value, reason, base);
    if MayEdit(shell, line) && base.original != "" && base.replacement != "" {
      EditSucceeds(e, shell, line, reason, base);
    }
    FinishedExactly(e.config, shell, line, pre, base);
  }

  /** The conditions on a confidence, as conditions on lengths. */
  lemma ConfidenceInLetters(word: string, best: string)
    requires best != ""
    ensures var edits, letters := Distance(word, best), Max(|word|, |best|);
            && (Confidence(word, best) >= 0.60 <==> 5 * edits <= 2 * letters)
            && (Confidence(word, best) >= 0.80 <==> 5 * edits <= letters)
            && (Confidence(word, best) >= 0.90 <==> 10 * edits <= letters)
  {
    ConfidenceExactly(word, best, 0.60);
    ConfidenceExactly(word, best, 0.80);
    ConfidenceExactly(word, best, 0.90);
  }

  lemma CommandRepairOf(e: Env, shell: ShellName, words: seq<string>, p: nat, best: string, base: Decision)
    requires Diagnosis(e, shell, words, ByCommand(p, best), base)
    ensures p < |words| && best != "" && Distance(words[p], best) <= MaxDistance(words[p])
    ensures base.confidence == Confidence(words[p], best) >= 0.60 && !base.installed
  {
  }

  /** What becomes of a mistyped command: one edit in five letters may be applied, one in ten may
      interrupt, and two in five is the most that is repaired at all. */
  predicate CommandLaw(config: Config, shell: ShellName, line: string, pre: bool, word: string, best: string,
                       base: Decision, d: Decision)
  {
    var edits, letters := Distance(word, best), Max(|word|, |best|);
    && 5 * edits <= 2 * letters && edits <= MaxDistance(word)
    && (d.action.RewriteBuffer? <==>
          pre && MayRewrite(config) && MayEdit(shell, line) && base.risk.Safe? && 5 * edits <= letters)
    && (d.action.Interrupt? <==>
          pre && MayInterrupt(config) && 10 * edits <= letters && !(MayRewrite(config) && base.risk.Safe?))
  }

  lemma CommandActionsExactly(e: Env, shell: ShellName, line: string, pre: bool, p: nat, best: string, base: Decision)
    requires Supported(shell, line) && Diagnosis(e, shell, ForShell(shell, line).value, ByCommand(p, best), base)
    ensures p < |ForShell(shell, line).value|
    ensures CommandLaw(e.config, shell, line, pre, ForShell(shell, line).value[p], best, base,
                       Finished(e.config, shell, line, pre, base))
  {
    CommandRepairOf(e, shell, ForShell(shell, line).value, p, best, base);
    ActionsExactly(e, shell, line, pre, ByCommand(p, best), base);
    LettersDecide(e.config, shell, line, pre, ForShell(shell, line).value[p], best, base,
                  Finished(e.config, shell, line, pre, base));
  }

  lemma LettersDecide(config: Config, shell: ShellName, line: string, pre: bool, word: string, best: string,
                      base: Decision, d: Decision)
    requires best != "" && base.confidence == Confidence(word, best) >= 0.60 && !base.installed
    requires Distance(word, best) <= MaxDistance(word) && ActionLaw(config, shell, line, pre, base, d)
    ensures CommandLaw(config, shell, line, pre, word, best, base, d)
  {
    ConfidenceInLetters(word, best);
  }
}
