/** The engine's decision depends on which candidates there are, not on their order or repetition. */
module EngineCanonical {
  import opened Options
  import opened Ranking
  import opened RiskAssessment
  import opened Engine

  predicate SameTexts(xs: seq<string>, ys: seq<string>) { Ranking.Texts(xs) == Ranking.Texts(ys) }

  /** The same listing of a directory, in any order and with any repetition. */
  predicate SameListing(x: Option<seq<string>>, y: Option<seq<string>>) {
    (x.None? && y.None?) || (x.Some? && y.Some? && SameTexts(x.value, y.value))
  }

  ghost predicate Alike(e: Env, e': Env) {
    && e' == e.(commands := e'.commands, entries := e'.entries)
    && SameTexts(e.commands, e'.commands)
    && forall dir :: SameListing(e.entries(dir), e'.entries(dir))
  }

  lemma RepairsAlike(e: Env, e': Env, class_: Class, word: string, xs: seq<string>, ys: seq<string>, b: string)
    requires Alike(e, e') && SameTexts(xs, ys)
    ensures Repairs(e, class_, word, xs, b) == Repairs(e', class_, word, ys, b)
  {
    assert xs != [] ==> xs[0] in Ranking.Texts(xs);
    assert ys != [] ==> ys[0] in Ranking.Texts(ys);
  }

  lemma RepairsOnce(e: Env, class_: Class, word: string, xs: seq<string>, b: string, b': string)
    requires Repairs(e, class_, word, xs, b) && Repairs(e, class_, word, xs, b')
    ensures b == b'
  {
    NearestIsCanonical(e.lower, word, xs, xs, b, b');
  }

  lemma CommandRepairAlike(e: Env, e': Env, words: seq<string>, p: int, b: string)
    requires Alike(e, e')
    ensures CommandRepairAt(e, words, p, b) == CommandRepairAt(e', words, p, b)
  {
    if RunsCommand(words, p) { RepairsAlike(e, e', CommandRepair, words[p], e.commands, e'.commands, b); }
  }

  lemma PathRepairAlike(e: Env, e': Env, words: seq<string>, p: int, b: string)
    requires Alike(e, e')
    ensures PathRepairAt(e, words, p, b) == PathRepairAt(e', words, p, b)
  {
    if 1 <= p < |words| {
      var dir := e.splitPath(words[p]).0;
      assert SameListing(e.entries(dir), e'.entries(dir));
      if e.entries(dir).Some? {
        RepairsAlike(e, e', PathRepair, e.splitPath(words[p]).1, e.entries(dir).value, e'.entries(dir).value, b);
      }
    }
  }

  lemma ProposalsAgree(e: Env, e': Env, words: seq<string>, p: nat, replacement: string, d: Decision, d': Decision)
    requires Alike(e, e') && Proposes(e, words, p, replacement, d) && Proposes(e', words, p, replacement, d')
    requires d.class_ == d'.class_ && d.confidence == d'.confidence
    ensures d == d'
  {
  }

  lemma OneCommandDecision(e: Env, e': Env, words: seq<string>, p: nat, b: string, d: Decision, p': nat, b': string,
                           d': Decision)
    requires Alike(e, e') && IsCommandDecision(e, words, p, b, d) && IsCommandDecision(e', words, p', b', d')
    ensures p == p' && b == b' && d == d'
  {
    CommandRepairAlike(e, e', words, p, b);
    CommandRepairAlike(e, e', words, p', b');
    RepairsOnce(e, CommandRepair, words[p], e.commands, b, b');
    ProposalsAgree(e, e', words, p, b, d, d');
  }

  lemma OnePathDecision(e: Env, e': Env, words: seq<string>, p: nat, b: string, d: Decision, p': nat, b': string,
                        d': Decision)
    requires Alike(e, e') && IsPathDecision(e, words, p, b, d) && IsPathDecision(e', words, p', b', d')
    ensures p == p' && b == b' && d == d'
  {
    PathRepairAlike(e, e', words, p, b);
    PathRepairAlike(e, e', words, p', b');
    var (dir, base) := e.splitPath(words[p]);
    RepairsOnce(e, PathRepair, base, e.entries(dir).value, b, b');
    ProposalsAgree(e, e', words, p, e.joinPath(dir, b), d, d');
  }

  lemma OneSemanticDecision(e: Env, e': Env, shell: ShellName, words: seq<string>,
                            p: nat, r: nat, n: nat, d: Decision, p': nat, r': nat, n': nat, d': Decision)
    requires Alike(e, e') && IsSemanticDecision(e, shell, words, p, r, n, d)
    requires IsSemanticDecision(e', shell, words, p', r', n', d')
    ensures p == p' && r == r' && n == n' && d == d'
  {
    assert FirstMatch(e, words, p', r', n');
    OneFirstMatch(e, words, p, r, n);
  }

  lemma CommandNotSilent(e: Env, e': Env, words: seq<string>, p: nat, b: string, d: Decision)
    requires Alike(e, e') && IsCommandDecision(e, words, p, b, d) && d.suggestion != ""
    ensures !CommandSilent(e', words)
  {
    CommandRepairAlike(e, e', words, p, b);
    if p', b', d' :| IsCommandDecision(e', words, p', b', d') && d'.suggestion == "" {
      OneCommandDecision(e, e', words, p, b, d, p', b', d');
    }
  }

  lemma PacksNotSilent(e: Env, e': Env, shell: ShellName, words: seq<string>, p: nat, r: nat, n: nat, d: Decision)
    requires Alike(e, e') && IsSemanticDecision(e, shell, words, p, r, n, d) && d.suggestion != ""
    ensures !PacksSilent(e', shell, words)
  {
    assert FirstMatch(e', words, p, r, n) && Usable(shell, MatchOf(e', words, p, r, n));
    if p', r', n', d' :| IsSemanticDecision(e', shell, words, p', r', n', d') && d'.suggestion == "" {
      OneSemanticDecision(e, e', shell, words, p, r, n, d, p', r', n', d');
    }
  }

  lemma PathNotSilent(e: Env, e': Env, words: seq<string>, p: nat, b: string, d: Decision)
    requires Alike(e, e') && IsPathDecision(e, words, p, b, d) && d.suggestion != ""
    ensures !PathSilent(e', words)
  {
    PathRepairAlike(e, e', words, p, b);
    if p', b', d' :| IsPathDecision(e', words, p', b', d') && d'.suggestion == "" {
      OnePathDecision(e, e', words, p, b, d, p', b', d');
    }
  }

  lemma AlikeBack(e: Env, e': Env)
    requires Alike(e, e')
    ensures Alike(e', e)
  {
    forall dir
      ensures SameListing(e'.entries(dir), e.entries(dir))
    {
      assert SameListing(e.entries(dir), e'.entries(dir));
    }
  }

  /** How far the search for a repair went. */
  function Stage(reason: Reason): nat { if reason.ByCommand? then 0 else if reason.ByPack? then 1 else 2 }

  lemma EarlierStageWins(e: Env, e': Env, shell: ShellName, words: seq<string>, reason: Reason, base: Decision,
                         reason': Reason, base': Decision)
    requires Alike(e, e') && Diagnosis(e, shell, words, reason, base) && Diagnosis(e', shell, words, reason', base')
    ensures Stage(reason) >= Stage(reason')
  {
    match reason
    case ByCommand(p, b) => CommandNotSilent(e, e', words, p, b, base);
    case ByPack(p, r, n) => PacksNotSilent(e, e', shell, words, p, r, n, base);
    case ByPath(_, _) =>
  }

  lemma SameDiagnosis(e: Env, e': Env, shell: ShellName, words: seq<string>, reason: Reason, base: Decision,
                      reason': Reason, base': Decision)
    requires Alike(e, e') && Diagnosis(e, shell, words, reason, base) && Diagnosis(e', shell, words, reason', base')
    ensures reason == reason' && base == base'
  {
    AlikeBack(e, e');
    EarlierStageWins(e, e', shell, words, reason, base, reason', base');
    EarlierStageWins(e', e, shell, words, reason', base', reason, base);
    if reason.ByCommand? {
      OneCommandDecision(e, e', words, reason.p, reason.best, base, reason'.p, reason'.best, base');
    } else if reason.ByPack? {
      OneSemanticDecision(e, e', shell, words, reason.pack, reason.rule, reason.count, base,
                          reason'.pack, reason'.rule, reason'.count, base');
    } else {
      OnePathDecision(e, e', words, reason.p, reason.best, base, reason'.p, reason'.best, base');
    }
  }

  /** Where one engine finds a repair, so does the other. */
  lemma RepairIsFoundAlike(e: Env, e': Env, shell: ShellName, words: seq<string>, reason: Reason, base: Decision)
    requires Alike(e, e') && Diagnosis(e, shell, words, reason, base)
    ensures !AllSilent(e', shell, words)
  {
    match reason
    case ByCommand(p, b) => CommandNotSilent(e, e', words, p, b, base);
    case ByPack(p, r, n) => PacksNotSilent(e, e', shell, words, p, r, n, base);
    case ByPath(p, b) => PathNotSilent(e, e', words, p, b, base);
  }

  /** Two engines that see the same candidates, in whatever order and with whatever repetition, give the
      same answer to every line; in particular an engine has only one answer. */
  lemma AnswerIsCanonical(e: Env, e': Env, shell: ShellName, line: string, pre: bool, d: Decision, d': Decision)
    requires Alike(e, e') && IsAnswer(e, shell, line, pre, d) && IsAnswer(e', shell, line, pre, d')
    ensures d == d'
  {
    if Examined(e, shell, line) {
      var words := ForShell(shell, line).value;
      AlikeBack(e, e');
      if reason, base :| Diagnosis(e, shell, words, reason, base) && d == Finished(e.config, shell, line, pre, base) {
        RepairIsFoundAlike(e, e', shell, words, reason, base);
        AnswerOf(e, e', shell, line, pre, reason, base, d');
      } else if reason', base' :|
           Diagnosis(e', shell, words, reason', base') && d' == Finished(e'.config, shell, line, pre, base') {
        RepairIsFoundAlike(e', e, shell, words, reason', base');
      }
    }
  }

  lemma AnswerOf(e: Env, e': Env, shell: ShellName, line: string, pre: bool, reason: Reason, base: Decision,
                 d': Decision)
    requires Alike(e, e') && Examined(e, shell, line) && Diagnosis(e, shell, ForShell(shell, line).value, reason, base)
    requires IsAnswer(e', shell, line, pre, d') && !AllSilent(e', shell, ForShell(shell, line).value)
    ensures d' == Finished(e.config, shell, line, pre, base)
  {
    var words := ForShell(shell, line).value;
    var reason', base' :|
      Diagnosis(e', shell, words, reason', base') && d' == Finished(e'.config, shell, line, pre, base');
    SameDiagnosis(e, e', shell, words, reason, base, reason', base');
  }

  // ------------------------------------------------------------------------------- limits

  /** The engine exceeds a limit: the line is too long, or it is examined and takes too long or its repair is too
      large. */
  ghost predicate Exceeds(e: Env, shell: ShellName, line: string, pre: bool) {
    || e.limits.tooLong(line)
    || (Examined(e, shell, line)
        && (e.limits.late
            || exists reason, base ::
                 && Diagnosis(e, shell, ForShell(shell, line).value, reason, base)
                 && Overruns(e.limits, e.config, shell, line, pre, base)))
  }

  /** Which repair was found does not matter, as there is only one. */
  lemma OverrunIsOfTheRepair(e: Env, shell: ShellName, line: string, pre: bool, reason: Reason, base: Decision)
    requires Examined(e, shell, line) && !e.limits.tooLong(line) && !e.limits.late
    requires Diagnosis(e, shell, ForShell(shell, line).value, reason, base)
    ensures Exceeds(e, shell, line, pre) <==> Overruns(e.limits, e.config, shell, line, pre, base)
  {
    var words := ForShell(shell, line).value;
    forall reason', base' | Diagnosis(e, shell, words, reason', base')
      ensures base' == base
    {
      SameDiagnosis(e, e, shell, words, reason, base, reason', base');
    }
  }

  lemma SilenceNeverOverruns(e: Env, shell: ShellName, line: string, pre: bool)
    requires Examined(e, shell, line) && !e.limits.tooLong(line) && !e.limits.late
    requires AllSilent(e, shell, ForShell(shell, line).value)
    ensures !Exceeds(e, shell, line, pre)
  {
    var words := ForShell(shell, line).value;
    if reason, base :|
         Diagnosis(e, shell, words, reason, base) && Overruns(e.limits, e.config, shell, line, pre, base) {
      RepairIsFoundAlike(e, e, shell, words, reason, base);
    }
  }
}
