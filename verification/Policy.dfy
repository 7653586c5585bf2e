/** The daemon's policy: what a response may ask the shell to do.

    Which tables a request reads or changes, and when, is the `Daemon` module's
    matter; here is what `Handle` decides before it turns to them. */
module Policy {
  import opened Options
  import opened Strings
  import opened Redaction
  import opened RiskAssessment
  import opened PackMatching
  import opened Packs
  import opened Engine
  import opened EngineGuarantees
  import opened EngineCanonical
  import Daemon
  import LearningStore

  /** One configuration and one resolver serve both the daemon and its engine.  Splitting at white space,
      the simple-line test and normalisation stay abstract.  `learned` is what the store listed at the start. */
  datatype Site = Site(
    engine: Env,
    fields: string -> seq<string>,
    simple: string -> bool,
    normalise: string -> Option<string>,
    learning: bool,
    ceiling: string,
    learned: seq<LearningStore.LearnedRule>)

  datatype Origin = NoOrigin | Curated | InstalledPack | Heuristic | Learned

  datatype Response = Response(action: string, eligible: bool, suggestion: string, risk: Risk, origin: Origin)

  const SILENT := Response("none", false, "", Safe, NoOrigin)

  /** `ask` means that the response interrupts, unless a confirmation for this very command is pending. */
  datatype Verdict = Verdict(ask: bool, response: Response)

  /** Why a response rewrites. */
  datatype Basis =
    | OfPack(pack: nat, rule: nat, count: nat)
    | OfEngine(reason: Reason, base: Decision)
    | OfRule(index: nat)

  // --------------------------------------------------------------------- curated packs

  ghost predicate PackRewrite(site: Site, command: string, response: Response, pack: nat, rule: nat, count: nat) {
    var e := site.engine;
    && FirstMatch(e, site.fields(command), pack, rule, count)
    && var m := MatchOf(e, site.fields(command), pack, rule, count);
    && response.suggestion == Join(site.fields(m.suggestion))
    && !ContainsSecret(e.context.redactor, site.fields(m.suggestion))
    && m.pack !in e.installedIds && !e.packs[pack].rules[rule].preserveTail
  }

  ghost predicate CuratedPolicy(site: Site, command: string, session: string, pre: bool, v: Verdict, basis: Basis) {
    && v.response.action in {"hint", "interrupt", "rewrite"}
    && (v.response.action == "rewrite" <==> pre && MayRewrite(site.engine.config) && v.response.eligible && !v.ask)
    && (v.response.eligible <==> v.response.risk.Safe? && v.response.origin == Curated && v.response.suggestion != "")
    && (v.response.eligible
        ==> basis.OfPack? && PackRewrite(site, command, v.response, basis.pack, basis.rule, basis.count))
    && (v.ask <==> v.response.action == "interrupt")
    && (v.ask <==> pre && session != "" && v.response.risk.High? && MayInterrupt(site.engine.config))
    && v.response.origin in {Curated, InstalledPack}
  }

  /** A pack has something to say: the command is simple, and the shell takes the first match's suggestion. */
  ghost predicate PackOffers(site: Site, shell: ShellName, command: string, p: int, r: int, n: int) {
    && Supported(shell, command) && site.simple(command) && p >= 0 && r >= 0 && n >= 0
    && FirstMatch(site.engine, site.fields(command), p, r, n)
    && Supported(shell, MatchOf(site.engine, site.fields(command), p, r, n).suggestion)
  }

  /** What it says: the match's suggestion with its secrets redacted, the match's risk unless there are any, and
      where the pack is from. */
  ghost predicate SaysMatch(site: Site, m: Match, response: Response) {
    var words := site.fields(m.suggestion);
    && response.suggestion == Join(RedactedWords(site.engine.context.redactor, words))
    && response.risk == (if ContainsSecret(site.engine.context.redactor, words) then High else m.risk)
    && response.origin == (if m.pack in site.engine.installedIds then InstalledPack else Curated)
  }

  ghost predicate PackSays(site: Site, shell: ShellName, command: string, session: string, pre: bool, v: Verdict) {
    exists p, r, n ::
      && PackOffers(site, shell, command, p, r, n)
      && SaysMatch(site, MatchOf(site.engine, site.fields(command), p, r, n), v.response)
      && CuratedPolicy(site, command, session, pre, v, OfPack(p, r, n))
  }

  ghost predicate SomePackOffers(site: Site, shell: ShellName, command: string) {
    exists p, r, n :: PackOffers(site, shell, command, p, r, n)
  }

  /** The part of `curatedDecision` behind the match. */
  method AnswerMatch(site: Site, command: string, session: string, pre: bool, m: Match, ghost p: nat, ghost r: nat,
                     ghost n: nat)
    returns (v: Verdict)
    requires TailsAreHigh(site.engine.packs) && FirstMatch(site.engine, site.fields(command), p, r, n)
    requires m == MatchOf(site.engine, site.fields(command), p, r, n)
    ensures SaysMatch(site, m, v.response) && CuratedPolicy(site, command, session, pre, v, OfPack(p, r, n))
  {
    var e := site.engine;
    var redacted, containsSecret := Command(e.context.redactor, site.fields(m.suggestion));
    var suggestion, risk := Join(redacted[..]), if containsSecret then High else m.risk;
    var installed := m.pack in e.installedIds;
    var eligible, origin := !installed && suggestion != "" && risk.Safe?, if installed then InstalledPack else Curated;
    var response := Response("hint", eligible, suggestion, risk, origin);
    assert redacted[..] == RedactedWords(e.context.redactor, site.fields(m.suggestion));
    assert response.eligible ==> PackRewrite(site, command, response, p, r, n);
    if pre && risk.High? && MayInterrupt(e.config) {
      return if session == "" then Verdict(false, response) else Verdict(true, response.(action := "interrupt"));
    }
    if pre && response.eligible && MayRewrite(e.config) { response := response.(action := "rewrite"); }
    v := Verdict(false, response);
  }

  /** After a failure a pack only hints. */
  lemma PackHints(site: Site, shell: ShellName, command: string, session: string, v: Verdict)
    requires PackSays(site, shell, command, session, false, v)
    ensures v == Verdict(false, v.response) && v.response.action == "hint" && v.response.origin != Learned
  {
  }

  /** `curatedDecision`, up to its use of the confirmation table. */
  method CuratedDecision(site: Site, shell: ShellName, command: string, session: string, pre: bool)
    returns (v: Option<Verdict>, ghost basis: Basis)
    requires TailsAreHigh(site.engine.packs)
    ensures v.Some? ==> CuratedPolicy(site, command, session, pre, v.value, basis)
    ensures if SomePackOffers(site, shell, command)
            then v.Some? && PackSays(site, shell, command, session, pre, v.value)
            else v.None?
  {
    v, basis := None, OfRule(0);
    var e := site.engine;
    var lexed := TokenizeForShell(shell, command);
    if !lexed.Ok? || Lexers.HasUnsupportedShellSyntax(lexed.value) || !site.simple(command) { return; }
    var words := site.fields(command);
    var found, match_ := MatchWords(e.packs, words, e.regex, e.hidden);
    if match_.None? { return; }
    var m := match_.value;
    OneFirstMatch(e, words, found.pack, found.rule, found.count);
    var suggested := TokenizeForShell(shell, m.suggestion);
    if !suggested.Ok? || Lexers.HasUnsupportedShellSyntax(suggested.value) { return; }
    basis := OfPack(found.pack, found.rule, found.count);
    assert PackOffers(site, shell, command, found.pack, found.rule, found.count);
    var verdict := AnswerMatch(site, command, session, pre, m, found.pack, found.rule, found.count);
    v := Some(verdict);
  }

  // --------------------------------------------------------------------- learned rules

  function Level(action: string): Option<nat> {
    if action == "off" then Some(0)
    else if action == "hint" then Some(1)
    else if action == "rewrite" then Some(2)
    else None
  }

  /** The lower of the rule's action and the ceiling; off when either is unknown. */
  function LimitedLearnedAction(action: string, ceiling: string): (limited: string)
    ensures limited == "rewrite" <==> action == ceiling == "rewrite"
    ensures limited == "off" <==> action !in {"hint", "rewrite"} || ceiling !in {"hint", "rewrite"}
    ensures limited in {"off", "hint", "rewrite"}
  {
    var rule, top := Level(action), Level(ceiling);
    if rule.None? || top.None? then "off" else if rule.value > top.value then ceiling else action
  }

  ghost predicate Fires(site: Site, command: string, i: int) {
    && 0 <= i < |site.learned| && site.learned[i].enabled && site.normalise(command) == Some(site.learned[i].failure)
    && forall k :: 0 <= k < i && site.learned[k].enabled ==> site.normalise(command) != Some(site.learned[k].failure)
  }

  ghost predicate LearnedPolicy(site: Site, command: string, response: Response, basis: Basis) {
    && site.learning && response.origin == Learned && basis.OfRule? && Fires(site, command, basis.index)
    && response.suggestion == site.learned[basis.index].correction
    && response.action == LimitedLearnedAction(site.learned[basis.index].action, site.ceiling) != "off"
  }

  /** A learned rule has something to say. */
  ghost predicate RuleOffers(site: Site, command: string, i: int) {
    site.learning && Fires(site, command, i) && LimitedLearnedAction(site.learned[i].action, site.ceiling) != "off"
  }

  ghost predicate SomeRuleOffers(site: Site, command: string) { exists i :: RuleOffers(site, command, i) }

  ghost predicate RuleSays(site: Site, command: string, response: Response) {
    exists i ::
      && RuleOffers(site, command, i)
      && var rule := site.learned[i];
         response == Response(LimitedLearnedAction(rule.action, site.ceiling), false, rule.correction, Safe, Learned)
  }

  method LearnedDecision(site: Site, command: string) returns (response: Option<Response>, ghost basis: Basis)
    ensures response.Some? ==> LearnedPolicy(site, command, response.value, basis)
    ensures if SomeRuleOffers(site, command) then response.Some? && RuleSays(site, command, response.value)
            else response.None?
  {
    response, basis := None, OfRule(0);
    var failure := site.normalise(command);
    if !site.learning || failure.None? { return; }
    for n := 0 to |site.learned|
      invariant forall k :: 0 <= k < n && site.learned[k].enabled ==> failure.value != site.learned[k].failure
    {
      var rule := site.learned[n];
      if !rule.enabled || rule.failure != failure.value { continue; }
      var action := LimitedLearnedAction(rule.action, site.ceiling);
      basis := OfRule(n);
      assert forall i :: Fires(site, command, i) ==> i == n;
      if action == "off" { return; }
      assert RuleOffers(site, command, n);
      return Some(Response(action, false, rule.correction, Safe, Learned)), basis;
    }
  }

  // ------------------------------------------------------------------------ the engine

  function Name(action: Engine.Action): string {
    match action
    case NoAction => "none"
    case Hint => "hint"
    case Interrupt => "interrupt"
    case RewriteBuffer => "rewrite"
  }

  function Wire(d: Decision): Response {
    Response(Name(d.action), d.eligible, d.suggestion, d.risk,
             if !d.class_.SemanticRepair? then Heuristic else if d.installed then InstalledPack else Curated)
  }

  ghost predicate EngineRewrite(site: Site, shell: ShellName, command: string, response: Response, reason: Reason,
                                base: Decision)
  {
    && Supported(shell, command) && Diagnosis(site.engine, shell, ForShell(shell, command).value, reason, base)
    && SafeBasis(site.engine, shell, ForShell(shell, command).value, reason, base)
    && response.suggestion == Finished(site.engine.config, shell, command, true, base).suggestion
    && (EditsOneWord(reason, base) ==> BufferAssessed(site.engine, shell, command, reason, base, response.suggestion))
  }

  ghost predicate EnginePolicy(site: Site, shell: ShellName, command: string, pre: bool, response: Response,
                               basis: Basis)
  {
    && response.action in {"none", "hint", "interrupt", "rewrite"}
    && response.origin in {Heuristic, Curated, InstalledPack}
    && (!pre ==> response.action in {"none", "hint"})
    && (response.action == "interrupt" ==> pre && MayInterrupt(site.engine.config))
    && (response.action == "rewrite" ==>
          && pre && MayRewrite(site.engine.config) && response.risk.Safe? && response.suggestion != ""
          && response.origin != InstalledPack
          && basis.OfEngine? && EngineRewrite(site, shell, command, response, basis.reason, basis.base))
  }

  ghost predicate EngineSays(site: Site, shell: ShellName, command: string, pre: bool, response: Response) {
    exists d :: IsAnswer(site.engine, shell, command, pre, d) && response == Wire(d)
  }

  lemma FailureIsExact(e: Env, shell: ShellName, line: string, pre: bool, failed: bool, found: Option<Reason>,
                       base: Decision)
    requires found.Some? ==>
               Examined(e, shell, line) && Diagnosis(e, shell, ForShell(shell, line).value, found.value, base)
    requires found.None? && Examined(e, shell, line) ==>
               e.limits.tooLong(line) || AllSilent(e, shell, ForShell(shell, line).value)
    requires failed <==>
               || e.limits.tooLong(line)
               || (Examined(e, shell, line)
                   && (e.limits.late || (found.Some? && Overruns(e.limits, e.config, shell, line, pre, base))))
    ensures failed <==> Exceeds(e, shell, line, pre)
  {
    if Examined(e, shell, line) && !e.limits.tooLong(line) && !e.limits.late {
      if found.Some? {
        OverrunIsOfTheRepair(e, shell, line, pre, found.value, base);
      } else {
        SilenceNeverOverruns(e, shell, line, pre);
      }
    }
  }

  /** `decision`; none when the engine fails. */
  method EngineDecision(site: Site, shell: ShellName, command: string, pre: bool)
    returns (response: Option<Response>, ghost basis: Basis)
    requires TailsAreHigh(site.engine.packs)
    ensures response.Some? ==> EnginePolicy(site, shell, command, pre, response.value, basis)
    ensures response.Some? ==> EngineSays(site, shell, command, pre, response.value)
    ensures response.None? <==> Exceeds(site.engine, shell, command, pre)
  {
    var d, failed, found, base := CheckShell(site.engine, shell, command, pre);
    basis := OfRule(0);
    FailureIsExact(site.engine, shell, command, pre, failed, found, base);
    if failed { return None, basis; }
    if found.Some? {
      RewritesAreJustified(site.engine, shell, command, pre, found.value, base);
      basis := OfEngine(found.value, base);
    }
    response := Some(Wire(d));
  }

  // ---------------------------------------------------------------------------- handle

  /** A rewrite that no learned rule asked for. */
  ghost predicate JustifiedRewrite(site: Site, shell: ShellName, command: string, response: Response, basis: Basis) {
    && MayRewrite(site.engine.config) && response.risk.Safe? && response.suggestion != ""
    && response.origin in {Curated, Heuristic}
    && match basis
       case OfPack(p, r, n) => PackRewrite(site, command, response, p, r, n)
       case OfEngine(reason, base) => EngineRewrite(site, shell, command, response, reason, base)
       case OfRule(_) => false
  }

  /** The step of the daemon's state machine that a verdict stands for. */
  function OutcomeOf(v: Verdict): Daemon.Outcome {
    if v.ask then Daemon.AskFirst
    else if v.response.action == "rewrite" then Daemon.RewriteBuffer
    else Daemon.Reply(v.response.action)
  }

  ghost predicate AwaitsDecision(d: Daemon.State, id: nat, session: string) {
    id in d.threads && d.threads[id].Cleared? && d.threads[id].req.op.PreSend? && d.threads[id].req.session == session
  }

  /** The daemon's state machine has the step of this verdict. */
  ghost predicate IsDecision(session: string, v: Verdict) {
    forall d, id | AwaitsDecision(d, id, session) :: Daemon.Enabled(d, Daemon.Decide(id, OutcomeOf(v)))
  }

  ghost predicate IsFailureAnswer(action: string) {
    forall d: Daemon.State, id | id in d.threads && d.threads[id].Noted? ::
      Daemon.Enabled(d, Daemon.AnswerFailure(id, action))
  }

  lemma AnswersAreSteps(session: string, v: Verdict)
    requires v.response.action in {"none", "hint", "interrupt", "rewrite"}
    ensures (v.ask <==> v.response.action == "interrupt" && session != "") ==> IsDecision(session, v)
    ensures v.response.action in {"none", "hint"} ==> IsFailureAnswer(v.response.action)
  {
  }

  /** What may be said to a line that is about to be sent. */
  ghost predicate PreSendPolicy(site: Site, shell: ShellName, command: string, session: string, v: Verdict,
                                basis: Basis)
  {
    && v.response.action in {"none", "hint", "interrupt", "rewrite"}
    && (v.response.action == "rewrite" ==>
          && !v.ask && Supported(shell, command)
          && if v.response.origin == Learned then LearnedPolicy(site, command, v.response, basis)
             else JustifiedRewrite(site, shell, command, v.response, basis))
    && (v.response.action == "interrupt" ==> MayInterrupt(site.engine.config))
    && (v.ask <==> v.response.action == "interrupt" && session != "")
    && (!Supported(shell, command) ==> v == Verdict(false, SILENT))
  }

  /** What must be said: a pack speaks first, then a learned rule, then the engine, which alone may fail. */
  ghost predicate PreSendLaw(site: Site, shell: ShellName, command: string, session: string, v: Option<Verdict>) {
    if !Supported(shell, command) then v == Some(Verdict(false, SILENT))
    else if SomePackOffers(site, shell, command) then v.Some? && PackSays(site, shell, command, session, true, v.value)
    else if SomeRuleOffers(site, command) then v.Some? && !v.value.ask && RuleSays(site, command, v.value.response)
    else if Exceeds(site.engine, shell, command, true) then v.None?
    else
      && v.Some?
      && EngineSays(site, shell, command, true, v.value.response)
      && (v.value.ask <==> v.value.response.action == "interrupt" && session != "")
  }

  ghost predicate PostFailureLaw(site: Site, shell: ShellName, command: string, session: string, r: Option<Response>) {
    if SomePackOffers(site, shell, command) then
      r.Some? && PackSays(site, shell, command, session, false, Verdict(false, r.value))
    else if Exceeds(site.engine, shell, command, false) then r.None?
    else r.Some? && EngineSays(site, shell, command, false, r.value)
  }

  /** `preSend`, up to its use of the confirmation table: every rewrite is justified or follows a learned
      rule within the ceiling, and whatever interrupts was allowed to.  None stands for an error. */
  method PreSend(site: Site, shell: ShellName, command: string, session: string)
    returns (v: Option<Verdict>, ghost basis: Basis)
    requires TailsAreHigh(site.engine.packs)
    ensures v.Some? ==> PreSendPolicy(site, shell, command, session, v.value, basis)
    ensures v.Some? ==> IsDecision(session, v.value)
    ensures PreSendLaw(site, shell, command, session, v)
  {
    v, basis := Some(Verdict(false, SILENT)), OfRule(0);
    AnswersAreSteps(session, v.value);
    var lexed := TokenizeForShell(shell, command);
    if !lexed.Ok? || Lexers.HasUnsupportedShellSyntax(lexed.value) { return; }
    v, basis := CuratedDecision(site, shell, command, session, true);
    if v.Some? {
      AnswersAreSteps(session, v.value);
      return;
    }
    v, basis := Resolve(site, shell, command, session);
  }

  /** The part of `preSend` behind the curated packs. */
  method Resolve(site: Site, shell: ShellName, command: string, session: string)
    returns (v: Option<Verdict>, ghost basis: Basis)
    requires TailsAreHigh(site.engine.packs) && Supported(shell, command) && !SomePackOffers(site, shell, command)
    ensures v.Some? ==> PreSendPolicy(site, shell, command, session, v.value, basis) && IsDecision(session, v.value)
    ensures PreSendLaw(site, shell, command, session, v)
  {
    var learned, learnedBasis := LearnedDecision(site, command);
    if learned.Some? {
      AnswersAreSteps(session, Verdict(false, learned.value));
      return Some(Verdict(false, learned.value)), learnedBasis;
    }
    var response, engineBasis := EngineDecision(site, shell, command, true);
    basis := engineBasis;
    if response.None? { return None, basis; }
    v := Some(Verdict(response.value.action == "interrupt" && session != "", response.value));
    AnswersAreSteps(session, v.value);
  }

  /** The answer to a failed command is a hint or nothing, never an edit. */
  method PostFailure(site: Site, shell: ShellName, command: string, session: string)
    returns (response: Option<Response>)
    requires TailsAreHigh(site.engine.packs)
    ensures PostFailureLaw(site, shell, command, session, response)
    ensures response.Some? ==> response.value.action in {"none", "hint"} && response.value.origin != Learned
    ensures response.Some? ==> IsFailureAnswer(response.value.action)
  {
    var curated, curatedBasis := CuratedDecision(site, shell, command, session, false);
    if curated.Some? {
      PackHints(site, shell, command, session, curated.value);
      AnswersAreSteps(session, curated.value);
      return Some(curated.value.response);
    }
    ghost var basis;
    response, basis := EngineDecision(site, shell, command, false);
    if response.Some? { AnswersAreSteps(session, Verdict(false, response.value)); }
  }
}
