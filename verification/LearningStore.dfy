/** The learning tables: observations, drafts and learned rules.

    Every SQL transaction is one atomic step on `Tables`.  A row identifier is
    any unused positive number, as SQLite promises no more for a primary key
    without AUTOINCREMENT: identifiers of deleted rows come back. */
module LearningStore {
  const DRAFT_EVIDENCE_THRESHOLD: nat := 3

  datatype Observation = Observation(session: string, failed: string, corrected: string, output: string, created: int)
  datatype Draft = Draft(failure: string, correction: string, count: nat, created: int, updated: int)
  datatype Rule = Rule(draft: int, action: string, enabled: bool, created: int, updated: int)

  datatype Tables = Tables(observations: map<int, Observation>, drafts: map<int, Draft>, rules: map<int, Rule>)

  const EMPTY := Tables(map[], map[], map[])

  predicate ValidAction(action: string) { action == "off" || action == "hint" || action == "rewrite" }

  predicate Holds(draft: Draft, failure: string, correction: string) {
    draft.failure == failure && draft.correction == correction
  }

  ghost predicate HasPair(drafts: map<int, Draft>, failure: string, correction: string) {
    exists id :: id in drafts && Holds(drafts[id], failure, correction)
  }

  ghost predicate HasRule(rules: map<int, Rule>, draft: int) {
    exists id :: id in rules && rules[id].draft == draft
  }

  // ------------------------------------------------------------------------ steps

  /** One committed statement or transaction.  `id` is the row it touches or creates. */
  datatype Step =
    | Observe(id: int, observation: Observation)
    | Record(id: int, failure: string, correction: string, now: int)
    | Activate(id: int, draft: int, action: string, now: int)
    | Edit(id: int, failure: string, correction: string, now: int)
    | SetAction(id: int, action: string, now: int)
    | SetEnabled(id: int, enabled: bool, now: int)
    | Delete(id: int)
    | Forget(cutoff: int)
    | Purge

  /** When the step commits rather than returning an error. */
  ghost predicate Commits(t: Tables, step: Step) {
    match step
    case Observe(id, o) => id >= 1 && id !in t.observations && o.session != "" && o.failed != "" && o.corrected != ""
    case Record(id, failure, correction, _) =>
      if id in t.drafts then Holds(t.drafts[id], failure, correction)
      else id >= 1 && !HasPair(t.drafts, failure, correction)
    case Activate(id, draft, action, _) =>
      && ValidAction(action) && draft >= 1 && draft in t.drafts
      && t.drafts[draft].count >= DRAFT_EVIDENCE_THRESHOLD
      && if id in t.rules then t.rules[id].draft == draft else id >= 1 && !HasRule(t.rules, draft)
    case Edit(id, failure, correction, _) =>
      && id >= 1 && failure != "" && correction != "" && id in t.drafts
      && !HasPair(t.drafts - {id}, failure, correction)
    case SetAction(id, action, _) => id >= 1 && ValidAction(action) && id in t.rules
    case SetEnabled(id, _, _) => id >= 1 && id in t.rules
    case Delete(id) => id >= 1 && id in t.rules
    case Forget(_) => true
    case Purge => true
  }

  ghost function Apply(t: Tables, step: Step): Tables
    requires Commits(t, step)
  {
    match step
    case Observe(id, o) => t.(observations := t.observations[id := o])
    case Record(id, failure, correction, now) =>
      var draft := if id in t.drafts then t.drafts[id].(count := t.drafts[id].count + 1, updated := now)
                   else Draft(failure, correction, 1, now, now);
      t.(drafts := t.drafts[id := draft])
    case Activate(id, draft, action, now) =>
      var rule := if id in t.rules then t.rules[id].(action := action, enabled := true, updated := now)
                  else Rule(draft, action, true, now, now);
      t.(rules := t.rules[id := rule])
    case Edit(id, failure, correction, now) =>
      t.(drafts := t.drafts[id := t.drafts[id].(failure := failure, correction := correction, updated := now)])
    case SetAction(id, action, now) => t.(rules := t.rules[id := t.rules[id].(action := action, updated := now)])
    case SetEnabled(id, enabled, now) => t.(rules := t.rules[id := t.rules[id].(enabled := enabled, updated := now)])
    case Delete(id) => t.(rules := t.rules - {id})
    case Forget(cutoff) =>
      t.(observations := map id | id in t.observations && t.observations[id].created >= cutoff :: t.observations[id])
    case Purge => EMPTY
  }

  // -------------------------------------------------------------------------- runs

  /** A history is a list of committed steps from an empty database. */
  ghost predicate IsHistory(steps: seq<Step>)
    decreases |steps|, 0
  {
    steps == [] || (IsHistory(Front(steps)) && Commits(After(Front(steps)), steps[|steps| - 1]))
  }

  function Front(steps: seq<Step>): seq<Step>
    requires steps != []
  {
    steps[..|steps| - 1]
  }

  ghost function After(steps: seq<Step>): Tables
    requires IsHistory(steps)
    decreases |steps|, 1
  {
    if steps == [] then EMPTY else Apply(After(Front(steps)), steps[|steps| - 1])
  }

  /** How many recordings landed on draft `id` since the last purge. */
  function Landings(steps: seq<Step>, id: int): nat {
    if steps == [] then 0
    else
      match steps[|steps| - 1]
      case Purge => 0
      case Record(at, _, _, _) => Landings(Front(steps), id) + if at == id then 1 else 0
      case _ => Landings(Front(steps), id)
  }

  // --------------------------------------------------------------------- invariant

  /** Every rule rests on an existing draft with enough evidence, and has a valid action. */
  ghost predicate Grounded(drafts: map<int, Draft>, rule: Rule) {
    && rule.draft in drafts && drafts[rule.draft].count >= DRAFT_EVIDENCE_THRESHOLD && ValidAction(rule.action)
  }

  ghost predicate RulesGrounded(t: Tables) { forall id :: id in t.rules ==> Grounded(t.drafts, t.rules[id]) }

  ghost predicate OneRulePerDraft(rules: map<int, Rule>) {
    forall i, j :: i in rules && j in rules && rules[i].draft == rules[j].draft ==> i == j
  }

  ghost predicate PairsUnique(drafts: map<int, Draft>) {
    forall i, j :: i in drafts && j in drafts && Holds(drafts[i], drafts[j].failure, drafts[j].correction) ==> i == j
  }

  ghost predicate Sound(t: Tables) { RulesGrounded(t) && OneRulePerDraft(t.rules) && PairsUnique(t.drafts) }

  lemma StepKeepsGrounded(t: Tables, step: Step)
    requires RulesGrounded(t) && Commits(t, step)
    ensures RulesGrounded(Apply(t, step))
  {
    var t' := Apply(t, step);
    forall id | id in t'.rules
      ensures Grounded(t'.drafts, t'.rules[id])
    {
      assert id in t.rules ==> Grounded(t.drafts, t.rules[id]);
    }
  }

  lemma StepKeepsOneRule(t: Tables, step: Step)
    requires OneRulePerDraft(t.rules) && Commits(t, step)
    ensures OneRulePerDraft(Apply(t, step).rules)
  {
    var rules' := Apply(t, step).rules;
    forall i, j | i in rules' && j in rules' && rules'[i].draft == rules'[j].draft
      ensures i == j
    {
      if step.Activate? && step.id !in t.rules {
        assert !HasRule(t.rules, step.draft);
        assert i in t.rules ==> t.rules[i].draft != step.draft;
        assert j in t.rules ==> t.rules[j].draft != step.draft;
      }
    }
  }

  /** Storing a pair that no other draft holds keeps the pairs unique. */
  lemma PutDraft(drafts: map<int, Draft>, id: int, draft: Draft)
    requires PairsUnique(drafts)
    requires forall j :: j in drafts && j != id ==> !Holds(drafts[j], draft.failure, draft.correction)
    ensures PairsUnique(drafts[id := draft])
  {
  }

  lemma StepKeepsPairs(t: Tables, step: Step)
    requires PairsUnique(t.drafts) && Commits(t, step)
    ensures PairsUnique(Apply(t, step).drafts)
  {
    match step
    case Record(id, failure, correction, _) =>
      if id !in t.drafts {
        assert forall j :: j in t.drafts ==> !Holds(t.drafts[j], failure, correction);
      }
      PutDraft(t.drafts, id, Apply(t, step).drafts[id]);
    case Edit(id, failure, correction, _) =>
      forall j | j in t.drafts && j != id
        ensures !Holds(t.drafts[j], failure, correction)
      {
        assert j in t.drafts - {id} && (t.drafts - {id})[j] == t.drafts[j];
      }
      PutDraft(t.drafts, id, Apply(t, step).drafts[id]);
    case _ =>
  }

  /** A recording adds one to the draft it lands on; nothing else changes a count, and only a purge
      removes a draft. */
  lemma StepKeepsCounts(t: Tables, steps: seq<Step>, step: Step, id: int)
    requires Commits(t, step)
    requires if id in t.drafts then t.drafts[id].count == Landings(steps, id) else Landings(steps, id) == 0
    ensures var t', steps' := Apply(t, step), steps + [step];
            if id in t'.drafts then t'.drafts[id].count == Landings(steps', id) else Landings(steps', id) == 0
  {
    assert Front(steps + [step]) == steps;
  }

  /** Over every history: each rule has its own existing draft with at least three recordings, no two
      drafts hold the same pair, and each draft's count is the number of recordings that landed on it
      since it was created. */
  lemma {:induction false} HistoryInvariant(steps: seq<Step>)
    requires IsHistory(steps)
    ensures Sound(After(steps))
    ensures forall id :: if id in After(steps).drafts then After(steps).drafts[id].count == Landings(steps, id)
                         else Landings(steps, id) == 0
    decreases |steps|
  {
    if steps != [] {
      var front, step := Front(steps), steps[|steps| - 1];
      HistoryInvariant(front);
      var t := After(front);
      StepKeepsGrounded(t, step);
      StepKeepsOneRule(t, step);
      StepKeepsPairs(t, step);
      assert steps == front + [step];
      forall id
        ensures if id in Apply(t, step).drafts then Apply(t, step).drafts[id].count == Landings(steps, id)
                else Landings(steps, id) == 0
      {
        StepKeepsCounts(t, front, step, id);
      }
    }
  }

  /** Activating a rule and then changing it cannot leave it with fewer than three recordings. */
  lemma RulesRestOnThreeRecordings(steps: seq<Step>, id: int)
    requires IsHistory(steps) && id in After(steps).rules
    ensures After(steps).rules[id].draft in After(steps).drafts
    ensures Landings(steps, After(steps).rules[id].draft) >= DRAFT_EVIDENCE_THRESHOLD
  {
    HistoryInvariant(steps);
  }

  // ------------------------------------------------------------------- active rules

  datatype LearnedRule = LearnedRule(id: int, draft: int, failure: string, correction: string, action: string,
                                     enabled: bool)

  /** An enabled rule joined with its draft. */
  ghost predicate Active(t: Tables, r: LearnedRule) {
    && r.id in t.rules && t.rules[r.id].enabled && t.rules[r.id].draft in t.drafts
    && r == Joined(t, r.id)
  }

  function Joined(t: Tables, id: int): LearnedRule
    requires id in t.rules && t.rules[id].draft in t.drafts
  {
    var rule, draft := t.rules[id], t.drafts[t.rules[id].draft];
    LearnedRule(id, rule.draft, draft.failure, draft.correction, rule.action, rule.enabled)
  }

  ghost predicate ById(rules: seq<LearnedRule>) { forall i, j :: 0 <= i < j < |rules| ==> rules[i].id < rules[j].id }

  /** `rules` are exactly the active rules, in order of their identifiers. */
  ghost predicate ListsActive(t: Tables, rules: seq<LearnedRule>) {
    ById(rules) && forall r :: r in rules <==> Active(t, r)
  }

  method InsertRule(rules: seq<LearnedRule>, x: LearnedRule) returns (r: seq<LearnedRule>)
    requires ById(rules) && forall i :: 0 <= i < |rules| ==> rules[i].id != x.id
    ensures ById(r) && forall y :: y in r <==> y in rules || y == x
  {
    var k := 0;
    while k < |rules| && rules[k].id < x.id
      invariant 0 <= k <= |rules|
      invariant forall i :: 0 <= i < k ==> rules[i].id < x.id
    {
      k := k + 1;
    }
    assert rules == rules[..k] + rules[k..];
    r := rules[..k] + [x] + rules[k..];
  }

  // ------------------------------------------------------------------- the operations

  datatype Outcome = Committed(id: int) | Failed

  class Store {
    var observations: map<int, Observation>
    var drafts: map<int, Draft>
    var rules: map<int, Rule>

    function Now(): Tables
      reads this
    {
      Tables(observations, drafts, rules)
    }

    constructor ()
      ensures Now() == EMPTY
    {
      observations, drafts, rules := map[], map[], map[];
    }

    /** The next free row identifier. */
    static method NextId(used: set<int>) returns (id: int)
      ensures id >= 1 && id !in used
    {
      id := 1;
      var todo := used;
      while todo != {}
        invariant id >= 1
        invariant forall k :: k in used && k !in todo ==> k < id
        decreases |todo|
      {
        Inhabited(todo);
        var k :| k in todo;
        if k >= id { id := k + 1; }
        todo := todo - {k};
      }
    }

    method FindDraft(failure: string, correction: string) returns (r: Outcome)
      ensures r.Committed? ==> r.id in drafts && Holds(drafts[r.id], failure, correction)
      ensures r.Failed? ==> !HasPair(drafts, failure, correction)
    {
      var todo := drafts.Keys;
      while todo != {}
        invariant todo <= drafts.Keys
        invariant forall id :: id in drafts && id !in todo ==> !Holds(drafts[id], failure, correction)
        decreases |todo|
      {
        Inhabited(todo);
        var id :| id in todo;
        if Holds(drafts[id], failure, correction) { return Committed(id); }
        todo := todo - {id};
      }
      r := Failed;
    }

    method RecordObservation(observation: Observation) returns (r: Outcome)
      modifies this
      ensures r.Failed? ==> Now() == old(Now())
      ensures r.Failed? <==> observation.session == "" || observation.failed == "" || observation.corrected == ""
      ensures r.Committed? ==> Commits(old(Now()), Observe(r.id, observation))
                               && Now() == Apply(old(Now()), Observe(r.id, observation))
    {
      if observation.session == "" || observation.failed == "" || observation.corrected == "" { return Failed; }
      var id := NextId(observations.Keys);
      observations := observations[id := observation];
      r := Committed(id);
    }

    /** An observation first, in a statement of its own, and then the draft. */
    method RecordLearningPair(observation: Observation) returns (r: Outcome)
      modifies this
      ensures r.Failed? <==> observation.session == "" || observation.failed == "" || observation.corrected == ""
      ensures r.Failed? ==> Now() == old(Now())
      ensures r.Committed? ==>
                exists id :: Commits(old(Now()), Observe(id, observation))
                  && var step := Record(r.id, observation.failed, observation.corrected, observation.created);
                     Commits(Apply(old(Now()), Observe(id, observation)), step)
                     && Now() == Apply(Apply(old(Now()), Observe(id, observation)), step)
    {
      var observed := RecordObservation(observation);
      if observed.Failed? { return Failed; }
      r := UpsertDraft(observation);
    }

    /** The transaction of `RecordLearningPair`. */
    method UpsertDraft(observation: Observation) returns (r: Outcome)
      modifies this`drafts
      ensures r.Committed?
      ensures var step := Record(r.id, observation.failed, observation.corrected, observation.created);
              Commits(old(Now()), step) && Now() == Apply(old(Now()), step)
    {
      var found := FindDraft(observation.failed, observation.corrected);
      if found.Committed? {
        var draft := drafts[found.id];
        drafts := drafts[found.id := draft.(count := draft.count + 1, updated := observation.created)];
        return found;
      }
      var id := NextId(drafts.Keys);
      var draft := Draft(observation.failed, observation.corrected, 1, observation.created, observation.created);
      drafts := drafts[id := draft];
      r := Committed(id);
    }

    method ActivateDraft(draft: int, action: string, now: int) returns (r: Outcome)
      modifies this`rules
      ensures r.Failed? ==> Now() == old(Now())
      ensures r.Failed? <==>
                || !ValidAction(action) || draft < 1 || draft !in drafts
                || drafts[draft].count < DRAFT_EVIDENCE_THRESHOLD
      ensures r.Committed? ==> Commits(old(Now()), Activate(r.id, draft, action, now))
                               && Now() == Apply(old(Now()), Activate(r.id, draft, action, now))
    {
      if !ValidAction(action) || draft < 1 || draft !in drafts { return Failed; }
      if drafts[draft].count < DRAFT_EVIDENCE_THRESHOLD { return Failed; }
      var todo := rules.Keys;
      while todo != {}
        invariant todo <= rules.Keys && rules == old(rules)
        invariant forall id :: id in rules && id !in todo ==> rules[id].draft != draft
        decreases |todo|
      {
        Inhabited(todo);
        var id :| id in todo;
        if rules[id].draft == draft {
          rules := rules[id := rules[id].(action := action, enabled := true, updated := now)];
          return Committed(id);
        }
        todo := todo - {id};
      }
      var id := NextId(rules.Keys);
      rules := rules[id := Rule(draft, action, true, now, now)];
      r := Committed(id);
    }

    method UpdateDraft(draft: int, failure: string, correction: string, now: int) returns (r: Outcome)
      modifies this`drafts
      ensures r.Failed? ==> Now() == old(Now())
      ensures r.Committed? <==> Commits(old(Now()), Edit(draft, failure, correction, now))
      ensures r.Committed? ==> Now() == Apply(old(Now()), Edit(draft, failure, correction, now))
    {
      if draft < 1 || failure == "" || correction == "" || draft !in drafts { return Failed; }
      var todo := drafts.Keys - {draft};
      while todo != {}
        invariant todo <= drafts.Keys - {draft} && drafts == old(drafts)
        invariant forall id :: id in drafts && id != draft && id !in todo ==> !Holds(drafts[id], failure, correction)
        decreases |todo|
      {
        Inhabited(todo);
        var id :| id in todo;
        assert id in drafts - {draft} && (drafts - {draft})[id] == drafts[id];
        if Holds(drafts[id], failure, correction) { return Failed; }
        todo := todo - {id};
      }
      drafts := drafts[draft := drafts[draft].(failure := failure, correction := correction, updated := now)];
      r := Committed(draft);
    }

    method SetRuleAction(rule: int, action: string, now: int) returns (r: Outcome)
      modifies this`rules
      ensures r.Failed? ==> Now() == old(Now())
      ensures r.Committed? <==> Commits(old(Now()), SetAction(rule, action, now))
      ensures r.Committed? ==> Now() == Apply(old(Now()), SetAction(rule, action, now))
    {
      if rule < 1 || !ValidAction(action) || rule !in rules { return Failed; }
      rules := rules[rule := rules[rule].(action := action, updated := now)];
      r := Committed(rule);
    }

    method SetRuleEnabled(rule: int, enabled: bool, now: int) returns (r: Outcome)
      modifies this`rules
      ensures r.Failed? ==> Now() == old(Now())
      ensures r.Committed? <==> Commits(old(Now()), SetEnabled(rule, enabled, now))
      ensures r.Committed? ==> Now() == Apply(old(Now()), SetEnabled(rule, enabled, now))
    {
      if rule < 1 || rule !in rules { return Failed; }
      rules := rules[rule := rules[rule].(enabled := enabled, updated := now)];
      r := Committed(rule);
    }

    method DeleteRule(rule: int) returns (r: Outcome)
      modifies this`rules
      ensures r.Failed? ==> Now() == old(Now())
      ensures r.Committed? <==> Commits(old(Now()), Delete(rule))
      ensures r.Committed? ==> Now() == Apply(old(Now()), Delete(rule))
    {
      if rule < 1 || rule !in rules { return Failed; }
      rules := rules - {rule};
      r := Committed(rule);
    }

    method DeleteObservationsBefore(cutoff: int) returns (deleted: nat)
      modifies this`observations
      ensures Now() == Apply(old(Now()), Forget(cutoff))
      ensures deleted == |old(observations)| - |observations|
    {
      var kept := map id | id in observations && observations[id].created >= cutoff :: observations[id];
      assert kept.Keys <= observations.Keys;
      SubsetSize(kept.Keys, observations.Keys);
      deleted := |observations| - |kept|;
      observations := kept;
    }

    method ListActiveRules() returns (listed: seq<LearnedRule>)
      ensures ListsActive(Now(), listed)
    {
      listed := [];
      var todo := rules.Keys;
      while todo != {}
        invariant todo <= rules.Keys && ById(listed)
        invariant forall r :: r in listed <==> Active(Now(), r) && r.id !in todo
        decreases |todo|
      {
        Inhabited(todo);
        var id :| id in todo;
        todo := todo - {id};
        if rules[id].enabled && rules[id].draft in drafts {
          assert forall i :: 0 <= i < |listed| ==> listed[i] in listed;
          listed := InsertRule(listed, Joined(Now(), id));
        }
      }
    }

    method PurgeLearning()
      modifies this
      ensures Now() == Apply(old(Now()), Purge)
    {
      rules := map[];
      drafts := map[];
      observations := map[];
    }
  }

  lemma Inhabited(ids: set<int>)
    ensures ids == {} || exists id :: id in ids
  {
    assert (forall id :: id !in ids) ==> ids == {};
  }

  lemma SubsetSize(a: set<int>, b: set<int>)
    requires a <= b
    ensures |a| <= |b|
  {
    assert b == a + (b - a);
  }
}
