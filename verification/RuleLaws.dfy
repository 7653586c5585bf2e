/** Which learned rules are active: what each committed step makes of them, and how long one stays. */
module RuleLaws {
  import opened LearningStore

  /** Whether `r` is to be active after `step`, in terms of what was active before. */
  ghost predicate ToBeActive(t: Tables, step: Step, r: LearnedRule)
    requires Commits(t, step) && RulesGrounded(t)
  {
    match step
    case Activate(id, draft, action, _) =>
      if r.id == id then
        r == LearnedRule(id, draft, t.drafts[draft].failure, t.drafts[draft].correction, action, true)
      else Active(t, r)
    case SetAction(id, action, _) =>
      if r.id == id then r.action == action && Active(t, r.(action := t.rules[id].action)) else Active(t, r)
    case SetEnabled(id, enabled, _) =>
      if r.id == id then enabled && r == Joined(t, id).(enabled := true) else Active(t, r)
    case Delete(id) => r.id != id && Active(t, r)
    case Edit(id, failure, correction, _) =>
      if r.draft == id then
        && r.failure == failure && r.correction == correction
        && Active(t, r.(failure := t.drafts[id].failure, correction := t.drafts[id].correction))
      else Active(t, r)
    case Purge => false
    case _ => Active(t, r)
  }

  /** An activated draft is active with that action, however it stood before; a disabled or deleted rule is not
      active; editing a draft carries over to its rule; nothing else about any rule changes.  That rules rest on
      existing drafts is part of what every history keeps. */
  lemma ActiveRulesExactly(t: Tables, step: Step, r: LearnedRule)
    requires Commits(t, step) && RulesGrounded(t)
    ensures Active(Apply(t, step), r) <==> ToBeActive(t, step, r)
  {
  }

  // ----------------------------------------------------------------------------- over runs

  /** The step leaves rule `id` of draft `draft` alone. */
  predicate Spares(step: Step, id: int, draft: int) {
    match step
    case Activate(at, _, _, _) => at != id
    case SetAction(at, _, _) => at != id
    case SetEnabled(at, _, _) => at != id
    case Delete(at) => at != id
    case Edit(at, _, _, _) => at != draft
    case Purge => false
    case _ => true
  }

  ghost predicate CanGoOn(t: Tables, steps: seq<Step>)
    decreases |steps|
  {
    steps == [] || (Commits(t, steps[0]) && CanGoOn(Apply(t, steps[0]), steps[1..]))
  }

  ghost function GoOn(t: Tables, steps: seq<Step>): Tables
    requires CanGoOn(t, steps)
    decreases |steps|
  {
    if steps == [] then t else GoOn(Apply(t, steps[0]), steps[1..])
  }

  ghost predicate AllSpare(steps: seq<Step>, id: int, draft: int) {
    forall i :: 0 <= i < |steps| ==> Spares(steps[i], id, draft)
  }

  lemma {:induction false} ActiveLasts(t: Tables, steps: seq<Step>, r: LearnedRule)
    requires CanGoOn(t, steps) && RulesGrounded(t) && AllSpare(steps, r.id, r.draft)
    ensures Active(t, r) <==> Active(GoOn(t, steps), r)
    decreases |steps|
  {
    if steps != [] {
      ActiveRulesExactly(t, steps[0], r);
      StepKeepsGrounded(t, steps[0]);
      ActiveLasts(Apply(t, steps[0]), steps[1..], r);
    }
  }

  /** A draft that was activated is listed with its pair and the chosen action for as long as neither its rule nor
      its pair is changed, whatever else is recorded, activated or forgotten. */
  lemma ActivatedIsListed(t: Tables, id: int, draft: int, action: string, now: int, steps: seq<Step>,
                          listed: seq<LearnedRule>)
    requires RulesGrounded(t)
    requires var step := Activate(id, draft, action, now);
             Commits(t, step) && CanGoOn(Apply(t, step), steps) && AllSpare(steps, id, draft)
             && ListsActive(GoOn(Apply(t, step), steps), listed)
    ensures LearnedRule(id, draft, t.drafts[draft].failure, t.drafts[draft].correction, action, true) in listed
    ensures forall r :: r in listed && r.id == id && r.draft == draft ==> r.action == action && r.enabled
  {
    var step := Activate(id, draft, action, now);
    var rule := LearnedRule(id, draft, t.drafts[draft].failure, t.drafts[draft].correction, action, true);
    StepKeepsGrounded(t, step);
    ActiveRulesExactly(t, step, rule);
    ActiveLasts(Apply(t, step), steps, rule);
    forall r | r in listed && r.id == id && r.draft == draft
      ensures r.action == action && r.enabled
    {
      ActiveRulesExactly(t, step, r);
      ActiveLasts(Apply(t, step), steps, r);
    }
  }

  /** A rule that was disabled or deleted is not listed until it is activated, enabled or made again. */
  lemma RetiredIsNotListed(t: Tables, step: Step, steps: seq<Step>, listed: seq<LearnedRule>, r: LearnedRule)
    requires RulesGrounded(t) && (step.Delete? || (step.SetEnabled? && !step.enabled))
    requires Commits(t, step) && CanGoOn(Apply(t, step), steps) && AllSpare(steps, step.id, r.draft)
    requires ListsActive(GoOn(Apply(t, step), steps), listed) && r.id == step.id
    ensures r !in listed
  {
    StepKeepsGrounded(t, step);
    ActiveRulesExactly(t, step, r);
    ActiveLasts(Apply(t, step), steps, r);
  }
}
