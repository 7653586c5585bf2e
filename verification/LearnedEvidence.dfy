/** A learned repair, from the user's corrections to the response. */
module LearnedEvidence {
  import opened Policy
  import Store = LearningStore
  import D = Daemon
  import E = Evidence
  import EndToEnd

  /** If the daemon loaded its rules from the store of any run without draft edits, then every response
      that follows a learned rule suggests what at least three distinct successes of that run corrected
      this very command to: each after its own failure of the command in the same session and with the same
      token, within five minutes, and none the success of an automatic rewrite. */
  lemma LearnedResponseIsBacked(setup: D.Setup, events: seq<EndToEnd.Event>, site: Site, command: string,
                                response: Response, basis: Basis)
    returns (failures: seq<nat>, successes: seq<nat>)
    requires EndToEnd.IsRun(setup, events)
    requires Store.ListsActive(EndToEnd.Reached(setup, events).daemon.store, site.learned)
    requires LearnedPolicy(site, command, response, basis)
    ensures var log := EndToEnd.Reached(setup, events).daemon.log;
            && site.normalise(command).Some? && |failures| == |successes| >= 3
            && E.Distinct(failures) && E.Distinct(successes)
            && forall x :: 0 <= x < |failures| ==>
                 && E.Backs(log, failures[x], successes[x], site.normalise(command).value, response.suggestion)
                 && !log[successes[x]].automatic
  {
    var rule := site.learned[basis.index];
    assert rule in site.learned;
    failures, successes := EndToEnd.LearnedRuleIsBacked(setup, events, rule.id);
  }
}
