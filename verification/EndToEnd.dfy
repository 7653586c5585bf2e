/** Shells, daemon and store together: what an evidence count means to a user. */
module EndToEnd {
  import D = Daemon
  import opened Z = ZshAdapter
  import E = Evidence
  import Store = LearningStore

  /** Any number of zsh shells, told apart by their session, and one daemon with its store. */
  datatype World = World(daemon: D.State, shells: map<string, Adapter>)

  const START := World(D.INITIAL, map[])

  /** A shell starts or moves, or the daemon takes a step of its own.  A request that a shell sends
      becomes daemon thread `id`; the shell does not wait for it. */
  datatype Event = Open(session: string) | Shell(session: string, move: Move, id: nat) | Daemon(action: D.Action)

  ghost predicate Enabled(w: World, e: Event) {
    match e
    case Open(session) => session !in w.shells && '\0' !in session
    case Shell(session, move, id) =>
      && session in w.shells && Possible(w.shells[session], move)
      && var sent := Step(session, w.shells[session], move).sent;
         sent == [] || (id !in w.daemon.threads && D.ValidRequest(sent[0]))
    case Daemon(action) => !action.Arrive? && !E.EditsDraft(action) && D.Enabled(w.daemon, action)
  }

  ghost function Perform(setup: D.Setup, w: World, e: Event): World
    requires Enabled(w, e)
  {
    match e
    case Open(session) => w.(shells := w.shells[session := FRESH])
    case Shell(session, move, id) =>
      var Result(next, sent) := Step(session, w.shells[session], move);
      var moved := w.(shells := w.shells[session := next]);
      if sent == [] then moved else moved.(daemon := D.Perform(setup, w.daemon, D.Arrive(id, sent[0])))
    case Daemon(action) => w.(daemon := D.Perform(setup, w.daemon, action))
  }

  function Front(events: seq<Event>): seq<Event>
    requires events != []
  {
    events[..|events| - 1]
  }

  function Last(events: seq<Event>): Event
    requires events != []
  {
    events[|events| - 1]
  }

  ghost predicate IsRun(setup: D.Setup, events: seq<Event>)
    decreases |events|, 0
  {
    events == [] || (IsRun(setup, Front(events)) && Enabled(Reached(setup, Front(events)), Last(events)))
  }

  ghost function Reached(setup: D.Setup, events: seq<Event>): World
    requires IsRun(setup, events)
    decreases |events|, 1
  {
    if events == [] then START else Perform(setup, Reached(setup, Front(events)), Last(events))
  }

  // ----------------------------------------------------------------------- honesty

  /** Every request in flight is honest, and so is everything the daemon has noted and paired. */
  ghost predicate AllHonest(d: D.State) {
    && (forall id :: id in d.threads ==> Honest(d.threads[id].req))
    && (forall i :: 0 <= i < |d.log| && d.log[i].FailureNoted? ==> d.log[i].token != "none")
    && (forall i :: 0 <= i < |d.log| && d.log[i].FailurePaired? && d.log[i].automatic ==> d.log[i].token == "none")
  }

  lemma Reported(setup: D.Setup, d: D.State, a: D.Action)
    requires D.Enabled(d, a)
    ensures var d' := D.Perform(setup, d, a);
            d'.log == d.log
            || (d'.log == d.log + [d'.log[|d.log|]]
                && (d'.log[|d.log|].FailureNoted? ==>
                      && a.Note? && d.threads[a.id].req.op.PostFailure?
                      && d'.log[|d.log|].token == d.threads[a.id].req.token)
                && (d'.log[|d.log|].FailurePaired? ==>
                      && a.Pair? && d.threads[a.id].req.op.PostSuccess?
                      && d'.log[|d.log|].token == d.threads[a.id].req.token
                      && d'.log[|d.log|].automatic == d.threads[a.id].req.automatic))
  {
  }

  lemma HonestKept(setup: D.Setup, d: D.State, a: D.Action)
    requires AllHonest(d) && D.Enabled(d, a) && (a.Arrive? ==> Honest(a.req))
    ensures AllHonest(D.Perform(setup, d, a))
  {
    var d' := D.Perform(setup, d, a);
    Reported(setup, d, a);
    forall id | id in d'.threads
      ensures Honest(d'.threads[id].req)
    {
      SameRequest(setup, d, a, id);
    }
  }

  lemma SameRequest(setup: D.Setup, d: D.State, a: D.Action, id: nat)
    requires D.Enabled(d, a) && id in D.Perform(setup, d, a).threads
    ensures var r := D.Perform(setup, d, a).threads[id].req;
            (id in d.threads && r == d.threads[id].req) || (a.Arrive? && a.id == id && a.req == r)
  {
  }

  // --------------------------------------------------------------------- the invariant

  ghost predicate Inv(w: World) {
    E.Inv(w.daemon) && AllHonest(w.daemon) && forall s :: s in w.shells ==> Valid(w.shells[s])
  }

  lemma InitialInv()
    ensures Inv(START)
  {
  }

  lemma StepKeepsInv(setup: D.Setup, w: World, e: Event)
    requires Inv(w) && Enabled(w, e)
    ensures Inv(Perform(setup, w, e))
  {
    match e
    case Open(_) =>
    case Shell(session, move, id) =>
      StepKeepsValid(session, w.shells[session], move);
      var sent := Step(session, w.shells[session], move).sent;
      if sent != [] {
        assert sent[0] in sent;
        var a := D.Arrive(id, sent[0]);
        E.StepKeepsInv(setup, w.daemon, a);
        HonestKept(setup, w.daemon, a);
      }
    case Daemon(action) =>
      E.StepKeepsInv(setup, w.daemon, action);
      HonestKept(setup, w.daemon, action);
  }

  lemma {:induction false} RunKeepsInv(setup: D.Setup, events: seq<Event>)
    requires IsRun(setup, events)
    ensures Inv(Reached(setup, events))
    decreases |events|
  {
    if events == [] {
      InitialInv();
    } else {
      RunKeepsInv(setup, Front(events));
      StepKeepsInv(setup, Reached(setup, Front(events)), Last(events));
    }
  }

  // ------------------------------------------------------------------------ main theorems

  /** In every run of shells, daemon and store without draft edits, a draft for (f, c) with count n is
      backed by n distinct failures of f, each followed by its own success of c in the same session
      and with the same token, at most five minutes later, with f different from c; and none of these
      successes is that of an automatically rewritten command. */
  lemma EvidenceIsBacked(setup: D.Setup, events: seq<Event>, id: int)
    returns (failures: seq<nat>, successes: seq<nat>)
    requires IsRun(setup, events) && id in Reached(setup, events).daemon.store.drafts
    ensures var d := Reached(setup, events).daemon;
            var draft := d.store.drafts[id];
            && |failures| == |successes| == draft.count
            && E.Distinct(failures) && E.Distinct(successes)
            && (forall x :: 0 <= x < draft.count ==>
                  && E.Backs(d.log, failures[x], successes[x], draft.failure, draft.correction)
                  && !d.log[successes[x]].automatic)
  {
    RunKeepsInv(setup, events);
    failures, successes := E.DraftIsBacked(Reached(setup, events).daemon, id);
  }

  /** Hence a learned rule, whatever its action, rests on at least three such corrections. */
  lemma LearnedRuleIsBacked(setup: D.Setup, events: seq<Event>, rule: int)
    returns (failures: seq<nat>, successes: seq<nat>)
    requires IsRun(setup, events) && rule in Reached(setup, events).daemon.store.rules
    ensures var d := Reached(setup, events).daemon;
            && d.store.rules[rule].draft in d.store.drafts
            && var draft := d.store.drafts[d.store.rules[rule].draft];
               && |failures| == |successes| >= 3
               && E.Distinct(failures) && E.Distinct(successes)
               && (forall x :: 0 <= x < |failures| ==>
                     && E.Backs(d.log, failures[x], successes[x], draft.failure, draft.correction)
                     && !d.log[successes[x]].automatic)
  {
    RunKeepsInv(setup, events);
    var d := Reached(setup, events).daemon;
    assert Store.Grounded(d.store.drafts, d.store.rules[rule]);
    failures, successes := EvidenceIsBacked(setup, events, d.store.rules[rule].draft);
  }
}
