/** Confirmations are conserved: whatever the interleaving, each `submit`
    answer uses up one stored confirmation of its own. */
module Confirmations {
  import opened Options
  import opened SessionTables
  import opened Daemon

  /** The index of the last confirmation stored for the session before position `n`, or -1. */
  function LastStored(log: seq<Event>, session: string, n: nat): (k: int)
    requires n <= |log|
    ensures -1 <= k < n
    ensures k >= 0 ==> log[k].ConfirmationStored? && log[k].session == session
    ensures forall i :: k < i < n && log[i].ConfirmationStored? ==> log[i].session != session
  {
    if n == 0 then -1
    else if log[n - 1].ConfirmationStored? && log[n - 1].session == session then n - 1
    else LastStored(log, session, n - 1)
  }

  lemma {:induction false} LastStoredStable(log: seq<Event>, log': seq<Event>, session: string, n: nat)
    requires n <= |log| && log <= log'
    ensures LastStored(log', session, n) == LastStored(log, session, n)
    decreases n
  {
    if n > 0 { LastStoredStable(log, log', session, n - 1); }
  }

  /** No submit for the session strictly between two positions. */
  ghost predicate NoSubmitBetween(log: seq<Event>, session: string, lo: int, hi: int) {
    forall i :: lo < i < hi && 0 <= i < |log| && log[i].Submitted? ==> log[i].session != session
  }

  /** The submit at position `i` uses the confirmation stored at position `k`. */
  ghost predicate Uses(log: seq<Event>, i: int, k: int) {
    && 0 <= k < i < |log| && log[i].Submitted? && log[k].ConfirmationStored?
    && log[k].session == log[i].session && log[k].command == log[i].command
    && log[k].at <= log[i].at < log[k].at + CONFIRMATION_WINDOW
    && (log[i].given.Some? ==> log[i].given.value == log[k].token)
    && NoSubmitBetween(log, log[i].session, k, i)
  }

  /** A live confirmation is the last one stored for its session and has not been used. */
  ghost predicate Live(log: seq<Event>, clock: int, session: string, c: Confirmation) {
    var k := LastStored(log, session, |log|);
    && k >= 0 && log[k] == ConfirmationStored(session, c.command, c.token, c.expires - CONFIRMATION_WINDOW)
    && log[k].at <= clock
    && NoSubmitBetween(log, session, k, |log|)
  }

  ghost predicate AllLive(log: seq<Event>, clock: int, confirmations: map<string, Confirmation>) {
    forall s :: s in confirmations ==> Live(log, clock, s, confirmations[s])
  }

  ghost predicate AllBacked(log: seq<Event>) {
    forall i :: 0 <= i < |log| && log[i].Submitted? ==> Uses(log, i, LastStored(log, log[i].session, i))
  }

  ghost predicate HasSubmit(log: seq<Event>, id: nat, req: Request) {
    exists i :: 0 <= i < |log| && log[i].Submitted? && log[i].id == id
      && log[i].session == req.session && log[i].command == req.command
      && (req.op.Confirm? ==> log[i].given == Some(req.token))
  }

  /** Every answered submit shows up in the history under its own request. */
  ghost predicate SubmitsLogged(log: seq<Event>, threads: map<nat, Thread>) {
    forall id :: id in threads && threads[id].Done? && threads[id].response.action == "submit"
      ==> HasSubmit(log, id, threads[id].req)
  }

  ghost predicate OpsFit(threads: map<nat, Thread>) {
    forall id :: id in threads && (threads[id].Confirming? || threads[id].Asking? || threads[id].Storing?)
      ==> threads[id].req.op.PreSend?
  }

  ghost predicate Inv(d: State) {
    && AllLive(d.log, d.clock, d.tables.confirmations) && AllBacked(d.log)
    && SubmitsLogged(d.log, d.threads) && OpsFit(d.threads)
  }

  // ------------------------------------------------------------------ extending the log

  lemma BackedAppend(log: seq<Event>, e: Event)
    requires AllBacked(log)
    requires e.Submitted? ==> Uses(log + [e], |log|, LastStored(log, e.session, |log|))
    ensures AllBacked(log + [e])
  {
    var log' := log + [e];
    forall i | 0 <= i < |log'| && log'[i].Submitted?
      ensures Uses(log', i, LastStored(log', log'[i].session, i))
    {
      LastStoredStable(log, log', log'[i].session, i);
      if i < |log| { assert Uses(log, i, LastStored(log, log[i].session, i)); }
    }
  }

  /** An event that neither stores nor uses a confirmation of the session leaves it live. */
  lemma LiveAppend(log: seq<Event>, clock: int, session: string, c: Confirmation, e: Event)
    requires Live(log, clock, session, c)
    requires e.ConfirmationStored? || e.Submitted? ==> e.session != session
    ensures Live(log + [e], clock, session, c)
  {
    LastStoredStable(log, log + [e], session, |log|);
  }

  lemma NewlyLive(log: seq<Event>, clock: int, session: string, command: string, token: string)
    ensures Live(log + [ConfirmationStored(session, command, token, clock)], clock, session,
                 Confirmation(command, token, clock + CONFIRMATION_WINDOW))
  {
  }

  lemma SubmitUses(log: seq<Event>, clock: int, session: string, c: Confirmation, e: Event)
    requires Live(log, clock, session, c)
    requires e.Submitted? && e.session == session && e.command == c.command && e.at == clock && clock < c.expires
    requires e.given.Some? ==> e.given.value == c.token
    ensures Uses(log + [e], |log|, LastStored(log, session, |log|))
  {
  }

  lemma LoggedAppend(log: seq<Event>, threads: map<nat, Thread>, e: Event)
    requires SubmitsLogged(log, threads)
    ensures SubmitsLogged(log + [e], threads)
  {
    forall id | id in threads && threads[id].Done? && threads[id].response.action == "submit"
      ensures HasSubmit(log + [e], id, threads[id].req)
    {
      var i :| 0 <= i < |log| && log[i].Submitted? && log[i].id == id && log[i].session == threads[id].req.session
               && log[i].command == threads[id].req.command
               && (threads[id].req.op.Confirm? ==> log[i].given == Some(threads[id].req.token));
      assert (log + [e])[i] == log[i];
    }
  }

  // ---------------------------------------------------------------------------- steps

  lemma TableStep(d: State, d': State, e: Event)
    requires Inv(d) && d'.log == d.log + [e] && d'.clock == d.clock
    requires !e.ConfirmationStored? && !e.Submitted?
    requires d'.tables.confirmations == d.tables.confirmations
    requires SubmitsLogged(d.log, d'.threads) && OpsFit(d'.threads)
    ensures Inv(d')
  {
    BackedAppend(d.log, e);
    LoggedAppend(d.log, d'.threads, e);
    forall s | s in d.tables.confirmations
      ensures Live(d'.log, d.clock, s, d.tables.confirmations[s])
    {
      LiveAppend(d.log, d.clock, s, d.tables.confirmations[s], e);
    }
  }

  lemma SubmitStep(d: State, d': State, id: nat, session: string, e: Event)
    requires Inv(d) && id in d.threads && session in d.tables.confirmations
    requires d'.log == d.log + [e] && d'.clock == d.clock
    requires d'.threads == d.threads[id := Done(d.threads[id].req, Plain("submit"))]
    requires e.Submitted? && e.id == id && e.session == session == d.threads[id].req.session && e.at == d.clock
    requires e.command == d.threads[id].req.command == d.tables.confirmations[session].command
    requires d.clock < d.tables.confirmations[session].expires
    requires e.given.Some? ==> e.given.value == d.tables.confirmations[session].token
    requires d.threads[id].req.op.Confirm? ==> e.given == Some(d.threads[id].req.token)
    requires d'.tables.confirmations == d.tables.confirmations - {session}
    ensures Inv(d')
  {
    SubmitUses(d.log, d.clock, session, d.tables.confirmations[session], e);
    BackedAppend(d.log, e);
    LoggedAppend(d.log, d.threads, e);
    assert d'.log[|d.log|] == e;
    assert HasSubmit(d'.log, id, d.threads[id].req);
    forall s | s in d'.tables.confirmations
      ensures Live(d'.log, d.clock, s, d'.tables.confirmations[s])
    {
      LiveAppend(d.log, d.clock, s, d.tables.confirmations[s], e);
    }
  }

  lemma StoreStep(d: State, id: nat)
    requires Inv(d) && id in d.threads && d.threads[id].Storing?
    ensures Inv(AfterSaveConfirmation(d, id))
  {
    var d' := AfterSaveConfirmation(d, id);
    var req, token := d.threads[id].req, d.threads[id].token;
    var e := ConfirmationStored(req.session, req.command, token, d.clock);
    BackedAppend(d.log, e);
    LoggedAppend(d.log, d.threads, e);
    forall s | s in d'.tables.confirmations
      ensures Live(d'.log, d.clock, s, d'.tables.confirmations[s])
    {
      if s == req.session {
        NewlyLive(d.log, d.clock, s, req.command, token);
      } else {
        LiveAppend(d.log, d.clock, s, d.tables.confirmations[s], e);
      }
    }
  }

  /** A step that reports nothing and adds no confirmation. */
  lemma QuietStep(d: State, d': State)
    requires Inv(d) && d'.log == d.log && d.clock <= d'.clock
    requires forall s :: s in d'.tables.confirmations
               ==> s in d.tables.confirmations && d'.tables.confirmations[s] == d.tables.confirmations[s]
    requires SubmitsLogged(d.log, d'.threads) && OpsFit(d'.threads)
    ensures Inv(d')
  {
    forall s | s in d'.tables.confirmations
      ensures Live(d'.log, d'.clock, s, d'.tables.confirmations[s])
    {
      assert Live(d.log, d.clock, s, d.tables.confirmations[s]);
    }
  }

  lemma ThreadMoves(d: State, id: nat, t: Thread)
    requires Inv(d)
    requires t.Done? ==> t.response.action != "submit"
    requires t.Confirming? || t.Asking? || t.Storing? ==> t.req.op.PreSend?
    ensures SubmitsLogged(d.log, d.threads[id := t]) && OpsFit(d.threads[id := t])
  {
  }

  predicate TouchesConfirmations(a: Action) { a.SaveConfirmation? || a.TryConfirmation? || a.TakeConfirmation? }

  /** The thread a step moves, and where to. */
  lemma OneThreadMoves(setup: Setup, d: State, a: Action)
    requires Inv(d) && Enabled(d, a) && !TouchesConfirmations(a)
    ensures SubmitsLogged(d.log, Perform(setup, d, a).threads) && OpsFit(Perform(setup, d, a).threads)
  {
    var d' := Perform(setup, d, a);
    if MovesThread(a) {
      OnlyThatThread(setup, d, a);
      ThreadMoves(d, a.id, d'.threads[a.id]);
    }
  }

  lemma OtherStepsFrame(setup: Setup, d: State, a: Action)
    requires Enabled(d, a) && !TouchesConfirmations(a)
    ensures var d' := Perform(setup, d, a);
            && d.clock <= d'.clock
            && (d'.tables.confirmations == d.tables.confirmations || d'.tables == EMPTY)
            && (d'.log == d.log
                || (d'.log == d.log + [d'.log[|d.log|]] && d'.clock == d.clock
                    && d'.tables.confirmations == d.tables.confirmations
                    && !d'.log[|d.log|].ConfirmationStored? && !d'.log[|d.log|].Submitted?))
  {
  }

  lemma StepKeepsInv(setup: Setup, d: State, a: Action)
    requires Inv(d) && Enabled(d, a)
    ensures Inv(Perform(setup, d, a))
  {
    var d' := Perform(setup, d, a);
    if !TouchesConfirmations(a) {
      OneThreadMoves(setup, d, a);
      OtherStepsFrame(setup, d, a);
      if d'.log == d.log { QuietStep(d, d'); } else { TableStep(d, d', d'.log[|d.log|]); }
    } else if a.SaveConfirmation? {
      StoreStep(d, a.id);
    } else {
      ConfirmationStep(d, a);
    }
  }

  lemma ConfirmationStep(d: State, a: Action)
    requires Inv(d) && Enabled(d, a) && (a.TryConfirmation? || a.TakeConfirmation?)
    ensures Inv(if a.TryConfirmation? then AfterTryConfirmation(d, a.id) else AfterTakeConfirmation(d, a.id))
  {
    var id, req := a.id, d.threads[a.id].req;
    if a.TryConfirmation? {
      var d' := AfterTryConfirmation(d, id);
      if ConsumeConfirmation(d.tables, req.session, req.command, d.clock).1 {
        SubmitStep(d, d', id, req.session, Submitted(id, req.session, req.command, None, d.clock));
      } else {
        ThreadMoves(d, id, Asking(req));
        QuietStep(d, d');
      }
    } else {
      var d' := AfterTakeConfirmation(d, id);
      if ConsumeConfirmationToken(d.tables, req.session, req.command, req.token, d.clock).1 {
        SubmitStep(d, d', id, req.session, Submitted(id, req.session, req.command, Some(req.token), d.clock));
      } else {
        ThreadMoves(d, id, Done(req, Plain("none")));
        QuietStep(d, d');
      }
    }
  }

  lemma {:induction false} RunKeepsInv(setup: Setup, actions: seq<Action>)
    requires IsRun(setup, actions)
    ensures Inv(Reached(setup, actions))
    decreases |actions|
  {
    if actions != [] {
      RunKeepsInv(setup, Front(actions));
      StepKeepsInv(setup, Reached(setup, Front(actions)), Last(actions));
    }
  }

  // ------------------------------------------------------------------------- main theorem

  /** Request `id` was answered with the submit at position `i`, which uses the confirmation at `k`. */
  ghost predicate BackedBy(d: State, id: nat, i: int, k: int) {
    && id in d.threads && 0 <= i < |d.log| && Uses(d.log, i, k) && d.log[i].id == id
    && d.log[k].session == d.threads[id].req.session && d.log[k].command == d.threads[id].req.command
    && (d.threads[id].req.op.Confirm? ==> d.log[k].token == d.threads[id].req.token)
  }

  predicate AnsweredSubmit(d: State, id: nat) {
    id in d.threads && d.threads[id].Done? && d.threads[id].response.action == "submit"
  }

  /** In every run each request answered with `submit` is backed by a confirmation stored earlier for
      the same session and exact command, less than five seconds before; a Confirm request also
      brought that confirmation's token; and no two requests are backed by the same confirmation. */
  lemma SubmitsAreBacked(setup: Setup, actions: seq<Action>)
    requires IsRun(setup, actions)
    ensures var d := Reached(setup, actions);
            && (forall id :: AnsweredSubmit(d, id) ==> exists i, k :: BackedBy(d, id, i, k))
            && (forall id, i, id', i', k :: BackedBy(d, id, i, k) && BackedBy(d, id', i', k) ==> id == id')
  {
    RunKeepsInv(setup, actions);
    var d := Reached(setup, actions);
    forall id | AnsweredSubmit(d, id)
      ensures exists i, k :: BackedBy(d, id, i, k)
    {
      var req := d.threads[id].req;
      assert HasSubmit(d.log, id, req);
      var i :| 0 <= i < |d.log| && d.log[i].Submitted? && d.log[i].id == id && d.log[i].session == req.session
               && d.log[i].command == req.command && (req.op.Confirm? ==> d.log[i].given == Some(req.token));
      assert BackedBy(d, id, i, LastStored(d.log, d.log[i].session, i));
    }
    forall id, i, id', i', k | BackedBy(d, id, i, k) && BackedBy(d, id', i', k)
      ensures id == id'
    {
      assert NoSubmitBetween(d.log, d.log[i].session, k, i) && NoSubmitBetween(d.log, d.log[i'].session, k, i');
      assert i == i';
    }
  }
}
