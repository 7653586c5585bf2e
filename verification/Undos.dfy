/** Undo is a one-shot inverse of a rewrite, whatever the interleaving. */
module Undos {
  import opened SessionTables
  import opened Daemon

  /** The index of the last undo token of that name issued before position `n`, or -1. */
  function LastIssued(log: seq<Event>, token: string, n: nat): (k: int)
    requires n <= |log|
    ensures -1 <= k < n
    ensures k >= 0 ==> log[k].UndoStored? && log[k].token == token
  {
    if n == 0 then -1
    else if log[n - 1].UndoStored? && log[n - 1].token == token then n - 1
    else LastIssued(log, token, n - 1)
  }

  lemma {:induction false} LastIssuedStable(log: seq<Event>, log': seq<Event>, token: string, n: nat)
    requires n <= |log| && log <= log'
    ensures LastIssued(log', token, n) == LastIssued(log, token, n)
    decreases n
  {
    if n > 0 { LastIssuedStable(log, log', token, n - 1); }
  }

  /** `e` ends the life of an undo that `session` holds under `token`. */
  predicate Ends(e: Event, session: string, token: string) {
    || (e.UndoCleared? && e.session == session)
    || (e.UndoStored? && e.session == session)
    || (e.Undone? && e.token == token)
  }

  ghost predicate Undisturbed(log: seq<Event>, session: string, token: string, lo: int, hi: int) {
    forall i :: lo < i < hi && 0 <= i < |log| ==> !Ends(log[i], session, token)
  }

  /** The undo at position `i` gives back what the rewrite at position `k` replaced. */
  ghost predicate Restores(log: seq<Event>, ttl: int, i: int, k: int) {
    && 0 <= k < i < |log| && log[i].Undone? && log[k].UndoStored?
    && log[k].token == log[i].token && log[k].session == log[i].session && log[k].command == log[i].command
    && log[k].at <= log[i].at < log[k].at + ttl
    && Undisturbed(log, log[k].session, log[k].token, k, i)
  }

  ghost predicate Live(log: seq<Event>, clock: int, ttl: int, token: string, u: PendingUndo) {
    var k := LastIssued(log, token, |log|);
    && k >= 0 && log[k].session == u.session && log[k].command == u.command && log[k].at == u.expires - ttl
    && log[k].at <= clock
    && Undisturbed(log, u.session, token, k, |log|)
  }

  ghost predicate AllLive(log: seq<Event>, clock: int, ttl: int, undos: map<string, PendingUndo>) {
    forall token :: token in undos ==> Live(log, clock, ttl, token, undos[token])
  }

  ghost predicate AllRestore(log: seq<Event>, ttl: int) {
    forall i :: 0 <= i < |log| && log[i].Undone? ==> Restores(log, ttl, i, LastIssued(log, log[i].token, i))
  }

  ghost predicate OnePerSession(undos: map<string, PendingUndo>) {
    forall s, t :: s in undos && t in undos && undos[s].session == undos[t].session ==> s == t
  }

  predicate Waits(t: Thread) { t.Issuing? || t.Storing? }

  ghost predicate LogIssued(d: State) {
    forall i :: 0 <= i < |d.log| && d.log[i].UndoStored? ==> d.log[i].token in d.issued
  }

  ghost predicate LogDistinct(log: seq<Event>) {
    forall i, j :: 0 <= i < j < |log| && log[i].UndoStored? && log[j].UndoStored? ==> log[i].token != log[j].token
  }

  ghost predicate WaitersIssued(d: State) {
    forall id :: id in d.threads && Waits(d.threads[id]) ==> d.threads[id].token in d.issued
  }

  ghost predicate WaitersUnlogged(d: State) {
    forall id, i :: id in d.threads && d.threads[id].Issuing? && 0 <= i < |d.log| && d.log[i].UndoStored?
      ==> d.log[i].token != d.threads[id].token
  }

  ghost predicate WaitersDistinct(d: State) {
    forall id, id' ::
      id in d.threads && id' in d.threads && id != id' && d.threads[id].Issuing? && d.threads[id'].Issuing?
      ==> d.threads[id].token != d.threads[id'].token
  }

  /** Tokens waiting to be stored are new, and no two threads wait with the same one. */
  ghost predicate TokensFresh(d: State) {
    LogIssued(d) && LogDistinct(d.log) && WaitersIssued(d) && WaitersUnlogged(d) && WaitersDistinct(d)
  }

  ghost predicate IssuedBy(threads: map<nat, Thread>, e: Event)
    requires e.UndoStored?
  {
    && e.id in threads && threads[e.id].Done? && threads[e.id].response.action == "rewrite"
    && threads[e.id].response.undoToken == e.token
    && threads[e.id].req.session == e.session && threads[e.id].req.command == e.command
  }

  ghost predicate AllIssued(log: seq<Event>, threads: map<nat, Thread>) {
    forall i :: 0 <= i < |log| && log[i].UndoStored? ==> IssuedBy(threads, log[i])
  }

  predicate AnsweredUndo(threads: map<nat, Thread>, id: nat) {
    id in threads && threads[id].Done? && threads[id].response.action == "edit-in-buffer"
  }

  ghost predicate Answers(log: seq<Event>, i: int, t: Thread, id: nat)
    requires t.Done?
  {
    && 0 <= i < |log| && log[i].Undone? && log[i].id == id
    && log[i].token == t.req.token && log[i].session == t.req.session && log[i].command == t.response.suggestion
  }

  ghost predicate AnswersLogged(log: seq<Event>, threads: map<nat, Thread>) {
    forall id :: AnsweredUndo(threads, id) ==> exists i :: Answers(log, i, threads[id], id)
  }

  ghost predicate Inv(setup: Setup, d: State) {
    && AllLive(d.log, d.clock, setup.undoTtl, d.tables.undos)
    && AllRestore(d.log, setup.undoTtl)
    && OnePerSession(d.tables.undos)
    && TokensFresh(d)
    && AllIssued(d.log, d.threads)
    && AnswersLogged(d.log, d.threads)
  }

  // ----------------------------------------------------------- parts of the invariant

  lemma LiveAppend(log: seq<Event>, clock: int, ttl: int, token: string, u: PendingUndo, e: Event)
    requires Live(log, clock, ttl, token, u) && !Ends(e, u.session, token)
    requires e.UndoStored? ==> e.token != token
    ensures Live(log + [e], clock, ttl, token, u)
  {
    LastIssuedStable(log, log + [e], token, |log|);
  }

  lemma RestoreAppend(log: seq<Event>, ttl: int, e: Event)
    requires AllRestore(log, ttl)
    requires e.Undone? ==> Restores(log + [e], ttl, |log|, LastIssued(log, e.token, |log|))
    ensures AllRestore(log + [e], ttl)
  {
    var log' := log + [e];
    forall i | 0 <= i < |log'| && log'[i].Undone?
      ensures Restores(log', ttl, i, LastIssued(log', log'[i].token, i))
    {
      LastIssuedStable(log, log', log'[i].token, i);
      if i < |log| { assert Restores(log, ttl, i, LastIssued(log, log[i].token, i)); }
    }
  }

  lemma AnswersAppend(log: seq<Event>, threads: map<nat, Thread>, e: Event)
    requires AnswersLogged(log, threads)
    ensures AnswersLogged(log + [e], threads)
  {
    forall id | AnsweredUndo(threads, id)
      ensures exists i :: Answers(log + [e], i, threads[id], id)
    {
      var i :| Answers(log, i, threads[id], id);
      assert Answers(log + [e], i, threads[id], id);
    }
  }

  // ---------------------------------------------------------------------- table changes

  /** What every step does to the live undos: some go, at most one is added. */
  lemma UndosKept(setup: Setup, d: State, a: Action)
    requires Inv(setup, d) && Enabled(d, a) && !a.SaveUndo?
    ensures var d' := Perform(setup, d, a);
            AllLive(d'.log, d'.clock, setup.undoTtl, d'.tables.undos) && OnePerSession(d'.tables.undos)
  {
    var d' := Perform(setup, d, a);
    forall token | token in d'.tables.undos
      ensures token in d.tables.undos && d'.tables.undos[token] == d.tables.undos[token]
      ensures Live(d'.log, d'.clock, setup.undoTtl, token, d'.tables.undos[token])
    {
      UndoSurvives(setup, d, a, token);
    }
  }

  lemma UndoSurvives(setup: Setup, d: State, a: Action, token: string)
    requires Inv(setup, d) && Enabled(d, a) && !a.SaveUndo?
    requires token in Perform(setup, d, a).tables.undos
    ensures var d' := Perform(setup, d, a);
            && token in d.tables.undos && d'.tables.undos[token] == d.tables.undos[token]
            && Live(d'.log, d'.clock, setup.undoTtl, token, d'.tables.undos[token])
  {
    var d' := Perform(setup, d, a);
    UndoFrame(setup, d, a, token);
    assert Live(d.log, d.clock, setup.undoTtl, token, d.tables.undos[token]);
    if d'.log != d.log {
      LiveAppend(d.log, d.clock, setup.undoTtl, token, d.tables.undos[token], d'.log[|d.log|]);
    }
  }

  lemma UndoFrame(setup: Setup, d: State, a: Action, token: string)
    requires Enabled(d, a) && !a.SaveUndo? && token in Perform(setup, d, a).tables.undos
    ensures var d' := Perform(setup, d, a);
            && token in d.tables.undos && d'.tables.undos[token] == d.tables.undos[token]
            && d.clock <= d'.clock
            && (d'.log == d.log
                || (d'.log == d.log + [d'.log[|d.log|]] && d'.clock == d.clock
                    && !d'.log[|d.log|].UndoStored? && !Ends(d'.log[|d.log|], d.tables.undos[token].session, token)))
  {
    KeptUndo(setup, d, a, token);
    LogGrows(setup, d, a);
    if |Perform(setup, d, a).log| > |d.log| { NotEnded(setup, d, a, token); }
  }

  /** An undo that a step leaves in the table was there before. */
  lemma KeptUndo(setup: Setup, d: State, a: Action, token: string)
    requires Enabled(d, a) && !a.SaveUndo? && token in Perform(setup, d, a).tables.undos
    ensures var d' := Perform(setup, d, a);
            && token in d.tables.undos && d'.tables.undos[token] == d.tables.undos[token] && d.clock <= d'.clock
            && (|d'.log| > |d.log| ==> d'.clock == d.clock)
  {
  }

  /** And the step did not end it. */
  lemma NotEnded(setup: Setup, d: State, a: Action, token: string)
    requires Enabled(d, a) && token in Perform(setup, d, a).tables.undos && token in d.tables.undos
    requires Perform(setup, d, a).tables.undos[token] == d.tables.undos[token] && |Perform(setup, d, a).log| > |d.log|
    ensures a.SaveUndo? || !Ends(Perform(setup, d, a).log[|d.log|], d.tables.undos[token].session, token)
  {
  }

  lemma HistoryKept(setup: Setup, d: State, a: Action)
    requires Inv(setup, d) && Enabled(d, a)
    ensures AllRestore(Perform(setup, d, a).log, setup.undoTtl)
  {
    var d' := Perform(setup, d, a);
    LogGrows(setup, d, a);
    if d'.log != d.log {
      var e := d'.log[|d.log|];
      if e.Undone? {
        assert Live(d.log, d.clock, setup.undoTtl, e.token, d.tables.undos[e.token]);
      }
      RestoreAppend(d.log, setup.undoTtl, e);
    }
  }

  /** A step reports at most one event; an undo it reports was live for that session. */
  lemma LogGrows(setup: Setup, d: State, a: Action)
    requires Enabled(d, a)
    ensures var d' := Perform(setup, d, a);
            d'.log == d.log
            || (d'.log == d.log + [d'.log[|d.log|]]
                && (d'.log[|d.log|].UndoStored? ==> a.SaveUndo?)
                && (d'.log[|d.log|].Undone? ==>
                      && a.TakeUndo? && d'.log[|d.log|].token in d.tables.undos && d'.log[|d.log|].at == d.clock
                      && var u := d.tables.undos[d'.log[|d.log|].token];
                         u.session == d'.log[|d.log|].session && u.command == d'.log[|d.log|].command
                         && d.clock < u.expires))
  {
  }

  lemma AnswerOrigin(setup: Setup, d: State, a: Action, id: nat)
    requires Enabled(d, a) && AnsweredUndo(Perform(setup, d, a).threads, id)
    ensures var d' := Perform(setup, d, a);
            || (AnsweredUndo(d.threads, id) && d'.threads[id] == d.threads[id])
            || (a == TakeUndo(id) && Answers(d'.log, |d.log|, d'.threads[id], id))
  {
  }

  lemma AnswersKept(setup: Setup, d: State, a: Action)
    requires AnswersLogged(d.log, d.threads) && Enabled(d, a)
    ensures var d' := Perform(setup, d, a); AnswersLogged(d'.log, d'.threads)
  {
    var d' := Perform(setup, d, a);
    LogGrows(setup, d, a);
    if d'.log != d.log { AnswersAppend(d.log, d.threads, d'.log[|d.log|]); }
    assert AnswersLogged(d'.log, d.threads);
    forall id | AnsweredUndo(d'.threads, id)
      ensures exists i :: Answers(d'.log, i, d'.threads[id], id)
    {
      AnswerOrigin(setup, d, a, id);
    }
  }

  lemma IssuersKept(setup: Setup, d: State, a: Action)
    requires Inv(setup, d) && Enabled(d, a)
    ensures var d' := Perform(setup, d, a); AllIssued(d'.log, d'.threads)
  {
    var d' := Perform(setup, d, a);
    LogGrows(setup, d, a);
    forall i | 0 <= i < |d'.log| && d'.log[i].UndoStored?
      ensures IssuedBy(d'.threads, d'.log[i])
    {
      if i < |d.log| {
        assert IssuedBy(d.threads, d.log[i]);
        if MovesThread(a) { OnlyThatThread(setup, d, a); }
      }
    }
  }

  /** A thread waits with a token only if it did before or has just been given it. */
  lemma WaiterOrigin(setup: Setup, d: State, a: Action, id: nat)
    requires Enabled(d, a)
    requires id in Perform(setup, d, a).threads && Waits(Perform(setup, d, a).threads[id])
    ensures var t := Perform(setup, d, a).threads[id];
            || (id in d.threads && d.threads[id] == t && (a.SaveUndo? ==> a.id != id))
            || (a == NewToken(id, t.token) && t.token !in d.issued)
  {
  }

  lemma IssuedGrows(setup: Setup, d: State, a: Action)
    requires Enabled(d, a)
    ensures var d' := Perform(setup, d, a);
            d.issued <= d'.issued && (a.NewToken? ==> a.token in d'.issued)
  {
  }

  lemma LogTokensKept(setup: Setup, d: State, a: Action)
    requires TokensFresh(d) && Enabled(d, a)
    ensures var d' := Perform(setup, d, a); LogIssued(d') && LogDistinct(d'.log)
  {
    LogGrows(setup, d, a);
    IssuedGrows(setup, d, a);
  }

  lemma WaitersKept(setup: Setup, d: State, a: Action)
    requires TokensFresh(d) && Enabled(d, a)
    ensures var d' := Perform(setup, d, a); WaitersIssued(d') && WaitersDistinct(d')
  {
    var d' := Perform(setup, d, a);
    IssuedGrows(setup, d, a);
    forall id | id in d'.threads && Waits(d'.threads[id])
      ensures d'.threads[id].token in d'.issued
    {
      WaiterOrigin(setup, d, a, id);
    }
    forall id, id' | id in d'.threads && id' in d'.threads && id != id'
      && d'.threads[id].Issuing? && d'.threads[id'].Issuing?
      ensures d'.threads[id].token != d'.threads[id'].token
    {
      WaiterOrigin(setup, d, a, id);
      WaiterOrigin(setup, d, a, id');
    }
  }

  lemma UnloggedKept(setup: Setup, d: State, a: Action)
    requires TokensFresh(d) && Enabled(d, a)
    ensures WaitersUnlogged(Perform(setup, d, a))
  {
    var d' := Perform(setup, d, a);
    LogGrows(setup, d, a);
    forall id, i | id in d'.threads && d'.threads[id].Issuing? && 0 <= i < |d'.log| && d'.log[i].UndoStored?
      ensures d'.log[i].token != d'.threads[id].token
    {
      WaiterOrigin(setup, d, a, id);
      if i == |d.log| { assert d'.log[i].token == d.threads[a.id].token; }
    }
  }

  lemma SaveUndoKeeps(setup: Setup, d: State, id: nat)
    requires Inv(setup, d) && id in d.threads && d.threads[id].Issuing?
    ensures var d' := AfterSaveUndo(setup, d, id);
            AllLive(d'.log, d'.clock, setup.undoTtl, d'.tables.undos) && OnePerSession(d'.tables.undos)
  {
    var d' := AfterSaveUndo(setup, d, id);
    var req, token := d.threads[id].req, d.threads[id].token;
    var e := UndoStored(id, token, req.session, req.command, d.clock);
    forall t | t in d'.tables.undos
      ensures Live(d'.log, d'.clock, setup.undoTtl, t, d'.tables.undos[t])
    {
      if t != token {
        LiveAppend(d.log, d.clock, setup.undoTtl, t, d.tables.undos[t], e);
      }
    }
  }

  lemma StepKeepsInv(setup: Setup, d: State, a: Action)
    requires Inv(setup, d) && Enabled(d, a)
    ensures Inv(setup, Perform(setup, d, a))
  {
    if a.SaveUndo? { SaveUndoKeeps(setup, d, a.id); } else { UndosKept(setup, d, a); }
    HistoryKept(setup, d, a);
    AnswersKept(setup, d, a);
    IssuersKept(setup, d, a);
    LogTokensKept(setup, d, a);
    WaitersKept(setup, d, a);
    UnloggedKept(setup, d, a);
  }

  lemma {:induction false} RunKeepsInv(setup: Setup, actions: seq<Action>)
    requires IsRun(setup, actions)
    ensures Inv(setup, Reached(setup, actions))
    decreases |actions|
  {
    if actions != [] {
      RunKeepsInv(setup, Front(actions));
      StepKeepsInv(setup, Reached(setup, Front(actions)), Last(actions));
    }
  }

  // ------------------------------------------------------------------------ main theorem

  /** Undo request `id` was answered at position `i` with the command that request `log[k].id` had
      submitted when its rewrite issued the token. */
  ghost predicate GivesBack(setup: Setup, d: State, id: nat, i: int, k: int) {
    && AnsweredUndo(d.threads, id) && Answers(d.log, i, d.threads[id], id)
    && Restores(d.log, setup.undoTtl, i, k)
    && IssuedBy(d.threads, d.log[k])
    && d.threads[d.log[k].id].req.command == d.threads[id].response.suggestion
    && d.threads[d.log[k].id].req.session == d.threads[id].req.session
  }

  predicate SameTokenAnswered(d: State, id: nat, id': nat) {
    AnsweredUndo(d.threads, id) && AnsweredUndo(d.threads, id') && d.threads[id].req.token == d.threads[id'].req.token
  }

  /** In every run: a session has at most one live undo; every successful undo returns exactly the
      command of the request whose rewrite issued its token, to that session, strictly before the
      token expires, with no pre-send, completion or further rewrite of that session in between; and
      no token is honoured twice. */
  lemma UndoIsOneShot(setup: Setup, actions: seq<Action>)
    requires IsRun(setup, actions)
    ensures var d := Reached(setup, actions);
            && OnePerSession(d.tables.undos)
            && (forall id :: AnsweredUndo(d.threads, id) ==> exists i, k :: GivesBack(setup, d, id, i, k))
            && (forall id, id' :: SameTokenAnswered(d, id, id') ==> id == id')
  {
    RunKeepsInv(setup, actions);
    var d := Reached(setup, actions);
    forall id | AnsweredUndo(d.threads, id)
      ensures exists i, k :: GivesBack(setup, d, id, i, k)
    {
      var i :| Answers(d.log, i, d.threads[id], id);
      var k := LastIssued(d.log, d.log[i].token, i);
      assert Restores(d.log, setup.undoTtl, i, k) && IssuedBy(d.threads, d.log[k]);
      assert GivesBack(setup, d, id, i, k);
    }
    forall id, id' | SameTokenAnswered(d, id, id')
      ensures id == id'
    {
      var i :| Answers(d.log, i, d.threads[id], id);
      var i' :| Answers(d.log, i', d.threads[id'], id');
      TokenUsedOnce(setup, d, i, i');
    }
  }

  lemma TokenUsedOnce(setup: Setup, d: State, i: nat, j: nat)
    requires Inv(setup, d)
    requires i < |d.log| && j < |d.log| && d.log[i].Undone? && d.log[j].Undone? && d.log[i].token == d.log[j].token
    ensures i == j
  {
    var k, l := LastIssued(d.log, d.log[i].token, i), LastIssued(d.log, d.log[j].token, j);
    assert Restores(d.log, setup.undoTtl, i, k) && Restores(d.log, setup.undoTtl, j, l);
    assert k == l;
  }
}
