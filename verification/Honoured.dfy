/** What the daemon must do, as opposed to what it may do: a confirmation, an undo or a correction that comes in
    time is honoured, whatever other threads do in between.  The results start from any state. */
module Honoured {
  import opened Options
  import opened SessionTables
  import opened Daemon
  import Store = LearningStore

  // --------------------------------------------------------------------------- continuing

  ghost predicate CanGoOn(setup: Setup, d: State, actions: seq<Action>)
    decreases |actions|
  {
    actions == [] || (Enabled(d, actions[0]) && CanGoOn(setup, Perform(setup, d, actions[0]), actions[1..]))
  }

  ghost function GoOn(setup: Setup, d: State, actions: seq<Action>): State
    requires CanGoOn(setup, d, actions)
    decreases |actions|
  {
    if actions == [] then d else GoOn(setup, Perform(setup, d, actions[0]), actions[1..])
  }

  lemma ClockOfStep(setup: Setup, d: State, a: Action)
    requires Enabled(d, a)
    ensures d.clock <= Perform(setup, d, a).clock
  {
  }

  lemma {:induction false} ClockGoesOn(setup: Setup, d: State, actions: seq<Action>)
    requires CanGoOn(setup, d, actions)
    ensures d.clock <= GoOn(setup, d, actions).clock
    decreases |actions|
  {
    if actions != [] {
      ClockOfStep(setup, d, actions[0]);
      ClockGoesOn(setup, Perform(setup, d, actions[0]), actions[1..]);
    }
  }

  // ------------------------------------------------------------------------ confirmations

  /** The step is no business of the session's confirmation. */
  predicate SparesConfirmation(d: State, a: Action, session: string) {
    && !a.Restart?
    && (a.SaveConfirmation? || a.TryConfirmation? || a.TakeConfirmation? ==>
          a.id in d.threads && d.threads[a.id].req.session != session)
  }

  ghost predicate AllSpareConfirmation(setup: Setup, d: State, actions: seq<Action>, session: string)
    requires CanGoOn(setup, d, actions)
    decreases |actions|
  {
    actions == [] || (SparesConfirmation(d, actions[0], session)
                      && AllSpareConfirmation(setup, Perform(setup, d, actions[0]), actions[1..], session))
  }

  ghost predicate Pending(d: State, session: string, c: Confirmation) {
    session in d.tables.confirmations && d.tables.confirmations[session] == c
  }

  lemma ConfirmationStays(setup: Setup, d: State, a: Action, session: string, c: Confirmation)
    requires Enabled(d, a) && SparesConfirmation(d, a, session) && Pending(d, session, c)
    ensures Pending(Perform(setup, d, a), session, c)
  {
    if !(a.SaveConfirmation? || a.TryConfirmation? || a.TakeConfirmation?) { OthersSpareConfirmations(setup, d, a); }
  }

  lemma OthersSpareConfirmations(setup: Setup, d: State, a: Action)
    requires Enabled(d, a) && !a.SaveConfirmation? && !a.TryConfirmation? && !a.TakeConfirmation? && !a.Restart?
    ensures Perform(setup, d, a).tables.confirmations == d.tables.confirmations
  {
  }

  lemma {:induction false} ConfirmationLasts(setup: Setup, d: State, actions: seq<Action>, session: string,
                                             c: Confirmation)
    requires CanGoOn(setup, d, actions) && AllSpareConfirmation(setup, d, actions, session) && Pending(d, session, c)
    ensures Pending(GoOn(setup, d, actions), session, c)
    decreases |actions|
  {
    if actions != [] {
      ConfirmationStays(setup, d, actions[0], session, c);
      ConfirmationLasts(setup, Perform(setup, d, actions[0]), actions[1..], session, c);
    }
  }

  /** The answer to a Confirm request. */
  lemma ConfirmAnswered(setup: Setup, d: State, id: nat, c: Confirmation)
    requires Enabled(d, TakeConfirmation(id)) && Pending(d, d.threads[id].req.session, c)
    ensures var req := d.threads[id].req;
            Perform(setup, d, TakeConfirmation(id)).threads[id] == Done(req, Plain(
              if req.session != "" && req.command == c.command != "" && req.token == c.token != ""
                 && d.clock < c.expires
              then "submit" else "none"))
  {
  }

  /** A Confirm request without a pending confirmation is refused. */
  lemma ConfirmRefused(setup: Setup, d: State, id: nat)
    requires Enabled(d, TakeConfirmation(id)) && d.threads[id].req.session !in d.tables.confirmations
    ensures Perform(setup, d, TakeConfirmation(id)).threads[id] == Done(d.threads[id].req, Plain("none"))
  {
  }

  /** Once thread `asked` has stored its confirmation, and unless the daemon restarts or the session's
      confirmation is touched, a Confirm request of that session is answered with submit if and only if it brings
      the same command and token, none of them empty, less than five seconds after the storing. */
  lemma ConfirmationIsHonoured(setup: Setup, d: State, asked: nat, between: seq<Action>, confirm: nat)
    requires Enabled(d, SaveConfirmation(asked))
    requires var stored := Perform(setup, d, SaveConfirmation(asked));
             && CanGoOn(setup, stored, between)
             && AllSpareConfirmation(setup, stored, between, d.threads[asked].req.session)
             && Enabled(GoOn(setup, stored, between), TakeConfirmation(confirm))
             && GoOn(setup, stored, between).threads[confirm].req.session == d.threads[asked].req.session
    ensures var last := GoOn(setup, Perform(setup, d, SaveConfirmation(asked)), between);
            var req, was := last.threads[confirm].req, d.threads[asked];
            Perform(setup, last, TakeConfirmation(confirm)).threads[confirm] == Done(req, Plain(
              if req.session != "" && req.command == was.req.command != "" && req.token == was.token != ""
                 && last.clock < d.clock + 5 * SECOND
              then "submit" else "none"))
  {
    var stored, was := Perform(setup, d, SaveConfirmation(asked)), d.threads[asked];
    var c := Confirmation(was.req.command, was.token, d.clock + CONFIRMATION_WINDOW);
    ConfirmationLasts(setup, stored, between, was.req.session, c);
    ConfirmAnswered(setup, GoOn(setup, stored, between), confirm, c);
  }

  lemma ResendAnswered(setup: Setup, d: State, id: nat, c: Confirmation)
    requires Enabled(d, TryConfirmation(id)) && Pending(d, d.threads[id].req.session, c)
    ensures var req := d.threads[id].req;
            Perform(setup, d, TryConfirmation(id)).threads[id]
            == if req.command == c.command && d.clock < c.expires then Done(req, Plain("submit")) else Asking(req)
  {
  }

  /** Sending the line again will do as well: it goes through if and only if it is the same line within five
      seconds, and otherwise the user is asked once more. */
  lemma ResendIsHonoured(setup: Setup, d: State, asked: nat, between: seq<Action>, again: nat)
    requires Enabled(d, SaveConfirmation(asked))
    requires var stored := Perform(setup, d, SaveConfirmation(asked));
             && CanGoOn(setup, stored, between)
             && AllSpareConfirmation(setup, stored, between, d.threads[asked].req.session)
             && Enabled(GoOn(setup, stored, between), TryConfirmation(again))
             && GoOn(setup, stored, between).threads[again].req.session == d.threads[asked].req.session
    ensures var last := GoOn(setup, Perform(setup, d, SaveConfirmation(asked)), between);
            var req := last.threads[again].req;
            Perform(setup, last, TryConfirmation(again)).threads[again]
            == if req.command == d.threads[asked].req.command && last.clock < d.clock + 5 * SECOND
               then Done(req, Plain("submit")) else Asking(req)
  {
    var stored, was := Perform(setup, d, SaveConfirmation(asked)), d.threads[asked];
    var c := Confirmation(was.req.command, was.token, d.clock + CONFIRMATION_WINDOW);
    ConfirmationLasts(setup, stored, between, was.req.session, c);
    ResendAnswered(setup, GoOn(setup, stored, between), again, c);
  }

  // -------------------------------------------------------------------------------- undos

  /** The step is no business of the undo: it is no later pre-send or completion of the session, issues no undo
      for it or under its token, and does not ask for it. */
  predicate SparesUndo(d: State, a: Action, session: string, token: string) {
    && !a.Restart?
    && (a.Clear? ==> a.id in d.threads && d.threads[a.id].req.session != session)
    && (a.SaveUndo? ==> a.id in d.threads && d.threads[a.id].Issuing?
                        && d.threads[a.id].req.session != session && d.threads[a.id].token != token)
    && (a.TakeUndo? ==> a.id in d.threads && d.threads[a.id].req.token != token)
  }

  ghost predicate AllSpareUndo(setup: Setup, d: State, actions: seq<Action>, session: string, token: string)
    requires CanGoOn(setup, d, actions)
    decreases |actions|
  {
    actions == [] || (SparesUndo(d, actions[0], session, token)
                      && AllSpareUndo(setup, Perform(setup, d, actions[0]), actions[1..], session, token))
  }

  ghost predicate Undoable(d: State, token: string, u: PendingUndo) {
    token in d.tables.undos && d.tables.undos[token] == u
  }

  lemma UndoStays(setup: Setup, d: State, a: Action, token: string, u: PendingUndo)
    requires Enabled(d, a) && SparesUndo(d, a, u.session, token) && Undoable(d, token, u) && d.clock < u.expires
    ensures Undoable(Perform(setup, d, a), token, u)
  {
    if !(a.Clear? || a.SaveUndo? || a.TakeUndo?) { OthersSpareUndos(setup, d, a); }
  }

  lemma OthersSpareUndos(setup: Setup, d: State, a: Action)
    requires Enabled(d, a) && !a.Clear? && !a.SaveUndo? && !a.TakeUndo? && !a.Restart?
    ensures Perform(setup, d, a).tables.undos == d.tables.undos
  {
  }

  lemma {:induction false} UndoLasts(setup: Setup, d: State, actions: seq<Action>, token: string, u: PendingUndo)
    requires CanGoOn(setup, d, actions) && AllSpareUndo(setup, d, actions, u.session, token) && Undoable(d, token, u)
    requires GoOn(setup, d, actions).clock < u.expires
    ensures Undoable(GoOn(setup, d, actions), token, u)
    decreases |actions|
  {
    if actions != [] {
      ClockGoesOn(setup, d, actions);
      UndoStays(setup, d, actions[0], token, u);
      UndoLasts(setup, Perform(setup, d, actions[0]), actions[1..], token, u);
    }
  }

  /** The answer to an Undo request. */
  lemma UndoAnswered(setup: Setup, d: State, id: nat, u: PendingUndo)
    requires Enabled(d, TakeUndo(id)) && setup.undoEnabled && Undoable(d, d.threads[id].req.token, u)
    ensures var req := d.threads[id].req;
            Perform(setup, d, TakeUndo(id)).threads[id] == Done(req,
              if req.session == u.session != "" && req.token != "" && d.clock < u.expires
              then Response("edit-in-buffer", u.command, "", "") else Plain("none"))
  {
  }

  /** Once thread `rewrote` has stored its undo, and unless the daemon restarts or the undo is withdrawn or
      taken, a request of that session with that token before it expires gets the rewritten command back. */
  lemma UndoIsHonoured(setup: Setup, d: State, rewrote: nat, between: seq<Action>, undo: nat)
    requires Enabled(d, SaveUndo(rewrote)) && setup.undoEnabled
    requires var stored, was := Perform(setup, d, SaveUndo(rewrote)), d.threads[rewrote];
             && CanGoOn(setup, stored, between) && AllSpareUndo(setup, stored, between, was.req.session, was.token)
             && Enabled(GoOn(setup, stored, between), TakeUndo(undo))
             && GoOn(setup, stored, between).threads[undo].req.session == was.req.session != ""
             && GoOn(setup, stored, between).threads[undo].req.token == was.token != ""
             && GoOn(setup, stored, between).clock < d.clock + setup.undoTtl
    ensures var last := GoOn(setup, Perform(setup, d, SaveUndo(rewrote)), between);
            Perform(setup, last, TakeUndo(undo)).threads[undo].response
            == Response("edit-in-buffer", d.threads[rewrote].req.command, "", "")
  {
    var stored, was := Perform(setup, d, SaveUndo(rewrote)), d.threads[rewrote];
    var u := PendingUndo(was.req.session, was.req.command, d.clock + setup.undoTtl);
    UndoLasts(setup, stored, between, was.token, u);
    UndoAnswered(setup, GoOn(setup, stored, between), undo, u);
  }

  // -------------------------------------------------------------------------- corrections

  /** The step neither notes nor takes a failure under the key. */
  predicate SparesFailure(d: State, a: Action, key: string) {
    && !a.Restart?
    && (a.Note? || a.Pair? ==>
          a.id in d.threads && FailureKey(d.threads[a.id].req.session, d.threads[a.id].req.token) != key)
  }

  ghost predicate AllSpareFailure(setup: Setup, d: State, actions: seq<Action>, key: string)
    requires CanGoOn(setup, d, actions)
    decreases |actions|
  {
    actions == [] || (SparesFailure(d, actions[0], key)
                      && AllSpareFailure(setup, Perform(setup, d, actions[0]), actions[1..], key))
  }

  ghost predicate Remembered(d: State, key: string, f: Failure) {
    key in d.tables.failures && d.tables.failures[key] == f
  }

  lemma FailureStays(setup: Setup, d: State, a: Action, key: string, f: Failure)
    requires Enabled(d, a) && SparesFailure(d, a, key) && Remembered(d, key, f)
    requires d.clock <= f.created + LEARNING_WINDOW
    ensures Remembered(Perform(setup, d, a), key, f)
  {
    if !(a.Note? || a.Pair?) { OthersSpareFailures(setup, d, a); }
  }

  lemma OthersSpareFailures(setup: Setup, d: State, a: Action)
    requires Enabled(d, a) && !a.Note? && !a.Pair? && !a.Restart?
    ensures Perform(setup, d, a).tables.failures == d.tables.failures
  {
  }

  lemma {:induction false} FailureLasts(setup: Setup, d: State, actions: seq<Action>, key: string, f: Failure)
    requires CanGoOn(setup, d, actions) && AllSpareFailure(setup, d, actions, key) && Remembered(d, key, f)
    requires GoOn(setup, d, actions).clock <= f.created + LEARNING_WINDOW
    ensures Remembered(GoOn(setup, d, actions), key, f)
    decreases |actions|
  {
    if actions != [] {
      ClockGoesOn(setup, d, actions);
      FailureStays(setup, d, actions[0], key, f);
      FailureLasts(setup, Perform(setup, d, actions[0]), actions[1..], key, f);
    }
  }

  /** Once thread `failed` has noted its failure, and unless the daemon restarts or the failure is replaced or
      taken, a success of the same session and token within five minutes starts a recording of exactly this
      failure and this correction, provided they differ. */
  lemma CorrectionIsPaired(setup: Setup, d: State, failed: nat, output: string, between: seq<Action>, fixed: nat)
    requires Enabled(d, Note(failed, output)) && setup.learning && d.threads[failed].req.session != ""
    requires setup.normalise(d.threads[failed].req.command).Some?
    requires var noted, req := Perform(setup, d, Note(failed, output)), d.threads[failed].req;
             && CanGoOn(setup, noted, between)
             && AllSpareFailure(setup, noted, between, FailureKey(req.session, req.token))
             && Enabled(GoOn(setup, noted, between), Pair(fixed))
             && GoOn(setup, noted, between).threads[fixed].req.session == req.session
             && GoOn(setup, noted, between).threads[fixed].req.token == req.token
             && setup.normalise(GoOn(setup, noted, between).threads[fixed].req.command).Some?
             && GoOn(setup, noted, between).clock <= d.clock + 5 * 60 * SECOND
    ensures var last := GoOn(setup, Perform(setup, d, Note(failed, output)), between);
            var f := setup.normalise(d.threads[failed].req.command).value;
            var c := setup.normalise(last.threads[fixed].req.command).value;
            var t := Perform(setup, last, Pair(fixed)).threads[fixed];
            if f == c then t == Done(last.threads[fixed].req, Plain("none"))
            else t.Learning? && t.failure == f && t.correction == c
  {
    var noted, req := Perform(setup, d, Note(failed, output)), d.threads[failed].req;
    var f := Failure(setup.normalise(req.command).value, output, d.clock);
    FailureLasts(setup, noted, between, FailureKey(req.session, req.token), f);
  }

  /** And the recording, when it lands, adds one to the evidence for exactly that pair. */
  ghost predicate Evidence(t: Store.Tables, failure: string, correction: string, n: nat) {
    if n == 0 then !Store.HasPair(t.drafts, failure, correction)
    else exists id :: id in t.drafts && Store.Holds(t.drafts[id], failure, correction) && t.drafts[id].count == n
  }

  lemma CorrectionCounts(setup: Setup, d: State, id: nat, draft: int, n: nat)
    requires Enabled(d, Land(id, draft)) && Store.Sound(d.store)
    requires Evidence(d.store, d.threads[id].failure, d.threads[id].correction, n)
    ensures Evidence(Perform(setup, d, Land(id, draft)).store, d.threads[id].failure, d.threads[id].correction, n + 1)
  {
    var after := Perform(setup, d, Land(id, draft)).store;
    assert draft in after.drafts && Store.Holds(after.drafts[draft], d.threads[id].failure, d.threads[id].correction);
  }
}
