/** The daemon as a state machine.

    Every request runs in its own thread.  A step is one critical section of
    one thread, so threads interleave freely, also between the critical
    sections of a single `Handle` call.  What the diagnosis decides is left
    open: `Decide` and `AnswerFailure` accept any outcome.  The clock never
    runs backwards and a generated token was never generated before; both are
    assumptions on the environment. */
module Daemon {
  import opened Options
  import opened SessionTables
  import Store = LearningStore

  datatype Operation = PreSend | PostFailure | PostSuccess | Confirm | Undo

  /** `automatic` is not on the wire and nothing below reads it: it records, for the proofs, that the
      command of a post-success was put into the buffer by an automatic rewrite. */
  datatype Request = Request(op: Operation, session: string, command: string, token: string, output: string,
                             automatic: bool)

  /** The part of `Request.Validate` that the tables rely on. */
  predicate ValidRequest(r: Request) { '\0' !in r.session && '\0' !in r.token }

  datatype Response = Response(action: string, suggestion: string, confirmationToken: string, undoToken: string)

  function Plain(action: string): Response { Response(action, "", "", "") }

  /** What `preSend` decides before it looks at the tables. */
  datatype Outcome = Reply(action: string) | AskFirst | RewriteBuffer

  datatype Thread =
    | Arrived(req: Request)
    | Cleared(req: Request)
    | Confirming(req: Request)
    | Asking(req: Request)
    | Storing(req: Request, token: string)
    | Rewriting(req: Request)
    | Issuing(req: Request, token: string)
    | Noted(req: Request)
    | Learning(req: Request, failure: string, correction: string, at: int, pair: nat)
    | Done(req: Request, response: Response)

  /** What the tables' history looks like from outside, in the order it happened. */
  datatype Event =
    | ConfirmationStored(session: string, command: string, token: string, at: int)
    | Submitted(id: nat, session: string, command: string, given: Option<string>, at: int)
    | UndoCleared(session: string)
    | UndoStored(id: nat, token: string, session: string, command: string, at: int)
    | Undone(id: nat, token: string, session: string, command: string, at: int)
    | FailureNoted(session: string, token: string, command: string, at: int)
    | FailurePaired(session: string, token: string, correction: string, automatic: bool, at: int)
    | Landed(failure: string, correction: string, pair: nat)
    | Purged

  /** `learning` stands for learning enabled with a store; `normalise` for `normalizedLearningCommand`. */
  datatype Setup = Setup(undoEnabled: bool, undoTtl: int, learning: bool, normalise: string -> Option<string>)

  datatype State = State(
    tables: Tables,
    clock: int,
    threads: map<nat, Thread>,
    issued: set<string>,
    store: Store.Tables,
    log: seq<Event>)

  const INITIAL := State(EMPTY, 0, map[], {}, Store.EMPTY, [])

  datatype Action =
    | Advance(now: int)
    | Arrive(id: nat, req: Request)
    | Clear(id: nat)
    | Decide(id: nat, outcome: Outcome)
    | TryConfirmation(id: nat)
    | NewToken(id: nat, token: string)
    | NoToken(id: nat)
    | SaveConfirmation(id: nat)
    | SaveUndo(id: nat)
    | TakeConfirmation(id: nat)
    | TakeUndo(id: nat)
    | Note(id: nat, output: string)
    | AnswerFailure(id: nat, action: string)
    | Pair(id: nat)
    | Land(id: nat, draft: int)
    | Abandon(id: nat)
    | Maintain(step: Store.Step)
    | Restart

  ghost predicate Enabled(d: State, a: Action) {
    match a
    case Advance(now) => d.clock <= now
    case Arrive(id, req) => id !in d.threads && ValidRequest(req)
    case Clear(id) =>
      && id in d.threads && d.threads[id].Arrived?
      && !d.threads[id].req.op.Confirm? && !d.threads[id].req.op.Undo?
    case Decide(id, outcome) =>
      && id in d.threads && d.threads[id].Cleared? && d.threads[id].req.op.PreSend?
      && (outcome.AskFirst? ==> d.threads[id].req.session != "")
      && (outcome.Reply? ==> outcome.action in {"none", "hint", "interrupt"})
    case TryConfirmation(id) => id in d.threads && d.threads[id].Confirming?
    case NewToken(id, token) =>
      && id in d.threads && (d.threads[id].Asking? || d.threads[id].Rewriting?)
      && token !in d.issued && token != ""
    case NoToken(id) => id in d.threads && (d.threads[id].Asking? || d.threads[id].Rewriting?)
    case SaveConfirmation(id) => id in d.threads && d.threads[id].Storing?
    case SaveUndo(id) => id in d.threads && d.threads[id].Issuing?
    case TakeConfirmation(id) => id in d.threads && d.threads[id].Arrived? && d.threads[id].req.op.Confirm?
    case TakeUndo(id) => id in d.threads && d.threads[id].Arrived? && d.threads[id].req.op.Undo?
    case Note(id, _) => id in d.threads && d.threads[id].Cleared? && d.threads[id].req.op.PostFailure?
    case AnswerFailure(id, action) => id in d.threads && d.threads[id].Noted? && action in {"none", "hint"}
    case Pair(id) => id in d.threads && d.threads[id].Cleared? && d.threads[id].req.op.PostSuccess?
    case Land(id, draft) =>
      && id in d.threads && d.threads[id].Learning?
      && Store.Commits(d.store, LandStep(d.threads[id], draft))
    case Abandon(id) => id in d.threads && d.threads[id].Learning?
    case Maintain(step) => !step.Record? && Store.Commits(d.store, step)
    case Restart => true
  }

  function LandStep(t: Thread, draft: int): Store.Step
    requires t.Learning?
  {
    Store.Record(draft, t.failure, t.correction, t.at)
  }

  function Become(d: State, id: nat, t: Thread): State { d.(threads := d.threads[id := t]) }

  function Report(d: State, e: Event): State { d.(log := d.log + [e]) }

  function AfterClear(d: State, id: nat): State
    requires id in d.threads
  {
    var req := d.threads[id].req;
    var next := Become(d.(tables := ClearUndo(d.tables, req.session)), id, Cleared(req));
    if req.session == "" then next else Report(next, UndoCleared(req.session))
  }

  function AfterDecide(setup: Setup, d: State, id: nat, outcome: Outcome): State
    requires id in d.threads
  {
    var req := d.threads[id].req;
    match outcome
    case Reply(action) => Become(d, id, Done(req, Plain(action)))
    case AskFirst => Become(d, id, Confirming(req))
    case RewriteBuffer =>
      if setup.undoEnabled && req.session != "" && req.command != "" then Become(d, id, Rewriting(req))
      else Become(d, id, Done(req, Plain("rewrite")))
  }

  function AfterTryConfirmation(d: State, id: nat): State
    requires id in d.threads
  {
    var req := d.threads[id].req;
    var (tables, ok) := ConsumeConfirmation(d.tables, req.session, req.command, d.clock);
    var next := d.(tables := tables);
    if ok then
      Report(Become(next, id, Done(req, Plain("submit"))),
             Submitted(id, req.session, req.command, None, d.clock))
    else Become(next, id, Asking(req))
  }

  function AfterTakeConfirmation(d: State, id: nat): State
    requires id in d.threads
  {
    var req := d.threads[id].req;
    var (tables, ok) := ConsumeConfirmationToken(d.tables, req.session, req.command, req.token, d.clock);
    var next := d.(tables := tables);
    if ok then
      Report(Become(next, id, Done(req, Plain("submit"))),
             Submitted(id, req.session, req.command, Some(req.token), d.clock))
    else Become(next, id, Done(req, Plain("none")))
  }

  function AfterNewToken(d: State, id: nat, token: string): State
    requires id in d.threads
  {
    var req := d.threads[id].req;
    Become(d.(issued := d.issued + {token}), id,
           if d.threads[id].Asking? then Storing(req, token) else Issuing(req, token))
  }

  function AfterSaveConfirmation(d: State, id: nat): State
    requires id in d.threads && d.threads[id].Storing?
  {
    var req, token := d.threads[id].req, d.threads[id].token;
    var next := d.(tables := StoreConfirmation(d.tables, req.session, req.command, token, d.clock));
    Report(Become(next, id, Done(req, Response("interrupt", "", token, ""))),
           ConfirmationStored(req.session, req.command, token, d.clock))
  }

  function AfterSaveUndo(setup: Setup, d: State, id: nat): State
    requires id in d.threads && d.threads[id].Issuing?
  {
    var req, token := d.threads[id].req, d.threads[id].token;
    var next := d.(tables := StoreUndo(d.tables, token, req.session, req.command, d.clock, setup.undoTtl));
    Report(Become(next, id, Done(req, Response("rewrite", "", "", token))),
           UndoStored(id, token, req.session, req.command, d.clock))
  }

  function AfterTakeUndo(setup: Setup, d: State, id: nat): State
    requires id in d.threads
  {
    var req := d.threads[id].req;
    if !setup.undoEnabled then Become(d, id, Done(req, Plain("none")))
    else
      var (tables, found) := ConsumeUndo(d.tables, req.session, req.token, d.clock);
      var next := d.(tables := tables);
      match found
      case None => Become(next, id, Done(req, Plain("none")))
      case Some(pending) =>
        Report(Become(next, id, Done(req, Response("edit-in-buffer", pending.command, "", ""))),
               Undone(id, req.token, req.session, pending.command, d.clock))
  }

  function AfterNote(setup: Setup, d: State, id: nat, output: string): State
    requires id in d.threads
  {
    var req := d.threads[id].req;
    var next := Become(d, id, Noted(req));
    var command := setup.normalise(req.command);
    if !setup.learning || req.session == "" || command.None? then next
    else
      Report(next.(tables := RememberFailure(d.tables, req.session, req.token, command.value, output, d.clock)),
             FailureNoted(req.session, req.token, command.value, d.clock))
  }

  function AfterPair(setup: Setup, d: State, id: nat): State
    requires id in d.threads
  {
    var req := d.threads[id].req;
    var correction := setup.normalise(req.command);
    var finished := Done(req, Plain("none"));
    if !setup.learning || req.session == "" || correction.None? then Become(d, id, finished)
    else
      var (tables, found) := TakeFailure(d.tables, req.session, req.token, d.clock);
      var next := d.(tables := tables);
      if found.None? || found.value.command == correction.value then Become(next, id, finished)
      else
        Report(Become(next, id, Learning(req, found.value.command, correction.value, d.clock, |d.log|)),
               FailurePaired(req.session, req.token, correction.value, req.automatic, d.clock))
  }

  ghost function AfterLand(d: State, id: nat, draft: int): State
    requires id in d.threads && d.threads[id].Learning? && Store.Commits(d.store, LandStep(d.threads[id], draft))
  {
    var t := d.threads[id];
    Report(Become(d.(store := Store.Apply(d.store, LandStep(t, draft))), id, Done(t.req, Plain("none"))),
           Landed(t.failure, t.correction, t.pair))
  }

  ghost function Perform(setup: Setup, d: State, a: Action): State
    requires Enabled(d, a)
  {
    match a
    case Advance(now) => d.(clock := now)
    case Arrive(id, req) => Become(d, id, Arrived(req))
    case Clear(id) => AfterClear(d, id)
    case Decide(id, outcome) => AfterDecide(setup, d, id, outcome)
    case TryConfirmation(id) => AfterTryConfirmation(d, id)
    case NewToken(id, token) => AfterNewToken(d, id, token)
    case NoToken(id) =>
      Become(d, id, Done(d.threads[id].req, Plain(if d.threads[id].Asking? then "error" else "rewrite")))
    case SaveConfirmation(id) => AfterSaveConfirmation(d, id)
    case SaveUndo(id) => AfterSaveUndo(setup, d, id)
    case TakeConfirmation(id) => AfterTakeConfirmation(d, id)
    case TakeUndo(id) => AfterTakeUndo(setup, d, id)
    case Note(id, output) => AfterNote(setup, d, id, output)
    case AnswerFailure(id, action) => Become(d, id, Done(d.threads[id].req, Plain(action)))
    case Pair(id) => AfterPair(setup, d, id)
    case Land(id, draft) => AfterLand(d, id, draft)
    case Abandon(id) => Become(d, id, Done(d.threads[id].req, Plain("none")))
    case Maintain(step) =>
      var next := d.(store := Store.Apply(d.store, step));
      if step.Purge? then Report(next, Purged) else next
    case Restart => d.(tables := EMPTY, threads := map id | id in d.threads && d.threads[id].Done? :: d.threads[id])
  }

  predicate MovesThread(a: Action) { !a.Advance? && !a.Maintain? && !a.Restart? }

  lemma OnlyThatThread(setup: Setup, d: State, a: Action)
    requires Enabled(d, a) && MovesThread(a)
    ensures var d' := Perform(setup, d, a); a.id in d'.threads && d'.threads == d.threads[a.id := d'.threads[a.id]]
  {
  }

  // -------------------------------------------------------------------------- runs

  ghost predicate IsRun(setup: Setup, actions: seq<Action>)
    decreases |actions|, 0
  {
    actions == [] || (IsRun(setup, Front(actions)) && Enabled(Reached(setup, Front(actions)), Last(actions)))
  }

  function Front(actions: seq<Action>): seq<Action>
    requires actions != []
  {
    actions[..|actions| - 1]
  }

  function Last(actions: seq<Action>): Action
    requires actions != []
  {
    actions[|actions| - 1]
  }

  ghost function Reached(setup: Setup, actions: seq<Action>): State
    requires IsRun(setup, actions)
    decreases |actions|, 1
  {
    if actions == [] then INITIAL else Perform(setup, Reached(setup, Front(actions)), Last(actions))
  }
}
