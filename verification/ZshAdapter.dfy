/** The zsh adapter: shell functions over global variables.

    A shell is either at its prompt, where the user edits the buffer and
    presses Enter or Ctrl-G, or running a command.  Daemon answers are
    arbitrary: the adapter may get any answer or none. */
module ZshAdapter {
  import opened Daemon
  import opened Numerals

  /** What `_solomon_check` reads out of the daemon's record. */
  datatype Reply = Allowed | Refused | Rewrite(safe: bool, suggestion: string, undoToken: string)

  /** The `_SOLOMON_` globals, the line buffer, and two observations for the proofs: `rewritten` says
      that the buffer's text was put there by a rewrite and not touched since, `automatic` that the
      running command is such a text. */
  datatype Adapter = Adapter(
    buffer: string,
    rewritten: bool,
    running: bool,
    automatic: bool,
    pendingRewrite: string,
    pendingUndoToken: string,
    automaticRewrite: string,
    pendingFailureToken: string,
    lastCommand: string,
    lastToken: string,
    failures: nat)

  const FRESH := Adapter("", false, false, false, "", "", "", "", "", "none", 0)

  function FailureToken(session: string, n: nat): string { "failure-" + session + "-" + Decimal(n) }

  function Ask(op: Operation, session: string, command: string, token: string, automatic: bool): Request {
    Request(op, session, command, token, "", automatic)
  }

  /** A step's result: the new globals and the daemon request it sends, if any. */
  datatype Result = Result(next: Adapter, sent: seq<Request>)

  function ClearRewrite(a: Adapter): Adapter {
    a.(pendingRewrite := "", automaticRewrite := "", pendingUndoToken := "")
  }

  /** `_solomon_preexec`, which zsh runs when a non-empty line is accepted. */
  function Preexec(a: Adapter): Adapter {
    var command := a.buffer;
    var cleared :=
      a.(lastCommand := command, pendingRewrite := "", pendingUndoToken := "", running := true,
         automatic := a.rewritten);
    if command == a.automaticRewrite then cleared.(lastToken := "none", automaticRewrite := "")
    else cleared.(lastToken := if a.pendingFailureToken == "" then "none" else a.pendingFailureToken,
                  pendingFailureToken := "", automaticRewrite := "")
  }

  function Accept(a: Adapter): Adapter { if a.buffer == "" then a else Preexec(a) }

  /** `_solomon_accept_line`: `_solomon_check` and, unless it refuses, the real accept-line. */
  function Enter(session: string, a: Adapter, ready: bool, reply: Reply): Result {
    if a.pendingRewrite != "" && a.buffer == a.pendingRewrite then
      Result(Accept(ClearRewrite(a).(automaticRewrite := a.buffer)), [])
    else
      var b := if a.pendingRewrite != "" then ClearRewrite(a) else a;
      if !ready then Result(Accept(b), [])
      else
        var sent := [Ask(PreSend, session, a.buffer, "", false)];
        match reply
        case Allowed => Result(Accept(b), sent)
        case Refused => Result(b, sent)
        case Rewrite(safe, suggestion, undoToken) =>
          if !safe || suggestion == "" then Result(b, sent)
          else
            Result(b.(buffer := suggestion, rewritten := true, pendingRewrite := suggestion,
                      pendingUndoToken := undoToken), sent)
  }

  /** `_solomon_undo_rewrite`; `reply` is the restored command, empty when the daemon refuses. */
  function UndoRewrite(session: string, a: Adapter, reply: string): Result {
    if a.pendingRewrite == "" || a.pendingUndoToken == "" then Result(a, [])
    else
      var sent := [Ask(Undo, session, "", a.pendingUndoToken, false)];
      if reply == "" then Result(a.(pendingUndoToken := ""), sent)
      else Result(ClearRewrite(a).(buffer := reply, rewritten := false), sent)
  }

  /** `_solomon_precmd`, which zsh runs when the command has finished. */
  function Precmd(session: string, a: Adapter, success: bool): Result {
    var b :=
      a.(lastCommand := "", lastToken := "none", running := false, automatic := false, buffer := "",
         rewritten := false);
    if a.lastCommand == "" then Result(b, [])
    else if success then Result(b, [Ask(PostSuccess, session, a.lastCommand, a.lastToken, a.automatic)])
    else
      var token := FailureToken(session, a.failures + 1);
      Result(b.(failures := a.failures + 1, pendingFailureToken := token),
             [Ask(PostFailure, session, a.lastCommand, token, false)])
  }

  datatype Move =
    | Type(text: string)
    | PressEnter(ready: bool, reply: Reply)
    | PressUndo(restored: string)
    | Finish(success: bool)

  predicate Possible(a: Adapter, m: Move) { m.Finish? <==> a.running }

  function Step(session: string, a: Adapter, m: Move): Result {
    match m
    case Type(text) => Result(a.(buffer := text, rewritten := false), [])
    case PressEnter(ready, reply) => Enter(session, a, ready, reply)
    case PressUndo(restored) => UndoRewrite(session, a, restored)
    case Finish(success) => Precmd(session, a, success)
  }

  // --------------------------------------------------------------------- the invariant

  /** A rewritten, untouched buffer is still the pending rewrite, so accepting it is recognised; and
      the token that goes with the running command is "none" if that command is a rewrite. */
  ghost predicate Valid(a: Adapter) {
    && (a.rewritten && !a.running ==> a.pendingRewrite != "" && a.buffer == a.pendingRewrite)
    && (a.running && a.automatic ==> a.lastToken == "none")
    && (!a.running ==> !a.automatic)
    && (a.running ==> a.pendingRewrite == "" && a.pendingUndoToken == "")
    && a.automaticRewrite == ""
  }

  /** Requests that keep learning honest: failures carry a failure token, and the success of an
      automatically rewritten command carries none. */
  predicate Honest(r: Request) {
    && (r.op.PostFailure? ==> r.token != "none")
    && (r.op.PostSuccess? && r.automatic ==> r.token == "none")
  }

  lemma StepKeepsValid(session: string, a: Adapter, m: Move)
    requires Valid(a) && Possible(a, m)
    ensures Valid(Step(session, a, m).next)
    ensures |Step(session, a, m).sent| <= 1
    ensures forall r :: r in Step(session, a, m).sent ==> Honest(r) && r.session == session
  {
    var token := FailureToken(session, a.failures + 1);
    assert token[0] == 'f' && "none"[0] == 'n';
  }

  // --------------------------------------------------------------------- what must happen

  /** A safe rewrite goes into the buffer and waits there.  Enter again runs it without asking and reports its
      success without a failure token; undoing it brings the returned command back. */
  lemma RewriteIsOffered(session: string, a: Adapter, suggestion: string, undoToken: string, restored: string)
    requires Valid(a) && !a.running && suggestion != "" && !(a.pendingRewrite != "" && a.buffer == a.pendingRewrite)
    ensures var offered := Step(session, a, PressEnter(true, Rewrite(true, suggestion, undoToken)));
            var again := Step(session, offered.next, PressEnter(true, Refused));
            var undone := Step(session, offered.next, PressUndo(restored));
            && offered.sent == [Ask(PreSend, session, a.buffer, "", false)]
            && offered.next.buffer == suggestion && !offered.next.running
            && again.sent == [] && again.next.running && again.next.lastCommand == suggestion
            && Step(session, again.next, Finish(true)).sent == [Ask(PostSuccess, session, suggestion, "none", true)]
            && (undoToken != "" && restored != "" ==>
                  undone.next.buffer == restored && undone.sent == [Ask(Undo, session, "", undoToken, false)])
  {
  }

  /** An unsafe rewrite is refused: the buffer stays and nothing runs. */
  lemma UnsafeRewriteIsRefused(session: string, a: Adapter, suggestion: string, undoToken: string)
    requires Valid(a) && !a.running && !(a.pendingRewrite != "" && a.buffer == a.pendingRewrite)
    ensures var next := Step(session, a, PressEnter(true, Rewrite(false, suggestion, undoToken))).next;
            next.buffer == a.buffer && !next.running && next.pendingRewrite == ""
  {
  }

  /** A failure's token goes with the next command that the user types: if that succeeds, the report carries the
      same token as the report of the failure. */
  lemma FailureTokenTravels(session: string, a: Adapter, text: string, ready: bool)
    requires Valid(a) && a.running && a.lastCommand != "" && text != ""
    ensures var failed := Step(session, a, Finish(false));
            var typed := Step(session, failed.next, Type(text));
            var entered := Step(session, typed.next, PressEnter(ready, Allowed));
            var token := FailureToken(session, a.failures + 1);
            && failed.sent == [Ask(PostFailure, session, a.lastCommand, token, false)]
            && entered.next.running && entered.next.lastCommand == text
            && Step(session, entered.next, Finish(true)).sent == [Ask(PostSuccess, session, text, token, false)]
  {
    assert FailureToken(session, a.failures + 1)[0] == 'f';
  }

  // ------------------------------------------------------------------ the shell functions

  /** The adapter's globals as the hooks change them. */
  class Globals {
    const session: string
    var a: Adapter
    var outbox: seq<Request>

    constructor (session: string)
      ensures this.session == session && a == FRESH && outbox == []
    {
      this.session, a, outbox := session, FRESH, [];
    }

    method Send(r: Request)
      modifies this`outbox
      ensures outbox == old(outbox) + [r]
    {
      outbox := outbox + [r];
    }

    method PreexecHook()
      modifies this`a
      ensures a == Preexec(old(a))
    {
      var command := a.buffer;
      a := a.(lastCommand := command, running := true, automatic := a.rewritten);
      a := a.(pendingRewrite := "");
      a := a.(pendingUndoToken := "");
      if command == a.automaticRewrite {
        a := a.(lastToken := "none");
      } else {
        a := a.(lastToken := if a.pendingFailureToken == "" then "none" else a.pendingFailureToken);
        a := a.(pendingFailureToken := "");
      }
      a := a.(automaticRewrite := "");
    }

    method AcceptLine(ready: bool, reply: Reply)
      modifies this
      ensures Result(a, outbox)
              == Result(Enter(session, old(a), ready, reply).next,
                        old(outbox) + Enter(session, old(a), ready, reply).sent)
    {
      var accepted := Check(ready, reply);
      if accepted && a.buffer != "" { PreexecHook(); }
    }

    /** `_solomon_check`; true stands for exit status 0. */
    method Check(ready: bool, reply: Reply) returns (accepted: bool)
      modifies this
      ensures outbox == old(outbox) + Enter(session, old(a), ready, reply).sent
      ensures (if accepted then Accept(a) else a) == Enter(session, old(a), ready, reply).next
    {
      var command := a.buffer;
      if a.pendingRewrite != "" {
        if command == a.pendingRewrite {
          a := ClearRewrite(a);
          a := a.(automaticRewrite := command);
          return true;
        }
        a := ClearRewrite(a);
      }
      if !ready { return true; }
      Send(Ask(PreSend, session, command, "", false));
      if reply.Allowed? { return true; }
      if reply.Refused? { return false; }
      if !reply.safe || reply.suggestion == "" { return false; }
      a := a.(buffer := reply.suggestion, rewritten := true);
      a := a.(pendingRewrite := reply.suggestion);
      a := a.(pendingUndoToken := reply.undoToken);
      accepted := false;
    }

    method PrecmdHook(success: bool)
      modifies this
      ensures Result(a, outbox)
              == Result(Precmd(session, old(a), success).next, old(outbox) + Precmd(session, old(a), success).sent)
    {
      var command, token, automatic := a.lastCommand, a.lastToken, a.automatic;
      a := a.(lastCommand := "", lastToken := "none", running := false, automatic := false, buffer := "",
              rewritten := false);
      if command == "" { return; }
      if success {
        Send(Ask(PostSuccess, session, command, token, automatic));
        return;
      }
      a := a.(failures := a.failures + 1);
      token := FailureToken(session, a.failures);
      a := a.(pendingFailureToken := token);
      Send(Ask(PostFailure, session, command, token, false));
    }

    method UndoHook(reply: string)
      modifies this
      ensures Result(a, outbox)
              == Result(UndoRewrite(session, old(a), reply).next,
                        old(outbox) + UndoRewrite(session, old(a), reply).sent)
    {
      if a.pendingRewrite == "" || a.pendingUndoToken == "" { return; }
      Send(Ask(Undo, session, "", a.pendingUndoToken, false));
      if reply == "" {
        a := a.(pendingUndoToken := "");
        return;
      }
      a := ClearRewrite(a);
      a := a.(buffer := reply, rewritten := false);
    }
  }
}
