/** The service's critical sections as the code performs them: methods on
    mutable maps, with loops that delete while they range. */
module Service {
  import opened Options
  import T = SessionTables
  import opened SessionTables

  class SessionService {
    var confirmations: map<string, Confirmation>
    var undos: map<string, PendingUndo>
    var failures: map<string, Failure>
    const undoTtl: int

    function Now(): Tables
      reads this
    {
      Tables(confirmations, undos, failures)
    }

    constructor (undoTtlSeconds: int)
      ensures Now() == EMPTY && undoTtl == undoTtlSeconds * SECOND
    {
      confirmations, undos, failures := map[], map[], map[];
      undoTtl := undoTtlSeconds * SECOND;
    }

    method ConsumeConfirmation(session: string, command: string, now: int) returns (ok: bool)
      modifies this
      ensures (Now(), ok) == T.ConsumeConfirmation(old(Now()), session, command, now)
    {
      if session !in confirmations { return false; }
      var pending := confirmations[session];
      confirmations := confirmations - {session};
      ok := pending.command == command && now < pending.expires;
    }

    method ConsumeConfirmationToken(session: string, command: string, token: string, now: int) returns (ok: bool)
      modifies this
      ensures (Now(), ok) == T.ConsumeConfirmationToken(old(Now()), session, command, token, now)
    {
      if session == "" || command == "" || token == "" { return false; }
      if session !in confirmations { return false; }
      var pending := confirmations[session];
      if !(now < pending.expires) {
        confirmations := confirmations - {session};
        return false;
      }
      if pending.command != command || pending.token != token { return false; }
      confirmations := confirmations - {session};
      ok := true;
    }

    method StoreConfirmation(session: string, command: string, token: string, now: int)
      modifies this
      ensures Now() == T.StoreConfirmation(old(Now()), session, command, token, now)
    {
      confirmations := confirmations[session := Confirmation(command, token, now + CONFIRMATION_WINDOW)];
    }

    method RemoveExpiredUndos(now: int)
      modifies this`undos
      ensures undos == LiveUndos(old(undos), now)
    {
      var todo := undos.Keys;
      while todo != {}
        invariant todo <= old(undos).Keys
        invariant undos == map token | token in old(undos) && (token in todo || now < old(undos)[token].expires) ::
                  old(undos)[token]
        decreases |todo|
      {
        var token :| token in todo;
        if !(now < undos[token].expires) { undos := undos - {token}; }
        todo := todo - {token};
      }
    }

    method RemoveSessionUndos(session: string)
      modifies this`undos
      ensures undos == OtherUndos(old(undos), session)
    {
      var todo := undos.Keys;
      while todo != {}
        invariant todo <= old(undos).Keys
        invariant undos == map token | token in old(undos) && (token in todo || old(undos)[token].session != session) ::
                  old(undos)[token]
        decreases |todo|
      {
        var token :| token in todo;
        if undos[token].session == session { undos := undos - {token}; }
        todo := todo - {token};
      }
    }

    method StoreUndoToken(token: string, session: string, command: string, now: int)
      modifies this
      ensures Now() == T.StoreUndo(old(Now()), token, session, command, now, undoTtl)
    {
      RemoveExpiredUndos(now);
      RemoveSessionUndos(session);
      undos := undos[token := PendingUndo(session, command, now + undoTtl)];
    }

    method ConsumeUndoToken(session: string, token: string, now: int) returns (pending: Option<PendingUndo>)
      modifies this
      ensures (Now(), pending) == T.ConsumeUndo(old(Now()), session, token, now)
    {
      if session == "" || token == "" { return None; }
      RemoveExpiredUndos(now);
      if token !in undos || undos[token].session != session { return None; }
      pending := Some(undos[token]);
      undos := undos - {token};
    }

    method ClearPendingUndo(session: string)
      modifies this
      ensures Now() == T.ClearUndo(old(Now()), session)
    {
      if session == "" { return; }
      RemoveSessionUndos(session);
    }

    method RemoveExpiredFailures(now: int)
      modifies this`failures
      ensures failures == FreshFailures(old(failures), now)
    {
      var todo := failures.Keys;
      while todo != {}
        invariant todo <= old(failures).Keys
        invariant failures == map key | key in old(failures)
                  && (key in todo || now <= old(failures)[key].created + LEARNING_WINDOW) :: old(failures)[key]
        decreases |todo|
      {
        var key :| key in todo;
        if now > failures[key].created + LEARNING_WINDOW { failures := failures - {key}; }
        todo := todo - {key};
      }
    }

    method RememberFailure(session: string, token: string, command: string, output: string, now: int)
      modifies this
      ensures Now() == T.RememberFailure(old(Now()), session, token, command, output, now)
    {
      RemoveExpiredFailures(now);
      failures := failures[FailureKey(session, token) := Failure(command, output, now)];
    }

    /** The critical section of `recordSuccess`. */
    method TakeFailure(session: string, token: string, now: int) returns (pending: Option<Failure>)
      modifies this
      ensures (Now(), pending) == T.TakeFailure(old(Now()), session, token, now)
    {
      RemoveExpiredFailures(now);
      var key := FailureKey(session, token);
      if key !in failures { return None; }
      pending := Some(failures[key]);
      failures := failures - {key};
    }
  }
}
