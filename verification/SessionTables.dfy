/** The daemon's per-session tables and the critical sections that change them.

    `Handle` takes the service's mutex several times per request.  Each function
    from `ConsumeConfirmation` on is what one such critical section does; the
    `Service` module proves it of the code, the `Daemon` module builds its steps
    from it.  Times are nanoseconds; the clock reading is a parameter. */
module SessionTables {
  import opened Options

  const SECOND: int := 1_000_000_000
  const CONFIRMATION_WINDOW: int := 5 * SECOND
  const LEARNING_WINDOW: int := 5 * 60 * SECOND

  datatype Confirmation = Confirmation(command: string, token: string, expires: int)
  datatype PendingUndo = PendingUndo(session: string, command: string, expires: int)
  datatype Failure = Failure(command: string, output: string, created: int)

  datatype Tables = Tables(
    confirmations: map<string, Confirmation>,
    undos: map<string, PendingUndo>,
    failures: map<string, Failure>)

  const EMPTY := Tables(map[], map[], map[])

  function FailureKey(session: string, token: string): string { session + "\0" + token }

  /** The NUL between them keeps session and token apart, because a valid session has none. */
  lemma FailureKeyInjective(s: string, t: string, s': string, t': string)
    requires '\0' !in s && '\0' !in s'
    requires FailureKey(s, t) == FailureKey(s', t')
    ensures s == s' && t == t'
  {
    var k, k' := FailureKey(s, t), FailureKey(s', t');
    assert k[|s|] == '\0' && k'[|s'|] == '\0';
    assert k[..|s|] == s && k'[..|s|] == s' && k[|s| + 1..] == t && k'[|s| + 1..] == t';
  }

  // ------------------------------------------------------------- critical sections

  function LiveUndos(undos: map<string, PendingUndo>, now: int): map<string, PendingUndo> {
    map token | token in undos && now < undos[token].expires :: undos[token]
  }

  function OtherUndos(undos: map<string, PendingUndo>, session: string): map<string, PendingUndo> {
    map token | token in undos && undos[token].session != session :: undos[token]
  }

  function FreshFailures(failures: map<string, Failure>, now: int): map<string, Failure> {
    map key | key in failures && now <= failures[key].created + LEARNING_WINDOW :: failures[key]
  }

  function ConsumeConfirmation(t: Tables, session: string, command: string, now: int): (Tables, bool) {
    if session !in t.confirmations then (t, false)
    else
      var pending := t.confirmations[session];
      (t.(confirmations := t.confirmations - {session}), pending.command == command && now < pending.expires)
  }

  function ConsumeConfirmationToken(t: Tables, session: string, command: string, token: string, now: int)
    : (Tables, bool)
  {
    if session == "" || command == "" || token == "" || session !in t.confirmations then (t, false)
    else
      var pending := t.confirmations[session];
      var without := t.(confirmations := t.confirmations - {session});
      if now >= pending.expires then (without, false)
      else if pending.command != command || pending.token != token then (t, false)
      else (without, true)
  }

  function StoreConfirmation(t: Tables, session: string, command: string, token: string, now: int): Tables {
    t.(confirmations := t.confirmations[session := Confirmation(command, token, now + CONFIRMATION_WINDOW)])
  }

  function StoreUndo(t: Tables, token: string, session: string, command: string, now: int, ttl: int): Tables {
    var kept := OtherUndos(LiveUndos(t.undos, now), session);
    t.(undos := kept[token := PendingUndo(session, command, now + ttl)])
  }

  function ConsumeUndo(t: Tables, session: string, token: string, now: int): (Tables, Option<PendingUndo>) {
    if session == "" || token == "" then (t, None)
    else
      var live := LiveUndos(t.undos, now);
      if token !in live || live[token].session != session then (t.(undos := live), None)
      else (t.(undos := live - {token}), Some(live[token]))
  }

  function ClearUndo(t: Tables, session: string): Tables {
    if session == "" then t else t.(undos := OtherUndos(t.undos, session))
  }

  function RememberFailure(t: Tables, session: string, token: string, command: string, output: string, now: int): Tables
  {
    var kept := FreshFailures(t.failures, now);
    t.(failures := kept[FailureKey(session, token) := Failure(command, output, now)])
  }

  function TakeFailure(t: Tables, session: string, token: string, now: int): (Tables, Option<Failure>) {
    var kept, key := FreshFailures(t.failures, now), FailureKey(session, token);
    if key in kept then (t.(failures := kept - {key}), Some(kept[key])) else (t.(failures := kept), None)
  }
}
