/** What the session tables give back: round trips of storing and taking. */
module SessionLaws {
  import opened Options
  import opened SessionTables

  // ----------------------------------------------------------------------- confirmations

  predicate Given(session: string, command: string, token: string) { session != "" && command != "" && token != "" }

  /** A stored confirmation is honoured if and only if session, command and token are the stored ones, none of
      them empty, and less than five seconds have passed.  It is used up then and when it has expired, and stays
      otherwise. */
  lemma ConfirmationRoundTrip(t: Tables, s: string, c: string, k: string, now: int, c': string, k': string, now': int)
    ensures var stored := StoreConfirmation(t, s, c, k, now);
            var (after, ok) := ConsumeConfirmationToken(stored, s, c', k', now');
            && (ok <==> Given(s, c', k') && c' == c && k' == k && now' < now + 5 * SECOND)
            && var expired := Given(s, c', k') && now' >= now + 5 * SECOND;
               after == if ok || expired then stored.(confirmations := t.confirmations - {s}) else stored
  {
    assert StoreConfirmation(t, s, c, k, now).confirmations - {s} == t.confirmations - {s};
  }

  /** Other sessions notice nothing. */
  lemma ConfirmationOfOthers(t: Tables, s: string, c: string, k: string, now: int,
                             s': string, c': string, k': string, now': int)
    requires s' != s
    ensures var (after, ok) := ConsumeConfirmationToken(StoreConfirmation(t, s, c, k, now), s', c', k', now');
            var (without, ok') := ConsumeConfirmationToken(t, s', c', k', now');
            ok == ok' && after == StoreConfirmation(without, s, c, k, now)
  {
    assert t.confirmations[s := Confirmation(c, k, now + CONFIRMATION_WINDOW)] - {s'}
        == (t.confirmations - {s'})[s := Confirmation(c, k, now + CONFIRMATION_WINDOW)];
  }

  /** Sending the same command again honours it too, if and only if it is that command and in time; and uses it
      up in any case. */
  lemma ResendRoundTrip(t: Tables, s: string, c: string, k: string, now: int, c': string, now': int)
    ensures var (after, ok) := ConsumeConfirmation(StoreConfirmation(t, s, c, k, now), s, c', now');
            (ok <==> c' == c && now' < now + 5 * SECOND) && after == t.(confirmations := t.confirmations - {s})
  {
    assert StoreConfirmation(t, s, c, k, now).confirmations - {s} == t.confirmations - {s};
  }

  // -------------------------------------------------------------------------------- undos

  /** A stored undo is handed out if and only if session and token are the stored ones, neither empty, and it
      has not expired; then it is gone. */
  lemma UndoRoundTrip(t: Tables, token: string, s: string, c: string, now: int, ttl: int, s': string, now': int)
    ensures var (after, found) := ConsumeUndo(StoreUndo(t, token, s, c, now, ttl), s', token, now');
            && found == (if s' == s && s != "" && token != "" && now' < now + ttl
                         then Some(PendingUndo(s, c, now + ttl)) else None)
            && (found.Some? ==> token !in after.undos)
  {
  }

  /** Storing it withdraws the session's other undos. */
  lemma OlderUndosWithdrawn(t: Tables, token: string, s: string, c: string, now: int, ttl: int,
                            token': string, now': int)
    requires token' != token
    ensures ConsumeUndo(StoreUndo(t, token, s, c, now, ttl), s, token', now').1 == None
  {
  }

  /** And leaves those of other sessions. */
  lemma UndosOfOthers(t: Tables, token: string, s: string, c: string, now: int, ttl: int,
                      s': string, token': string, now': int)
    requires s' != s && token' != token && now <= now'
    ensures ConsumeUndo(StoreUndo(t, token, s, c, now, ttl), s', token', now').1 == ConsumeUndo(t, s', token', now').1
  {
  }

  /** Clearing takes the session's undos and no others. */
  lemma ClearedUndos(t: Tables, s: string, s': string, token: string, now: int)
    requires s != ""
    ensures ConsumeUndo(ClearUndo(t, s), s', token, now).1 == if s' == s then None else ConsumeUndo(t, s', token, now).1
  {
  }

  // ----------------------------------------------------------------------------- failures

  /** A remembered failure is handed out if and only if session and token are its own and at most five minutes
      have passed; either way it is gone afterwards. */
  lemma FailureRoundTrip(t: Tables, s: string, k: string, c: string, output: string, now: int, now': int)
    ensures var (after, found) := TakeFailure(RememberFailure(t, s, k, c, output, now), s, k, now');
            && found == (if now' <= now + 5 * 60 * SECOND then Some(Failure(c, output, now)) else None)
            && FailureKey(s, k) !in after.failures
  {
  }

  /** Under another session or token one gets what one would have got without it. */
  lemma FailuresOfOthers(t: Tables, s: string, k: string, c: string, output: string, now: int,
                         s': string, k': string, now': int)
    requires '\0' !in s && '\0' !in s' && (s' != s || k' != k) && now <= now'
    ensures TakeFailure(RememberFailure(t, s, k, c, output, now), s', k', now').1 == TakeFailure(t, s', k', now').1
  {
    if FailureKey(s, k) == FailureKey(s', k') { FailureKeyInjective(s, k, s', k'); }
  }
}
