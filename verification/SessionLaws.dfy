/** When a code logs someone in and when a refresh token is exchanged (api/internal/account/service.go:87-147,
    repository.go:176-228): exactly which rows each statement accepts, and over all interleavings that no code is used
    and no session exchanged after its expiry or revocation. */
module SessionLaws {
  import opened Wrappers
  import opened AccountSessions

  // ---- one request

  /** A login succeeds exactly with an unused code before its expiry, mailed to the address given, of an account that is
      active, and a fresh token. The code is used up whenever it could be used, even when the rest fails. */
  lemma LoginExactlyWhen(t: Tables, email: string, code: Hash, next: Hash, expiresAt: int)
    ensures var out := RunAlone(t, VerifyConsume(email, code, next, expiresAt));
            var usable := code in t.codes && t.codes[code].consumedAt.None? && t.now < t.codes[code].expiresAt;
            var known := usable && t.codes[code].email == email && email in t.users && t.users[email].active;
            && out.thread == Replied(if !known then NotFound else if next in t.sessions then Failed
                                     else Tokens(t.users[email].id, next))
            && out.tables.codes
               == (if usable then t.codes[code := t.codes[code].(consumedAt := Some(t.now))] else t.codes)
            && out.tables.sessions
               == if known && next !in t.sessions
                  then t.sessions[next := Session(t.users[email].id, expiresAt, false, |t.logins|)] else t.sessions
  {
  }

  /** A new code logs the active account that it was mailed to in, until it expires. */
  lemma MailedCodeLogsIn(w: World, email: string, code: Hash, until: int, elapsed: nat, next: Hash, expiresAt: int)
    requires code !in w.tables.codes && next !in w.tables.sessions
    requires email in w.tables.users && w.tables.users[email].active
    ensures var t := Next(Next(w, MailCode(code, email, until)), Tick(elapsed)).tables;
            var out := RunAlone(t, VerifyConsume(email, code, next, expiresAt));
            out.thread == Replied(if w.tables.now + elapsed < until then Tokens(w.tables.users[email].id, next)
                                  else NotFound)
  {
  }

  /** A refresh succeeds exactly with a session that is neither revoked nor expired, and a fresh token: the session is
      revoked and its successor belongs to the same user. Otherwise nothing changes. */
  lemma RefreshExactlyWhen(t: Tables, token: Hash, next: Hash, expiresAt: int)
    ensures var out := RunAlone(t, RefreshFind(token, next, expiresAt));
            var live := token in t.sessions && !t.sessions[token].revoked && t.now < t.sessions[token].expiresAt;
            && out.thread == Replied(if !live then NotFound else if next in t.sessions then Failed
                                     else Tokens(t.sessions[token].user, next))
            && out.tables.sessions
               == if live && next !in t.sessions
                  then t.sessions[token := t.sessions[token].(revoked := true)]
                                 [next := t.sessions[token].(expiresAt := expiresAt)]
                  else t.sessions
  {
  }

  /** However a refresh is interleaved with other requests, each of its statements refuses an expired session and leaves
      the tables as they are. */
  lemma ExpiredTokenIsRefused(t: Tables, token: Hash, next: Hash, expiresAt: int)
    requires token in t.sessions && t.sessions[token].expiresAt <= t.now
    ensures Advance(t, RefreshFind(token, next, expiresAt)) == After(t, Replied(NotFound))
    ensures Advance(t, RefreshRotate(token, next, expiresAt)) == After(t, Replied(NotFound))
  {
  }

  /** ... and the second one exchanges a session that is still live, whatever happened since the first. */
  lemma LiveTokenIsExchanged(t: Tables, token: Hash, next: Hash, expiresAt: int)
    requires token in t.sessions && !t.sessions[token].revoked && t.now < t.sessions[token].expiresAt
    requires next !in t.sessions
    ensures var out := Advance(t, RefreshRotate(token, next, expiresAt));
            && out.thread == Replied(Tokens(t.sessions[token].user, next))
            && out.tables.exchanges == t.exchanges + [Exchange(token, next, t.sessions[token].user, t.now)]
  {
  }

  /** A logout revokes the session and no other. */
  lemma LogoutRevokes(t: Tables, token: Hash)
    ensures var out := RunAlone(t, LogoutRevoke(token));
            && out.thread == Replied(LoggedOut) && out.tables.sessions.Keys == t.sessions.Keys
            && forall h :: h in t.sessions ==>
                 out.tables.sessions[h] == if h == token then t.sessions[h].(revoked := true) else t.sessions[h]
  {
  }

  // ---- over all runs

  /** The session can never be exchanged again. */
  predicate Dead(t: Tables, token: Hash) {
    token in t.sessions && (t.sessions[token].revoked || t.sessions[token].expiresAt <= t.now)
  }

  lemma DeadStep(w: World, step: Step, token: Hash)
    requires Enabled(w, step) && Dead(w.tables, token)
    ensures var t, t' := w.tables, Next(w, step).tables;
            && Dead(t', token) && t.exchanges <= t'.exchanges
            && forall i :: |t.exchanges| <= i < |t'.exchanges| ==> t'.exchanges[i].spent != token
  {
  }

  /** Over every interleaving, a session that has been revoked or has expired is never exchanged again. */
  lemma {:induction false} DeadIsNeverExchanged(w: World, steps: seq<Step>, token: Hash)
    requires Legal(w, steps) && Dead(w.tables, token)
    ensures var t, t' := w.tables, Execute(w, steps).tables;
            && Dead(t', token) && t.exchanges <= t'.exchanges
            && forall i :: |t.exchanges| <= i < |t'.exchanges| ==> t'.exchanges[i].spent != token
    decreases |steps|
  {
    if steps != [] {
      DeadStep(w, steps[0], token);
      DeadIsNeverExchanged(Next(w, steps[0]), steps[1..], token);
    }
  }

  /** Every exchange came before the expiry of the session it spent, and every code was used before its own. */
  ghost predicate InTime(t: Tables) {
    && (forall i :: 0 <= i < |t.exchanges| ==>
          t.exchanges[i].spent in t.sessions && t.exchanges[i].at < t.sessions[t.exchanges[i].spent].expiresAt
          && t.exchanges[i].at <= t.now)
    && (forall code :: code in t.codes && t.codes[code].consumedAt.Some? ==>
          t.codes[code].consumedAt.value < t.codes[code].expiresAt && t.codes[code].consumedAt.value <= t.now)
  }

  lemma NextInTime(w: World, step: Step)
    requires InTime(w.tables) && Enabled(w, step)
    ensures InTime(Next(w, step).tables)
  {
  }

  lemma {:induction false} RunsStayInTime(w: World, steps: seq<Step>)
    requires InTime(w.tables) && Legal(w, steps)
    ensures InTime(Execute(w, steps).tables)
    decreases |steps|
  {
    if steps != [] {
      NextInTime(w, steps[0]);
      RunsStayInTime(Next(w, steps[0]), steps[1..]);
    }
  }

  /** Over every interleaving: each exchange spent a session before that expired, and each login's code was used before
      it expired. */
  lemma NothingIsUsedAfterItsExpiry(now: int, steps: seq<Step>)
    requires Legal(Initial(now), steps)
    ensures var t := Execute(Initial(now), steps).tables;
            && (forall i :: 0 <= i < |t.exchanges| ==>
                  t.exchanges[i].spent in t.sessions && t.exchanges[i].at < t.sessions[t.exchanges[i].spent].expiresAt)
            && (forall i :: 0 <= i < |t.logins| ==>
                  var code := t.logins[i].code;
                  code in t.codes && t.codes[code].consumedAt.Some?
                  && t.codes[code].consumedAt.value < t.codes[code].expiresAt)
  {
    RunsStayInTime(Initial(now), steps);
    RunsKeepInv(Initial(now), steps);
  }
}
