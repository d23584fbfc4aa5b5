/** Refresh-token sessions and one-time codes (api/internal/account/repository.go:164-228, service.go:87-142).
    Rows are maps keyed by their unique token hash, each SQL statement or transaction is one atomic step, and
    requests are threads that interleave between steps or crash. */
module AccountSessions {
  import opened Wrappers

  type Hash = string

  /** A row of `user_sessions`. `chain` is the login that the row descends from by rotation. */
  datatype Session = Session(user: string, expiresAt: int, revoked: bool, chain: nat)

  /** A row of `magic_codes`. */
  datatype Code = Code(email: string, expiresAt: int, consumedAt: Option<int>)

  datatype User = User(id: string, active: bool)

  /** A completed login, in the order of their `INSERT`s, and a completed exchange of a refresh token. */
  datatype Login = Login(code: Hash, token: Hash, user: string)
  datatype Exchange = Exchange(spent: Hash, next: Hash, user: string, at: int)

  /** `logins` and `exchanges` observe the tables. */
  datatype Tables = Tables(
    sessions: map<Hash, Session>, codes: map<Hash, Code>, users: map<string, User>, now: int,
    logins: seq<Login>, exchanges: seq<Exchange>)

  // ---- statements

  predicate CodeIsLive(t: Tables, code: Hash) {
    code in t.codes && t.codes[code].consumedAt.None? && t.codes[code].expiresAt > t.now
  }

  predicate IsActive(t: Tables, token: Hash) {
    token in t.sessions && !t.sessions[token].revoked && t.sessions[token].expiresAt > t.now
  }

  function Consumed(t: Tables, code: Hash): Tables
    requires code in t.codes
  {
    t.(codes := t.codes[code := t.codes[code].(consumedAt := Some(t.now))])
  }

  /** The `INSERT` of a login; the unique index has accepted the token. */
  function Inserted(t: Tables, code: Hash, token: Hash, user: string, expiresAt: int): Tables {
    t.(sessions := t.sessions[token := Session(user, expiresAt, false, |t.logins|)],
       logins := t.logins + [Login(code, token, user)])
  }

  /** The committed transaction of `RotateSession`. */
  function Rotated(t: Tables, spent: Hash, next: Hash, expiresAt: int): Tables
    requires spent in t.sessions
  {
    var row := t.sessions[spent];
    t.(sessions := t.sessions[spent := row.(revoked := true)][next := Session(row.user, expiresAt, false, row.chain)],
       exchanges := t.exchanges + [Exchange(spent, next, row.user, t.now)])
  }

  function RevokedByHash(t: Tables, token: Hash): Tables {
    if token in t.sessions then t.(sessions := t.sessions[token := t.sessions[token].(revoked := true)]) else t
  }

  /** The repository: each method is one statement or one transaction. */
  class Repository {
    var sessions: map<Hash, Session>
    var codes: map<Hash, Code>
    var users: map<string, User>
    var now: int
    // Observers.
    var logins: seq<Login>
    var exchanges: seq<Exchange>

    ghost function View(): Tables
      reads this
    {
      Tables(sessions, codes, users, now, logins, exchanges)
    }

    method ConsumeMagicCode(code: Hash) returns (email: Option<string>)
      modifies this`codes
      ensures View() == if old(CodeIsLive(View(), code)) then Consumed(old(View()), code) else old(View())
      ensures email == if old(CodeIsLive(View(), code)) then Some(old(codes)[code].email) else None
    {
      if code !in codes || codes[code].consumedAt.Some? || codes[code].expiresAt <= now { return None; }
      codes := codes[code := codes[code].(consumedAt := Some(now))];
      return Some(codes[code].email);
    }

    method FindUserByEmail(email: string) returns (user: Option<User>)
      ensures user == if email in users then Some(users[email]) else None
    {
      return if email in users then Some(users[email]) else None;
    }

    method CreateSession(code: Hash, token: Hash, user: string, expiresAt: int) returns (ok: bool)
      modifies this`sessions, this`logins
      ensures ok == (token !in old(sessions))
      ensures View() == if ok then Inserted(old(View()), code, token, user, expiresAt) else old(View())
    {
      if token in sessions { return false; }
      sessions := sessions[token := Session(user, expiresAt, false, |logins|)];
      logins := logins + [Login(code, token, user)];
      return true;
    }

    method FindActiveSessionByTokenHash(token: Hash) returns (found: bool)
      ensures found == IsActive(View(), token)
    {
      return token in sessions && !sessions[token].revoked && sessions[token].expiresAt > now;
    }

    /** Revoking the old row and inserting its replacement commit together or not at all. */
    method RotateSession(token: Hash, next: Hash, expiresAt: int) returns (user: Option<string>)
      modifies this`sessions, this`exchanges
      ensures user.Some? == (old(IsActive(View(), token)) && next !in old(sessions))
      ensures user.Some? ==> user.value == old(sessions)[token].user
      ensures View() == if user.Some? then Rotated(old(View()), token, next, expiresAt) else old(View())
    {
      if token !in sessions || sessions[token].revoked || sessions[token].expiresAt <= now { return None; }
      var before := sessions;
      var row := sessions[token];
      sessions := sessions[token := row.(revoked := true)];
      if next in sessions {
        // The unique index refuses the row: the transaction rolls back.
        sessions := before;
        return None;
      }
      sessions := sessions[next := Session(row.user, expiresAt, false, row.chain)];
      exchanges := exchanges + [Exchange(token, next, row.user, now)];
      return Some(row.user);
    }

    method RevokeSessionByTokenHash(token: Hash)
      modifies this`sessions
      ensures View() == RevokedByHash(old(View()), token)
    {
      if token in sessions && !sessions[token].revoked {
        sessions := sessions[token := sessions[token].(revoked := true)];
      }
    }
  }

  // ---- requests as threads

  datatype Reply = Tokens(user: string, refreshToken: Hash) | NotFound | Failed | LoggedOut

  /** Where a request stands: the next statement it will run, with its locals. `next` is the hash of the token
      it will hand out, `expiresAt` that token's expiry. */
  datatype Thread =
    | VerifyConsume(email: string, code: Hash, next: Hash, expiresAt: int)
    | VerifyFindUser(code: Hash, bound: string, next: Hash, expiresAt: int)
    | VerifyCreate(code: Hash, user: string, next: Hash, expiresAt: int)
    | RefreshFind(spent: Hash, next: Hash, expiresAt: int)
    | RefreshRotate(spent: Hash, next: Hash, expiresAt: int)
    | LogoutRevoke(token: Hash)
    | Replied(reply: Reply)
    | Crashed

  datatype After = After(tables: Tables, thread: Thread)

  /** One statement of a request and the code up to the next (service.go:87-142). */
  function Advance(t: Tables, thread: Thread): After {
    match thread
    case VerifyConsume(email, code, next, expiresAt) =>
      if CodeIsLive(t, code) then
        var bound := t.codes[code].email;
        After(Consumed(t, code),
              if bound != email then Replied(NotFound) else VerifyFindUser(code, bound, next, expiresAt))
      else After(t, Replied(NotFound))
    case VerifyFindUser(code, bound, next, expiresAt) =>
      After(t, if bound in t.users && t.users[bound].active then VerifyCreate(code, t.users[bound].id, next, expiresAt)
               else Replied(NotFound))
    case VerifyCreate(code, user, next, expiresAt) =>
      if next in t.sessions then After(t, Replied(Failed))
      else After(Inserted(t, code, next, user, expiresAt), Replied(Tokens(user, next)))
    case RefreshFind(token, next, expiresAt) =>
      After(t, if IsActive(t, token) then RefreshRotate(token, next, expiresAt) else Replied(NotFound))
    case RefreshRotate(token, next, expiresAt) =>
      if !IsActive(t, token) then After(t, Replied(NotFound))
      else if next in t.sessions then After(t, Replied(Failed))
      else After(Rotated(t, token, next, expiresAt), Replied(Tokens(t.sessions[token].user, next)))
    case LogoutRevoke(token) => After(RevokedByHash(t, token), Replied(LoggedOut))
    case Replied(_) => After(t, thread)
    case Crashed => After(t, thread)
  }

  /** A request as it runs when nothing interferes. */
  function RunAlone(t: Tables, thread: Thread): After {
    var a := Advance(t, thread);
    var b := Advance(a.tables, a.thread);
    Advance(b.tables, b.thread)
  }

  method VerifyMagicCode(repo: Repository, email: string, code: Hash, next: Hash, expiresAt: int) returns (reply: Reply)
    modifies repo
    ensures After(repo.View(), Replied(reply))
            == RunAlone(old(repo.View()), VerifyConsume(email, code, next, expiresAt))
  {
    var bound := repo.ConsumeMagicCode(code);
    if bound.None? || bound.value != email { return NotFound; }
    var user := repo.FindUserByEmail(bound.value);
    if user.None? || !user.value.active { return NotFound; }
    var ok := repo.CreateSession(code, next, user.value.id, expiresAt);
    return if ok then Tokens(user.value.id, next) else Failed;
  }

  method Refresh(repo: Repository, token: Hash, next: Hash, expiresAt: int) returns (reply: Reply)
    modifies repo
    ensures After(repo.View(), Replied(reply)) == RunAlone(old(repo.View()), RefreshFind(token, next, expiresAt))
  {
    var found := repo.FindActiveSessionByTokenHash(token);
    if !found { return NotFound; }
    var user := repo.RotateSession(token, next, expiresAt);
    return if user.Some? then Tokens(user.value, next) else Failed;
  }

  method Logout(repo: Repository, token: Hash) returns (reply: Reply)
    modifies repo
    ensures After(repo.View(), Replied(reply)) == RunAlone(old(repo.View()), LogoutRevoke(token))
  {
    repo.RevokeSessionByTokenHash(token);
    return LoggedOut;
  }

  // ---- interleavings

  datatype World = World(tables: Tables, threads: seq<Thread>)

  /** A request arrives, runs one statement or crashes; a code is mailed; an account changes; time passes. */
  datatype Step =
    | Arrive(thread: Thread)
    | Run(index: nat)
    | Crash(index: nat)
    | MailCode(code: Hash, email: string, expiresAt: int)
    | SetUser(email: string, user: User)
    | Tick(elapsed: nat)

  predicate Enabled(w: World, step: Step) {
    match step
    case Arrive(thread) => thread.VerifyConsume? || thread.RefreshFind? || thread.LogoutRevoke?
    case Run(i) => i < |w.threads|
    case Crash(i) => i < |w.threads|
    // Users are inserted and change their status; the id of an email's row never changes.
    case SetUser(email, user) => email in w.tables.users ==> w.tables.users[email].id == user.id
    case _ => true
  }

  function Next(w: World, step: Step): World
    requires Enabled(w, step)
  {
    match step
    case Arrive(thread) => w.(threads := w.threads + [thread])
    case Run(i) =>
      var a := Advance(w.tables, w.threads[i]);
      World(a.tables, w.threads[i := a.thread])
    case Crash(i) => w.(threads := w.threads[i := Crashed])
    case MailCode(code, email, expiresAt) =>
      // The unique index refuses a hash that is there already.
      if code in w.tables.codes then w
      else w.(tables := w.tables.(codes := w.tables.codes[code := Code(email, expiresAt, None)]))
    case SetUser(email, user) => w.(tables := w.tables.(users := w.tables.users[email := user]))
    case Tick(elapsed) => w.(tables := w.tables.(now := w.tables.now + elapsed))
  }

  function Initial(now: int): World {
    World(Tables(map[], map[], map[], now, [], []), [])
  }

  predicate Legal(w: World, steps: seq<Step>)
    decreases |steps|
  {
    steps == [] || (Enabled(w, steps[0]) && Legal(Next(w, steps[0]), steps[1..]))
  }

  function Execute(w: World, steps: seq<Step>): World
    requires Legal(w, steps)
    decreases |steps|
  {
    if steps == [] then w else Execute(Next(w, steps[0]), steps[1..])
  }

  // ---- the invariant

  predicate SameLiveChain(a: Session, b: Session) {
    !a.revoked && !b.revoked && a.chain == b.chain
  }

  /** Every session descends from a login, by a chain that keeps its user; a chain has at most one session that
      is not revoked. */
  ghost predicate ChainsOk(t: Tables) {
    && (forall h :: h in t.sessions ==>
          t.sessions[h].chain < |t.logins| && t.sessions[h].user == t.logins[t.sessions[h].chain].user)
    && (forall g, h :: g in t.sessions && h in t.sessions && SameLiveChain(t.sessions[g], t.sessions[h]) ==> g == h)
  }

  /** An exchanged token's session is revoked, and no token was exchanged twice. */
  ghost predicate ExchangesOk(t: Tables) {
    && (forall i :: 0 <= i < |t.exchanges| ==>
          t.exchanges[i].spent in t.sessions && t.sessions[t.exchanges[i].spent].revoked
          && t.exchanges[i].next in t.sessions && t.exchanges[i].user == t.sessions[t.exchanges[i].spent].user)
    && (forall i, j :: 0 <= i < j < |t.exchanges| ==> t.exchanges[i].spent != t.exchanges[j].spent)
  }

  predicate Holds(thread: Thread, code: Hash) {
    (thread.VerifyFindUser? || thread.VerifyCreate?) && thread.code == code
  }

  predicate LoggedIn(t: Tables, code: Hash) {
    exists i :: 0 <= i < |t.logins| && t.logins[i].code == code
  }

  /** A code that some request has consumed is used by that request alone, at most once. */
  ghost predicate CodesOk(w: World) {
    && (forall i :: 0 <= i < |w.threads| && (w.threads[i].VerifyFindUser? || w.threads[i].VerifyCreate?) ==>
          w.threads[i].code in w.tables.codes && w.tables.codes[w.threads[i].code].consumedAt.Some?
          && !LoggedIn(w.tables, w.threads[i].code))
    && (forall i, j :: 0 <= i < j < |w.threads| && (w.threads[i].VerifyFindUser? || w.threads[i].VerifyCreate?) ==>
          !Holds(w.threads[j], w.threads[i].code))
    && (forall i :: 0 <= i < |w.tables.logins| ==>
          w.tables.logins[i].code in w.tables.codes && w.tables.codes[w.tables.logins[i].code].consumedAt.Some?)
    && (forall i, j :: 0 <= i < j < |w.tables.logins| ==> w.tables.logins[i].code != w.tables.logins[j].code)
  }

  ghost predicate Inv(w: World) {
    ChainsOk(w.tables) && ExchangesOk(w.tables) && CodesOk(w)
  }

  lemma LoginKeepsChains(t: Tables, code: Hash, token: Hash, user: string, expiresAt: int)
    requires ChainsOk(t) && token !in t.sessions
    ensures ChainsOk(Inserted(t, code, token, user, expiresAt))
  {
  }

  lemma RotationKeepsChains(t: Tables, spent: Hash, next: Hash, expiresAt: int)
    requires ChainsOk(t) && IsActive(t, spent) && next !in t.sessions
    ensures ChainsOk(Rotated(t, spent, next, expiresAt))
  {
    forall h | h in t.sessions && SameLiveChain(t.sessions[spent], t.sessions[h]) ensures h == spent {
    }
  }

  lemma RevocationKeepsChains(t: Tables, token: Hash)
    requires ChainsOk(t)
    ensures ChainsOk(RevokedByHash(t, token))
  {
  }

  lemma AdvanceKeepsChains(t: Tables, thread: Thread)
    requires ChainsOk(t)
    ensures ChainsOk(Advance(t, thread).tables)
  {
    match thread
    case VerifyCreate(code, user, next, expiresAt) =>
      if next !in t.sessions { LoginKeepsChains(t, code, next, user, expiresAt); }
    case RefreshRotate(spent, next, expiresAt) =>
      if IsActive(t, spent) && next !in t.sessions { RotationKeepsChains(t, spent, next, expiresAt); }
    case LogoutRevoke(token) => RevocationKeepsChains(t, token);
    case _ =>
  }

  lemma AdvanceKeepsExchanges(t: Tables, thread: Thread)
    requires ExchangesOk(t)
    ensures ExchangesOk(Advance(t, thread).tables)
  {
    var t' := Advance(t, thread).tables;
    assert t'.exchanges == t.exchanges || (thread.RefreshRotate? && t'.exchanges[..|t.exchanges|] == t.exchanges);
  }

  lemma RunKeepsCodes(w: World, i: nat)
    requires CodesOk(w) && i < |w.threads|
    ensures CodesOk(Next(w, Run(i)))
  {
    if w.threads[i].VerifyCreate? { CreateKeepsCodes(w, i); }
    else { OthersKeepCodes(w, i); }
  }

  lemma CreateKeepsCodes(w: World, i: nat)
    requires CodesOk(w) && i < |w.threads| && w.threads[i].VerifyCreate?
    ensures CodesOk(Next(w, Run(i)))
  {
    var w', thread := Next(w, Run(i)), w.threads[i];
    if w'.tables != w.tables {
      assert w'.tables.logins[..|w.tables.logins|] == w.tables.logins;
      assert forall k :: 0 <= k < |w.threads| && k != i && (w.threads[k].VerifyFindUser? || w.threads[k].VerifyCreate?)
               ==> w.threads[k].code != thread.code;
    }
  }

  lemma OthersKeepCodes(w: World, i: nat)
    requires CodesOk(w) && i < |w.threads| && !w.threads[i].VerifyCreate?
    ensures CodesOk(Next(w, Run(i)))
  {
    assert Next(w, Run(i)).tables.logins == w.tables.logins;
  }

  lemma NextInv(w: World, step: Step)
    requires Inv(w) && Enabled(w, step)
    ensures Inv(Next(w, step))
  {
    match step
    case Run(i) =>
      AdvanceKeepsChains(w.tables, w.threads[i]);
      AdvanceKeepsExchanges(w.tables, w.threads[i]);
      RunKeepsCodes(w, i);
    case _ =>
  }

  lemma {:induction false} RunsKeepInv(w: World, steps: seq<Step>)
    requires Inv(w) && Legal(w, steps)
    ensures Inv(Execute(w, steps))
    decreases |steps|
  {
    if steps != [] {
      NextInv(w, steps[0]);
      RunsKeepInv(Next(w, steps[0]), steps[1..]);
    }
  }

  // ---- what it means

  /** Over every interleaving, a refresh token is exchanged at most once, and its session stays revoked. */
  lemma TokenExchangedAtMostOnce(now: int, steps: seq<Step>, i: nat, j: nat)
    requires Legal(Initial(now), steps)
    requires var t := Execute(Initial(now), steps).tables;
             i < |t.exchanges| && j < |t.exchanges| && t.exchanges[i].spent == t.exchanges[j].spent
    ensures i == j
    ensures var t := Execute(Initial(now), steps).tables; !IsActive(t, t.exchanges[i].spent)
  {
    RunsKeepInv(Initial(now), steps);
  }

  /** ... and one magic code yields at most one login. */
  lemma CodeYieldsAtMostOneLogin(now: int, steps: seq<Step>, i: nat, j: nat)
    requires Legal(Initial(now), steps)
    requires var t := Execute(Initial(now), steps).tables;
             i < |t.logins| && j < |t.logins| && t.logins[i].code == t.logins[j].code
    ensures i == j
  {
    RunsKeepInv(Initial(now), steps);
  }

  /** The account that a code was mailed to. */
  predicate IsAccountOf(t: Tables, code: Hash, user: string) {
    code in t.codes && t.codes[code].email in t.users && t.users[t.codes[code].email].id == user
  }

  /** A request past its first statement works for the account that its code was mailed to. */
  ghost predicate AccountsOk(w: World) {
    && (forall i :: 0 <= i < |w.threads| && w.threads[i].VerifyFindUser? ==>
          w.threads[i].code in w.tables.codes && w.tables.codes[w.threads[i].code].email == w.threads[i].bound)
    && (forall i :: 0 <= i < |w.threads| && w.threads[i].VerifyCreate? ==>
          IsAccountOf(w.tables, w.threads[i].code, w.threads[i].user))
    && (forall i :: 0 <= i < |w.tables.logins| ==>
          IsAccountOf(w.tables, w.tables.logins[i].code, w.tables.logins[i].user))
  }

  lemma {:induction false} RunsKeepAccounts(w: World, steps: seq<Step>)
    requires AccountsOk(w) && Legal(w, steps)
    ensures AccountsOk(Execute(w, steps))
    decreases |steps|
  {
    if steps != [] {
      NextKeepsAccounts(w, steps[0]);
      RunsKeepAccounts(Next(w, steps[0]), steps[1..]);
    }
  }

  lemma NextKeepsAccounts(w: World, step: Step)
    requires AccountsOk(w) && Enabled(w, step)
    ensures AccountsOk(Next(w, step))
  {
    var w' := Next(w, step);
    forall code, user | IsAccountOf(w.tables, code, user) ensures IsAccountOf(w'.tables, code, user) {
      KeepsAccount(w, step, code, user);
    }
  }

  lemma KeepsAccount(w: World, step: Step, code: Hash, user: string)
    requires Enabled(w, step) && IsAccountOf(w.tables, code, user)
    ensures IsAccountOf(Next(w, step).tables, code, user)
  {
  }

  /** Over every interleaving, a login is for the account that its code was mailed to, and every session descended
      from it is that account's. */
  lemma LoginIsTheCodesAccount(now: int, steps: seq<Step>, h: Hash)
    requires Legal(Initial(now), steps) && h in Execute(Initial(now), steps).tables.sessions
    ensures var t := Execute(Initial(now), steps).tables;
            var row := t.sessions[h];
            row.chain < |t.logins| && t.logins[row.chain].user == row.user
            && IsAccountOf(t, t.logins[row.chain].code, row.user)
  {
    RunsKeepInv(Initial(now), steps);
    RunsKeepAccounts(Initial(now), steps);
  }

  /** Rotation never changes the user, and a chain of rotations has at most one active session. */
  lemma ChainHasOneActiveSession(now: int, steps: seq<Step>, g: Hash, h: Hash)
    requires Legal(Initial(now), steps)
    requires var t := Execute(Initial(now), steps).tables;
             g in t.sessions && h in t.sessions && t.sessions[g].chain == t.sessions[h].chain
    ensures var t := Execute(Initial(now), steps).tables;
            && t.sessions[g].user == t.sessions[h].user
            && (IsActive(t, g) && IsActive(t, h) ==> g == h)
  {
    RunsKeepInv(Initial(now), steps);
  }

  /** A step never deletes a session, changes its user, its chain or its expiry, or makes a revoked one active. */
  lemma RevokedStaysRevoked(w: World, step: Step, h: Hash)
    requires Enabled(w, step) && h in w.tables.sessions
    ensures h in Next(w, step).tables.sessions
    ensures var row, row' := w.tables.sessions[h], Next(w, step).tables.sessions[h];
            row'.user == row.user && row'.chain == row.chain && row'.expiresAt == row.expiresAt
            && (row.revoked ==> row'.revoked)
  {
  }

  lemma {:induction false} RevokedForever(w: World, steps: seq<Step>, h: Hash)
    requires Legal(w, steps) && h in w.tables.sessions && w.tables.sessions[h].revoked
    ensures h in Execute(w, steps).tables.sessions && !IsActive(Execute(w, steps).tables, h)
    decreases |steps|
  {
    if steps != [] {
      RevokedStaysRevoked(w, steps[0], h);
      RevokedForever(Next(w, steps[0]), steps[1..], h);
    }
  }

  /** A session that is active and is refreshed hands its whole standing to the new one: same user, same chain. */
  lemma RotationMovesTheSession(t: Tables, token: Hash, next: Hash, expiresAt: int)
    requires ChainsOk(t) && Advance(t, RefreshRotate(token, next, expiresAt)).thread.reply.Tokens?
    ensures var t' := Advance(t, RefreshRotate(token, next, expiresAt)).tables;
            && IsActive(t, token) && !IsActive(t', token)
            && next in t'.sessions && !t'.sessions[next].revoked
            && t'.sessions[next].user == t.sessions[token].user && t'.sessions[next].chain == t.sessions[token].chain
            && forall h :: h in t.sessions && h != token ==> h in t'.sessions && t'.sessions[h] == t.sessions[h]
  {
  }

  function ActiveBelow(t: Tables, n: nat): set<Hash> {
    set h | h in t.sessions && IsActive(t, h) && t.sessions[h].chain < n
  }

  /** Only one active session can be in chain `n`. */
  lemma NextChainAddsOne(t: Tables, n: nat, g: Hash)
    requires ChainsOk(t) && g in ActiveBelow(t, n + 1) && g !in ActiveBelow(t, n)
    ensures ActiveBelow(t, n + 1) == ActiveBelow(t, n) + {g}
  {
    forall h | h in ActiveBelow(t, n + 1) ensures h in ActiveBelow(t, n) + {g} {
      assert t.sessions[h].chain == n ==> SameLiveChain(t.sessions[g], t.sessions[h]);
    }
  }

  lemma NextChainSize(t: Tables, n: nat)
    requires ChainsOk(t)
    ensures |ActiveBelow(t, n + 1)| <= |ActiveBelow(t, n)| + 1
  {
    if h :| h in ActiveBelow(t, n + 1) && h !in ActiveBelow(t, n) {
      NextChainAddsOne(t, n, h);
    } else {
      assert ActiveBelow(t, n + 1) == ActiveBelow(t, n);
    }
  }

  lemma {:induction false} AtMostOnePerChain(t: Tables, n: nat)
    requires ChainsOk(t)
    ensures |ActiveBelow(t, n)| <= n
  {
    if n == 0 {
      assert ActiveBelow(t, 0) == {};
    } else {
      AtMostOnePerChain(t, n - 1);
      NextChainSize(t, n - 1);
    }
  }

  /** Active sessions never outnumber logins. */
  lemma ActiveSessionsNeverOutnumberLogins(now: int, steps: seq<Step>)
    requires Legal(Initial(now), steps)
    ensures var t := Execute(Initial(now), steps).tables;
            |set h | h in t.sessions && IsActive(t, h)| <= |t.logins|
  {
    RunsKeepInv(Initial(now), steps);
    var t := Execute(Initial(now), steps).tables;
    AtMostOnePerChain(t, |t.logins|);
    assert (set h | h in t.sessions && IsActive(t, h)) == ActiveBelow(t, |t.logins|);
  }
}
