/** Login sessions: refresh-token rotation, reuse detection, device check, logout. */
module Sessions {
  import opened Common

  /** Milliseconds. */
  type Time = int
  type SessionId = nat
  type UserId = nat
  /** Hashing is taken to be injective, so a stored hash is modelled by its token. */
  type Token = nat
  type FamilyId = nat

  const SESSION_TTL: Time := 7 * 24 * 60 * 60 * 1000

  datatype Session = Session(user: UserId, token: Token, family: FamilyId, revoked: bool, expiresAt: Time)
  /** The Redis copy that refresh looks at first. */
  datatype Cached = Cached(agent: string, expiresAt: Time)
  /** The Redis set of a user's session ids. */
  datatype IdSet = IdSet(ids: set<SessionId>, expiresAt: Time)

  datatype AuthDb = AuthDb(
    sessions: map<SessionId, Session>, cache: map<SessionId, Cached>, userSets: map<UserId, IdSet>)

  const EMPTY := AuthDb(map[], map[], map[])

  datatype RefreshResult = NotCached | DeviceMismatch | Invalid | Reused | UserMissing | Rotated

  function LiveIds(db: AuthDb, user: UserId, now: Time): set<SessionId> {
    if user in db.userSets && now < db.userSets[user].expiresAt then db.userSets[user].ids else {}
  }

  predicate IsCached(db: AuthDb, sid: SessionId, now: Time) {
    sid in db.cache && now < db.cache[sid].expiresAt
  }

  /** Both sides must name a device for the check to apply. */
  predicate Mismatch(saved: string, agent: string) {
    saved != "" && agent != "" && saved != agent
  }

  predicate IsValid(db: AuthDb, sid: SessionId, now: Time) {
    sid in db.sessions && !db.sessions[sid].revoked && now <= db.sessions[sid].expiresAt
  }

  /** The checks of refresh, in their order. */
  function RefreshOutcome(
    db: AuthDb, sid: SessionId, token: Token, agent: string, userFound: bool, now: Time): RefreshResult
  {
    if !IsCached(db, sid, now) then NotCached
    else if Mismatch(db.cache[sid].agent, agent) then DeviceMismatch
    else if !IsValid(db, sid, now) then Invalid
    else if db.sessions[sid].token != token then Reused
    else if !userFound then UserMissing
    else Rotated
  }

  function OpenNext(
    db: AuthDb, sid: SessionId, user: UserId, token: Token, family: FamilyId, agent: string, now: Time): AuthDb
  {
    AuthDb(
      db.sessions[sid := Session(user, token, family, false, now + SESSION_TTL)],
      db.cache[sid := Cached(agent, now + SESSION_TTL)],
      db.userSets[user := IdSet(LiveIds(db, user, now) + {sid}, now + SESSION_TTL)])
  }

  function RevokeNext(db: AuthDb, sid: SessionId): AuthDb {
    if sid !in db.sessions then db
    else
      var user := db.sessions[sid].user;
      AuthDb(
        db.sessions[sid := db.sessions[sid].(revoked := true)],
        db.cache - {sid},
        if user !in db.userSets then db.userSets
        else db.userSets[user := db.userSets[user].(ids := db.userSets[user].ids - {sid})])
  }

  /** Revoking a family touches the table only; the Redis copies stay. */
  function RevokeFamily(sessions: map<SessionId, Session>, family: FamilyId): map<SessionId, Session> {
    map s | s in sessions :: if sessions[s].family == family then sessions[s].(revoked := true) else sessions[s]
  }

  function RevokeUser(sessions: map<SessionId, Session>, user: UserId): map<SessionId, Session> {
    map s | s in sessions :: if sessions[s].user == user then sessions[s].(revoked := true) else sessions[s]
  }

  function Renewed(session: Session, token: Token, now: Time): Session {
    session.(token := token, expiresAt := now + SESSION_TTL)
  }

  function RefreshNext(
    db: AuthDb, sid: SessionId, token: Token, agent: string, newToken: Token, userFound: bool, now: Time): AuthDb
  {
    match RefreshOutcome(db, sid, token, agent, userFound, now)
    case NotCached => db
    case DeviceMismatch => RevokeNext(db, sid)
    case Invalid => db
    case Reused => db.(sessions := RevokeFamily(db.sessions, db.sessions[sid].family))
    case UserMissing => db.(sessions := db.sessions[sid := Renewed(db.sessions[sid], newToken, now)])
    case Rotated =>
      db.(sessions := db.sessions[sid := Renewed(db.sessions[sid], newToken, now)],
          cache := db.cache[sid := Cached(agent, now + SESSION_TTL)])
  }

  function LogoutAllNext(db: AuthDb, user: UserId, now: Time): AuthDb {
    AuthDb(RevokeUser(db.sessions, user), db.cache - LiveIds(db, user, now), db.userSets - {user})
  }

  class AuthService {
    var sessions: map<SessionId, Session>
    var cache: map<SessionId, Cached>
    var userSets: map<UserId, IdSet>

    constructor ()
      ensures Db() == EMPTY
    {
      sessions, cache, userSets := map[], map[], map[];
    }

    ghost function Db(): AuthDb
      reads this
    {
      AuthDb(sessions, cache, userSets)
    }

    /** The session part of a login; sid, token and family are fresh random values. */
    method OpenSession(sid: SessionId, user: UserId, token: Token, family: FamilyId, agent: string, now: Time)
      modifies this
      ensures RefreshOutcome(Db(), sid, token, agent, true, now) == Rotated
      ensures Db() == OpenNext(old(Db()), sid, user, token, family, agent, now)
      ensures var until := now + 7 * 24 * 60 * 60 * 1000;
              && sessions == old(sessions)[sid := Session(user, token, family, false, until)]
              && cache == old(cache)[sid := Cached(agent, until)]
              && userSets.Keys == old(userSets).Keys + {user} && userSets[user].expiresAt == until
              && (forall u | u in old(userSets) && u != user :: userSets[u] == old(userSets)[u])
              && forall s :: s in userSets[user].ids <==>
                   s == sid ||
                   (user in old(userSets) && now < old(userSets)[user].expiresAt && s in old(userSets)[user].ids)
    {
      sessions := sessions[sid := Session(user, token, family, false, now + SESSION_TTL)];
      cache := cache[sid := Cached(agent, now + SESSION_TTL)];
      var ids := if user in userSets && now < userSets[user].expiresAt then userSets[user].ids else {};
      userSets := userSets[user := IdSet(ids + {sid}, now + SESSION_TTL)];
    }

    method RevokeSession(sid: SessionId)
      modifies this
      ensures Db() == RevokeNext(old(Db()), sid)
      ensures sid !in old(sessions) ==> unchanged(this)
      ensures sid in old(sessions) ==>
        && sessions == old(sessions)[sid := old(sessions)[sid].(revoked := true)] && cache == old(cache) - {sid}
        && userSets.Keys == old(userSets).Keys
        && forall u | u in userSets ::
             userSets[u] == if u != old(sessions)[sid].user then old(userSets)[u]
                            else IdSet(old(userSets)[u].ids - {sid}, old(userSets)[u].expiresAt)
    {
      if sid in sessions {
        var user := sessions[sid].user;
        sessions := sessions[sid := sessions[sid].(revoked := true)];
        cache := cache - {sid};
        if user in userSets {
          userSets := userSets[user := userSets[user].(ids := userSets[user].ids - {sid})];
        }
      }
    }

    method Refresh(sid: SessionId, token: Token, agent: string, newToken: Token, userFound: bool, now: Time)
      returns (res: RefreshResult)
      modifies this
      ensures Db() == RefreshNext(old(Db()), sid, token, agent, newToken, userFound, now)
      ensures res == RefreshOutcome(old(Db()), sid, token, agent, userFound, now)
      // the checks, in their order
      ensures res == NotCached <==> !(sid in old(cache) && now < old(cache)[sid].expiresAt)
      ensures res == DeviceMismatch <==>
        res != NotCached && old(cache)[sid].agent != "" && agent != "" && old(cache)[sid].agent != agent
      ensures res == Invalid <==>
        (res != NotCached && res != DeviceMismatch &&
         !(sid in old(sessions) && !old(sessions)[sid].revoked && now <= old(sessions)[sid].expiresAt))
      ensures res == Reused <==>
        res != NotCached && res != DeviceMismatch && res != Invalid && token != old(sessions)[sid].token
      ensures res == UserMissing || res == Rotated ==> (res == Rotated <==> userFound)
      // what each leaves behind
      ensures res == NotCached || res == Invalid ==> unchanged(this)
      ensures res == DeviceMismatch && sid in old(sessions) ==>
        sessions == old(sessions)[sid := old(sessions)[sid].(revoked := true)] && cache == old(cache) - {sid}
      ensures res == DeviceMismatch && sid !in old(sessions) ==> unchanged(this)
      ensures res == Reused ==>
        && cache == old(cache) && userSets == old(userSets) && sessions.Keys == old(sessions).Keys
        && forall s | s in sessions ::
             var was := old(sessions)[s];
             sessions[s] == if was.family == old(sessions)[sid].family then was.(revoked := true) else was
      ensures res == UserMissing || res == Rotated ==>
        var until := now + 7 * 24 * 60 * 60 * 1000;
        && sessions == old(sessions)[sid := old(sessions)[sid].(token := newToken, expiresAt := until)]
        && cache == (if userFound then old(cache)[sid := Cached(agent, until)] else old(cache))
        && userSets == old(userSets)
    {
      if sid !in cache || now >= cache[sid].expiresAt {
        return NotCached;
      }
      if Mismatch(cache[sid].agent, agent) {
        RevokeSession(sid);
        return DeviceMismatch;
      }
      if sid !in sessions || sessions[sid].revoked || sessions[sid].expiresAt < now {
        return Invalid;
      }
      var session := sessions[sid];
      if token != session.token {
        sessions := RevokeFamily(sessions, session.family);
        return Reused;
      }
      sessions := sessions[sid := Renewed(session, newToken, now)];
      if !userFound {
        return UserMissing;
      }
      cache := cache[sid := Cached(agent, now + SESSION_TTL)];
      return Rotated;
    }

    method LogoutAll(user: UserId, now: Time)
      modifies this
      ensures Db() == LogoutAllNext(old(Db()), user, now)
      ensures sessions.Keys == old(sessions).Keys && userSets == old(userSets) - {user}
      ensures forall s | s in sessions ::
                var was := old(sessions)[s];
                sessions[s] == if was.user == user then was.(revoked := true) else was
      ensures cache == old(cache) -
                if user in old(userSets) && now < old(userSets)[user].expiresAt then old(userSets)[user].ids else {}
    {
      var ids := if user in userSets && now < userSets[user].expiresAt then userSets[user].ids else {};
      cache := cache - ids;
      userSets := userSets - {user};
      sessions := RevokeUser(sessions, user);
    }

    /** An access token is accepted if its signature and expiry are good and its session is still cached. */
    method VerifyToken(sid: SessionId, signatureOk: bool, now: Time) returns (accepted: bool)
      ensures accepted <==> signatureOk && sid in cache && now < cache[sid].expiresAt
    {
      if !signatureOk {
        return false;
      }
      return sid in cache && now < cache[sid].expiresAt;
    }
  }

  // ---- Runs, with the tokens issued to each session remembered ----

  datatype Op =
    | Open(sid: SessionId, user: UserId, token: Token, family: FamilyId, agent: string, at: Time)
    | Refresh(sid: SessionId, presented: Token, agent: string, newToken: Token, userFound: bool, at: Time)
    | Logout(sid: SessionId)
    | LogoutAll(user: UserId, at: Time)

  datatype World = World(db: AuthDb, issued: map<SessionId, seq<Token>>)

  predicate WasIssued(w: World, token: Token) {
    exists sid | sid in w.issued :: token in w.issued[sid]
  }

  /** Ids and tokens the service draws are fresh; everything a client presents is arbitrary. */
  predicate Enabled(w: World, op: Op) {
    match op
    case Open(sid, _, token, family, _, _) =>
      sid !in w.issued && !WasIssued(w, token) && forall s | s in w.db.sessions :: w.db.sessions[s].family != family
    case Refresh(_, _, _, newToken, _, _) => !WasIssued(w, newToken)
    case _ => true
  }

  function Next(w: World, op: Op): World {
    match op
    case Open(sid, user, token, family, agent, at) =>
      World(OpenNext(w.db, sid, user, token, family, agent, at), w.issued[sid := [token]])
    case Refresh(sid, token, agent, newToken, userFound, at) =>
      World(
        RefreshNext(w.db, sid, token, agent, newToken, userFound, at),
        if RefreshOutcome(w.db, sid, token, agent, userFound, at) in {UserMissing, Rotated} && sid in w.issued
        then w.issued[sid := w.issued[sid] + [newToken]] else w.issued)
    case Logout(sid) => w.(db := RevokeNext(w.db, sid))
    case LogoutAll(user, at) => w.(db := LogoutAllNext(w.db, user, at))
  }

  predicate NoRepeats(tokens: seq<Token>) {
    forall i, j | 0 <= i < j < |tokens| :: tokens[i] != tokens[j]
  }

  /** The stored token is the one issued last, and none was issued twice. */
  predicate TokensOk(stored: Token, tokens: seq<Token>) {
    tokens != [] && NoRepeats(tokens) && stored == tokens[|tokens| - 1]
  }

  predicate Disjoint(a: seq<Token>, b: seq<Token>) {
    forall i, j | 0 <= i < |a| && 0 <= j < |b| :: a[i] != b[j]
  }

  /** No two sessions were ever issued the same token. */
  predicate Apart(issued: map<SessionId, seq<Token>>) {
    forall s, t | s in issued && t in issued && s != t :: Disjoint(issued[s], issued[t])
  }

  predicate OwnFamilies(sessions: map<SessionId, Session>) {
    forall s, t | s in sessions && t in sessions && sessions[s].family == sessions[t].family :: s == t
  }

  predicate TokensStored(w: World) {
    w.issued.Keys == w.db.sessions.Keys
    && forall s | s in w.issued :: TokensOk(w.db.sessions[s].token, w.issued[s])
  }

  /** The table holds the token issued last, no token is issued twice, and every session has its own family. */
  predicate WorldInv(w: World) {
    TokensStored(w) && Apart(w.issued) && OwnFamilies(w.db.sessions)
  }

  predicate ValidRun(w: World, ops: seq<Op>)
    decreases |ops|, 0
  {
    ops == [] || (ValidRun(w, ops[..|ops| - 1]) && Enabled(Run(w, ops[..|ops| - 1]), ops[|ops| - 1]))
  }

  function Run(w: World, ops: seq<Op>): World
    requires ValidRun(w, ops)
    decreases |ops|, 1
  {
    if ops == [] then w else Next(Run(w, ops[..|ops| - 1]), ops[|ops| - 1])
  }

  const START := World(EMPTY, map[])

  lemma {:induction false} IssueKeepsTokensOk(stored: Token, tokens: seq<Token>, added: Token)
    requires TokensOk(stored, tokens) && added !in tokens
    ensures TokensOk(added, tokens + [added])
  {
  }

  lemma {:induction false} NotIssuedTo(w: World, token: Token, sid: SessionId)
    requires !WasIssued(w, token) && sid in w.issued
    ensures token !in w.issued[sid]
  {
  }

  /** A token nobody was issued may be added to one session. */
  lemma {:induction false} StaysApart(w: World, sid: SessionId, before: seq<Token>, token: Token)
    requires Apart(w.issued) && !WasIssued(w, token)
    requires before == if sid in w.issued then w.issued[sid] else []
    ensures Apart(w.issued[sid := before + [token]])
  {
    var after := w.issued[sid := before + [token]];
    forall s, t | s in after && t in after && s != t
      ensures Disjoint(after[s], after[t])
    {
      if s in w.issued { NotIssuedTo(w, token, s); }
      if t in w.issued { NotIssuedTo(w, token, t); }
      assert s in w.issued && t in w.issued ==> Disjoint(w.issued[s], w.issued[t]);
    }
  }

  /** A refresh changes no session's user or family. */
  lemma {:induction false} RefreshKeepsFamilies(
    db: AuthDb, sid: SessionId, token: Token, agent: string, newToken: Token, userFound: bool, now: Time)
    requires OwnFamilies(db.sessions)
    ensures OwnFamilies(RefreshNext(db, sid, token, agent, newToken, userFound, now).sessions)
  {
    var sessions := RefreshNext(db, sid, token, agent, newToken, userFound, now).sessions;
    assert sessions.Keys == db.sessions.Keys;
    assert forall s | s in sessions.Keys :: sessions[s].family == db.sessions[s].family;
  }

  lemma {:induction false} RefreshKeepsToken(w: World, op: Op, s: SessionId)
    requires op.Refresh? && s in w.issued && s in w.db.sessions && !WasIssued(w, op.newToken)
    requires TokensOk(w.db.sessions[s].token, w.issued[s])
    ensures var w' := Next(w, op);
            s in w'.issued && s in w'.db.sessions && TokensOk(w'.db.sessions[s].token, w'.issued[s])
  {
    NotIssuedTo(w, op.newToken, s);
    IssueKeepsTokensOk(w.db.sessions[s].token, w.issued[s], op.newToken);
  }

  lemma {:induction false} RefreshKeepsKeys(w: World, op: Op)
    requires op.Refresh?
    ensures Next(w, op).db.sessions.Keys == w.db.sessions.Keys && Next(w, op).issued.Keys == w.issued.Keys
  {
  }

  lemma {:induction false} RefreshKeepsTokens(w: World, op: Op)
    requires TokensStored(w) && Enabled(w, op) && op.Refresh?
    ensures TokensStored(Next(w, op))
  {
    var w' := Next(w, op);
    RefreshKeepsKeys(w, op);
    forall s | s in w'.issued ensures TokensOk(w'.db.sessions[s].token, w'.issued[s]) {
      RefreshKeepsToken(w, op, s);
    }
  }

  lemma {:induction false} RefreshKeepsInv(w: World, op: Op)
    requires WorldInv(w) && Enabled(w, op) && op.Refresh?
    ensures WorldInv(Next(w, op))
  {
    RefreshKeepsTokens(w, op);
    RefreshKeepsFamilies(w.db, op.sid, op.presented, op.agent, op.newToken, op.userFound, op.at);
    if Next(w, op).issued != w.issued {
      StaysApart(w, op.sid, w.issued[op.sid], op.newToken);
    }
  }

  lemma {:induction false} OpenKeepsTokens(w: World, op: Op)
    requires TokensStored(w) && Enabled(w, op) && op.Open?
    ensures TokensStored(Next(w, op))
  {
    assert Next(w, op).issued.Keys == w.issued.Keys + {op.sid} == Next(w, op).db.sessions.Keys;
  }

  lemma {:induction false} OpenKeepsInv(w: World, op: Op)
    requires WorldInv(w) && Enabled(w, op) && op.Open?
    ensures WorldInv(Next(w, op))
  {
    OpenKeepsTokens(w, op);
    assert [] + [op.token] == [op.token];
    StaysApart(w, op.sid, [], op.token);
  }

  lemma {:induction false} StepKeepsInv(w: World, op: Op)
    requires WorldInv(w) && Enabled(w, op)
    ensures WorldInv(Next(w, op))
  {
    match op
    case Open(_, _, _, _, _, _) => OpenKeepsInv(w, op);
    case Refresh(_, _, _, _, _, _) => RefreshKeepsInv(w, op);
    case Logout(sid) => assert RevokeNext(w.db, sid).sessions.Keys == w.db.sessions.Keys;
    case LogoutAll(user, at) => assert LogoutAllNext(w.db, user, at).sessions.Keys == w.db.sessions.Keys;
  }

  /** Whatever is asked next, with fresh values where the service draws them, a run can go on with it. */
  lemma {:induction false} RunGoesOn(ops: seq<Op>, op: Op)
    requires ValidRun(START, ops)
    requires forall s, token | s in Run(START, ops).issued && token in Run(START, ops).issued[s] ::
               (op.Open? ==> s != op.sid && token != op.token) && (op.Refresh? ==> token != op.newToken)
    requires op.Open? ==> op.sid !in Run(START, ops).issued
    requires op.Open? ==>
      forall s | s in Run(START, ops).db.sessions :: Run(START, ops).db.sessions[s].family != op.family
    ensures Run(START, []) == World(AuthDb(map[], map[], map[]), map[])
    ensures ValidRun(START, ops + [op]) && Run(START, ops + [op]) == Next(Run(START, ops), op)
  {
    assert (ops + [op])[..|ops|] == ops;
  }

  lemma {:induction false} IssuedOnce(w: World, s: SessionId, u: SessionId, i: nat, j: nat)
    requires WorldInv(w) && s in w.issued && u in w.issued && i < |w.issued[s]| && j < |w.issued[u]|
    ensures w.issued[s][i] == w.issued[u][j] ==> s == u && i == j
  {
    assert TokensOk(w.db.sessions[s].token, w.issued[s]);
    assert s != u ==> Disjoint(w.issued[s], w.issued[u]);
  }

  /** In every run: no token is issued twice, the one stored is the last, and every session has its own family. */
  lemma {:induction false} TokensAreUnique(ops: seq<Op>, s: SessionId, u: SessionId)
    requires ValidRun(START, ops) && s in Run(START, ops).issued && u in Run(START, ops).issued
    ensures var w := Run(START, ops);
            && s in w.db.sessions && u in w.db.sessions && w.issued[s] != []
            && w.db.sessions[s].token == w.issued[s][|w.issued[s]| - 1]
            && (forall i, j | 0 <= i < |w.issued[s]| && 0 <= j < |w.issued[u]| && w.issued[s][i] == w.issued[u][j] ::
                  s == u && i == j)
            && (w.db.sessions[s].family == w.db.sessions[u].family ==> s == u)
  {
    RunKeepsInv(START, ops);
    var w := Run(START, ops);
    forall i: nat, j: nat | i < |w.issued[s]| && j < |w.issued[u]| { IssuedOnce(w, s, u, i, j); }
  }

  lemma {:induction false} RunKeepsInv(w: World, ops: seq<Op>)
    requires WorldInv(w) && ValidRun(w, ops)
    ensures WorldInv(Run(w, ops))
    decreases |ops|
  {
    if ops != [] {
      RunKeepsInv(w, ops[..|ops| - 1]);
      StepKeepsInv(Run(w, ops[..|ops| - 1]), ops[|ops| - 1]);
    }
  }

  /** In every run, a refresh succeeds exactly for a session cached for this device, valid, with its newest token. */
  lemma {:induction false} RefreshNeedsNewestToken(ops: seq<Op>, sid: SessionId, token: Token, agent: string, now: Time)
    requires ValidRun(START, ops)
    ensures var w := Run(START, ops);
            RefreshOutcome(w.db, sid, token, agent, true, now) == Rotated <==>
              && sid in w.db.cache && now < w.db.cache[sid].expiresAt
              && (w.db.cache[sid].agent == "" || agent == "" || w.db.cache[sid].agent == agent)
              && sid in w.db.sessions && !w.db.sessions[sid].revoked && now <= w.db.sessions[sid].expiresAt
              && sid in w.issued && w.issued[sid] != [] && token == w.issued[sid][|w.issued[sid]| - 1]
  {
    RunKeepsInv(START, ops);
  }

  /** A superseded token that reaches the comparison revokes its session, and no other session. */
  lemma {:induction false} SupersededTokenRevokes(
    ops: seq<Op>, sid: SessionId, i: nat, agent: string, newToken: Token, userFound: bool, now: Time)
    requires ValidRun(START, ops)
    requires var w := Run(START, ops);
             && sid in w.issued && i < |w.issued[sid]| - 1
             && IsCached(w.db, sid, now) && !Mismatch(w.db.cache[sid].agent, agent) && IsValid(w.db, sid, now)
    ensures var w := Run(START, ops);
            var token := w.issued[sid][i];
            var db' := RefreshNext(w.db, sid, token, agent, newToken, userFound, now);
            && RefreshOutcome(w.db, sid, token, agent, userFound, now) == Reused
            && sid in db'.sessions && db'.sessions[sid].revoked
            && db'.sessions.Keys == w.db.sessions.Keys
            && forall s | s in w.db.sessions && s != sid :: db'.sessions[s] == w.db.sessions[s]
  {
    RunKeepsInv(START, ops);
    var w := Run(START, ops);
    assert TokensOk(w.db.sessions[sid].token, w.issued[sid]);
  }

  predicate IsRevoked(w: World, sid: SessionId) {
    sid in w.db.sessions && w.db.sessions[sid].revoked
  }

  /** The operation ends session sid: by reuse detection, device mismatch, logout or logout-all. */
  predicate Revokes(w: World, op: Op, sid: SessionId)
    requires sid in w.db.sessions
  {
    match op
    case Open(_, _, _, _, _, _) => false
    case Refresh(s, token, agent, _, userFound, at) =>
      s == sid && RefreshOutcome(w.db, s, token, agent, userFound, at) in {Reused, DeviceMismatch}
    case Logout(s) => s == sid
    case LogoutAll(user, _) => user == w.db.sessions[sid].user
  }

  lemma {:induction false} StepKeepsRevoked(w: World, op: Op, sid: SessionId)
    requires WorldInv(w) && Enabled(w, op) && IsRevoked(w, sid)
    ensures IsRevoked(Next(w, op), sid)
  {
  }

  /** After any revocation, whatever happens next, no refresh of that session ever succeeds again. */
  lemma {:induction false} RevokedForGood(
    w: World, ops: seq<Op>, sid: SessionId, token: Token, agent: string, userFound: bool, now: Time)
    requires WorldInv(w) && IsRevoked(w, sid) && ValidRun(w, ops)
    ensures IsRevoked(Run(w, ops), sid)
    ensures RefreshOutcome(Run(w, ops).db, sid, token, agent, userFound, now) !in {Rotated, UserMissing}
    decreases |ops|
  {
    if ops != [] {
      var n := |ops| - 1;
      RevokedForGood(w, ops[..n], sid, token, agent, userFound, now);
      RunKeepsInv(w, ops[..n]);
      StepKeepsRevoked(Run(w, ops[..n]), ops[n], sid);
    }
  }

  /** In every run: once an operation has revoked a session, no refresh of it succeeds however the run goes on. */
  lemma {:induction false} RevocationIsFinal(
    ops: seq<Op>, op: Op, more: seq<Op>, sid: SessionId, token: Token, agent: string, userFound: bool, now: Time)
    requires ValidRun(START, ops) && Enabled(Run(START, ops), op) && ValidRun(Next(Run(START, ops), op), more)
    requires sid in Run(START, ops).db.sessions && Revokes(Run(START, ops), op, sid)
    ensures var db := Run(Next(Run(START, ops), op), more).db;
            RefreshOutcome(db, sid, token, agent, userFound, now) in {NotCached, DeviceMismatch, Invalid}
  {
    var w := Run(START, ops);
    RunKeepsInv(START, ops);
    StepKeepsInv(w, op);
    RevokedForGood(Next(w, op), more, sid, token, agent, userFound, now);
  }

  // ---- How long a revoked session's access tokens are still accepted ----

  /** The operation deletes the cached copy of session sid. */
  predicate Drops(w: World, op: Op, sid: SessionId)
    requires sid in w.db.sessions
  {
    match op
    case Open(_, _, _, _, _, _) => false
    case Refresh(s, token, agent, _, userFound, at) =>
      s == sid && RefreshOutcome(w.db, s, token, agent, userFound, at).DeviceMismatch?
    case Logout(s) => s == sid
    case LogoutAll(user, at) => sid in LiveIds(w.db, user, at)
  }

  lemma {:induction false} RevokedCacheStep(w: World, op: Op, sid: SessionId, now: Time)
    requires WorldInv(w) && Enabled(w, op) && sid in w.db.sessions
    requires IsRevoked(w, sid) || Revokes(w, op, sid)
    ensures IsCached(Next(w, op).db, sid, now) <==> IsCached(w.db, sid, now) && !Drops(w, op, sid)
  {
  }

  /** None of the operations deletes the cached copy. */
  ghost predicate Kept(w: World, ops: seq<Op>, sid: SessionId)
    requires ValidRun(w, ops)
  {
    ops == [] ||
    (var before := Run(w, ops[..|ops| - 1]);
     Kept(w, ops[..|ops| - 1], sid) && sid in before.db.sessions && !Drops(before, ops[|ops| - 1], sid))
  }

  lemma {:induction false} RevokedCacheRun(w: World, ops: seq<Op>, sid: SessionId, now: Time)
    requires WorldInv(w) && IsRevoked(w, sid) && ValidRun(w, ops)
    ensures IsRevoked(Run(w, ops), sid)
    ensures IsCached(Run(w, ops).db, sid, now) <==> IsCached(w.db, sid, now) && Kept(w, ops, sid)
    decreases |ops|
  {
    if ops != [] {
      var n := |ops| - 1;
      RevokedCacheRun(w, ops[..n], sid, now);
      RunKeepsInv(w, ops[..n]);
      StepKeepsRevoked(Run(w, ops[..n]), ops[n], sid);
      RevokedCacheStep(Run(w, ops[..n]), ops[n], sid, now);
    }
  }

  lemma {:induction false} RevokesMakesRevoked(w: World, op: Op, sid: SessionId)
    requires sid in w.db.sessions && Revokes(w, op, sid)
    ensures IsRevoked(Next(w, op), sid)
  {
  }

  /**
   * In every run, when an operation revokes a session, its access tokens go on being accepted at a time now if and
   * only if its cached copy would not have expired by now and neither this nor a later operation deletes that copy.
   * Reuse detection never deletes it, and logout-all only for ids in the user's unexpired set.
   */
  lemma {:induction false} RevokedStillCachedIff(ops: seq<Op>, op: Op, more: seq<Op>, sid: SessionId, now: Time)
    requires ValidRun(START, ops) && Enabled(Run(START, ops), op) && ValidRun(Next(Run(START, ops), op), more)
    requires sid in Run(START, ops).db.sessions && Revokes(Run(START, ops), op, sid)
    ensures var w := Run(START, ops);
            IsCached(Run(Next(w, op), more).db, sid, now) <==>
              IsCached(w.db, sid, now) && !Drops(w, op, sid) && Kept(Next(w, op), more, sid)
  {
    var w := Run(START, ops);
    RunKeepsInv(START, ops);
    StepKeepsInv(w, op);
    RevokesMakesRevoked(w, op, sid);
    RevokedCacheStep(w, op, sid, now);
    RevokedCacheRun(Next(w, op), more, sid, now);
  }

  /** A session opened at 0 and refreshed just before its user's set expires survives a logout-all in the cache. */
  lemma {:induction false} LogoutAllMissesRenewed(agent: string)
    ensures var db0 := OpenNext(EMPTY, 1, 7, 100, 50, agent, 0);
            var db1 := RefreshNext(db0, 1, 100, agent, 101, true, SESSION_TTL - 1);
            var db2 := LogoutAllNext(db1, 7, SESSION_TTL);
            && 1 in db2.sessions && db2.sessions[1].revoked
            && IsCached(db2, 1, SESSION_TTL)
  {
    var db0 := OpenNext(EMPTY, 1, 7, 100, 50, agent, 0);
    assert RefreshOutcome(db0, 1, 100, agent, true, SESSION_TTL - 1) == Rotated;
    var db1 := RefreshNext(db0, 1, 100, agent, 101, true, SESSION_TTL - 1);
    assert LiveIds(db1, 7, SESSION_TTL) == {};
  }
}
