/**
 Refresh-token families: rotation on every refresh, detection of replayed tokens, and
 revocation by markers that expire. Every handler is one atomic step, in which any of its
 store calls may fail: some failures end the handler, others are only logged. Random
 identifiers are idealised as identifiers never seen before.
 */
module RefreshTokens {
  type Id = nat

  /** How long a rotated token is remembered, in seconds. */
  const REUSE_MARK := 300

  datatype Meta = Meta(family: Id, session: Id, user: Id)
  datatype TokenEntry = TokenEntry(meta: Meta, expires: nat)
  datatype ConsumedEntry = ConsumedEntry(family: Id, expires: nat)
  datatype SessionEntry = SessionEntry(family: Id, user: Id, expires: nat)

  /** An entry whose time has come is absent for every reader, but stays in its map here, so
      that the keys of `consumed` and `revoked` are the tokens ever exchanged and the families
      ever revoked. */
  datatype Store = Store(
    tokens: map<Id, TokenEntry>, consumed: map<Id, ConsumedEntry>, revoked: map<Id, nat>,
    sessions: map<Id, SessionEntry>, nextId: Id)

  datatype Reply = Refreshed(token: Id) | Invalid | SessionRevoked | StoreError | Disabled

  /** Where an awaited store call ends a refresh: before anything is written, before the old token is
      deleted, or before the new one is stored. */
  datatype Trouble = Fine | NothingWritten | NotDeleted | NotIssued

  /** How a refresh fares. `markOk` and `sessionOk` say whether the two writes whose failure is only
      logged, revoking a replayed family and updating the session record, reach the store. */
  datatype Env = Env(trouble: Trouble, accountOk: bool, markOk: bool, sessionOk: bool)

  const SMOOTH := Env(Fine, true, true, true)

  /** Which store calls of a logout or a revocation get through; none of their failures is reported. */
  datatype Writes = Writes(read: bool, mark: bool, session: bool, token: bool)

  const ALL := Writes(true, true, true, true)

  // ---------------------------------------------------------------- the handlers, as functions

  predicate LiveToken(s: Store, now: nat, token: Id) { token in s.tokens && now < s.tokens[token].expires }

  predicate Remembered(s: Store, now: nat, token: Id) { token in s.consumed && now < s.consumed[token].expires }

  predicate Marked(s: Store, now: nat, family: Id) { family in s.revoked && now < s.revoked[family] }

  predicate LiveSession(s: Store, now: nat, session: Id) { session in s.sessions && now < s.sessions[session].expires }

  /** The session record is written after the token, and its failure is only logged. */
  function Login(s: Store, now: nat, ttl: nat, user: Id, sessionOk: bool): (Store, Id)
  {
    var family, session, token := s.nextId, s.nextId + 1, s.nextId + 2;
    (s.(tokens := s.tokens[token := TokenEntry(Meta(family, session, user), now + ttl)],
        sessions := if sessionOk then s.sessions[session := SessionEntry(family, user, now + ttl)] else s.sessions,
        nextId := s.nextId + 3), token)
  }

  /** Exchanges a live token of an unmarked family for a new one. */
  function Rotate(s: Store, now: nat, ttl: nat, token: Id, env: Env): Store
    requires token in s.tokens
  {
    var meta := s.tokens[token].meta;
    var marked := s.(consumed := s.consumed[token := ConsumedEntry(meta.family, now + REUSE_MARK)],
                     nextId := s.nextId + 1);
    if env.trouble.NotDeleted? then marked
    else if env.trouble.NotIssued? then marked.(tokens := s.tokens - {token})
    else
      marked.(tokens := (s.tokens - {token})[s.nextId := TokenEntry(meta, now + ttl)],
              sessions := if env.sessionOk && LiveSession(s, now, meta.session)
                          then s.sessions[meta.session := s.sessions[meta.session].(expires := now + ttl)]
                          else s.sessions)
  }

  function Refresh(s: Store, now: nat, ttl: nat, token: Id, env: Env): (Store, Reply)
  {
    if env.trouble.NothingWritten? then (s, StoreError)
    else if !LiveToken(s, now, token) then
      (if Remembered(s, now, token) && env.markOk
       then s.(revoked := s.revoked[s.consumed[token].family := now + ttl]) else s, Invalid)
    else if Marked(s, now, s.tokens[token].meta.family) then (s, SessionRevoked)
    else
      (Rotate(s, now, ttl, token, env),
       if !env.trouble.Fine? then StoreError else if !env.accountOk then Disabled else Refreshed(s.nextId))
  }

  function Logout(s: Store, now: nat, ttl: nat, token: Id, w: Writes): Store
  {
    var s' := s.(tokens := if w.token then s.tokens - {token} else s.tokens);
    if w.read && LiveToken(s, now, token) then
      var meta := s.tokens[token].meta;
      s'.(revoked := if w.mark then s.revoked[meta.family := now + ttl] else s.revoked,
          sessions := if w.session then s.sessions - {meta.session} else s.sessions)
    else s'
  }

  datatype RevokeReply = SessionNotFound | Forbidden | Revoked

  function RevokeReplyOf(s: Store, now: nat, session: Id, caller: Id, superAdmin: bool, w: Writes): RevokeReply
  {
    if !w.read || !LiveSession(s, now, session) then SessionNotFound
    else if !superAdmin && s.sessions[session].user != caller then Forbidden
    else Revoked
  }

  function RevokeSession(s: Store, now: nat, ttl: nat, session: Id, caller: Id, superAdmin: bool, w: Writes): Store
  {
    if !RevokeReplyOf(s, now, session, caller, superAdmin, w).Revoked? then s
    else
      s.(revoked := if w.mark then s.revoked[s.sessions[session].family := now + ttl] else s.revoked,
         sessions := if w.session then s.sessions - {session} else s.sessions)
  }

  // ---------------------------------------------------------------- the handlers, as they run

  /** The token store behind the handlers, updated call by call. */
  class Handlers {
    const ttl: nat
    var tokens: map<Id, TokenEntry>
    var consumed: map<Id, ConsumedEntry>
    var revoked: map<Id, nat>
    var sessions: map<Id, SessionEntry>
    var nextId: Id

    constructor (ttl: nat)
      ensures this.ttl == ttl && View() == Store(map[], map[], map[], map[], 0)
    {
      this.ttl := ttl;
      tokens, consumed, revoked, sessions, nextId := map[], map[], map[], map[], 0;
    }

    ghost function View(): Store
      reads this
    {
      Store(tokens, consumed, revoked, sessions, nextId)
    }

    method HandleLogin(now: nat, user: Id, sessionOk: bool) returns (token: Id)
      modifies this
      ensures (View(), token) == Login(old(View()), now, ttl, user, sessionOk)
    {
      var family, session := nextId, nextId + 1;
      token := nextId + 2;
      nextId := nextId + 3;
      tokens := tokens[token := TokenEntry(Meta(family, session, user), now + ttl)];
      if sessionOk {
        sessions := sessions[session := SessionEntry(family, user, now + ttl)];
      }
    }

    method HandleRefresh(now: nat, token: Id, env: Env) returns (reply: Reply)
      modifies this
      ensures (View(), reply) == Refresh(old(View()), now, ttl, token, env)
    {
      if env.trouble.NothingWritten? {
        return StoreError;
      }
      if !(token in tokens && now < tokens[token].expires) {
        if token in consumed && now < consumed[token].expires && env.markOk {
          revoked := revoked[consumed[token].family := now + ttl];
        }
        return Invalid;
      }
      var meta := tokens[token].meta;
      if meta.family in revoked && now < revoked[meta.family] {
        return SessionRevoked;
      }
      var newToken := nextId;
      nextId := nextId + 1;
      consumed := consumed[token := ConsumedEntry(meta.family, now + REUSE_MARK)];
      if env.trouble.NotDeleted? {
        return StoreError;
      }
      tokens := tokens - {token};
      if env.trouble.NotIssued? {
        return StoreError;
      }
      tokens := tokens[newToken := TokenEntry(meta, now + ttl)];
      if env.sessionOk && meta.session in sessions && now < sessions[meta.session].expires {
        sessions := sessions[meta.session := sessions[meta.session].(expires := now + ttl)];
      }
      if !env.accountOk {
        return Disabled;
      }
      return Refreshed(newToken);
    }

    method HandleLogout(now: nat, token: Id, w: Writes)
      modifies this
      ensures View() == Logout(old(View()), now, ttl, token, w)
    {
      if w.read && token in tokens && now < tokens[token].expires {
        var meta := tokens[token].meta;
        if w.mark { revoked := revoked[meta.family := now + ttl]; }
        if w.session { sessions := sessions - {meta.session}; }
      }
      if w.token { tokens := tokens - {token}; }
    }

    method HandleRevokeSession(now: nat, session: Id, caller: Id, superAdmin: bool, w: Writes)
      returns (reply: RevokeReply)
      modifies this
      ensures reply == RevokeReplyOf(old(View()), now, session, caller, superAdmin, w)
      ensures View() == RevokeSession(old(View()), now, ttl, session, caller, superAdmin, w)
    {
      if !w.read || !(session in sessions && now < sessions[session].expires) {
        return SessionNotFound;
      }
      if !superAdmin && sessions[session].user != caller {
        return Forbidden;
      }
      if w.mark { revoked := revoked[sessions[session].family := now + ttl]; }
      if w.session { sessions := sessions - {session}; }
      return Revoked;
    }
  }

  // ---------------------------------------------------------------- timed runs

  datatype Event =
    | Tick(seconds: nat)
    | DoLogin(user: Id, sessionOk: bool)
    | DoRefresh(token: Id, env: Env)
    | DoLogout(token: Id, w: Writes)
    | DoRevoke(session: Id, caller: Id, superAdmin: bool, w: Writes)

  /** `adrift` is history: the families whose session record a lost write left missing or too short. */
  datatype State = State(now: nat, store: Store, adrift: set<Id>)

  /** The refresh gets as far as the rotation, and stores a new token. */
  predicate Rotates(s: Store, now: nat, token: Id, env: Env)
  {
    !env.trouble.NothingWritten? && LiveToken(s, now, token) && !Marked(s, now, s.tokens[token].meta.family)
  }

  predicate Issues(s: Store, now: nat, token: Id, env: Env) { env.trouble.Fine? && Rotates(s, now, token, env) }

  /** The families that an event sets adrift: it fails to write or extend their session record, or it
      deletes the record without marking the family. */
  function SetAdrift(s: State, e: Event): set<Id>
  {
    match e
    case Tick(_) => {}
    case DoLogin(_, sessionOk) => if sessionOk then {} else {s.store.nextId}
    case DoRefresh(token, env) =>
      if Issues(s.store, s.now, token, env) && !env.sessionOk then {s.store.tokens[token].meta.family} else {}
    case DoLogout(token, w) =>
      if w.read && LiveToken(s.store, s.now, token) && !w.mark && w.session
      then {s.store.tokens[token].meta.family} else {}
    case DoRevoke(session, caller, superAdmin, w) =>
      if RevokeReplyOf(s.store, s.now, session, caller, superAdmin, w).Revoked? && !w.mark && w.session
      then {s.store.sessions[session].family} else {}
  }

  function StepStore(s: State, ttl: nat, e: Event): Store
  {
    match e
    case Tick(d) => s.store
    case DoLogin(user, sessionOk) => Login(s.store, s.now, ttl, user, sessionOk).0
    case DoRefresh(token, env) => Refresh(s.store, s.now, ttl, token, env).0
    case DoLogout(token, w) => Logout(s.store, s.now, ttl, token, w)
    case DoRevoke(session, caller, superAdmin, w) => RevokeSession(s.store, s.now, ttl, session, caller, superAdmin, w)
  }

  function Step(s: State, ttl: nat, e: Event): State
  {
    State(if e.Tick? then s.now + e.seconds else s.now, StepStore(s, ttl, e), s.adrift + SetAdrift(s, e))
  }

  function Run(s: State, ttl: nat, es: seq<Event>): State
  {
    if es == [] then s else Step(Run(s, ttl, es[..|es| - 1]), ttl, es[|es| - 1])
  }

  const EMPTY := State(0, Store(map[], map[], map[], map[], 0), {})

  // ---------------------------------------------------------------- invariant

  ghost predicate OneTokenPerFamily(s: Store)
  {
    forall t, u :: t in s.tokens && u in s.tokens && s.tokens[t].meta.family == s.tokens[u].meta.family ==> t == u
  }

  ghost predicate IdsUsed(s: Store)
  {
    && (forall t :: t in s.tokens ==>
          t < s.nextId && s.tokens[t].meta.family < s.nextId && s.tokens[t].meta.session < s.nextId)
    && (forall t :: t in s.consumed ==> t < s.nextId && s.consumed[t].family < s.nextId)
    && (forall k :: k in s.sessions ==> k < s.nextId && s.sessions[k].family < s.nextId)
    && (forall f :: f in s.revoked ==> f < s.nextId)
  }

  /** No token outlives the time it was given, nor the marker of its family. */
  ghost predicate MarkersOutlive(s: Store, now: nat, ttl: nat)
  {
    && (forall t :: t in s.tokens ==> s.tokens[t].expires <= now + ttl)
    && (forall t :: t in s.tokens && s.tokens[t].meta.family in s.revoked ==>
          s.tokens[t].expires <= s.revoked[s.tokens[t].meta.family])
  }

  /** A session on record belongs to the family and user of its token. It lives at least as long,
      unless the family was revoked or is adrift. */
  ghost predicate SessionOk(s: Store, adrift: set<Id>, t: Id)
    requires t in s.tokens
  {
    var m := s.tokens[t].meta;
    && (m.family !in s.revoked && m.family !in adrift ==>
          m.session in s.sessions && s.tokens[t].expires <= s.sessions[m.session].expires)
    && (m.session in s.sessions ==> s.sessions[m.session].family == m.family && s.sessions[m.session].user == m.user)
  }

  ghost predicate SessionsOutlive(s: State)
  {
    forall t :: t in s.store.tokens ==> SessionOk(s.store, s.adrift, t)
  }

  /** The invariants on tokens, for a store at a given time. */
  ghost predicate StoreOk(s: Store, now: nat, ttl: nat)
  {
    OneTokenPerFamily(s) && IdsUsed(s) && MarkersOutlive(s, now, ttl)
  }

  ghost predicate TokensOk(s: State, ttl: nat)
  {
    StoreOk(s.store, s.now, ttl)
  }

  ghost predicate Inv(s: State, ttl: nat)
  {
    TokensOk(s, ttl) && SessionsOutlive(s)
  }

  /** A token that still works belongs to a family that was never revoked. */
  lemma WorkingFamilyNeverRevoked(s: State, ttl: nat, token: Id)
    requires TokensOk(s, ttl) && LiveToken(s.store, s.now, token)
    requires !Marked(s.store, s.now, s.store.tokens[token].meta.family)
    ensures s.store.tokens[token].meta.family !in s.store.revoked
  {
  }

  /** What a rotation of `token` may leave: the old entries but at most that one, plus at most one new
      token of the same family, which replaces it. */
  ghost predicate Rotated(s: Store, r: Store, token: Id, expires: nat)
    requires token in s.tokens
  {
    && r.revoked == s.revoked && r.nextId == s.nextId + 1
    && r.consumed.Keys == s.consumed.Keys + {token} && r.consumed[token].family == s.tokens[token].meta.family
    && (forall t :: t in s.consumed && t != token ==> r.consumed[t] == s.consumed[t])
    && (forall t :: t in r.tokens && t in s.tokens ==> r.tokens[t] == s.tokens[t])
    && (forall t :: t in r.tokens && t !in s.tokens ==>
          t == s.nextId && token !in r.tokens && r.tokens[t] == TokenEntry(s.tokens[token].meta, expires))
    && r.sessions.Keys == s.sessions.Keys
    && (forall k :: k in s.sessions ==> r.sessions[k].family == s.sessions[k].family)
  }

  lemma RotateRotates(s: Store, now: nat, ttl: nat, token: Id, env: Env)
    requires token in s.tokens && s.nextId !in s.tokens
    ensures Rotated(s, Rotate(s, now, ttl, token, env), token, now + ttl)
  {
  }

  lemma RotatedKeepsTokens(s: Store, r: Store, now: nat, ttl: nat, token: Id)
    requires StoreOk(s, now, ttl) && token in s.tokens && s.tokens[token].meta.family !in s.revoked
    requires Rotated(s, r, token, now + ttl)
    ensures OneTokenPerFamily(r)
    ensures IdsUsed(r)
    ensures MarkersOutlive(r, now, ttl)
  {
    assert s.tokens[token].meta.family < s.nextId;
  }

  lemma RotateKeepsTokens(s: Store, now: nat, ttl: nat, token: Id, env: Env)
    requires StoreOk(s, now, ttl) && token in s.tokens && s.tokens[token].meta.family !in s.revoked
    ensures StoreOk(Rotate(s, now, ttl, token, env), now, ttl)
  {
    RotateRotates(s, now, ttl, token, env);
    RotatedKeepsTokens(s, Rotate(s, now, ttl, token, env), now, ttl, token);
  }

  lemma MarkKeepsTokens(s: Store, now: nat, ttl: nat, family: Id)
    requires StoreOk(s, now, ttl) && family < s.nextId
    ensures StoreOk(s.(revoked := s.revoked[family := now + ttl]), now, ttl)
  {
  }

  lemma RefreshKeepsTokens(s: State, ttl: nat, token: Id, env: Env)
    requires TokensOk(s, ttl)
    ensures TokensOk(Step(s, ttl, DoRefresh(token, env)), ttl)
  {
    if LiveToken(s.store, s.now, token) {
      if !Marked(s.store, s.now, s.store.tokens[token].meta.family) {
        WorkingFamilyNeverRevoked(s, ttl, token);
        RotateKeepsTokens(s.store, s.now, ttl, token, env);
      }
    } else if token in s.store.consumed {
      MarkKeepsTokens(s.store, s.now, ttl, s.store.consumed[token].family);
    }
  }

  lemma LogoutKeepsTokens(s: State, ttl: nat, token: Id, w: Writes)
    requires TokensOk(s, ttl)
    ensures TokensOk(Step(s, ttl, DoLogout(token, w)), ttl)
  {
  }

  lemma RevokeKeepsTokens(s: State, ttl: nat, session: Id, caller: Id, superAdmin: bool, w: Writes)
    requires TokensOk(s, ttl)
    ensures TokensOk(Step(s, ttl, DoRevoke(session, caller, superAdmin, w)), ttl)
  {
  }

  lemma StepKeepsTokens(s: State, ttl: nat, e: Event)
    requires TokensOk(s, ttl)
    ensures TokensOk(Step(s, ttl, e), ttl)
  {
    match e
    case DoRefresh(token, env) => RefreshKeepsTokens(s, ttl, token, env);
    case DoLogout(token, w) => LogoutKeepsTokens(s, ttl, token, w);
    case DoRevoke(session, caller, superAdmin, w) => RevokeKeepsTokens(s, ttl, session, caller, superAdmin, w);
    case _ =>
  }

  lemma RotateKeepsSession(s: State, ttl: nat, token: Id, env: Env, t: Id)
    requires Inv(s, ttl) && LiveToken(s.store, s.now, token) && s.store.tokens[token].meta.family !in s.store.revoked
    requires !env.trouble.NothingWritten?
    requires t in Rotate(s.store, s.now, ttl, token, env).tokens
    ensures var lost := if env.trouble.Fine? && !env.sessionOk then {s.store.tokens[token].meta.family} else {};
            SessionOk(Rotate(s.store, s.now, ttl, token, env), s.adrift + lost, t)
  {
    assert SessionOk(s.store, s.adrift, token);
    if t in s.store.tokens { assert SessionOk(s.store, s.adrift, t); }
  }

  lemma RefreshKeepsSession(s: State, ttl: nat, token: Id, env: Env, t: Id)
    requires Inv(s, ttl) && t in Step(s, ttl, DoRefresh(token, env)).store.tokens
    ensures SessionOk(Step(s, ttl, DoRefresh(token, env)).store, Step(s, ttl, DoRefresh(token, env)).adrift, t)
  {
    assert SessionsOutlive(s);
    if Rotates(s.store, s.now, token, env) {
      WorkingFamilyNeverRevoked(s, ttl, token);
      RotateKeepsSession(s, ttl, token, env, t);
    } else {
      assert SessionOk(s.store, s.adrift, t);
    }
  }

  lemma LogoutKeepsSession(s: State, ttl: nat, token: Id, w: Writes, t: Id)
    requires Inv(s, ttl) && t in Step(s, ttl, DoLogout(token, w)).store.tokens
    ensures SessionOk(Step(s, ttl, DoLogout(token, w)).store, Step(s, ttl, DoLogout(token, w)).adrift, t)
  {
    assert SessionOk(s.store, s.adrift, t);
    if token in s.store.tokens { assert SessionOk(s.store, s.adrift, token); }
  }

  lemma RevokeKeepsSession(s: State, ttl: nat, session: Id, caller: Id, superAdmin: bool, w: Writes, t: Id)
    requires Inv(s, ttl) && t in Step(s, ttl, DoRevoke(session, caller, superAdmin, w)).store.tokens
    ensures var s' := Step(s, ttl, DoRevoke(session, caller, superAdmin, w)); SessionOk(s'.store, s'.adrift, t)
  {
    assert SessionOk(s.store, s.adrift, t);
  }

  lemma SessionKept(s: State, ttl: nat, e: Event, t: Id)
    requires Inv(s, ttl) && t in Step(s, ttl, e).store.tokens
    ensures SessionOk(Step(s, ttl, e).store, Step(s, ttl, e).adrift, t)
  {
    match e
    case DoRefresh(token, env) => RefreshKeepsSession(s, ttl, token, env, t);
    case DoLogout(token, w) => LogoutKeepsSession(s, ttl, token, w, t);
    case DoRevoke(session, caller, superAdmin, w) => RevokeKeepsSession(s, ttl, session, caller, superAdmin, w, t);
    case _ => if t in s.store.tokens { assert SessionOk(s.store, s.adrift, t); }
  }

  lemma StepKeepsInv(s: State, ttl: nat, e: Event)
    requires Inv(s, ttl)
    ensures Inv(Step(s, ttl, e), ttl)
  {
    var s' := Step(s, ttl, e);
    StepKeepsTokens(s, ttl, e);
    forall t | t in s'.store.tokens ensures SessionOk(s'.store, s'.adrift, t)
    {
      SessionKept(s, ttl, e, t);
    }
  }

  /** The store holds no token of this family. */
  ghost predicate Tokenless(s: Store, family: Id)
  {
    forall t :: t in s.tokens ==> s.tokens[t].meta.family != family
  }

  /** What is over is over: families ever revoked and exchanges ever made are never forgotten, a token
      once gone never comes back, a family once without a token never gets one, and time moves on. */
  ghost predicate Grows(s: State, r: State)
  {
    && s.store.revoked.Keys <= r.store.revoked.Keys && s.now <= r.now && s.store.nextId <= r.store.nextId
    && (forall t: Id :: t < s.store.nextId && t !in s.store.tokens ==>
          t !in r.store.tokens
          && (t in s.store.consumed ==> t in r.store.consumed && r.store.consumed[t] == s.store.consumed[t]))
    && (forall f: Id :: f < s.store.nextId && Tokenless(s.store, f) ==> Tokenless(r.store, f))
  }

  lemma RotatedGrows(s: State, r: State, token: Id, expires: nat)
    requires IdsUsed(s.store) && token in s.store.tokens && Rotated(s.store, r.store, token, expires) && r.now == s.now
    ensures Grows(s, r)
  {
    forall f: Id | Tokenless(s.store, f) ensures Tokenless(r.store, f)
    {
      assert s.store.tokens[token].meta.family != f;
    }
  }

  /** A store that adds no token but perhaps one of a new family, and leaves the exchanges alone. */
  ghost predicate AddsAtMostOne(s: Store, r: Store)
  {
    && r.consumed == s.consumed && s.revoked.Keys <= r.revoked.Keys && s.nextId <= r.nextId
    && forall t :: t in r.tokens ==>
         (t in s.tokens && r.tokens[t] == s.tokens[t]) || (t >= s.nextId && r.tokens[t].meta.family >= s.nextId)
  }

  lemma OthersAddAtMostOne(s: State, ttl: nat, e: Event)
    requires !e.DoRefresh?
    ensures AddsAtMostOne(s.store, StepStore(s, ttl, e))
  {
  }

  lemma AddingGrows(s: State, r: State)
    requires AddsAtMostOne(s.store, r.store) && s.now <= r.now
    ensures Grows(s, r)
  {
  }

  lemma OthersGrow(s: State, ttl: nat, e: Event)
    requires !e.DoRefresh?
    ensures Grows(s, Step(s, ttl, e))
  {
    OthersAddAtMostOne(s, ttl, e);
    AddingGrows(s, Step(s, ttl, e));
  }

  lemma StepGrows(s: State, ttl: nat, e: Event)
    requires Inv(s, ttl)
    ensures Grows(s, Step(s, ttl, e))
  {
    if e.DoRefresh? {
      if Rotates(s.store, s.now, e.token, e.env) {
        RotateRotates(s.store, s.now, ttl, e.token, e.env);
        RotatedGrows(s, Step(s, ttl, e), e.token, s.now + ttl);
      }
    } else {
      OthersGrow(s, ttl, e);
    }
  }

  lemma GrowsOn(s: State, r: State, r': State)
    requires Grows(s, r) && Grows(r, r')
    ensures Grows(s, r')
  {
  }

  lemma {:induction false} RunKeeps(s: State, ttl: nat, es: seq<Event>)
    requires Inv(s, ttl)
    ensures Inv(Run(s, ttl, es), ttl) && Grows(s, Run(s, ttl, es))
  {
    if es != [] {
      var r, e := Run(s, ttl, es[..|es| - 1]), es[|es| - 1];
      RunKeeps(s, ttl, es[..|es| - 1]);
      StepKeepsInv(r, ttl, e);
      StepGrows(r, ttl, e);
      GrowsOn(s, r, Step(r, ttl, e));
    }
  }

  ghost predicate Reachable(s: State, ttl: nat)
  {
    exists es :: Run(EMPTY, ttl, es) == s
  }

  lemma {:induction false} ReachableInv(s: State, ttl: nat)
    requires Reachable(s, ttl)
    ensures Inv(s, ttl)
  {
    var es :| Run(EMPTY, ttl, es) == s;
    RunKeeps(EMPTY, ttl, es);
  }

  // ---------------------------------------------------------------- what the families guarantee

  /** In every reachable state a family has at most one unexpired token. */
  lemma {:induction false} AtMostOneLiveToken(s: State, ttl: nat, t: Id, u: Id)
    requires Reachable(s, ttl)
    requires LiveToken(s.store, s.now, t) && LiveToken(s.store, s.now, u)
    requires s.store.tokens[t].meta.family == s.store.tokens[u].meta.family
    ensures t == u
  {
    ReachableInv(s, ttl);
  }

  predicate RefreshSucceeds(s: State, ttl: nat, token: Id)
  {
    Refresh(s.store, s.now, ttl, token, SMOOTH).1.Refreshed?
  }

  lemma RevokedIsRefused(s: State, ttl: nat, token: Id)
    requires Inv(s, ttl) && token in s.store.tokens && s.store.tokens[token].meta.family in s.store.revoked
    ensures !RefreshSucceeds(s, ttl, token)
  {
    if LiveToken(s.store, s.now, token) && !Marked(s.store, s.now, s.store.tokens[token].meta.family) {
      WorkingFamilyNeverRevoked(s, ttl, token);
    }
  }

  /** A refresh succeeds exactly for an unexpired stored token of a family never revoked so far, and
      then replaces that token by one of the same session with a full new lifetime. */
  lemma {:induction false} RefreshSucceedsExactly(s: State, ttl: nat, token: Id)
    requires Reachable(s, ttl)
    ensures RefreshSucceeds(s, ttl, token) <==>
              LiveToken(s.store, s.now, token) && s.store.tokens[token].meta.family !in s.store.revoked
    ensures RefreshSucceeds(s, ttl, token) ==>
              var r := Refresh(s.store, s.now, ttl, token, SMOOTH);
              r.0.tokens == (s.store.tokens - {token})[r.1.token := TokenEntry(s.store.tokens[token].meta, s.now + ttl)]
              && r.1.token !in s.store.tokens && r.1.token !in s.store.consumed
  {
    ReachableInv(s, ttl);
    if token in s.store.tokens && s.store.tokens[token].meta.family in s.store.revoked {
      RevokedIsRefused(s, ttl, token);
    }
  }

  /** Which answer a refresh gets, and for what: one of five, each exactly on its condition. Only a live
      token of a family never revoked, an account in order and a store that works lead to a new token. */
  lemma {:induction false} RefreshRepliesExactly(s: State, ttl: nat, token: Id, env: Env)
    requires Reachable(s, ttl)
    ensures var reply := Refresh(s.store, s.now, ttl, token, env).1;
            var works := LiveToken(s.store, s.now, token) && s.store.tokens[token].meta.family !in s.store.revoked;
            && (reply.Refreshed? <==> works && env.trouble.Fine? && env.accountOk)
            && (reply.Disabled? <==> works && env.trouble.Fine? && !env.accountOk)
            && (reply.StoreError? <==>
                  env.trouble.NothingWritten? || (works && (env.trouble.NotDeleted? || env.trouble.NotIssued?)))
            && (reply.SessionRevoked? <==>
                  && !env.trouble.NothingWritten? && LiveToken(s.store, s.now, token)
                  && s.store.tokens[token].meta.family in s.store.revoked)
            && (reply.Invalid? <==> !env.trouble.NothingWritten? && !LiveToken(s.store, s.now, token))
  {
    ReachableInv(s, ttl);
    if LiveToken(s.store, s.now, token) && !Marked(s.store, s.now, s.store.tokens[token].meta.family) {
      WorkingFamilyNeverRevoked(s, ttl, token);
    }
  }

  /** What a refresh with a working token changes: the old token is gone once its deletion went through,
      a new one for the same session and user is there with a full lifetime if it was stored, and the
      session record lives as long if its update got through. */
  lemma {:induction false} RefreshChangesExactly(s: State, ttl: nat, token: Id, env: Env)
    requires Reachable(s, ttl) && RefreshSucceeds(s, ttl, token)
    ensures var r, m := Refresh(s.store, s.now, ttl, token, env).0, s.store.tokens[token].meta;
            match env.trouble
            case NothingWritten => r == s.store
            case NotDeleted => r.tokens == s.store.tokens && r.sessions == s.store.sessions
            case NotIssued => r.tokens == s.store.tokens - {token} && r.sessions == s.store.sessions
            case Fine =>
              && r.tokens == (s.store.tokens - {token})[s.store.nextId := TokenEntry(m, s.now + ttl)]
              && (env.sessionOk && LiveSession(s.store, s.now, m.session) ==>
                    r.sessions == s.store.sessions[m.session := SessionEntry(m.family, m.user, s.now + ttl)])
              && (!env.sessionOk || !LiveSession(s.store, s.now, m.session) ==> r.sessions == s.store.sessions)
    ensures Refresh(s.store, s.now, ttl, token, env).0.revoked == s.store.revoked
  {
    ReachableInv(s, ttl);
    assert SessionOk(s.store, s.adrift, token);
  }

  /** A login gives a token that works, of a family and for a session nobody had before, for that user,
      and a session record with the same lifetime exactly if its write gets through. */
  lemma {:induction false} LoginGivesWorkingToken(s: State, ttl: nat, user: Id, sessionOk: bool)
    requires Reachable(s, ttl) && ttl > 0
    ensures var (r, token) := Login(s.store, s.now, ttl, user, sessionOk);
            var s' := Step(s, ttl, DoLogin(user, sessionOk));
            && token !in s.store.tokens && token !in s.store.consumed && token in r.tokens
            && RefreshSucceeds(s', ttl, token)
            && var e := r.tokens[token];
               && e.meta.user == user && e.expires == s.now + ttl && e.meta.session !in s.store.sessions
               && Tokenless(s.store, e.meta.family) && r.tokens == s.store.tokens[token := e]
               && r.sessions == (if sessionOk
                                 then s.store.sessions[e.meta.session := SessionEntry(e.meta.family, user, s.now + ttl)]
                                 else s.store.sessions)
  {
    ReachableInv(s, ttl);
  }

  /** A marker that has expired has outlived every token of its family. */
  lemma {:induction false} ExpiredMarkerHasDoneItsWork(s: State, ttl: nat, token: Id)
    requires Reachable(s, ttl) && token in s.store.tokens
    requires s.store.tokens[token].meta.family in s.store.revoked
             && !Marked(s.store, s.now, s.store.tokens[token].meta.family)
    ensures !LiveToken(s.store, s.now, token)
  {
    ReachableInv(s, ttl);
  }

  /** A family is over once its marker was written or its token is gone. */
  ghost predicate Over(s: State, family: Id)
  {
    family < s.store.nextId && (family in s.store.revoked || Tokenless(s.store, family))
  }

  /** Over is over: whatever happens afterwards, whatever fails, and however long the marker has been
      expired, no token of the family is ever exchanged again. */
  lemma {:induction false} OverForever(s: State, ttl: nat, family: Id, more: seq<Event>, token: Id)
    requires Inv(s, ttl) && Over(s, family)
    requires var r := Run(s, ttl, more); token in r.store.tokens && r.store.tokens[token].meta.family == family
    ensures !RefreshSucceeds(Run(s, ttl, more), ttl, token)
  {
    RunKeeps(s, ttl, more);
    RevokedIsRefused(Run(s, ttl, more), ttl, token);
  }

  lemma {:induction false} RevokedForever(s: State, ttl: nat, more: seq<Event>, token: Id)
    requires Reachable(s, ttl)
    requires var r := Run(s, ttl, more);
             token in r.store.tokens && r.store.tokens[token].meta.family in s.store.revoked
    ensures !RefreshSucceeds(Run(s, ttl, more), ttl, token)
  {
    ReachableInv(s, ttl);
    RunKeeps(s, ttl, more);
    RevokedIsRefused(Run(s, ttl, more), ttl, token);
  }

  // ---------------------------------------------------------------- exchanges and replays

  predicate Exchanged(s: State, ttl: nat, token: Id, env: Env)
  {
    Refresh(s.store, s.now, ttl, token, env).1.Refreshed?
  }

  lemma ExchangeIsRemembered(s: State, ttl: nat, token: Id, env: Env)
    requires Inv(s, ttl) && Exchanged(s, ttl, token, env)
    ensures var used := Step(s, ttl, DoRefresh(token, env));
            && token < used.store.nextId && token !in used.store.tokens && LiveToken(s.store, s.now, token)
            && token in used.store.consumed
            && used.store.consumed[token] == ConsumedEntry(s.store.tokens[token].meta.family, s.now + REUSE_MARK)
  {
  }

  lemma GoneIsRefused(s: State, ttl: nat, token: Id, env: Env)
    requires token !in s.store.tokens
    ensures !Exchanged(s, ttl, token, env)
  {
  }

  /** A refresh token works once: after an exchange it is never exchanged again, however the later
      attempt fares. */
  lemma {:induction false} TokensAreSingleUse(s: State, ttl: nat, token: Id, env: Env, more: seq<Event>, again: Env)
    requires Reachable(s, ttl) && Exchanged(s, ttl, token, env)
    ensures !Exchanged(Run(Step(s, ttl, DoRefresh(token, env)), ttl, more), ttl, token, again)
  {
    ReachableInv(s, ttl);
    ExchangeIsRemembered(s, ttl, token, env);
    StepKeepsInv(s, ttl, DoRefresh(token, env));
    RunKeeps(Step(s, ttl, DoRefresh(token, env)), ttl, more);
    GoneIsRefused(Run(Step(s, ttl, DoRefresh(token, env)), ttl, more), ttl, token, again);
  }

  /** The replay of `token` reaches the store. */
  predicate Noticed(env: Env) { env.markOk && !env.trouble.NothingWritten? }

  /** Presenting a token that is no longer live revokes its family exactly while its exchange is
      remembered and the marker gets written; otherwise the replay changes nothing at all. */
  lemma ReplayRevokesExactlyWhileRemembered(s: State, ttl: nat, token: Id, env: Env)
    requires !LiveToken(s.store, s.now, token)
    ensures var s' := Step(s, ttl, DoRefresh(token, env));
            if Remembered(s.store, s.now, token) && Noticed(env)
            then s' == s.(store := s.store.(revoked := s.store.revoked[s.store.consumed[token].family := s.now + ttl]))
            else s' == s
  {
  }

  lemma ReplayEndsFamily(s: State, ttl: nat, token: Id, env: Env)
    requires Inv(s, ttl) && token !in s.store.tokens && Remembered(s.store, s.now, token) && Noticed(env)
    ensures Over(Step(s, ttl, DoRefresh(token, env)), s.store.consumed[token].family)
  {
  }

  /** The whole story of a stolen token: it is exchanged in state `s`, shown again in state `shown`
      less than 300 seconds later, and from then on nothing of its family is ever exchanged again. */
  lemma {:induction false} ReplayKillsFamily(s: State, ttl: nat, token: Id, env: Env, between: seq<Event>, shown: State,
                                             replay: Env, more: seq<Event>, r: State, other: Id)
    requires Reachable(s, ttl) && Exchanged(s, ttl, token, env) && Noticed(replay)
    requires shown == Run(Step(s, ttl, DoRefresh(token, env)), ttl, between) && shown.now < s.now + 300
    requires r == Run(Step(shown, ttl, DoRefresh(token, replay)), ttl, more)
    requires other in r.store.tokens && r.store.tokens[other].meta.family == s.store.tokens[token].meta.family
    ensures !RefreshSucceeds(r, ttl, other)
  {
    ReachableInv(s, ttl);
    StepKeepsInv(s, ttl, DoRefresh(token, env));
    ExchangeIsRemembered(s, ttl, token, env);
    RunKeeps(Step(s, ttl, DoRefresh(token, env)), ttl, between);
    ReplayEndsFamily(shown, ttl, token, replay);
    StepKeepsInv(shown, ttl, DoRefresh(token, replay));
    OverForever(Step(shown, ttl, DoRefresh(token, replay)), ttl, s.store.tokens[token].meta.family, more, other);
  }

  /** An exchange is remembered for 300 seconds, to the second, whatever happens in between. */
  lemma {:induction false} RememberedExactly(s: State, ttl: nat, token: Id, env: Env, more: seq<Event>)
    requires Reachable(s, ttl) && Exchanged(s, ttl, token, env)
    ensures var r := Run(Step(s, ttl, DoRefresh(token, env)), ttl, more);
            Remembered(r.store, r.now, token) <==> r.now < s.now + 300
  {
    ReachableInv(s, ttl);
    StepKeepsInv(s, ttl, DoRefresh(token, env));
    ExchangeIsRemembered(s, ttl, token, env);
    RunKeeps(Step(s, ttl, DoRefresh(token, env)), ttl, more);
  }

  // ---------------------------------------------------------------- logging out

  /** A logout ends the family exactly when the marker or the deletion gets through; nobody is told
      when neither does. */
  lemma {:induction false} LogoutEndsExactly(s: State, ttl: nat, token: Id, w: Writes)
    requires Reachable(s, ttl) && RefreshSucceeds(s, ttl, token)
    ensures var s', family := Step(s, ttl, DoLogout(token, w)), s.store.tokens[token].meta.family;
            && (Over(s', family) <==> w.token || (w.read && w.mark))
            && (RefreshSucceeds(s', ttl, token) <==> !Over(s', family))
  {
    ReachableInv(s, ttl);
    RefreshSucceedsExactly(s, ttl, token);
    var s', family := Step(s, ttl, DoLogout(token, w)), s.store.tokens[token].meta.family;
    if w.token {
      assert Tokenless(s'.store, family);
    } else {
      assert token in s'.store.tokens && s'.store.tokens[token].meta.family == family;
    }
  }

  /** Which records a logout removes: the token if its deletion gets through, and the session of a token
      it could read, if that deletion does. */
  lemma LogoutRemovesExactly(s: Store, now: nat, ttl: nat, token: Id, w: Writes)
    ensures var r := Logout(s, now, ttl, token, w);
            && r.tokens == (if w.token then s.tokens - {token} else s.tokens) && r.consumed == s.consumed
            && r.sessions == (if w.read && w.session && LiveToken(s, now, token)
                              then s.sessions - {s.tokens[token].meta.session} else s.sessions)
            && (w.read && w.mark && LiveToken(s, now, token) ==>
                  (Marked(r, now, s.tokens[token].meta.family) <==> ttl > 0))
  {
  }

  /** And then for good. */
  lemma {:induction false} LoggedOutForever(s: State, ttl: nat, token: Id, w: Writes, more: seq<Event>, other: Id)
    requires Reachable(s, ttl) && RefreshSucceeds(s, ttl, token) && (w.token || (w.read && w.mark))
    requires var r := Run(Step(s, ttl, DoLogout(token, w)), ttl, more);
             other in r.store.tokens && r.store.tokens[other].meta.family == s.store.tokens[token].meta.family
    ensures !RefreshSucceeds(Run(Step(s, ttl, DoLogout(token, w)), ttl, more), ttl, other)
  {
    ReachableInv(s, ttl);
    LogoutEndsExactly(s, ttl, token, w);
    StepKeepsInv(s, ttl, DoLogout(token, w));
    OverForever(Step(s, ttl, DoLogout(token, w)), ttl, s.store.tokens[token].meta.family, more, other);
  }

  // ---------------------------------------------------------------- revoking a session

  /** Who may revoke, and what that does: the caller is told "revoked" exactly for a live session of
      their own, or any if super admin, and the family is over exactly if the marker is written too. */
  lemma {:induction false} RevokeEndsExactly(s: State, ttl: nat, token: Id, caller: Id, superAdmin: bool, w: Writes)
    requires Reachable(s, ttl) && RefreshSucceeds(s, ttl, token)
    ensures var m := s.store.tokens[token].meta;
            var s' := Step(s, ttl, DoRevoke(m.session, caller, superAdmin, w));
            var reply := RevokeReplyOf(s.store, s.now, m.session, caller, superAdmin, w);
            && (reply.Revoked? <==>
                  w.read && LiveSession(s.store, s.now, m.session) && (superAdmin || caller == m.user))
            && (Over(s', m.family) <==> reply.Revoked? && w.mark)
            && (RefreshSucceeds(s', ttl, token) <==> !Over(s', m.family))
  {
    ReachableInv(s, ttl);
    RefreshSucceedsExactly(s, ttl, token);
    assert SessionOk(s.store, s.adrift, token);
    assert token in Step(s, ttl, DoRevoke(s.store.tokens[token].meta.session, caller, superAdmin, w)).store.tokens;
  }

  /** A revocation that is told to have happened removes the record, if its deletion gets through, and
      touches no token. */
  lemma RevokeRemovesExactly(s: Store, now: nat, ttl: nat, session: Id, caller: Id, superAdmin: bool, w: Writes)
    ensures var r := RevokeSession(s, now, ttl, session, caller, superAdmin, w);
            && r.tokens == s.tokens && r.consumed == s.consumed
            && r.sessions == (if w.session && RevokeReplyOf(s, now, session, caller, superAdmin, w).Revoked?
                              then s.sessions - {session} else s.sessions)
  {
  }

  /** So the owner of a working token can end it through its session, unless a lost write has set the
      family adrift. */
  lemma {:induction false} WorkingTokenCanBeRevoked(s: State, ttl: nat, token: Id)
    requires Reachable(s, ttl) && RefreshSucceeds(s, ttl, token)
    ensures var m := s.store.tokens[token].meta;
            var s' := Step(s, ttl, DoRevoke(m.session, m.user, false, ALL));
            && (!RefreshSucceeds(s', ttl, token) <==> LiveSession(s.store, s.now, m.session))
            && (m.family !in s.adrift ==> LiveSession(s.store, s.now, m.session))
  {
    ReachableInv(s, ttl);
    RefreshSucceedsExactly(s, ttl, token);
    assert SessionOk(s.store, s.adrift, token);
    RevokeEndsExactly(s, ttl, token, s.store.tokens[token].meta.user, false, ALL);
  }

  // ---------------------------------------------------------------- witnesses

  lemma RunOne(ttl: nat, a: Event)
    ensures Run(EMPTY, ttl, [a]) == Step(EMPTY, ttl, a)
  {
    assert [a][..0] == [];
  }

  lemma RunSnoc(ttl: nat, es: seq<Event>, e: Event)
    ensures Run(EMPTY, ttl, es + [e]) == Step(Run(EMPTY, ttl, es), ttl, e)
  {
    assert (es + [e])[..|es|] == es;
  }

  /** Log in while the session record gets lost: the token works, and no caller, however privileged,
      can revoke its session. */
  lemma {:induction false} LostSessionCannotBeRevoked(ttl: nat, user: Id, caller: Id, superAdmin: bool, w: Writes)
    requires ttl > 0
    ensures var r := Run(EMPTY, ttl, [DoLogin(user, false)]);
            RefreshSucceeds(r, ttl, 2) && RevokeReplyOf(r.store, r.now, 1, caller, superAdmin, w) == SessionNotFound
  {
    RunOne(ttl, DoLogin(user, false));
  }

  /** A refresh whose session update gets lost: the new token outlives the record. */
  lemma {:induction false} MissedUpdateHidesSession(ttl: nat, user: Id, caller: Id, superAdmin: bool, w: Writes)
    requires ttl > 1
    ensures var missed := Env(Fine, true, true, false);
            var r := Run(EMPTY, ttl, [DoLogin(user, true), Tick(1), DoRefresh(2, missed), Tick(ttl - 1)]);
            RefreshSucceeds(r, ttl, 3) && RevokeReplyOf(r.store, r.now, 1, caller, superAdmin, w) == SessionNotFound
  {
    var login, refresh := DoLogin(user, true), DoRefresh(2, Env(Fine, true, true, false));
    RunOne(ttl, login);
    RunSnoc(ttl, [login], Tick(1));
    RunSnoc(ttl, [login, Tick(1)], refresh);
    RunSnoc(ttl, [login, Tick(1), refresh], Tick(ttl - 1));
    assert [login] + [Tick(1)] == [login, Tick(1)] && [login, Tick(1)] + [refresh] == [login, Tick(1), refresh];
    assert [login, Tick(1), refresh] + [Tick(ttl - 1)] == [login, Tick(1), refresh, Tick(ttl - 1)];
  }

  /** The marker itself does expire, and the family stays dead: log in, revoke the session, which
      leaves the token in the store, and wait for as long as the marker lives. */
  lemma {:induction false} MarkerExpiresFamilyStaysDead(ttl: nat, user: Id)
    requires ttl > 0
    ensures var r := Run(EMPTY, ttl, [DoLogin(user, true), DoRevoke(1, user, false, ALL), Tick(ttl)]);
            2 in r.store.tokens && 0 in r.store.revoked && !Marked(r.store, r.now, 0) && !RefreshSucceeds(r, ttl, 2)
  {
    var login, revoke := DoLogin(user, true), DoRevoke(1, user, false, ALL);
    RunOne(ttl, login);
    RunSnoc(ttl, [login], revoke);
    RunSnoc(ttl, [login, revoke], Tick(ttl));
    assert [login] + [revoke] == [login, revoke] && [login, revoke] + [Tick(ttl)] == [login, revoke, Tick(ttl)];
  }
}
