/** Starting, renewing and revoking sessions (`auth/sessions.py`) under any
    interleaving of requests. Refresh rotation with reuse detection is section
    4.14 of RFC 9700; a token's expiry is section 4.1.4 of RFC 7519.

    A request's writes are its own until its transaction commits, and a 401
    rolls them back; the tokens it has marked used or revoked are locked until
    then, and whoever would write one waits. The revocation index is a store of
    its own, written at once. */
module Sessions {
  import opened Wrappers
  import opened Ordering
  import opened Revocation

  type TokenId = nat
  type FamilyId = nat
  type UserId = nat
  type Request = nat

  /** `revokedAt` is when the revocation committed. */
  datatype Session = Session(user: UserId, expiresAt: Time, revokedAt: Option<Time>)

  datatype Token = Token(session: SessionId, family: FamilyId, expiresAt: Time, used: bool, revoked: bool)

  datatype Access = Access(session: SessionId, requestedAt: Time)

  /** How far a request has got. */
  datatype Phase =
    | Found(token: TokenId)
    | Claimed(token: TokenId)
    | Live(token: TokenId)
    | Reusing(session: SessionId, family: FamilyId, durable: bool)
    | Revoking(session: SessionId, tokens: set<TokenId>, held: bool, indexed: bool)
    | Ended(granted: bool)

  datatype Pending = Pending(now: Time, phase: Phase)

  /** `exchanged`, `tip` and `indexedAt` are records for the proof: which token
      was given for which, each family's newest token, and when the index was
      last told of a session. */
  datatype World = World(
    clock: Time,
    sessions: map<SessionId, Session>,
    tokens: map<TokenId, Token>,
    requests: map<Request, Pending>,
    locks: map<TokenId, Request>,
    index: map<SessionId, Time>,
    indexedAt: map<SessionId, Time>,
    access: set<Access>,
    exchanged: set<(TokenId, TokenId)>,
    tip: map<FamilyId, TokenId>)

  const EMPTY := World(0, map[], map[], map[], map[], map[], map[], {}, {}, map[])

  datatype Event =
    | Tick(passed: nat)
    | Start(session: SessionId, token: TokenId, family: FamilyId, user: UserId, ttlSeconds: nat, dropped: set<SessionId>)
    | Present(request: Request, token: TokenId)
    | Claim(request: Request)
    | Check(request: Request, known: bool)
    | Mint(request: Request, token: TokenId)
    | Abort(request: Request)
    | ReviseFamily(request: Request, ok: bool)
    | IndexReuse(request: Request)
    | RevokeRow(request: Request, session: SessionId, user: UserId)
    | RevokeTokens(request: Request)
    | RevokeIndex(request: Request)
    | RevokeCommit(request: Request)

  function Moved(w: World, r: Request, phase: Phase): World
    requires r in w.requests
  {
    w.(requests := w.requests[r := w.requests[r].(phase := phase)])
  }

  /** The locks of everybody else. */
  function LocksWithout(w: World, r: Request): map<TokenId, Request> {
    map t | t in w.locks && w.locks[t] != r :: w.locks[t]
  }

  /** The request is refused, and whatever it wrote is rolled back. */
  function RolledBack(w: World, r: Request): World
    requires r in w.requests
  {
    var phase := w.requests[r].phase;
    var w' := Moved(w, r, Ended(false));
    if phase.Claimed? || phase.Live? then w'.(locks := w.locks - {phase.token})
    else if phase.Revoking? then w'.(locks := LocksWithout(w, r)) else w'
  }

  function WithSessionsRevoked(w: World, gone: set<SessionId>): World {
    w.(sessions := map s | s in w.sessions ::
         if s in gone && w.sessions[s].revokedAt.None? then w.sessions[s].(revokedAt := Some(w.clock)) else w.sessions[s])
  }

  function WithTokensRevoked(w: World, gone: set<TokenId>): World {
    w.(tokens := map t | t in w.tokens ::
         if t in gone then w.tokens[t].(revoked := true) else w.tokens[t])
  }

  function Indexed(w: World, session: SessionId, accessTtlSeconds: nat): World {
    w.(index := w.index[session := w.clock + RevocationTtlSeconds(accessTtlSeconds) * SECOND],
       indexedAt := w.indexedAt[session := w.clock])
  }

  function FamilyTokens(w: World, family: FamilyId): set<TokenId> {
    set t | t in w.tokens && w.tokens[t].family == family
  }

  function SessionTokens(w: World, session: SessionId): set<TokenId> {
    set t | t in w.tokens && w.tokens[t].session == session
  }

  /** A new sign-in: the sessions over the user's ceiling are revoked, in their
      rows only, and a session of a new family begins. */
  function AfterStart(w: World, e: Event): World
    requires e.Start?
  {
    if MayStart(w, e) then Begun(WithSessionsRevoked(w, e.dropped), e) else w
  }

  /** The ids are new, and only the user's own sessions are dropped. */
  predicate MayStart(w: World, e: Event)
    requires e.Start?
  {
    && e.session !in w.sessions && e.token !in w.tokens && e.family !in w.tip
    && forall s :: s in e.dropped ==> s in w.sessions && w.sessions[s].user == e.user
  }

  function Begun(w: World, e: Event): World
    requires e.Start?
  {
    var expiresAt := w.clock + e.ttlSeconds * SECOND;
    w.(sessions := w.sessions[e.session := Session(e.user, expiresAt, None)],
       tokens := w.tokens[e.token := Token(e.session, e.family, expiresAt, false, false)],
       access := w.access + {Access(e.session, w.clock)},
       tip := w.tip[e.family := e.token])
  }

  /** The row of a presented token decides: unknown, revoked or expired is
      refused; used is reuse; anything else may be claimed. */
  function AfterPresent(w: World, r: Request, t: TokenId): World {
    if r in w.requests then w
    else
      var phase :=
        if t !in w.tokens then Ended(false)
        else if w.tokens[t].used then Reusing(w.tokens[t].session, w.tokens[t].family, false)
        else if w.tokens[t].revoked || w.tokens[t].expiresAt <= w.clock then Ended(false)
        else Found(t);
      w.(requests := w.requests[r := Pending(w.clock, phase)])
  }

  /** `mark_used`: waits for whoever has marked the token, then takes it unless
      it has been used. */
  function AfterClaim(w: World, r: Request): World {
    if !(r in w.requests && w.requests[r].phase.Found?) then w
    else
      var t := w.requests[r].phase.token;
      if t in w.locks || t !in w.tokens then w
      else if w.tokens[t].used then RolledBack(w, r)
      else Moved(w, r, Claimed(t)).(locks := w.locks[t := r])
  }

  /** `find_active`, and who the session belongs to. */
  function AfterCheck(w: World, r: Request, known: bool): World {
    if !(r in w.requests && w.requests[r].phase.Claimed?) then w
    else
      var t := w.requests[r].phase.token;
      if ReadsLive(w, t, w.requests[r].now) && known then Moved(w, r, Live(t)) else RolledBack(w, r)
  }

  /** The token's session is there, not revoked and not expired. */
  predicate ReadsLive(w: World, t: TokenId, now: Time) {
    && t in w.tokens && w.tokens[t].session in w.sessions
    && w.sessions[w.tokens[t].session].revokedAt.None? && w.sessions[w.tokens[t].session].expiresAt > now
  }

  /** The exchange commits: the token is used, its successor exists, and an
      access token has been issued as of the request's time. */
  function AfterMint(w: World, r: Request, n: TokenId): World {
    if !(r in w.requests && w.requests[r].phase.Live?) then w
    else if n in w.tokens || w.requests[r].phase.token !in w.tokens
            || w.tokens[w.requests[r].phase.token].session !in w.sessions then w
    else
      var t := w.requests[r].phase.token;
      var spent := w.tokens[t];
      Moved(w, r, Ended(true)).(
        tokens := w.tokens[t := spent.(used := true)][n := Token(spent.session, spent.family, w.sessions[spent.session].expiresAt, false, false)],
        locks := w.locks - {t},
        access := w.access + {Access(spent.session, w.requests[r].now)},
        exchanged := w.exchanged + {(t, n)},
        tip := w.tip[spent.family := n])
  }

  /** Reuse: the family and its session, in a transaction of their own, unless
      that fails; then the index. */
  function AfterRevise(w: World, r: Request, ok: bool): World {
    if !(r in w.requests && w.requests[r].phase.Reusing? && !w.requests[r].phase.durable) then w
    else
      var phase := w.requests[r].phase;
      var w' := Moved(w, r, phase.(durable := true));
      if ok then WithTokensRevoked(WithSessionsRevoked(w', {phase.session}), FamilyTokens(w, phase.family)) else w'
  }

  function AfterAbort(w: World, r: Request): World {
    if r in w.requests && !w.requests[r].phase.Ended? then RolledBack(w, r) else w
  }

  function AfterIndexReuse(accessTtl: nat, w: World, r: Request): World {
    if r in w.requests && w.requests[r].phase.Reusing? && w.requests[r].phase.durable
    then Moved(Indexed(w, w.requests[r].phase.session, accessTtl), r, Ended(false)) else w
  }

  function UnrevokedTokens(w: World, session: SessionId): set<TokenId> {
    set t | t in w.tokens && w.tokens[t].session == session && !w.tokens[t].revoked
  }

  /** Signing a session out: its row, if it is the user's and live, whereupon the
      unrevoked tokens there are of it are looked up; */
  function AfterRevokeRow(w: World, r: Request, s: SessionId, user: UserId): World {
    if r in w.requests || s !in w.sessions then w
    else
      var live := w.sessions[s].user == user && w.sessions[s].revokedAt.None?;
      var phase := if live then Revoking(s, UnrevokedTokens(w, s), false, false) else Ended(false);
      w.(requests := w.requests[r := Pending(w.clock, phase)])
  }

  /** then those tokens, once nobody has marked one; */
  function AfterRevokeTokens(w: World, r: Request): World {
    if !(r in w.requests && w.requests[r].phase.Revoking? && !w.requests[r].phase.held) then w
    else
      var phase := w.requests[r].phase;
      if exists t :: t in phase.tokens && t in w.locks then w
      else
        Moved(w, r, phase.(held := true)).(locks := w.locks + map t | t in phase.tokens && t in w.tokens :: r)
  }

  /** then the index; */
  function AfterRevokeIndex(accessTtl: nat, w: World, r: Request): World {
    if r in w.requests && w.requests[r].phase.Revoking? && w.requests[r].phase.held && !w.requests[r].phase.indexed
    then Moved(Indexed(w, w.requests[r].phase.session, accessTtl), r, w.requests[r].phase.(indexed := true)) else w
  }

  /** and then it commits. */
  function AfterRevokeCommit(w: World, r: Request): World {
    if r in w.requests && w.requests[r].phase.Revoking? && w.requests[r].phase.indexed then
      var phase := w.requests[r].phase;
      var revoked := WithTokensRevoked(WithSessionsRevoked(w, {phase.session}), phase.tokens);
      Moved(revoked, r, Ended(true)).(locks := LocksWithout(w, r))
    else w
  }

  /** One step of one request, or of time. `accessTtl` is the lifetime of an
      access token, in seconds. A step that cannot be taken changes nothing. */
  function After(accessTtl: nat, w: World, e: Event): World {
    match e
    case Tick(passed) => w.(clock := w.clock + passed)
    case Start(_, _, _, _, _, _) => AfterStart(w, e)
    case Present(r, t) => AfterPresent(w, r, t)
    case Claim(r) => AfterClaim(w, r)
    case Check(r, known) => AfterCheck(w, r, known)
    case Mint(r, n) => AfterMint(w, r, n)
    case Abort(r) => AfterAbort(w, r)
    case ReviseFamily(r, ok) => AfterRevise(w, r, ok)
    case IndexReuse(r) => AfterIndexReuse(accessTtl, w, r)
    case RevokeRow(r, s, user) => AfterRevokeRow(w, r, s, user)
    case RevokeTokens(r) => AfterRevokeTokens(w, r)
    case RevokeIndex(r) => AfterRevokeIndex(accessTtl, w, r)
    case RevokeCommit(r) => AfterRevokeCommit(w, r)
  }

  function AfterAll(accessTtl: nat, w: World, events: seq<Event>): World
    decreases |events|
  {
    if events == [] then w else AfterAll(accessTtl, After(accessTtl, w, events[0]), events[1..])
  }

  // --- chains ------------------------------------------------------------------------------------------

  /** A token is its family's newest exactly when it is not used. */
  predicate InChain(w: World, t: TokenId) {
    t in w.tokens ==>
      && w.tokens[t].family in w.tip
      && (!w.tokens[t].used <==> w.tip[w.tokens[t].family] == t)
  }

  /** A request that has marked a token holds its lock, and nobody has used it. */
  predicate HoldsLock(w: World, r: Request) {
    r in w.requests && (w.requests[r].phase.Claimed? || w.requests[r].phase.Live?) ==>
      && w.requests[r].phase.token in w.locks && w.locks[w.requests[r].phase.token] == r
      && w.requests[r].phase.token in w.tokens && !w.tokens[w.requests[r].phase.token].used
  }

  ghost predicate Chained(w: World) {
    && (forall t :: InChain(w, t))
    && (forall r :: HoldsLock(w, r))
    && (forall f :: f in w.tip ==> w.tip[f] in w.tokens && w.tokens[w.tip[f]].family == f)
  }

  /** The same tokens, apart from which are revoked, and the same records. */
  predicate SameChains(w: World, w': World) {
    && w'.tokens.Keys == w.tokens.Keys && w'.exchanged == w.exchanged && w'.tip == w.tip
    && forall t :: t in w.tokens ==> SameToken(w.tokens[t], w'.tokens[t])
  }

  predicate SameToken(a: Token, b: Token) {
    b == a.(revoked := b.revoked)
  }

  lemma ChainsKept(w: World, w': World)
    requires Chained(w) && SameChains(w, w')
    requires forall r :: HoldsLock(w', r)
    ensures Chained(w')
  {
    forall t ensures InChain(w', t) {
      assert InChain(w, t);
      assert t in w.tokens ==> SameToken(w.tokens[t], w'.tokens[t]);
    }
    forall f | f in w'.tip ensures w'.tip[f] in w'.tokens && w'.tokens[w'.tip[f]].family == f {
      assert SameToken(w.tokens[w.tip[f]], w'.tokens[w.tip[f]]);
    }
  }

  /** A request that holds no lock moves on without taking one. */
  lemma MovedChained(w: World, r: Request, p: Pending)
    requires Chained(w) && !p.phase.Claimed? && !p.phase.Live?
    requires r in w.requests ==> !w.requests[r].phase.Claimed? && !w.requests[r].phase.Live?
    ensures Chained(w.(requests := w.requests[r := p]))
  {
    var w' := w.(requests := w.requests[r := p]);
    forall q ensures HoldsLock(w', q) {
      assert HoldsLock(w, q);
    }
    ChainsKept(w, w');
  }

  lemma TokensRevokedChained(w: World, gone: set<TokenId>)
    requires Chained(w)
    ensures Chained(WithTokensRevoked(w, gone))
  {
    var w' := WithTokensRevoked(w, gone);
    assert w'.tokens.Keys == w.tokens.Keys;
    forall q ensures HoldsLock(w', q) {
      assert HoldsLock(w, q);
    }
    ChainsKept(w, w');
  }

  /** What chains do not depend on. */
  lemma ElsewhereChained(w: World, w': World)
    requires Chained(w)
    requires w' == w.(clock := w'.clock, sessions := w'.sessions, index := w'.index, indexedAt := w'.indexedAt, access := w'.access)
    ensures Chained(w')
  {
    forall q ensures HoldsLock(w', q) {
      assert HoldsLock(w, q);
    }
    ChainsKept(w, w');
  }

  /** A request that has marked nothing gives up what it holds, or takes what
      nobody does. */
  lemma LocksChained(w: World, r: Request, p: Pending, locks: map<TokenId, Request>)
    requires Chained(w) && r in w.requests && !p.phase.Claimed? && !p.phase.Live?
    requires !w.requests[r].phase.Claimed? && !w.requests[r].phase.Live?
    requires forall t :: t in w.locks && w.locks[t] != r ==> t in locks && locks[t] == w.locks[t]
    ensures Chained(w.(requests := w.requests[r := p], locks := locks))
  {
    var w' := w.(requests := w.requests[r := p], locks := locks);
    forall q ensures HoldsLock(w', q) {
      assert HoldsLock(w, q);
    }
    ChainsKept(w, w');
  }

  lemma UnmarkedChained(w: World, r: Request)
    requires Chained(w) && r in w.requests && (w.requests[r].phase.Claimed? || w.requests[r].phase.Live?)
    ensures Chained(Moved(w, r, Ended(false)).(locks := w.locks - {w.requests[r].phase.token}))
  {
    var w' := Moved(w, r, Ended(false)).(locks := w.locks - {w.requests[r].phase.token});
    assert HoldsLock(w, r);
    forall q ensures HoldsLock(w', q) {
      assert HoldsLock(w, q);
    }
    ChainsKept(w, w');
  }

  lemma RolledBackChained(w: World, r: Request)
    requires Chained(w) && r in w.requests
    ensures Chained(RolledBack(w, r))
  {
    var phase, p := w.requests[r].phase, w.requests[r].(phase := Ended(false));
    if phase.Claimed? || phase.Live? {
      UnmarkedChained(w, r);
    } else if phase.Revoking? {
      LocksChained(w, r, p, LocksWithout(w, r));
    } else {
      MovedChained(w, r, p);
    }
  }

  lemma ClaimChained(w: World, r: Request)
    requires Chained(w)
    ensures Chained(AfterClaim(w, r))
  {
    if AfterClaim(w, r) != w {
      var t := w.requests[r].phase.token;
      if w.tokens[t].used {
        RolledBackChained(w, r);
      } else {
        var w' := AfterClaim(w, r);
        forall u ensures InChain(w', u) {
          assert InChain(w, u);
        }
        forall q ensures HoldsLock(w', q) {
          assert HoldsLock(w, q);
        }
      }
    }
  }

  lemma CheckChained(w: World, r: Request, known: bool)
    requires Chained(w)
    ensures Chained(AfterCheck(w, r, known))
  {
    if r in w.requests && w.requests[r].phase.Claimed? {
      RolledBackChained(w, r);
      assert HoldsLock(w, r);
      var w' := Moved(w, r, Live(w.requests[r].phase.token));
      forall q ensures HoldsLock(w', q) {
        assert HoldsLock(w, q);
      }
      ChainsKept(w, w');
    }
  }

  lemma MintChained(w: World, r: Request, n: TokenId)
    requires Chained(w)
    ensures Chained(AfterMint(w, r, n))
  {
    var w' := AfterMint(w, r, n);
    if w' != w {
      assert HoldsLock(w, r) && InChain(w, w.requests[r].phase.token);
      forall u ensures InChain(w', u) {
        assert InChain(w, u);
      }
      forall q ensures HoldsLock(w', q) {
        assert HoldsLock(w, q);
      }
    }
  }

  lemma StartChained(w: World, e: Event)
    requires Chained(w) && e.Start?
    ensures Chained(AfterStart(w, e))
  {
    var w' := AfterStart(w, e);
    if w' != w {
      forall u ensures InChain(w', u) {
        assert InChain(w, u);
      }
      forall q ensures HoldsLock(w', q) {
        assert HoldsLock(w, q);
      }
    }
  }

  lemma ReviseChained(w: World, r: Request, ok: bool)
    requires Chained(w)
    ensures Chained(AfterRevise(w, r, ok))
  {
    if r in w.requests && w.requests[r].phase.Reusing? && !w.requests[r].phase.durable {
      var phase := w.requests[r].phase;
      var moved := Moved(w, r, phase.(durable := true));
      MovedChained(w, r, moved.requests[r]);
      if ok {
        ElsewhereChained(moved, WithSessionsRevoked(moved, {phase.session}));
        TokensRevokedChained(WithSessionsRevoked(moved, {phase.session}), FamilyTokens(w, phase.family));
      }
    }
  }

  lemma CommitChained(w: World, r: Request)
    requires Chained(w)
    ensures Chained(AfterRevokeCommit(w, r))
  {
    var w' := AfterRevokeCommit(w, r);
    if w' != w {
      var phase := w.requests[r].phase;
      var revoked := WithSessionsRevoked(w, {phase.session});
      ElsewhereChained(w, revoked);
      TokensRevokedChained(revoked, phase.tokens);
      LocksChained(WithTokensRevoked(revoked, phase.tokens), r, w'.requests[r], w'.locks);
    }
  }

  lemma RevokeChained(accessTtl: nat, w: World, e: Event)
    requires Chained(w) && (e.IndexReuse? || e.RevokeRow? || e.RevokeTokens? || e.RevokeIndex?)
    ensures Chained(After(accessTtl, w, e))
  {
    var w' := After(accessTtl, w, e);
    if w' != w {
      var r := e.request;
      if e.RevokeRow? {
        MovedChained(w, r, w'.requests[r]);
      } else if e.RevokeTokens? {
        LocksChained(w, r, w'.requests[r], w'.locks);
      } else {
        var indexed := Indexed(w, w.requests[r].phase.session, accessTtl);
        ElsewhereChained(w, indexed);
        MovedChained(indexed, r, w'.requests[r]);
      }
    }
  }

  lemma StepChained(accessTtl: nat, w: World, e: Event)
    requires Chained(w)
    ensures Chained(After(accessTtl, w, e))
  {
    match e
    case Tick(passed) => ElsewhereChained(w, w.(clock := w.clock + passed));
    case Start(_, _, _, _, _, _) => StartChained(w, e);
    case Present(r, t) =>
      if r !in w.requests {
        MovedChained(w, r, AfterPresent(w, r, t).requests[r]);
      }
    case Claim(r) => ClaimChained(w, r);
    case Check(r, known) => CheckChained(w, r, known);
    case Mint(r, n) => MintChained(w, r, n);
    case Abort(r) =>
      if r in w.requests {
        RolledBackChained(w, r);
      }
    case ReviseFamily(r, ok) => ReviseChained(w, r, ok);
    case RevokeCommit(r) => CommitChained(w, r);
    case _ => RevokeChained(accessTtl, w, e);
  }

  // --- lineages ----------------------------------------------------------------------------------------

  /** `u` comes right after `t`, at `i`. */
  predicate Follows(p: seq<TokenId>, i: int, t: TokenId, u: TokenId) {
    0 <= i && i + 1 < |p| && p[i] == t && p[i + 1] == u
  }

  predicate Given(exchanged: set<(TokenId, TokenId)>, t: TokenId, u: TokenId) {
    (t, u) in exchanged
  }

  /** Each token of `p` was exchanged for the one after it and for nothing else. */
  ghost predicate InLine(exchanged: set<(TokenId, TokenId)>, p: seq<TokenId>) {
    forall t: TokenId, u: TokenId :: t in p ==> (Given(exchanged, t, u) <==> exists i :: Follows(p, i, t, u))
  }

  /** `p` is all of a family, each token once, from its first to its newest, and
      each was exchanged for the one after it and for nothing else. */
  ghost predicate Lineage(w: World, f: FamilyId, p: seq<TokenId>) {
    && p != [] && NoDuplicates(p)
    && (forall t :: t in p <==> t in w.tokens && w.tokens[t].family == f)
    && f in w.tip && w.tip[f] == p[|p| - 1]
    && InLine(w.exchanged, p)
  }

  ghost predicate HasLineage(w: World, f: FamilyId) {
    exists p :: Lineage(w, f, p)
  }

  ghost predicate Lined(w: World) {
    && (forall t, u :: Given(w.exchanged, t, u) ==> t in w.tokens && u in w.tokens)
    && (forall f :: f in w.tip ==> HasLineage(w, f))
  }

  lemma SameLined(w: World, w': World)
    requires Lined(w) && SameChains(w, w')
    ensures Lined(w')
  {
    forall f | f in w'.tip ensures HasLineage(w', f) {
      assert HasLineage(w, f);
      var p :| Lineage(w, f, p);
      forall t ensures t in p <==> t in w'.tokens && w'.tokens[t].family == f {
        assert t in w.tokens ==> SameToken(w.tokens[t], w'.tokens[t]);
      }
      assert Lineage(w', f, p);
    }
  }

  /** A token more at the end of a list. */
  lemma FollowsMore(p: seq<TokenId>, n: TokenId, t: TokenId, u: TokenId)
    requires p != [] && n !in p
    ensures (exists i :: Follows(p + [n], i, t, u))
            <==> (exists i :: Follows(p, i, t, u)) || (t == p[|p| - 1] && u == n)
  {
    var longer := p + [n];
    if i :| Follows(longer, i, t, u) {
      if i + 1 < |p| {
        assert Follows(p, i, t, u);
      }
    }
    if i :| Follows(p, i, t, u) {
      assert Follows(longer, i, t, u);
    }
    if t == p[|p| - 1] && u == n {
      assert Follows(longer, |p| - 1, t, u);
    }
  }

  lemma NothingFollows(p: seq<TokenId>, n: TokenId, u: TokenId)
    requires n !in p
    ensures !exists i :: Follows(p, i, n, u)
  {
  }

  /** `w'` is `w` with the newest token of `f` exchanged for `n`. */
  predicate Exchanged(w: World, w': World, f: FamilyId, n: TokenId) {
    && f in w.tip && n !in w.tokens && w'.tokens.Keys == w.tokens.Keys + {n} && w'.tokens[n].family == f
    && (forall t :: t in w.tokens ==> w'.tokens[t].family == w.tokens[t].family)
    && w'.exchanged == w.exchanged + {(w.tip[f], n)} && w'.tip == w.tip[f := n]
  }

  /** The newest token of a family, exchanged for a new one. */
  lemma LongerLineage(w: World, w': World, f: FamilyId, p: seq<TokenId>, n: TokenId)
    requires Lineage(w, f, p) && Lined(w) && Exchanged(w, w', f, n)
    ensures Lineage(w', f, p + [n])
  {
    var longer := p + [n];
    forall t ensures t in longer <==> t in w'.tokens && w'.tokens[t].family == f {
      assert t in longer <==> t in p || t == n;
    }
    forall t: TokenId, u: TokenId | t in longer ensures Given(w'.exchanged, t, u) <==> exists i :: Follows(longer, i, t, u) {
      FollowsMore(p, n, t, u);
      assert Given(w'.exchanged, t, u) <==> Given(w.exchanged, t, u) || (t == w.tip[f] && u == n);
      if t == n {
        NothingFollows(p, n, u);
      }
    }
  }

  lemma OtherLineage(w: World, w': World, f: FamilyId, g: FamilyId, n: TokenId)
    requires HasLineage(w, f) && HasLineage(w, g) && g != f && Exchanged(w, w', f, n)
    ensures HasLineage(w', g)
  {
    var p :| Lineage(w, g, p);
    var q :| Lineage(w, f, q);
    assert w.tip[f] in q && w.tip[f] !in p;
    forall t: TokenId, u: TokenId | t in p ensures Given(w'.exchanged, t, u) <==> exists i :: Follows(p, i, t, u) {
      assert Given(w'.exchanged, t, u) <==> Given(w.exchanged, t, u);
    }
    assert Lineage(w', g, p);
  }

  lemma ExchangedLined(w: World, w': World, f: FamilyId, n: TokenId)
    requires Lined(w) && Exchanged(w, w', f, n) && w.tip[f] in w.tokens
    ensures Lined(w')
  {
    assert HasLineage(w, f);
    var p :| Lineage(w, f, p);
    LongerLineage(w, w', f, p, n);
    forall g | g in w'.tip ensures HasLineage(w', g) {
      if g != f {
        OtherLineage(w, w', f, g, n);
      }
    }
    forall t, u | Given(w'.exchanged, t, u) ensures t in w'.tokens && u in w'.tokens {
      assert Given(w.exchanged, t, u) || (t == w.tip[f] && u == n);
    }
  }

  lemma MintLined(w: World, r: Request, n: TokenId)
    requires Chained(w) && Lined(w)
    ensures Lined(AfterMint(w, r, n))
  {
    var w' := AfterMint(w, r, n);
    if w' != w {
      var t := w.requests[r].phase.token;
      assert HoldsLock(w, r) && InChain(w, t);
      ExchangedLined(w, w', w.tokens[t].family, n);
    }
  }

  lemma StartLined(w: World, e: Event)
    requires Chained(w) && Lined(w) && e.Start?
    ensures Lined(AfterStart(w, e))
  {
    var w' := AfterStart(w, e);
    if MayStart(w, e) {
      NewLineage(w, w', e.family, e.token);
      forall g | g in w'.tip ensures HasLineage(w', g) {
        if g != e.family {
          assert HasLineage(w, g);
          var p :| Lineage(w, g, p);
          assert Lineage(w', g, p);
        }
      }
    }
  }

  lemma NewLineage(w: World, w': World, f: FamilyId, n: TokenId)
    requires Chained(w) && Lined(w) && n !in w.tokens && f !in w.tip
    requires w'.tokens.Keys == w.tokens.Keys + {n} && w'.tokens[n].family == f
    requires forall t :: t in w.tokens ==> w'.tokens[t] == w.tokens[t]
    requires w'.exchanged == w.exchanged && w'.tip == w.tip[f := n]
    ensures HasLineage(w', f)
  {
    var p := [n];
    forall t ensures t in p <==> t in w'.tokens && w'.tokens[t].family == f {
      assert InChain(w, t);
    }
    assert Lineage(w', f, p);
  }

  lemma SameTokens(w: World, w': World)
    requires w'.tokens == w.tokens && w'.exchanged == w.exchanged && w'.tip == w.tip
    ensures SameChains(w, w')
  {
  }

  lemma RevokedSameChains(w: World, w': World, gone: set<TokenId>)
    requires w'.tokens == WithTokensRevoked(w, gone).tokens && w'.exchanged == w.exchanged && w'.tip == w.tip
    ensures SameChains(w, w')
  {
  }

  lemma PresentKeepsChains(w: World, r: Request, t: TokenId)
    ensures SameChains(w, AfterPresent(w, r, t))
  {
    SameTokens(w, AfterPresent(w, r, t));
  }

  lemma ClaimKeepsChains(w: World, r: Request)
    ensures SameChains(w, AfterClaim(w, r))
  {
    SameTokens(w, AfterClaim(w, r));
  }

  lemma CheckKeepsChains(w: World, r: Request, known: bool)
    ensures SameChains(w, AfterCheck(w, r, known))
  {
    SameTokens(w, AfterCheck(w, r, known));
  }

  lemma AbortKeepsChains(w: World, r: Request)
    ensures SameChains(w, AfterAbort(w, r))
  {
    SameTokens(w, AfterAbort(w, r));
  }

  lemma ReviseKeepsChains(w: World, r: Request, ok: bool)
    ensures SameChains(w, AfterRevise(w, r, ok))
  {
    var w' := AfterRevise(w, r, ok);
    if w'.tokens == w.tokens {
      SameTokens(w, w');
    } else {
      RevokedSameChains(w, w', FamilyTokens(w, w.requests[r].phase.family));
    }
  }

  lemma IndexKeepsChains(accessTtl: nat, w: World, r: Request)
    ensures SameChains(w, AfterIndexReuse(accessTtl, w, r)) && SameChains(w, AfterRevokeIndex(accessTtl, w, r))
  {
    SameTokens(w, AfterIndexReuse(accessTtl, w, r));
    SameTokens(w, AfterRevokeIndex(accessTtl, w, r));
  }

  lemma RowKeepsChains(w: World, r: Request, s: SessionId, user: UserId)
    ensures SameChains(w, AfterRevokeRow(w, r, s, user))
  {
    SameTokens(w, AfterRevokeRow(w, r, s, user));
  }

  lemma TokensKeepChains(w: World, r: Request)
    ensures SameChains(w, AfterRevokeTokens(w, r))
  {
    SameTokens(w, AfterRevokeTokens(w, r));
  }

  lemma CommitKeepsChains(w: World, r: Request)
    ensures SameChains(w, AfterRevokeCommit(w, r))
  {
    var w' := AfterRevokeCommit(w, r);
    if w'.tokens == w.tokens {
      SameTokens(w, w');
    } else {
      RevokedSameChains(w, w', w.requests[r].phase.tokens);
    }
  }

  /** No step but a sign-in and an exchange touches a chain. */
  lemma StepKeepsChains(accessTtl: nat, w: World, e: Event)
    requires !e.Start? && !e.Mint?
    ensures SameChains(w, After(accessTtl, w, e))
  {
    match e
    case Tick(passed) => SameTokens(w, w.(clock := w.clock + passed));
    case Present(r, t) => PresentKeepsChains(w, r, t);
    case Claim(r) => ClaimKeepsChains(w, r);
    case Check(r, known) => CheckKeepsChains(w, r, known);
    case Abort(r) => AbortKeepsChains(w, r);
    case ReviseFamily(r, ok) => ReviseKeepsChains(w, r, ok);
    case IndexReuse(r) => IndexKeepsChains(accessTtl, w, r);
    case RevokeRow(r, s, user) => RowKeepsChains(w, r, s, user);
    case RevokeTokens(r) => TokensKeepChains(w, r);
    case RevokeIndex(r) => IndexKeepsChains(accessTtl, w, r);
    case RevokeCommit(r) => CommitKeepsChains(w, r);
  }

  lemma StepLined(accessTtl: nat, w: World, e: Event)
    requires Chained(w) && Lined(w)
    ensures Lined(After(accessTtl, w, e))
  {
    match e
    case Start(_, _, _, _, _, _) => StartLined(w, e);
    case Mint(r, n) => MintLined(w, r, n);
    case _ =>
      StepKeepsChains(accessTtl, w, e);
      SameLined(w, After(accessTtl, w, e));
  }

  lemma {:induction false} AlwaysLined(accessTtl: nat, w: World, events: seq<Event>)
    requires Chained(w) && Lined(w)
    ensures Chained(AfterAll(accessTtl, w, events)) && Lined(AfterAll(accessTtl, w, events))
    decreases |events|
  {
    if events != [] {
      StepChained(accessTtl, w, events[0]);
      StepLined(accessTtl, w, events[0]);
      AlwaysLined(accessTtl, After(accessTtl, w, events[0]), events[1..]);
    }
  }

  predicate UnusedOfOneFamily(w: World, t: TokenId, u: TokenId) {
    && t in w.tokens && u in w.tokens && w.tokens[t].family == w.tokens[u].family
    && !w.tokens[t].used && !w.tokens[u].used
  }

  /** In a lineage a token is used exactly when it was given for another. */
  lemma UsedIsExchanged(w: World, t: TokenId)
    requires Chained(w) && Lined(w) && t in w.tokens
    ensures w.tokens[t].used <==> exists u :: Given(w.exchanged, t, u)
  {
    assert InChain(w, t) && HasLineage(w, w.tokens[t].family);
    var p :| Lineage(w, w.tokens[t].family, p);
    var i :| 0 <= i < |p| && p[i] == t;
    if w.tokens[t].used {
      assert i != |p| - 1;
      assert Follows(p, i, t, p[i + 1]);
      assert Given(w.exchanged, t, p[i + 1]);
    }
    if u :| Given(w.exchanged, t, u) {
      var k :| Follows(p, k, t, u);
      assert k == i;
    }
  }

  lemma OneForOne(w: World, t: TokenId, u: TokenId, v: TokenId, x: TokenId)
    requires Chained(w) && Lined(w) && Given(w.exchanged, t, u) && Given(w.exchanged, v, x)
    ensures t == v <==> u == x
  {
    assert InChain(w, t) && InChain(w, v) && HasLineage(w, w.tokens[t].family) && HasLineage(w, w.tokens[v].family);
    var p :| Lineage(w, w.tokens[t].family, p);
    var q :| Lineage(w, w.tokens[v].family, q);
    var i :| Follows(p, i, t, u);
    var k :| Follows(q, k, v, x);
    assert u in p && x in q;
    SameFamilySameLineage(w, p, q, t, u, v, x, i, k);
  }

  lemma SameFamilySameLineage(w: World, p: seq<TokenId>, q: seq<TokenId>, t: TokenId, u: TokenId, v: TokenId,
                              x: TokenId, i: nat, k: nat)
    requires t in w.tokens && v in w.tokens && Lineage(w, w.tokens[t].family, p) && Lineage(w, w.tokens[v].family, q)
    requires Follows(p, i, t, u) && Follows(q, k, v, x)
    ensures t == v <==> u == x
  {
    assert t in p && u in p && v in q && x in q;
    if t == v || u == x {
      assert w.tokens[t].family == w.tokens[v].family;
      assert v in p && Given(w.exchanged, v, x);
      var j :| Follows(p, j, v, x);
    }
  }

  /** Under any interleaving a family is a chain: all its tokens are in one line
      from its first to its newest, each exchanged for the next; no token is
      exchanged for two, no two are exchanged for one, a token has been exchanged
      exactly when it is used, and two unused tokens are never of one family. */
  lemma FamiliesAreChains(accessTtl: nat, events: seq<Event>)
    ensures var w := AfterAll(accessTtl, EMPTY, events);
            && (forall f :: f in w.tip ==> HasLineage(w, f))
            && (forall t :: t in w.tokens ==> w.tokens[t].family in w.tip && (w.tokens[t].used <==> exists u :: Given(w.exchanged, t, u)))
            && (forall t, u, v, x :: Given(w.exchanged, t, u) && Given(w.exchanged, v, x) ==> (t == v <==> u == x))
            && (forall t, u :: UnusedOfOneFamily(w, t, u) ==> t == u)
  {
    AlwaysLined(accessTtl, EMPTY, events);
    var w := AfterAll(accessTtl, EMPTY, events);
    forall t | t in w.tokens ensures w.tokens[t].family in w.tip && (w.tokens[t].used <==> exists u :: Given(w.exchanged, t, u)) {
      assert InChain(w, t);
      UsedIsExchanged(w, t);
    }
    forall t, u, v, x | Given(w.exchanged, t, u) && Given(w.exchanged, v, x) ensures t == v <==> u == x {
      OneForOne(w, t, u, v, x);
    }
    forall t, u | UnusedOfOneFamily(w, t, u) ensures t == u {
      assert InChain(w, t) && InChain(w, u);
    }
  }
}
