/** When a revoked session is really over: for renewal, at once; for access
    tokens already out, as soon as the index knows. */
module SessionRevocation {
  import opened Wrappers
  import opened Revocation
  import opened Sessions

  // --- what a step leaves as it was ----------------------------------------------------------------------

  predicate IsRevoked(w: World, s: SessionId) {
    s in w.sessions && w.sessions[s].revokedAt.Some?
  }

  /** A request that has read the session as live, and has yet to commit. */
  predicate LiveFor(w: World, r: Request, s: SessionId) {
    && r in w.requests && w.requests[r].phase.Live?
    && w.requests[r].phase.token in w.tokens && w.tokens[w.requests[r].phase.token].session == s
  }

  function AccessOf(w: World, s: SessionId): set<Access> {
    set a | a in w.access && a.session == s
  }

  /** Nothing of the session that was not there before. */
  predicate NothingNew(w: World, w': World, s: SessionId) {
    SessionTokens(w', s) <= SessionTokens(w, s) && AccessOf(w', s) <= AccessOf(w, s)
  }

  predicate SessionKept(w: World, w': World, s: SessionId) {
    if s in w.sessions then
      s in w'.sessions &&
      (w'.sessions[s] == w.sessions[s] || (w.sessions[s].revokedAt.None? && w'.sessions[s].revokedAt == Some(w.clock)))
    else !IsRevoked(w', s)
  }

  /** The index is as it was for a session, or has just been told of it. */
  predicate IndexKept(accessTtl: nat, w: World, w': World, s: SessionId) {
    (Same(w.index, w'.index, s) && Same(w.indexedAt, w'.indexedAt, s)) ||
    (s in w'.index && w'.index[s] == w.clock + RevocationTtlSeconds(accessTtl) * SECOND
     && s in w'.indexedAt && w'.indexedAt[s] == w.clock)
  }

  predicate Same(m: map<SessionId, Time>, m': map<SessionId, Time>, s: SessionId) {
    (s in m <==> s in m') && (s in m ==> m[s] == m'[s])
  }

  predicate TokenKept(w: World, w': World, t: TokenId) {
    t in w.tokens ==> t in w'.tokens && w'.tokens[t].session == w.tokens[t].session
  }

  /** A request keeps its time, and comes to be live only by reading its session
      as live. */
  predicate RequestKept(w: World, w': World, r: Request) {
    r in w'.requests ==>
      && w'.requests[r].now == (if r in w.requests then w.requests[r].now else w.clock)
      && (w'.requests[r].phase.Live? ==>
            r in w.requests && (w.requests[r].phase == w'.requests[r].phase ||
              (w.requests[r].phase == Claimed(w'.requests[r].phase.token) && ReadsLive(w, w'.requests[r].phase.token, w.requests[r].now))))
  }

  /** What a session has gained comes from a request that was live for it. */
  ghost predicate Gains(w: World, w': World, s: SessionId) {
    s in w.sessions ==>
      NothingNew(w, w', s) ||
      exists r :: LiveFor(w, r, s) && AccessOf(w', s) <= AccessOf(w, s) + {Access(s, w.requests[r].now)}
  }

  /** A request's access is of its own time. */
  predicate AccessDated(w: World, a: Access) {
    a in w.access || a.requestedAt == w.clock || exists r :: r in w.requests && a.requestedAt == w.requests[r].now
  }

  /** What every step keeps of sessions, tokens, requests, access and index. */
  ghost predicate Orderly(accessTtl: nat, w: World, w': World) {
    && (forall s :: SessionKept(w, w', s)) && (forall t :: TokenKept(w, w', t))
    && (forall r :: RequestKept(w, w', r)) && (forall s :: Gains(w, w', s))
    && (forall s :: IndexKept(accessTtl, w, w', s))
    && w.clock <= w'.clock
    && (forall a :: a in w'.access ==> AccessDated(w, a))
  }

  /** Only a request has moved, with what it locks or what the index was told. */
  lemma MovedIsOrderly(accessTtl: nat, w: World, w': World, r: Request)
    requires w' == w.(requests := w'.requests, locks := w'.locks, index := w'.index, indexedAt := w'.indexedAt)
    requires forall q :: q != r && q in w'.requests ==> q in w.requests && w'.requests[q] == w.requests[q]
    requires RequestKept(w, w', r) && forall s :: IndexKept(accessTtl, w, w', s)
    ensures Orderly(accessTtl, w, w')
  {
    forall q ensures RequestKept(w, w', q) {
    }
    forall s ensures Gains(w, w', s) {
      assert NothingNew(w, w', s);
    }
  }

  lemma IndexSame(accessTtl: nat, w: World, w': World)
    requires w'.index == w.index && w'.indexedAt == w.indexedAt
    ensures forall s :: IndexKept(accessTtl, w, w', s)
  {
  }

  lemma TickIsOrderly(accessTtl: nat, w: World, w': World)
    requires w' == w.(clock := w'.clock) && w.clock <= w'.clock
    ensures Orderly(accessTtl, w, w')
  {
    IndexSame(accessTtl, w, w');
    forall s ensures Gains(w, w', s) {
      assert NothingNew(w, w', s);
    }
  }

  lemma StartGains(w: World, e: Event, s: SessionId)
    requires e.Start?
    ensures Gains(w, AfterStart(w, e), s)
  {
    if s in w.sessions {
      assert NothingNew(w, AfterStart(w, e), s);
    }
  }

  lemma StartKeepsSession(w: World, e: Event, s: SessionId)
    requires e.Start?
    ensures SessionKept(w, AfterStart(w, e), s)
  {
    if MayStart(w, e) {
      var dropped := WithSessionsRevoked(w, e.dropped);
      assert SessionKept(w, dropped, s);
      assert s != e.session ==> Begun(dropped, e).sessions.Keys == dropped.sessions.Keys + {e.session};
    }
  }

  lemma StartKeepsTokens(w: World, e: Event)
    requires e.Start?
    ensures forall t :: t in w.tokens ==> t in AfterStart(w, e).tokens && AfterStart(w, e).tokens[t] == w.tokens[t]
    ensures forall a :: a in AfterStart(w, e).access ==> a in w.access || a.requestedAt == w.clock
  {
  }

  lemma StartLeaves(w: World, e: Event)
    requires e.Start?
    ensures var w' := AfterStart(w, e);
            w'.requests == w.requests && w'.index == w.index && w'.indexedAt == w.indexedAt && w'.clock == w.clock
  {
  }

  lemma StartIsOrderly(accessTtl: nat, w: World, e: Event)
    requires e.Start?
    ensures Orderly(accessTtl, w, AfterStart(w, e))
  {
    var w' := AfterStart(w, e);
    StartLeaves(w, e);
    StartKeepsTokens(w, e);
    IndexSame(accessTtl, w, w');
    forall s ensures Gains(w, w', s) && SessionKept(w, w', s) {
      StartGains(w, e, s);
      StartKeepsSession(w, e, s);
    }
  }

  lemma PresentIsOrderly(accessTtl: nat, w: World, r: Request, t: TokenId)
    ensures Orderly(accessTtl, w, AfterPresent(w, r, t))
  {
    IndexSame(accessTtl, w, AfterPresent(w, r, t));
    MovedIsOrderly(accessTtl, w, AfterPresent(w, r, t), r);
  }

  lemma SameIsOrderly(accessTtl: nat, w: World)
    ensures Orderly(accessTtl, w, w)
  {
    TickIsOrderly(accessTtl, w, w);
  }

  lemma LockedIsOrderly(accessTtl: nat, w: World, r: Request, phase: Phase, locks: map<TokenId, Request>)
    requires r in w.requests && (!phase.Live? || (w.requests[r].phase == Claimed(phase.token) && ReadsLive(w, phase.token, w.requests[r].now)))
    ensures Orderly(accessTtl, w, Moved(w, r, phase).(locks := locks))
  {
    var w' := Moved(w, r, phase).(locks := locks);
    IndexSame(accessTtl, w, w');
    MovedIsOrderly(accessTtl, w, w', r);
  }

  lemma RolledBackIsOrderly(accessTtl: nat, w: World, r: Request)
    requires r in w.requests
    ensures Orderly(accessTtl, w, RolledBack(w, r))
  {
    var locks := RolledBack(w, r).locks;
    LockedIsOrderly(accessTtl, w, r, Ended(false), locks);
    assert RolledBack(w, r) == Moved(w, r, Ended(false)).(locks := locks);
  }

  lemma ClaimIsOrderly(accessTtl: nat, w: World, r: Request)
    ensures Orderly(accessTtl, w, AfterClaim(w, r))
  {
    SameIsOrderly(accessTtl, w);
    if r in w.requests && w.requests[r].phase.Found? {
      var t := w.requests[r].phase.token;
      RolledBackIsOrderly(accessTtl, w, r);
      LockedIsOrderly(accessTtl, w, r, Claimed(t), w.locks[t := r]);
    }
  }

  lemma CheckIsOrderly(accessTtl: nat, w: World, r: Request, known: bool)
    ensures Orderly(accessTtl, w, AfterCheck(w, r, known))
  {
    SameIsOrderly(accessTtl, w);
    if r in w.requests && w.requests[r].phase.Claimed? {
      var t := w.requests[r].phase.token;
      RolledBackIsOrderly(accessTtl, w, r);
      if ReadsLive(w, t, w.requests[r].now) {
        LockedIsOrderly(accessTtl, w, r, Live(t), w.locks);
      }
    }
  }

  lemma AbortIsOrderly(accessTtl: nat, w: World, r: Request)
    ensures Orderly(accessTtl, w, AfterAbort(w, r))
  {
    SameIsOrderly(accessTtl, w);
    if r in w.requests {
      RolledBackIsOrderly(accessTtl, w, r);
    }
  }

  lemma RowIsOrderly(accessTtl: nat, w: World, r: Request, s: SessionId, user: UserId)
    ensures Orderly(accessTtl, w, AfterRevokeRow(w, r, s, user))
  {
    IndexSame(accessTtl, w, AfterRevokeRow(w, r, s, user));
    MovedIsOrderly(accessTtl, w, AfterRevokeRow(w, r, s, user), r);
  }

  lemma TokensIsOrderly(accessTtl: nat, w: World, r: Request)
    ensures Orderly(accessTtl, w, AfterRevokeTokens(w, r))
  {
    IndexSame(accessTtl, w, AfterRevokeTokens(w, r));
    MovedIsOrderly(accessTtl, w, AfterRevokeTokens(w, r), r);
  }

  lemma IndexedIsOrderly(accessTtl: nat, w: World, r: Request, s: SessionId, phase: Phase)
    requires r in w.requests && !phase.Live?
    ensures Orderly(accessTtl, w, Moved(Indexed(w, s, accessTtl), r, phase))
  {
    var w' := Moved(Indexed(w, s, accessTtl), r, phase);
    forall t ensures IndexKept(accessTtl, w, w', t) {
    }
    MovedIsOrderly(accessTtl, w, w', r);
  }

  lemma IndexReuseIsOrderly(accessTtl: nat, w: World, r: Request)
    ensures Orderly(accessTtl, w, AfterIndexReuse(accessTtl, w, r))
  {
    SameIsOrderly(accessTtl, w);
    if r in w.requests && w.requests[r].phase.Reusing? {
      IndexedIsOrderly(accessTtl, w, r, w.requests[r].phase.session, Ended(false));
    }
  }

  lemma RevokeIndexIsOrderly(accessTtl: nat, w: World, r: Request)
    ensures Orderly(accessTtl, w, AfterRevokeIndex(accessTtl, w, r))
  {
    SameIsOrderly(accessTtl, w);
    if r in w.requests && w.requests[r].phase.Revoking? {
      IndexedIsOrderly(accessTtl, w, r, w.requests[r].phase.session, w.requests[r].phase.(indexed := true));
    }
  }

  lemma MintIsOrderly(accessTtl: nat, w: World, r: Request, n: TokenId)
    ensures Orderly(accessTtl, w, AfterMint(w, r, n))
  {
    var w' := AfterMint(w, r, n);
    IndexSame(accessTtl, w, w');
    forall s ensures Gains(w, w', s) {
      if s in w.sessions && !LiveFor(w, r, s) {
        assert NothingNew(w, w', s);
      }
    }
  }

  /** Rows are revoked and a request ended: nothing is gained. */
  lemma RevokingIsOrderly(accessTtl: nat, w: World, w': World, r: Request, sessions: set<SessionId>,
                          tokens: set<TokenId>)
    requires var v := WithTokensRevoked(WithSessionsRevoked(w, sessions), tokens);
             w' == v.(requests := w'.requests, locks := w'.locks)
    requires forall q :: q != r && q in w'.requests ==> q in w.requests && w'.requests[q] == w.requests[q]
    requires RequestKept(w, w', r)
    ensures Orderly(accessTtl, w, w')
  {
    IndexSame(accessTtl, w, w');
    forall q ensures RequestKept(w, w', q) {
    }
    forall s ensures Gains(w, w', s) {
      assert NothingNew(w, w', s);
    }
  }

  lemma ReviseIsOrderly(accessTtl: nat, w: World, r: Request, ok: bool)
    ensures Orderly(accessTtl, w, AfterRevise(w, r, ok))
  {
    var w' := AfterRevise(w, r, ok);
    if w' == w || !ok {
      IndexSame(accessTtl, w, w');
      MovedIsOrderly(accessTtl, w, w', r);
    } else {
      RevokingIsOrderly(accessTtl, w, w', r, {w.requests[r].phase.session}, FamilyTokens(w, w.requests[r].phase.family));
    }
  }

  lemma CommitIsOrderly(accessTtl: nat, w: World, r: Request)
    ensures Orderly(accessTtl, w, AfterRevokeCommit(w, r))
  {
    var w' := AfterRevokeCommit(w, r);
    if w' == w {
      IndexSame(accessTtl, w, w');
      MovedIsOrderly(accessTtl, w, w', r);
    } else {
      RevokingIsOrderly(accessTtl, w, w', r, {w.requests[r].phase.session}, w.requests[r].phase.tokens);
    }
  }

  lemma StepIsOrderly(accessTtl: nat, w: World, e: Event)
    ensures Orderly(accessTtl, w, After(accessTtl, w, e))
  {
    match e
    case Tick(passed) => TickIsOrderly(accessTtl, w, w.(clock := w.clock + passed));
    case Start(_, _, _, _, _, _) => StartIsOrderly(accessTtl, w, e);
    case Present(r, t) => PresentIsOrderly(accessTtl, w, r, t);
    case Claim(r) => ClaimIsOrderly(accessTtl, w, r);
    case Check(r, known) => CheckIsOrderly(accessTtl, w, r, known);
    case Mint(r, n) => MintIsOrderly(accessTtl, w, r, n);
    case Abort(r) => AbortIsOrderly(accessTtl, w, r);
    case ReviseFamily(r, ok) => ReviseIsOrderly(accessTtl, w, r, ok);
    case IndexReuse(r) => IndexReuseIsOrderly(accessTtl, w, r);
    case RevokeRow(r, s, user) => RowIsOrderly(accessTtl, w, r, s, user);
    case RevokeTokens(r) => TokensIsOrderly(accessTtl, w, r);
    case RevokeIndex(r) => RevokeIndexIsOrderly(accessTtl, w, r);
    case RevokeCommit(r) => CommitIsOrderly(accessTtl, w, r);
  }

  lemma LiveOnlyShrinks(accessTtl: nat, w: World, w': World, s: SessionId, r: Request)
    requires Chained(w) && Orderly(accessTtl, w, w') && IsRevoked(w, s) && LiveFor(w', r, s)
    ensures LiveFor(w, r, s) && w'.requests[r].now == w.requests[r].now
  {
    assert RequestKept(w, w', r) && HoldsLock(w, r);
    assert TokenKept(w, w', w'.requests[r].phase.token);
  }

  lemma Stepwise(accessTtl: nat, w: World, e: Event, rest: seq<Event>)
    ensures AfterAll(accessTtl, w, [e] + rest) == AfterAll(accessTtl, After(accessTtl, w, e), rest)
  {
    assert ([e] + rest)[1..] == rest;
  }

  // --- renewal -------------------------------------------------------------------------------------------

  predicate NobodyLive(w: World, s: SessionId) {
    forall r :: r in w.requests ==> !LiveFor(w, r, s)
  }

  /** Once a session's revocation has committed, only requests that had read it
      as live before can still renew it; from the moment none is left, no refresh
      of it ever succeeds: it gets no token and no access token again. */
  lemma {:induction false} RevokedIsNeverRenewed(accessTtl: nat, w: World, events: seq<Event>, s: SessionId)
    requires Chained(w) && IsRevoked(w, s) && NobodyLive(w, s)
    ensures var w' := AfterAll(accessTtl, w, events);
            IsRevoked(w', s) && NobodyLive(w', s) && NothingNew(w, w', s)
    decreases |events|
  {
    if events != [] {
      var next := After(accessTtl, w, events[0]);
      StepChained(accessTtl, w, events[0]);
      StepIsOrderly(accessTtl, w, events[0]);
      StepOver(accessTtl, w, next, s);
      RevokedIsNeverRenewed(accessTtl, next, events[1..], s);
    }
  }

  lemma StepOver(accessTtl: nat, w: World, w': World, s: SessionId)
    requires Chained(w) && Orderly(accessTtl, w, w') && IsRevoked(w, s) && NobodyLive(w, s)
    ensures IsRevoked(w', s) && NobodyLive(w', s) && NothingNew(w, w', s)
  {
    assert SessionKept(w, w', s) && Gains(w, w', s);
    forall r | r in w'.requests ensures !LiveFor(w', r, s) {
      if LiveFor(w', r, s) {
        LiveOnlyShrinks(accessTtl, w, w', s, r);
      }
    }
  }

  /** A request that was not live for a session when its revocation committed
      never is. */
  lemma {:induction false} NobodyElseComesLive(accessTtl: nat, w: World, events: seq<Event>, s: SessionId, r: Request)
    requires Chained(w) && IsRevoked(w, s) && LiveFor(AfterAll(accessTtl, w, events), r, s)
    ensures LiveFor(w, r, s)
    decreases |events|
  {
    if events != [] {
      var next := After(accessTtl, w, events[0]);
      StepChained(accessTtl, w, events[0]);
      StepIsOrderly(accessTtl, w, events[0]);
      assert SessionKept(w, next, s);
      NobodyElseComesLive(accessTtl, next, events[1..], s, r);
      LiveOnlyShrinks(accessTtl, w, next, s, r);
    }
  }

  /** A request that is live for a session, revoked or not, need only commit to
      give it a token to renew with and an access token. */
  lemma LiveIsRenewed(accessTtl: nat, w: World, r: Request, s: SessionId, n: TokenId)
    requires LiveFor(w, r, s) && s in w.sessions && n !in w.tokens
    ensures var w' := After(accessTtl, w, Mint(r, n));
            && n in SessionTokens(w', s) && !w'.tokens[n].used && !w'.tokens[n].revoked
            && Access(s, w.requests[r].now) in AccessOf(w', s) && !NothingNew(w, w', s)
  {
    var w' := After(accessTtl, w, Mint(r, n));
    assert n in SessionTokens(w', s) && n !in SessionTokens(w, s);
  }

  lemma {:induction false} AnotherId(ids: set<TokenId>) returns (n: TokenId)
    ensures forall t :: t in ids ==> t < n
    decreases |ids|
  {
    if ids == {} {
      n := 0;
    } else {
      var t :| t in ids;
      var m := AnotherId(ids - {t});
      n := if t < m then m else t + 1;
      assert forall u :: u in ids ==> u == t || u in ids - {t};
    }
  }

  /** Whether anything that could still happen gives the session a token of
      either kind. */
  ghost predicate CanStillGain(accessTtl: nat, w: World, s: SessionId) {
    exists events :: !NothingNew(w, AfterAll(accessTtl, w, events), s)
  }

  /** The exact condition: a revoked session can still come by a token if and
      only if some request had read it as live and has yet to commit. */
  lemma RevokedGainsOnlyThroughLive(accessTtl: nat, w: World, s: SessionId)
    requires Chained(w) && IsRevoked(w, s)
    ensures CanStillGain(accessTtl, w, s) <==> !NobodyLive(w, s)
  {
    if NobodyLive(w, s) {
      forall events ensures NothingNew(w, AfterAll(accessTtl, w, events), s) {
        RevokedIsNeverRenewed(accessTtl, w, events, s);
      }
    } else {
      var r :| r in w.requests && LiveFor(w, r, s);
      var n := AnotherId(w.tokens.Keys);
      LiveIsRenewed(accessTtl, w, r, s, n);
      Stepwise(accessTtl, w, Mint(r, n), []);
      assert [Mint(r, n)] + [] == [Mint(r, n)];
      assert !NothingNew(w, AfterAll(accessTtl, w, [Mint(r, n)]), s);
    }
  }

  // --- how much, from the moment of revocation -------------------------------------------------------------

  /** The requests that have read the session as live and have yet to commit. */
  function LiveRequests(w: World, s: SessionId): set<Request> {
    set r | r in w.requests && LiveFor(w, r, s)
  }

  /** The access tokens they would be given. */
  function LateAccess(w: World, s: SessionId): set<Access> {
    set r | r in w.requests && LiveFor(w, r, s) :: Access(s, w.requests[r].now)
  }

  lemma FewerAreLive(accessTtl: nat, w: World, w': World, s: SessionId)
    requires Chained(w) && Orderly(accessTtl, w, w') && IsRevoked(w, s)
    ensures LiveRequests(w', s) <= LiveRequests(w, s) && LateAccess(w', s) <= LateAccess(w, s)
  {
    forall r | r in LiveRequests(w', s) ensures r in LiveRequests(w, s) {
      LiveOnlyShrinks(accessTtl, w, w', s, r);
    }
    forall a | a in LateAccess(w', s) ensures a in LateAccess(w, s) {
      var r :| r in w'.requests && LiveFor(w', r, s) && a == Access(s, w'.requests[r].now);
      LiveOnlyShrinks(accessTtl, w, w', s, r);
    }
  }

  lemma SubsetIsSmaller<T>(a: set<T>, b: set<T>)
    requires a <= b
    ensures |a| <= |b|
  {
    assert b == a + (b - a);
  }

  /** A step that is no exchange adds no token to a session there already is. */
  lemma OnlyExchangesAdd(accessTtl: nat, w: World, e: Event, s: SessionId)
    requires s in w.sessions && !e.Mint?
    ensures SessionTokens(After(accessTtl, w, e), s) == SessionTokens(w, s)
  {
    if !e.Start? {
      StepKeepsChains(accessTtl, w, e);
      var w' := After(accessTtl, w, e);
      assert forall t :: t in w.tokens ==> SameToken(w.tokens[t], w'.tokens[t]);
    }
  }

  /** An exchange adds at most one, and then ends one that was live. */
  lemma ExchangeAddsOne(w: World, r: Request, n: TokenId, s: SessionId)
    requires Chained(w)
    ensures var w' := AfterMint(w, r, n);
            SessionTokens(w', s) == SessionTokens(w, s) ||
            (SessionTokens(w', s) == SessionTokens(w, s) + {n} && r in LiveRequests(w, s) && r !in LiveRequests(w', s))
  {
    var w' := AfterMint(w, r, n);
    if w' != w {
      assert HoldsLock(w, r);
      if !LiveFor(w, r, s) {
        assert SessionTokens(w', s) == SessionTokens(w, s);
      } else {
        assert SessionTokens(w', s) == SessionTokens(w, s) + {n};
      }
    }
  }

  lemma StepGainsCounted(accessTtl: nat, w: World, e: Event, s: SessionId)
    requires Chained(w) && IsRevoked(w, s)
    ensures var w' := After(accessTtl, w, e);
            |SessionTokens(w', s)| + |LiveRequests(w', s)| <= |SessionTokens(w, s)| + |LiveRequests(w, s)|
  {
    var w' := After(accessTtl, w, e);
    StepIsOrderly(accessTtl, w, e);
    FewerAreLive(accessTtl, w, w', s);
    SubsetIsSmaller(LiveRequests(w', s), LiveRequests(w, s));
    if e.Mint? {
      ExchangeAddsOne(w, e.request, e.token, s);
      if SessionTokens(w', s) != SessionTokens(w, s) {
        SubsetIsSmaller(LiveRequests(w', s), LiveRequests(w, s) - {e.request});
      }
    } else {
      OnlyExchangesAdd(accessTtl, w, e, s);
    }
  }

  /** From the moment a revocation has committed, whatever happens: the session
      gets at most one refresh token for each request that had read it as live
      and not committed, and no access token but of one of those requests. */
  lemma {:induction false} RevokedGainsOnePerLive(accessTtl: nat, w: World, events: seq<Event>, s: SessionId)
    requires Chained(w) && IsRevoked(w, s)
    ensures var w' := AfterAll(accessTtl, w, events);
            && |SessionTokens(w', s)| + |LiveRequests(w', s)| <= |SessionTokens(w, s)| + |LiveRequests(w, s)|
            && AccessOf(w', s) <= AccessOf(w, s) + LateAccess(w, s)
    decreases |events|
  {
    if events != [] {
      var next := After(accessTtl, w, events[0]);
      StepChained(accessTtl, w, events[0]);
      StepIsOrderly(accessTtl, w, events[0]);
      assert SessionKept(w, next, s) && Gains(w, next, s);
      StepGainsCounted(accessTtl, w, events[0], s);
      FewerAreLive(accessTtl, w, next, s);
      RevokedGainsOnePerLive(accessTtl, next, events[1..], s);
    }
  }

  // --- access tokens -------------------------------------------------------------------------------------

  /** `verify`: within its expiry, and its session not in the index, if the index
      can be read. */
  predicate Accepted(accessTtl: nat, w: World, a: Access, readable: bool) {
    && Fresh(ExpiryOf(a.requestedAt, accessTtl), w.clock)
    && !(readable && a.session in w.index && w.index[a.session] > w.clock)
  }

  /** The index remembers a revocation long enough from when it was told. */
  predicate Remembered(accessTtl: nat, w: World, s: SessionId) {
    s in w.indexedAt ==>
      && w.indexedAt[s] <= w.clock && s in w.index
      && w.index[s] == w.indexedAt[s] + RevocationTtlSeconds(accessTtl) * SECOND
  }

  lemma StepRemembers(accessTtl: nat, w: World, w': World, s: SessionId)
    requires Remembered(accessTtl, w, s) && Orderly(accessTtl, w, w')
    ensures Remembered(accessTtl, w', s)
    ensures s in w.indexedAt ==> s in w'.indexedAt && w'.indexedAt[s] >= w.indexedAt[s]
  {
    assert IndexKept(accessTtl, w, w', s);
  }

  /** Nothing is dated later than now. */
  predicate Past(w: World) {
    && (forall r :: r in w.requests ==> w.requests[r].now <= w.clock)
    && (forall a :: a in w.access ==> a.requestedAt <= w.clock)
  }

  /** Nothing of a revoked session is dated later than its revocation. */
  predicate Dated(w: World, s: SessionId) {
    IsRevoked(w, s) ==>
      && (forall a :: a in AccessOf(w, s) ==> a.requestedAt <= w.sessions[s].revokedAt.value)
      && (forall r :: r in w.requests && LiveFor(w, r, s) ==> w.requests[r].now <= w.sessions[s].revokedAt.value)
  }

  lemma StepPast(accessTtl: nat, w: World, w': World)
    requires Orderly(accessTtl, w, w') && Past(w)
    ensures Past(w')
  {
    forall r | r in w'.requests ensures w'.requests[r].now <= w'.clock {
      assert RequestKept(w, w', r);
    }
    forall a | a in w'.access ensures a.requestedAt <= w'.clock {
      assert AccessDated(w, a);
    }
  }

  lemma StepDated(accessTtl: nat, w: World, w': World, s: SessionId)
    requires Chained(w) && Orderly(accessTtl, w, w') && Past(w) && Dated(w, s)
    ensures Dated(w', s)
  {
    assert SessionKept(w, w', s) && Gains(w, w', s);
    if IsRevoked(w', s) && s in w.sessions {
      var at := w'.sessions[s].revokedAt.value;
      forall r | r in w'.requests && LiveFor(w', r, s) ensures w'.requests[r].now <= at {
        assert RequestKept(w, w', r);
        if IsRevoked(w, s) {
          LiveOnlyShrinks(accessTtl, w, w', s, r);
        }
      }
      forall a | a in AccessOf(w', s) ensures a.requestedAt <= at {
        if !IsRevoked(w, s) {
          assert AccessDated(w, a);
        } else if a !in AccessOf(w, s) {
          var r :| LiveFor(w, r, s) && AccessOf(w', s) <= AccessOf(w, s) + {Access(s, w.requests[r].now)};
          assert a == Access(s, w.requests[r].now);
        }
      }
    }
  }

  // --- whole runs ----------------------------------------------------------------------------------------

  ghost predicate Kept(accessTtl: nat, w: World, s: SessionId) {
    Chained(w) && Past(w) && Dated(w, s) && Remembered(accessTtl, w, s)
  }

  lemma {:induction false} RunKept(accessTtl: nat, w: World, events: seq<Event>, s: SessionId)
    requires Kept(accessTtl, w, s)
    ensures Kept(accessTtl, AfterAll(accessTtl, w, events), s)
    decreases |events|
  {
    if events != [] {
      StepKept(accessTtl, w, events[0], s);
      RunKept(accessTtl, After(accessTtl, w, events[0]), events[1..], s);
    }
  }

  lemma StepKept(accessTtl: nat, w: World, e: Event, s: SessionId)
    requires Kept(accessTtl, w, s)
    ensures Kept(accessTtl, After(accessTtl, w, e), s)
  {
    StepChained(accessTtl, w, e);
    StepIsOrderly(accessTtl, w, e);
    OrderlyKept(accessTtl, w, After(accessTtl, w, e), s);
  }

  lemma OrderlyKept(accessTtl: nat, w: World, w': World, s: SessionId)
    requires Kept(accessTtl, w, s) && Orderly(accessTtl, w, w')
    ensures Past(w') && Dated(w', s) && Remembered(accessTtl, w', s)
  {
    StepPast(accessTtl, w, w');
    StepDated(accessTtl, w, w', s);
    StepRemembers(accessTtl, w, w', s);
  }

  /** Once the index has been told of a session, and while it can be read, no
      access token of it that was requested by then, or within the margin after,
      is accepted again: until it has expired the index refuses it, and after
      that its expiry does. */
  lemma IndexedAccessIsRefused(accessTtl: nat, events: seq<Event>, a: Access)
    ensures var w := AfterAll(accessTtl, EMPTY, events);
            a in w.access && a.session in w.indexedAt && a.requestedAt <= w.indexedAt[a.session] + MARGIN ==> !Accepted(accessTtl, w, a, true)
  {
    var w := AfterAll(accessTtl, EMPTY, events);
    RunKept(accessTtl, EMPTY, events, a.session);
    if a in w.access && a.session in w.indexedAt && a.requestedAt <= w.indexedAt[a.session] + MARGIN
       && w.index[a.session] <= w.clock {
      IndexOutlivesToken(a.requestedAt, accessTtl, w.indexedAt[a.session], w.clock);
    }
  }

  /** A session whose revocation committed no more than the margin after the
      index was last told of it is over: none of its access tokens, whenever it
      comes to be issued, is accepted by a readable index again. Reuse is
      committed before the index is told of it, so there the margin is not
      needed. */
  lemma RevokedSessionIsOver(accessTtl: nat, events: seq<Event>, s: SessionId)
    requires var w := AfterAll(accessTtl, EMPTY, events);
             IsRevoked(w, s) && s in w.indexedAt && w.sessions[s].revokedAt.value <= w.indexedAt[s] + MARGIN
    ensures var w := AfterAll(accessTtl, EMPTY, events);
            forall a :: a in AccessOf(w, s) ==> !Accepted(accessTtl, w, a, true)
  {
    var w := AfterAll(accessTtl, EMPTY, events);
    RunKept(accessTtl, EMPTY, events, s);
    forall a | a in AccessOf(w, s) ensures !Accepted(accessTtl, w, a, true) {
      IndexedAccessIsRefused(accessTtl, events, a);
    }
  }

  /** When reuse is dealt with, its revocation, if it was not lost, is already
      in the session's row. */
  lemma ReuseRevokesFirst(accessTtl: nat, w: World, r: Request)
    requires r in w.requests && w.requests[r].phase.Reusing? && !w.requests[r].phase.durable
    requires w.requests[r].phase.session in w.sessions && w.sessions[w.requests[r].phase.session].revokedAt.None?
    ensures var s := w.requests[r].phase.session;
            var w' := After(accessTtl, After(accessTtl, w, ReviseFamily(r, true)), IndexReuse(r));
            IsRevoked(w', s) && s in w'.indexedAt && w'.sessions[s].revokedAt.value <= w'.indexedAt[s]
            && forall t :: t in FamilyTokens(w, w.requests[r].phase.family) ==> t in w'.tokens && w'.tokens[t].revoked
  {
  }

  // --- what revocation does not reach --------------------------------------------------------------------

  /** When the index cannot be read, or was never told of the session, an access
      token is refused by nothing but its expiry. */
  lemma UnreadIsAccepted(accessTtl: nat, w: World, a: Access, readable: bool)
    requires !readable || a.session !in w.index
    ensures Accepted(accessTtl, w, a, readable) <==> Fresh(ExpiryOf(a.requestedAt, accessTtl), w.clock)
  {
  }

  /** The ceiling on a user's sessions revokes rows and nothing else: a session
      it has revoked still has its access token accepted. */
  lemma CeilingLeavesAccess(accessTtl: nat)
    ensures var w := AfterAll(accessTtl, EMPTY, [Start(0, 0, 0, 7, 60, {}), Start(1, 1, 1, 7, 60, {0})]);
            IsRevoked(w, 0) && Access(0, 0) in w.access && forall readable :: Accepted(accessTtl, w, Access(0, 0), readable)
  {
    var first, second := Start(0, 0, 0, 7, 60, {}), Start(1, 1, 1, 7, 60, {0});
    var one := After(accessTtl, EMPTY, first);
    assert one.sessions == map[0 := Session(7, 60000, None)];
    Stepwise(accessTtl, EMPTY, first, [second]);
    Stepwise(accessTtl, one, second, []);
    assert [first] + [second] == [first, second] && [second] + [] == [second];
    var w := After(accessTtl, one, second);
    forall readable ensures Accepted(accessTtl, w, Access(0, 0), readable) {
      UnreadIsAccepted(accessTtl, w, Access(0, 0), readable);
    }
  }

  /** A token that can be exchanged, if its session reads as live. */
  predicate Renewable(w: World, t: TokenId) {
    && t in w.tokens && !w.tokens[t].used && !w.tokens[t].revoked && w.tokens[t].expiresAt > w.clock
    && t !in w.locks && ReadsLive(w, t, w.clock)
  }

  function Renewed(accessTtl: nat, w: World, q: Request, t: TokenId, n: TokenId): World {
    var found := After(accessTtl, w, Present(q, t));
    var claimed := After(accessTtl, found, Claim(q));
    var live := After(accessTtl, claimed, Check(q, true));
    After(accessTtl, live, Mint(q, n))
  }

  /** The request has read the session of the token it holds as live. */
  function ReadAsLive(w: World, q: Request, t: TokenId): World {
    w.(requests := w.requests[q := Pending(w.clock, Live(t))], locks := w.locks[t := q])
  }

  lemma RenewableIsClaimed(accessTtl: nat, w: World, q: Request, t: TokenId)
    requires Renewable(w, t) && q !in w.requests
    ensures After(accessTtl, After(accessTtl, w, Present(q, t)), Claim(q))
            == w.(requests := w.requests[q := Pending(w.clock, Claimed(t))], locks := w.locks[t := q])
  {
    var found := After(accessTtl, w, Present(q, t));
    assert found == w.(requests := w.requests[q := Pending(w.clock, Found(t))]);
  }

  lemma RenewableIsRead(accessTtl: nat, w: World, q: Request, t: TokenId)
    requires Renewable(w, t) && q !in w.requests
    ensures After(accessTtl, After(accessTtl, After(accessTtl, w, Present(q, t)), Claim(q)), Check(q, true)) == ReadAsLive(w, q, t)
  {
    RenewableIsClaimed(accessTtl, w, q, t);
    var claimed := w.(requests := w.requests[q := Pending(w.clock, Claimed(t))], locks := w.locks[t := q]);
    assert After(accessTtl, claimed, Check(q, true)) == ReadAsLive(w, q, t);
  }

  lemma RenewableIsRenewed(accessTtl: nat, w: World, q: Request, t: TokenId, n: TokenId)
    requires Renewable(w, t) && q !in w.requests && n !in w.tokens
    ensures var w' := Renewed(accessTtl, w, q, t, n);
            && w'.requests == w.requests[q := Pending(w.clock, Ended(true))] && n in w'.tokens && !w'.tokens[n].used
            && w'.access == w.access + {Access(w.tokens[t].session, w.clock)}
            && w'.sessions == w.sessions && w'.clock == w.clock && w'.index == w.index && w'.indexedAt == w.indexedAt
  {
    RenewableIsRead(accessTtl, w, q, t);
    var live := ReadAsLive(w, q, t);
    assert Renewed(accessTtl, w, q, t, n) == After(accessTtl, live, Mint(q, n));
  }

  /** Reuse that is detected while its durable revocation fails leaves the
      family renewable: the newest token is still exchanged for another. */
  lemma LostRevocationLeavesRenewal(accessTtl: nat, w: World, r: Request, t: TokenId, q: Request, n: TokenId)
    requires r in w.requests && w.requests[r].phase.Reusing? && !w.requests[r].phase.durable
    requires Renewable(w, t) && w.tokens[t].family == w.requests[r].phase.family
    requires q !in w.requests && n !in w.tokens
    ensures var refused := After(accessTtl, After(accessTtl, w, ReviseFamily(r, false)), IndexReuse(r));
            && refused.requests[r].phase == Ended(false)
            && Renewed(accessTtl, refused, q, t, n).requests[q].phase == Ended(true)
  {
    var revised := After(accessTtl, w, ReviseFamily(r, false));
    var refused := After(accessTtl, revised, IndexReuse(r));
    assert revised.tokens == w.tokens && revised.sessions == w.sessions && revised.locks == w.locks && revised.clock == w.clock;
    assert refused.tokens == w.tokens && refused.sessions == w.sessions && refused.locks == w.locks && refused.clock == w.clock;
    RenewableIsRenewed(accessTtl, refused, q, t, n);
  }
}
