/** Who a revocation comes from: over any run, a session is revoked only by its
    own user or by the reuse of one of its tokens, and so is a token. */
module SessionCauses {
  import opened Wrappers
  import opened Revocation
  import opened Sessions
  import opened SessionRevocation

  // --- what begins a revocation ---------------------------------------------------------------------------

  /** A sign-out of a live session, begun by the user whose it is. */
  predicate BeginsSignOut(w: World, e: Event, r: Request, s: SessionId) {
    && e.RevokeRow? && e.request == r && e.session == s && r !in w.requests
    && s in w.sessions && w.sessions[s].user == e.user && w.sessions[s].revokedAt.None?
  }

  /** A token of the session is presented that has been used before. */
  predicate BeginsReuse(w: World, e: Event, r: Request, s: SessionId) {
    && e.Present? && e.request == r && r !in w.requests
    && e.token in w.tokens && w.tokens[e.token].used && w.tokens[e.token].session == s
  }

  /** A sign-in over the ceiling drops a session of its own user. */
  predicate DropsOwn(w: World, e: Event, s: SessionId) {
    e.Start? && s in e.dropped && s in w.sessions && w.sessions[s].user == e.user
  }

  ghost predicate SignOutBegan(accessTtl: nat, w: World, events: seq<Event>, r: Request, s: SessionId)
    decreases |events|
  {
    events != [] && (BeginsSignOut(w, events[0], r, s) || SignOutBegan(accessTtl, After(accessTtl, w, events[0]), events[1..], r, s))
  }

  ghost predicate ReuseBegan(accessTtl: nat, w: World, events: seq<Event>, r: Request, s: SessionId)
    decreases |events|
  {
    events != [] && (BeginsReuse(w, events[0], r, s) || ReuseBegan(accessTtl, After(accessTtl, w, events[0]), events[1..], r, s))
  }

  predicate IsRevoking(w: World, r: Request, s: SessionId) {
    r in w.requests && w.requests[r].phase.Revoking? && w.requests[r].phase.session == s
  }

  predicate IsReusing(w: World, r: Request, s: SessionId) {
    r in w.requests && w.requests[r].phase.Reusing? && w.requests[r].phase.session == s
  }

  /** What a step leaves of who is revoking and who has found reuse. */
  predicate Begins(w: World, w': World, e: Event, r: Request, s: SessionId) {
    && (IsRevoking(w', r, s) ==> IsRevoking(w, r, s) || BeginsSignOut(w, e, r, s))
    && (IsReusing(w', r, s) ==> IsReusing(w, r, s) || BeginsReuse(w, e, r, s))
  }

  /** Why a step revokes a session, or tells the index of it. */
  predicate HasCause(w: World, w': World, e: Event, s: SessionId) {
    && (!IsRevoked(w, s) && IsRevoked(w', s) ==>
          DropsOwn(w, e, s) || (e.RevokeCommit? && IsRevoking(w, e.request, s)) || (e.ReviseFamily? && IsReusing(w, e.request, s)))
    && (!Same(w.indexedAt, w'.indexedAt, s) ==>
          (e.RevokeIndex? && IsRevoking(w, e.request, s)) || (e.IndexReuse? && IsReusing(w, e.request, s)))
  }

  /** A token stays where it is, and once used is used; why it is revoked. */
  predicate TokenHasCause(w: World, w': World, e: Event, t: TokenId) {
    t in w.tokens ==>
      && t in w'.tokens && w'.tokens[t].session == w.tokens[t].session && w'.tokens[t].family == w.tokens[t].family
      && (w.tokens[t].used ==> w'.tokens[t].used)
      && (w'.tokens[t].revoked && !w.tokens[t].revoked ==> RevokesToken(w, e, t))
  }

  predicate Caused(w: World, w': World, e: Event, r: Request, s: SessionId, t: TokenId) {
    Begins(w, w', e, r, s) && HasCause(w, w', e, s) && TokenHasCause(w, w', e, t)
  }

  predicate RevokesToken(w: World, e: Event, t: TokenId)
    requires t in w.tokens
  {
    || (e.RevokeCommit? && e.request in w.requests && w.requests[e.request].phase.Revoking? && t in w.requests[e.request].phase.tokens)
    || (e.ReviseFamily? && e.request in w.requests && w.requests[e.request].phase.Reusing?
        && w.requests[e.request].phase.family == w.tokens[t].family)
  }

  // --- every step -------------------------------------------------------------------------------------------

  lemma StartCauses(w: World, e: Event, r: Request, s: SessionId, t: TokenId)
    requires e.Start?
    ensures var w' := AfterStart(w, e); Caused(w, w', e, r, s, t)
  {
    StartHasCause(w, e, s);
    StartTokenCause(w, e, t);
    assert AfterStart(w, e).requests == w.requests;
  }

  lemma StartHasCause(w: World, e: Event, s: SessionId)
    requires e.Start?
    ensures HasCause(w, AfterStart(w, e), e, s)
  {
    assert AfterStart(w, e).indexedAt == w.indexedAt;
  }

  lemma StartTokenCause(w: World, e: Event, t: TokenId)
    requires e.Start?
    ensures TokenHasCause(w, AfterStart(w, e), e, t)
  {
  }

  lemma PresentCauses(w: World, e: Event, r: Request, s: SessionId, t: TokenId)
    requires e.Present?
    ensures var w' := AfterPresent(w, e.request, e.token); Caused(w, w', e, r, s, t)
  {
  }

  /** Nothing but where one request has got to, and what is locked. */
  ghost predicate OnlyMoves(w: World, w': World, q: Request) {
    w' == w.(requests := w'.requests, locks := w'.locks) && NothingFound(w, w', q)
  }

  /** Only one request has got anywhere, and has found nothing to revoke that it
      had not found before. */
  ghost predicate NothingFound(w: World, w': World, q: Request) {
    && (forall r :: r in w'.requests && r != q ==> r in w.requests && w'.requests[r] == w.requests[r])
    && (q in w'.requests && (w'.requests[q].phase.Revoking? || w'.requests[q].phase.Reusing?) ==>
          q in w.requests && SameFound(w.requests[q].phase, w'.requests[q].phase))
  }

  predicate SameFound(before: Phase, after: Phase) {
    match after
    case Revoking(s, tokens, _, _) => before.Revoking? && before.session == s && before.tokens == tokens
    case Reusing(s, f, _) => before.Reusing? && before.session == s && before.family == f
    case _ => true
  }

  lemma MovesCause(w: World, w': World, e: Event, q: Request, r: Request, s: SessionId, t: TokenId)
    requires OnlyMoves(w, w', q)
    ensures Caused(w, w', e, r, s, t)
  {
  }

  lemma RolledBackMoves(w: World, q: Request)
    requires q in w.requests
    ensures OnlyMoves(w, RolledBack(w, q), q)
  {
  }

  lemma ClaimCauses(w: World, e: Event, r: Request, s: SessionId, t: TokenId)
    requires e.Claim?
    ensures var w' := AfterClaim(w, e.request); Caused(w, w', e, r, s, t)
  {
    ClaimMoves(w, e.request);
    MovesCause(w, AfterClaim(w, e.request), e, e.request, r, s, t);
  }

  lemma ClaimMoves(w: World, q: Request)
    ensures OnlyMoves(w, AfterClaim(w, q), q)
  {
    if q in w.requests {
      RolledBackMoves(w, q);
    }
  }

  lemma CheckCauses(w: World, e: Event, r: Request, s: SessionId, t: TokenId)
    requires e.Check?
    ensures var w' := AfterCheck(w, e.request, e.known); Caused(w, w', e, r, s, t)
  {
    CheckMoves(w, e.request, e.known);
    MovesCause(w, AfterCheck(w, e.request, e.known), e, e.request, r, s, t);
  }

  lemma CheckMoves(w: World, q: Request, known: bool)
    ensures OnlyMoves(w, AfterCheck(w, q, known), q)
  {
    if q in w.requests {
      RolledBackMoves(w, q);
    }
  }

  lemma MintCauses(w: World, e: Event, r: Request, s: SessionId, t: TokenId)
    requires e.Mint?
    ensures var w' := AfterMint(w, e.request, e.token); Caused(w, w', e, r, s, t)
  {
  }

  lemma AbortCauses(w: World, e: Event, r: Request, s: SessionId, t: TokenId)
    requires e.Abort?
    ensures var w' := AfterAbort(w, e.request); Caused(w, w', e, r, s, t)
  {
    AbortMoves(w, e.request);
    MovesCause(w, AfterAbort(w, e.request), e, e.request, r, s, t);
  }

  lemma AbortMoves(w: World, q: Request)
    ensures OnlyMoves(w, AfterAbort(w, q), q)
  {
    if q in w.requests {
      RolledBackMoves(w, q);
    }
  }

  lemma ReviseCauses(w: World, e: Event, r: Request, s: SessionId, t: TokenId)
    requires e.ReviseFamily?
    ensures var w' := AfterRevise(w, e.request, e.ok); Caused(w, w', e, r, s, t)
  {
  }

  lemma IndexReuseCauses(accessTtl: nat, w: World, e: Event, r: Request, s: SessionId, t: TokenId)
    requires e.IndexReuse?
    ensures var w' := AfterIndexReuse(accessTtl, w, e.request); Caused(w, w', e, r, s, t)
  {
  }

  lemma RevokeRowCauses(w: World, e: Event, r: Request, s: SessionId, t: TokenId)
    requires e.RevokeRow?
    ensures var w' := AfterRevokeRow(w, e.request, e.session, e.user); Caused(w, w', e, r, s, t)
  {
  }

  lemma RevokeTokensCauses(w: World, e: Event, r: Request, s: SessionId, t: TokenId)
    requires e.RevokeTokens?
    ensures var w' := AfterRevokeTokens(w, e.request); Caused(w, w', e, r, s, t)
  {
  }

  lemma RevokeIndexCauses(accessTtl: nat, w: World, e: Event, r: Request, s: SessionId, t: TokenId)
    requires e.RevokeIndex?
    ensures var w' := AfterRevokeIndex(accessTtl, w, e.request); Caused(w, w', e, r, s, t)
  {
  }

  lemma RevokeCommitCauses(w: World, e: Event, r: Request, s: SessionId, t: TokenId)
    requires e.RevokeCommit?
    ensures var w' := AfterRevokeCommit(w, e.request); Caused(w, w', e, r, s, t)
  {
  }

  lemma StepCauses(accessTtl: nat, w: World, e: Event, r: Request, s: SessionId, t: TokenId)
    ensures var w' := After(accessTtl, w, e); Caused(w, w', e, r, s, t)
  {
    match e
    case Tick(_) =>
    case Start(_, _, _, _, _, _) => StartCauses(w, e, r, s, t);
    case Present(_, _) => PresentCauses(w, e, r, s, t);
    case Claim(_) => ClaimCauses(w, e, r, s, t);
    case Check(_, _) => CheckCauses(w, e, r, s, t);
    case Mint(_, _) => MintCauses(w, e, r, s, t);
    case Abort(_) => AbortCauses(w, e, r, s, t);
    case ReviseFamily(_, _) => ReviseCauses(w, e, r, s, t);
    case IndexReuse(_) => IndexReuseCauses(accessTtl, w, e, r, s, t);
    case RevokeRow(_, _, _) => RevokeRowCauses(w, e, r, s, t);
    case RevokeTokens(_) => RevokeTokensCauses(w, e, r, s, t);
    case RevokeIndex(_) => RevokeIndexCauses(accessTtl, w, e, r, s, t);
    case RevokeCommit(_) => RevokeCommitCauses(w, e, r, s, t);
  }

  // --- over any run -----------------------------------------------------------------------------------------

  lemma {:induction false} HasBegun(accessTtl: nat, w: World, events: seq<Event>, r: Request, s: SessionId)
    ensures IsRevoking(AfterAll(accessTtl, w, events), r, s) ==> IsRevoking(w, r, s) || SignOutBegan(accessTtl, w, events, r, s)
    ensures IsReusing(AfterAll(accessTtl, w, events), r, s) ==> IsReusing(w, r, s) || ReuseBegan(accessTtl, w, events, r, s)
    decreases |events|
  {
    if events != [] {
      StepCauses(accessTtl, w, events[0], r, s, 0);
      HasBegun(accessTtl, After(accessTtl, w, events[0]), events[1..], r, s);
    }
  }

  /** Over any run, a session comes to be revoked only by a sign-in of its own
      user, by a sign-out its own user began, or by the reuse of one of its
      tokens; and the index is told of it only by the last two. */
  lemma RevokedOnlyByOwn(accessTtl: nat, events: seq<Event>, e: Event, s: SessionId)
    ensures var w := AfterAll(accessTtl, EMPTY, events);
            var w' := After(accessTtl, w, e);
            && (!IsRevoked(w, s) && IsRevoked(w', s) ==>
                  || DropsOwn(w, e, s)
                  || (e.RevokeCommit? && SignOutBegan(accessTtl, EMPTY, events, e.request, s))
                  || (e.ReviseFamily? && ReuseBegan(accessTtl, EMPTY, events, e.request, s)))
            && (!Same(w.indexedAt, w'.indexedAt, s) ==>
                  || (e.RevokeIndex? && SignOutBegan(accessTtl, EMPTY, events, e.request, s))
                  || (e.IndexReuse? && ReuseBegan(accessTtl, EMPTY, events, e.request, s)))
  {
    StepCauses(accessTtl, AfterAll(accessTtl, EMPTY, events), e, 0, s, 0);
    if e.RevokeCommit? || e.ReviseFamily? || e.RevokeIndex? || e.IndexReuse? {
      HasBegun(accessTtl, EMPTY, events, e.request, s);
    }
  }

  /** Some token of the session and family has been used. */
  ghost predicate UsedIn(w: World, s: SessionId, f: FamilyId) {
    exists t :: IsUsedIn(w, t, s, f)
  }

  predicate IsUsedIn(w: World, t: TokenId, s: SessionId, f: FamilyId) {
    t in w.tokens && w.tokens[t].used && w.tokens[t].session == s && w.tokens[t].family == f
  }

  /** A sign-out is about to revoke tokens of its session, and of no other; a
      request that has found reuse has found a used token. */
  ghost predicate Warranted(w: World, r: Request) {
    r in w.requests ==>
      && (w.requests[r].phase.Revoking? ==> forall t :: t in w.requests[r].phase.tokens ==> IsOf(w, t, w.requests[r].phase.session))
      && (w.requests[r].phase.Reusing? ==> UsedIn(w, w.requests[r].phase.session, w.requests[r].phase.family))
  }

  predicate IsOf(w: World, t: TokenId, s: SessionId) {
    t in w.tokens && w.tokens[t].session == s
  }

  /** A request goes on with what it had found, or finds it now. */
  ghost predicate Finds(w: World, w': World, r: Request) {
    r in w'.requests ==>
      && (w'.requests[r].phase.Revoking? ==>
            || (r in w.requests && w.requests[r].phase.Revoking? && w.requests[r].phase.session == w'.requests[r].phase.session
                && w.requests[r].phase.tokens == w'.requests[r].phase.tokens)
            || forall t :: t in w'.requests[r].phase.tokens ==> IsOf(w, t, w'.requests[r].phase.session))
      && (w'.requests[r].phase.Reusing? ==>
            || (r in w.requests && w.requests[r].phase.Reusing? && w.requests[r].phase.session == w'.requests[r].phase.session
                && w.requests[r].phase.family == w'.requests[r].phase.family)
            || UsedIn(w, w'.requests[r].phase.session, w'.requests[r].phase.family))
  }

  lemma PresentFinds(w: World, q: Request, t: TokenId, r: Request)
    ensures Finds(w, AfterPresent(w, q, t), r)
  {
    if t in w.tokens {
      assert w.tokens[t].used ==> IsUsedIn(w, t, w.tokens[t].session, w.tokens[t].family);
    }
  }

  lemma NothingFoundFinds(w: World, w': World, q: Request, r: Request)
    requires NothingFound(w, w', q)
    ensures Finds(w, w', r)
  {
  }

  lemma SameRequestsFind(w: World, w': World, r: Request)
    requires w'.requests == w.requests
    ensures Finds(w, w', r)
  {
  }

  lemma StartFinds(w: World, e: Event, r: Request)
    requires e.Start?
    ensures Finds(w, AfterStart(w, e), r)
  {
    SameRequestsFind(w, AfterStart(w, e), r);
  }

  lemma MintFinds(w: World, q: Request, n: TokenId, r: Request)
    ensures Finds(w, AfterMint(w, q, n), r)
  {
    NothingFoundFinds(w, AfterMint(w, q, n), q, r);
  }

  lemma ReviseFinds(w: World, q: Request, ok: bool, r: Request)
    ensures Finds(w, AfterRevise(w, q, ok), r)
  {
    NothingFoundFinds(w, AfterRevise(w, q, ok), q, r);
  }

  lemma IndexReuseFinds(accessTtl: nat, w: World, q: Request, r: Request)
    ensures Finds(w, AfterIndexReuse(accessTtl, w, q), r)
  {
    NothingFoundFinds(w, AfterIndexReuse(accessTtl, w, q), q, r);
  }

  lemma RevokeRowFinds(w: World, q: Request, s: SessionId, user: UserId, r: Request)
    ensures Finds(w, AfterRevokeRow(w, q, s, user), r)
  {
    assert forall t :: t in UnrevokedTokens(w, s) ==> IsOf(w, t, s);
  }

  lemma RevokeTokensFinds(w: World, q: Request, r: Request)
    ensures Finds(w, AfterRevokeTokens(w, q), r)
  {
    NothingFoundFinds(w, AfterRevokeTokens(w, q), q, r);
  }

  lemma RevokeIndexFinds(accessTtl: nat, w: World, q: Request, r: Request)
    ensures Finds(w, AfterRevokeIndex(accessTtl, w, q), r)
  {
    NothingFoundFinds(w, AfterRevokeIndex(accessTtl, w, q), q, r);
  }

  lemma RevokeCommitFinds(w: World, q: Request, r: Request)
    ensures Finds(w, AfterRevokeCommit(w, q), r)
  {
    NothingFoundFinds(w, AfterRevokeCommit(w, q), q, r);
  }

  lemma StepFinds(accessTtl: nat, w: World, e: Event, r: Request)
    ensures Finds(w, After(accessTtl, w, e), r)
  {
    match e
    case Tick(_) => SameRequestsFind(w, After(accessTtl, w, e), r);
    case Start(_, _, _, _, _, _) => StartFinds(w, e, r);
    case Present(q, t) => PresentFinds(w, q, t, r);
    case Claim(q) => ClaimMoves(w, q); NothingFoundFinds(w, AfterClaim(w, q), q, r);
    case Check(q, known) => CheckMoves(w, q, known); NothingFoundFinds(w, AfterCheck(w, q, known), q, r);
    case Mint(q, n) => MintFinds(w, q, n, r);
    case Abort(q) => AbortMoves(w, q); NothingFoundFinds(w, AfterAbort(w, q), q, r);
    case ReviseFamily(q, ok) => ReviseFinds(w, q, ok, r);
    case IndexReuse(q) => IndexReuseFinds(accessTtl, w, q, r);
    case RevokeRow(q, s, user) => RevokeRowFinds(w, q, s, user, r);
    case RevokeTokens(q) => RevokeTokensFinds(w, q, r);
    case RevokeIndex(q) => RevokeIndexFinds(accessTtl, w, q, r);
    case RevokeCommit(q) => RevokeCommitFinds(w, q, r);
  }

  lemma StillUsedIn(w: World, w': World, e: Event, s: SessionId, f: FamilyId)
    requires UsedIn(w, s, f) && forall t :: TokenHasCause(w, w', e, t)
    ensures UsedIn(w', s, f)
  {
    var t :| IsUsedIn(w, t, s, f);
    assert TokenHasCause(w, w', e, t) && IsUsedIn(w', t, s, f);
  }

  lemma FindsIsWarranted(w: World, w': World, e: Event, r: Request)
    requires Warranted(w, r) && Finds(w, w', r) && forall t :: TokenHasCause(w, w', e, t)
    ensures Warranted(w', r)
  {
    if r in w'.requests && w'.requests[r].phase.Reusing? {
      StillUsedIn(w, w', e, w'.requests[r].phase.session, w'.requests[r].phase.family);
    }
    if r in w'.requests && w'.requests[r].phase.Revoking? {
      forall t | t in w'.requests[r].phase.tokens ensures IsOf(w', t, w'.requests[r].phase.session) {
        assert IsOf(w, t, w'.requests[r].phase.session) && TokenHasCause(w, w', e, t);
      }
    }
  }

  lemma {:induction false} RunIsWarranted(accessTtl: nat, w: World, events: seq<Event>, r: Request)
    requires Warranted(w, r)
    ensures Warranted(AfterAll(accessTtl, w, events), r)
    decreases |events|
  {
    if events != [] {
      var w' := After(accessTtl, w, events[0]);
      StepFinds(accessTtl, w, events[0], r);
      forall t ensures TokenHasCause(w, w', events[0], t) {
        StepCauses(accessTtl, w, events[0], r, 0, t);
      }
      FindsIsWarranted(w, w', events[0], r);
      RunIsWarranted(accessTtl, w', events[1..], r);
    }
  }

  predicate ComesRevoked(w: World, w': World, t: TokenId) {
    t in w.tokens && !w.tokens[t].revoked && t in w'.tokens && w'.tokens[t].revoked
  }

  /** Why, of a step taken where every request is warranted. */
  ghost predicate RevokedWithCause(w: World, e: Event, t: TokenId)
    requires t in w.tokens
  {
    || (e.RevokeCommit? && IsRevoking(w, e.request, w.tokens[t].session))
    || (e.ReviseFamily? && exists s :: IsReusing(w, e.request, s) && UsedIn(w, s, w.tokens[t].family))
  }

  lemma TokenCause(w: World, w': World, e: Event, t: TokenId)
    requires TokenHasCause(w, w', e, t) && ComesRevoked(w, w', t)
    requires e.RevokeCommit? || e.ReviseFamily? ==> Warranted(w, e.request)
    ensures RevokedWithCause(w, e, t)
  {
    var phase := w.requests[e.request].phase;
    if e.RevokeCommit? {
      assert IsOf(w, t, phase.session);
    } else {
      assert IsReusing(w, e.request, phase.session);
    }
  }

  /** Over any run, a token comes to be revoked only by a sign-out of its
      session that its own user began, or where a token of its family was used
      before and presented again. */
  lemma TokenRevokedOnlyByOwn(accessTtl: nat, events: seq<Event>, e: Event, t: TokenId)
    requires var w := AfterAll(accessTtl, EMPTY, events); ComesRevoked(w, After(accessTtl, w, e), t)
    ensures var w := AfterAll(accessTtl, EMPTY, events);
            || (e.RevokeCommit? && SignOutBegan(accessTtl, EMPTY, events, e.request, w.tokens[t].session))
            || (e.ReviseFamily? && exists s :: ReuseBegan(accessTtl, EMPTY, events, e.request, s) && UsedIn(w, s, w.tokens[t].family))
  {
    var w := AfterAll(accessTtl, EMPTY, events);
    StepCauses(accessTtl, w, e, 0, 0, t);
    if e.RevokeCommit? || e.ReviseFamily? {
      RunIsWarranted(accessTtl, EMPTY, events, e.request);
    }
    TokenCause(w, After(accessTtl, w, e), e, t);
    if e.RevokeCommit? {
      HasBegun(accessTtl, EMPTY, events, e.request, w.tokens[t].session);
    } else {
      var s :| IsReusing(w, e.request, s) && UsedIn(w, s, w.tokens[t].family);
      HasBegun(accessTtl, EMPTY, events, e.request, s);
    }
  }
}
