/** What a request to renew a session or to revoke it comes to, when nobody gets
    in its way: exactly what it writes, and that it otherwise writes nothing. */
module SessionOutcomes {
  import opened Wrappers
  import opened Revocation
  import opened Sessions
  import opened SessionRevocation

  // --- renewing -------------------------------------------------------------------------------------------

  /** A token can be exchanged: it has been neither used nor revoked, and it and
      its session have not run out; the session is not revoked, and its user
      still has an account. */
  predicate Exchangeable(w: World, t: TokenId, known: bool) {
    && t in w.tokens && !w.tokens[t].used && !w.tokens[t].revoked && w.tokens[t].expiresAt > w.clock
    && var s := w.tokens[t].session;
    && s in w.sessions && w.sessions[s].revokedAt.None? && w.sessions[s].expiresAt > w.clock
    && known
  }

  /** One refresh, uninterrupted. */
  function Refreshed(accessTtl: nat, w: World, q: Request, t: TokenId, known: bool, n: TokenId): World {
    After(accessTtl, After(accessTtl, After(accessTtl, After(accessTtl, w, Present(q, t)), Claim(q)), Check(q, known)), Mint(q, n))
  }

  /** Ended one way or the other, with nothing else of the request left. */
  function EndedAs(w: World, q: Request, granted: bool): World {
    w.(requests := w.requests[q := Pending(w.clock, Ended(granted))])
  }

  /** The token is used, and its successor is of the same session and family and
      runs out when the session does. */
  function ExchangedFor(w: World, q: Request, t: TokenId, n: TokenId): World
    requires t in w.tokens && w.tokens[t].session in w.sessions
  {
    var spent := w.tokens[t];
    EndedAs(w, q, true).(
      tokens := w.tokens[t := spent.(used := true)]
                        [n := Token(spent.session, spent.family, w.sessions[spent.session].expiresAt, false, false)],
      access := w.access + {Access(spent.session, w.clock)},
      exchanged := w.exchanged + {(t, n)},
      tip := w.tip[spent.family := n])
  }

  lemma ExchangeableIsLive(accessTtl: nat, w: World, q: Request, t: TokenId)
    requires Exchangeable(w, t, true) && q !in w.requests && t !in w.locks
    ensures After(accessTtl, After(accessTtl, After(accessTtl, w, Present(q, t)), Claim(q)), Check(q, true)) == ReadAsLive(w, q, t)
  {
    RenewableIsRead(accessTtl, w, q, t);
  }

  lemma LiveIsExchanged(accessTtl: nat, w: World, q: Request, t: TokenId, n: TokenId)
    requires Exchangeable(w, t, true) && t !in w.locks && n !in w.tokens
    ensures After(accessTtl, ReadAsLive(w, q, t), Mint(q, n)) == ExchangedFor(w, q, t, n)
  {
    var minted := AfterMint(ReadAsLive(w, q, t), q, n);
    assert minted.locks == w.locks;
    assert minted.requests == w.requests[q := Pending(w.clock, Ended(true))];
  }

  lemma RefreshGranted(accessTtl: nat, w: World, q: Request, t: TokenId, n: TokenId)
    requires Exchangeable(w, t, true) && q !in w.requests && t !in w.locks && n !in w.tokens
    ensures Refreshed(accessTtl, w, q, t, true, n) == ExchangedFor(w, q, t, n)
  {
    ExchangeableIsLive(accessTtl, w, q, t);
    LiveIsExchanged(accessTtl, w, q, t, n);
  }

  /** Refused on presentation, nothing is written; and what is refused stays so. */
  lemma EndedStays(accessTtl: nat, w: World, q: Request, known: bool, n: TokenId)
    requires q in w.requests && w.requests[q].phase.Ended?
    ensures After(accessTtl, After(accessTtl, After(accessTtl, w, Claim(q)), Check(q, known)), Mint(q, n)) == w
  {
  }

  lemma RefusedAtOnce(accessTtl: nat, w: World, q: Request, t: TokenId, known: bool, n: TokenId)
    requires q !in w.requests
    requires t !in w.tokens || (!w.tokens[t].used && (w.tokens[t].revoked || w.tokens[t].expiresAt <= w.clock))
    ensures Refreshed(accessTtl, w, q, t, known, n) == EndedAs(w, q, false)
  {
    EndedStays(accessTtl, EndedAs(w, q, false), q, known, n);
  }

  /** The request has marked its token. */
  function Marked(w: World, q: Request, t: TokenId): World {
    w.(requests := w.requests[q := Pending(w.clock, Claimed(t))], locks := w.locks[t := q])
  }

  lemma PresentedIsMarked(accessTtl: nat, w: World, q: Request, t: TokenId)
    requires q !in w.requests && t !in w.locks
    requires t in w.tokens && !w.tokens[t].used && !w.tokens[t].revoked && w.tokens[t].expiresAt > w.clock
    ensures After(accessTtl, After(accessTtl, w, Present(q, t)), Claim(q)) == Marked(w, q, t)
  {
    var found := After(accessTtl, w, Present(q, t));
    assert found == w.(requests := w.requests[q := Pending(w.clock, Found(t))]);
  }

  lemma MarkedIsRefused(accessTtl: nat, w: World, q: Request, t: TokenId, known: bool)
    requires t !in w.locks && !(ReadsLive(w, t, w.clock) && known)
    ensures After(accessTtl, Marked(w, q, t), Check(q, known)) == EndedAs(w, q, false)
  {
    var marked := Marked(w, q, t);
    var refused := After(accessTtl, marked, Check(q, known));
    assert marked.locks - {t} == w.locks;
    assert refused.requests == w.requests[q := Pending(w.clock, Ended(false))];
  }

  lemma RefusedWhenRead(accessTtl: nat, w: World, q: Request, t: TokenId, known: bool, n: TokenId)
    requires q !in w.requests && t !in w.locks && !Exchangeable(w, t, known)
    requires t in w.tokens && !w.tokens[t].used && !w.tokens[t].revoked && w.tokens[t].expiresAt > w.clock
    ensures Refreshed(accessTtl, w, q, t, known, n) == EndedAs(w, q, false)
  {
    PresentedIsMarked(accessTtl, w, q, t);
    MarkedIsRefused(accessTtl, w, q, t, known);
    assert After(accessTtl, EndedAs(w, q, false), Mint(q, n)) == EndedAs(w, q, false);
  }

  /** A refresh nobody interferes with, of a token nobody has used, is granted
      exactly if the token can be exchanged; granted, it gives the one successor
      and one access token, and refused it leaves everything as it was. */
  lemma RefreshOutcome(accessTtl: nat, w: World, q: Request, t: TokenId, known: bool, n: TokenId)
    requires q !in w.requests && t !in w.locks && n !in w.tokens && (t in w.tokens ==> !w.tokens[t].used)
    ensures Refreshed(accessTtl, w, q, t, known, n)
            == if Exchangeable(w, t, known) then ExchangedFor(w, q, t, n) else EndedAs(w, q, false)
  {
    if Exchangeable(w, t, known) {
      RefreshGranted(accessTtl, w, q, t, n);
    } else if t !in w.tokens || w.tokens[t].revoked || w.tokens[t].expiresAt <= w.clock {
      RefusedAtOnce(accessTtl, w, q, t, known, n);
    } else {
      RefusedWhenRead(accessTtl, w, q, t, known, n);
    }
  }

  /** Presented while someone else uses it, a token is refused once it has been
      used, and nothing is written. */
  lemma LateClaimIsRefused(accessTtl: nat, w: World, q: Request)
    requires q in w.requests && w.requests[q].phase.Found?
    requires var t := w.requests[q].phase.token; t in w.tokens && w.tokens[t].used && t !in w.locks
    ensures After(accessTtl, w, Claim(q)) == w.(requests := w.requests[q := w.requests[q].(phase := Ended(false))])
  {
  }

  /** One presentation of a token that has been used, uninterrupted, with its
      durable revocation kept or lost. */
  function Reused(accessTtl: nat, w: World, q: Request, t: TokenId, kept: bool): World {
    After(accessTtl, After(accessTtl, After(accessTtl, w, Present(q, t)), ReviseFamily(q, kept)), IndexReuse(q))
  }

  /** The session and every token of the family are revoked, if that is kept, and
      nothing else is. */
  predicate FamilyRevoked(w: World, w': World, s: SessionId, f: FamilyId, kept: bool) {
    && w'.sessions.Keys == w.sessions.Keys && w'.tokens.Keys == w.tokens.Keys
    && (forall x :: x in w.sessions ==>
          w'.sessions[x] == if kept && x == s && w.sessions[x].revokedAt.None? then w.sessions[x].(revokedAt := Some(w.clock)) else w.sessions[x])
    && (forall u :: u in w.tokens ==>
          w'.tokens[u] == if kept && w.tokens[u].family == f then w.tokens[u].(revoked := true) else w.tokens[u])
  }

  /** What that comes to: refused, with the family revoked if that is kept and
      the index told of the session. */
  predicate IsReused(accessTtl: nat, w: World, w': World, q: Request, t: TokenId, kept: bool)
    requires t in w.tokens
  {
    var s := w.tokens[t].session;
    && w'.requests == w.requests[q := Pending(w.clock, Ended(false))] && w'.locks == w.locks && w'.access == w.access
    && FamilyRevoked(w, w', s, w.tokens[t].family, kept)
    && w'.index == w.index[s := w.clock + RevocationTtlSeconds(accessTtl) * SECOND] && w'.indexedAt == w.indexedAt[s := w.clock]
  }

  lemma ReuseIsFound(accessTtl: nat, w: World, q: Request, t: TokenId)
    requires q !in w.requests && t in w.tokens && w.tokens[t].used
    ensures After(accessTtl, w, Present(q, t))
            == w.(requests := w.requests[q := Pending(w.clock, Reusing(w.tokens[t].session, w.tokens[t].family, false))])
  {
  }

  lemma ReuseIsRevised(w: World, w1: World, q: Request, s: SessionId, f: FamilyId, kept: bool)
    requires w1 == w.(requests := w.requests[q := Pending(w.clock, Reusing(s, f, false))])
    ensures var w2 := AfterRevise(w1, q, kept);
            && w2 == w.(requests := w2.requests, sessions := w2.sessions, tokens := w2.tokens)
            && w2.requests == w.requests[q := Pending(w.clock, Reusing(s, f, true))] && FamilyRevoked(w, w2, s, f, kept)
  {
    var w2 := AfterRevise(w1, q, kept);
    assert w2.requests == w.requests[q := Pending(w.clock, Reusing(s, f, true))];
  }

  lemma ReuseIsIndexed(accessTtl: nat, w: World, w2: World, q: Request, s: SessionId, f: FamilyId)
    requires w2 == w.(requests := w2.requests, sessions := w2.sessions, tokens := w2.tokens)
    requires w2.requests == w.requests[q := Pending(w.clock, Reusing(s, f, true))]
    ensures AfterIndexReuse(accessTtl, w2, q) == Indexed(w2, s, accessTtl).(requests := w.requests[q := Pending(w.clock, Ended(false))])
  {
    var w3 := AfterIndexReuse(accessTtl, w2, q);
    assert w3.requests == w.requests[q := Pending(w.clock, Ended(false))];
  }

  /** A used token that is presented again is reuse, even one that has been
      revoked or has run out. */
  lemma ReuseOutcome(accessTtl: nat, w: World, q: Request, t: TokenId, kept: bool)
    requires q !in w.requests && t in w.tokens && w.tokens[t].used
    ensures IsReused(accessTtl, w, Reused(accessTtl, w, q, t, kept), q, t, kept)
  {
    var s, f := w.tokens[t].session, w.tokens[t].family;
    var w1 := w.(requests := w.requests[q := Pending(w.clock, Reusing(s, f, false))]);
    ReuseIsFound(accessTtl, w, q, t);
    ReuseIsRevised(w, w1, q, s, f, kept);
    ReuseIsIndexed(accessTtl, w, AfterRevise(w1, q, kept), q, s, f);
    ReusedIn(accessTtl, w, w1, q, t, kept);
  }

  lemma ReusedIn(accessTtl: nat, w: World, w1: World, q: Request, t: TokenId, kept: bool)
    requires After(accessTtl, w, Present(q, t)) == w1
    ensures Reused(accessTtl, w, q, t, kept) == AfterIndexReuse(accessTtl, AfterRevise(w1, q, kept), q)
  {
  }

  // --- signing out ----------------------------------------------------------------------------------------

  function SignedOut(accessTtl: nat, w: World, r: Request, s: SessionId, user: UserId): World {
    After(accessTtl, After(accessTtl, After(accessTtl, After(accessTtl, w, RevokeRow(r, s, user)), RevokeTokens(r)), RevokeIndex(r)),
          RevokeCommit(r))
  }

  /** A sign-out of somebody else's session, or of one that is revoked already,
      is refused, and nothing is written. */
  lemma StrangerIsRefused(accessTtl: nat, w: World, r: Request, s: SessionId, user: UserId)
    requires r !in w.requests && s in w.sessions && (w.sessions[s].user != user || w.sessions[s].revokedAt.Some?)
    ensures SignedOut(accessTtl, w, r, s, user) == EndedAs(w, r, false)
  {
    var refused := After(accessTtl, w, RevokeRow(r, s, user));
    assert refused == EndedAs(w, r, false);
    assert After(accessTtl, refused, RevokeTokens(r)) == refused;
    assert After(accessTtl, refused, RevokeIndex(r)) == refused;
    assert After(accessTtl, refused, RevokeCommit(r)) == refused;
  }

  /** What a user's own sign-out of a session comes to. */
  predicate IsSignedOut(accessTtl: nat, w: World, w': World, r: Request, s: SessionId)
    requires s in w.sessions
  {
    && w'.requests == w.requests[r := Pending(w.clock, Ended(true))] && w'.locks == w.locks && w'.access == w.access
    && w'.sessions == w.sessions[s := w.sessions[s].(revokedAt := Some(w.clock))]
    && w'.tokens.Keys == w.tokens.Keys
    && (forall t :: t in w.tokens ==> w'.tokens[t] == if w.tokens[t].session == s then w.tokens[t].(revoked := true) else w.tokens[t])
    && w'.index == w.index[s := w.clock + RevocationTtlSeconds(accessTtl) * SECOND]
    && w'.indexedAt == w.indexedAt[s := w.clock]
  }

  /** The tokens are held, and nothing else has been written. */
  ghost predicate IsHolding(w: World, w2: World, r: Request, s: SessionId) {
    && w2 == w.(requests := w.requests[r := Pending(w.clock, Revoking(s, UnrevokedTokens(w, s), true, false))], locks := w2.locks)
    && (forall t :: t in w2.locks <==> t in w.locks || t in UnrevokedTokens(w, s))
    && (forall t :: t in w2.locks ==> w2.locks[t] == if t in UnrevokedTokens(w, s) then r else w.locks[t])
  }

  lemma TokensAreHeld(accessTtl: nat, w: World, r: Request, s: SessionId)
    requires r !in w.requests && s in w.sessions && w.sessions[s].revokedAt.None?
    requires forall t :: t in w.tokens && w.tokens[t].session == s ==> t !in w.locks
    ensures var w2 := After(accessTtl, After(accessTtl, w, RevokeRow(r, s, w.sessions[s].user)), RevokeTokens(r));
            IsHolding(w, w2, r, s)
  {
    var gone := UnrevokedTokens(w, s);
    var w1 := After(accessTtl, w, RevokeRow(r, s, w.sessions[s].user));
    assert w1 == w.(requests := w.requests[r := Pending(w.clock, Revoking(s, gone, false, false))]);
    var w2 := After(accessTtl, w1, RevokeTokens(r));
    assert forall t :: t in gone ==> t !in w1.locks;
    assert w2.requests == w.requests[r := Pending(w.clock, Revoking(s, gone, true, false))];
  }

  lemma HeldIsIndexed(accessTtl: nat, w: World, w2: World, r: Request, s: SessionId)
    requires IsHolding(w, w2, r, s)
    ensures After(accessTtl, w2, RevokeIndex(r)) == Indexed(w2, s, accessTtl).(
              requests := w.requests[r := Pending(w.clock, Revoking(s, UnrevokedTokens(w, s), true, true))])
  {
    var w3 := After(accessTtl, w2, RevokeIndex(r));
    assert w3.requests == w.requests[r := Pending(w.clock, Revoking(s, UnrevokedTokens(w, s), true, true))];
  }

  lemma LocksReleased(w: World, w2: World, r: Request, s: SessionId)
    requires IsHolding(w, w2, r, s)
    requires forall t :: t in w.locks ==> w.locks[t] != r && (t in w.tokens ==> w.tokens[t].session != s)
    ensures LocksWithout(w2, r) == w.locks
  {
  }

  lemma CommitWrites(w: World, w3: World, r: Request, s: SessionId)
    requires s in w.sessions && w.sessions[s].revokedAt.None? && w3.sessions == w.sessions && w3.tokens == w.tokens
    requires w3.clock == w.clock
    requires w3.requests == w.requests[r := Pending(w.clock, Revoking(s, UnrevokedTokens(w, s), true, true))]
    ensures var w4 := AfterRevokeCommit(w3, r);
            && w4 == w3.(requests := w4.requests, sessions := w4.sessions, tokens := w4.tokens, locks := LocksWithout(w3, r))
            && w4.requests == w.requests[r := Pending(w.clock, Ended(true))]
            && w4.sessions == w.sessions[s := w.sessions[s].(revokedAt := Some(w.clock))]
            && w4.tokens.Keys == w.tokens.Keys
            && (forall t :: t in w.tokens ==> w4.tokens[t] == if w.tokens[t].session == s then w.tokens[t].(revoked := true) else w.tokens[t])
  {
    var w4 := AfterRevokeCommit(w3, r);
    assert w4.requests == w.requests[r := Pending(w.clock, Ended(true))];
    assert w4.sessions == w.sessions[s := w.sessions[s].(revokedAt := Some(w.clock))];
  }

  lemma IndexedCommits(accessTtl: nat, w: World, w2: World, w3: World, r: Request, s: SessionId)
    requires s in w.sessions && w.sessions[s].revokedAt.None? && IsHolding(w, w2, r, s)
    requires forall t :: t in w.locks ==> w.locks[t] != r && (t in w.tokens ==> w.tokens[t].session != s)
    requires w3 == Indexed(w2, s, accessTtl).(
                     requests := w.requests[r := Pending(w.clock, Revoking(s, UnrevokedTokens(w, s), true, true))])
    ensures IsSignedOut(accessTtl, w, After(accessTtl, w3, RevokeCommit(r)), r, s)
  {
    CommitWrites(w, w3, r, s);
    LocksReleased(w, w2, r, s);
    assert LocksWithout(w3, r) == LocksWithout(w2, r);
  }

  /** A user's own sign-out that nobody gets in the way of is granted: the row,
      every token of the session and the index are written, and nothing else. */
  lemma OwnSignOut(accessTtl: nat, w: World, r: Request, s: SessionId)
    requires r !in w.requests && s in w.sessions && w.sessions[s].revokedAt.None?
    requires forall t :: t in w.tokens && w.tokens[t].session == s ==> t !in w.locks
    requires forall t :: t in w.locks ==> w.locks[t] != r
    ensures IsSignedOut(accessTtl, w, SignedOut(accessTtl, w, r, s, w.sessions[s].user), r, s)
  {
    var w2 := After(accessTtl, After(accessTtl, w, RevokeRow(r, s, w.sessions[s].user)), RevokeTokens(r));
    TokensAreHeld(accessTtl, w, r, s);
    HeldIsIndexed(accessTtl, w, w2, r, s);
    IndexedCommits(accessTtl, w, w2, After(accessTtl, w2, RevokeIndex(r)), r, s);
  }
}
