/** Runs that show what a revocation does not reach, and the exact margin they
    give. Each waits wherever the database would make it wait. */
module SessionRuns {
  import opened Wrappers
  import opened Revocation
  import opened Sessions
  import opened SessionRevocation

  // --- runs in pieces ------------------------------------------------------------------------------------

  lemma {:induction false} InTurn(accessTtl: nat, w: World, a: seq<Event>, b: seq<Event>)
    ensures AfterAll(accessTtl, w, a + b) == AfterAll(accessTtl, AfterAll(accessTtl, w, a), b)
    decreases |a|
  {
    if a == [] {
      assert a + b == b;
    } else {
      assert (a + b)[0] == a[0] && (a + b)[1..] == a[1..] + b;
      InTurn(accessTtl, After(accessTtl, w, a[0]), a[1..], b);
    }
  }

  lemma One(accessTtl: nat, w: World, e: Event)
    ensures AfterAll(accessTtl, w, [e]) == After(accessTtl, w, e)
  {
    assert [e][1..] == [];
  }

  lemma Two(accessTtl: nat, w: World, a: Event, b: Event)
    ensures AfterAll(accessTtl, w, [a, b]) == After(accessTtl, After(accessTtl, w, a), b)
  {
    assert [a, b][1..] == [b];
    One(accessTtl, After(accessTtl, w, a), b);
  }

  lemma Three(accessTtl: nat, w: World, a: Event, b: Event, c: Event)
    ensures AfterAll(accessTtl, w, [a, b, c]) == After(accessTtl, After(accessTtl, After(accessTtl, w, a), b), c)
  {
    assert [a, b, c][1..] == [b, c];
    Two(accessTtl, After(accessTtl, w, a), b, c);
  }

  lemma Four(accessTtl: nat, w: World, a: Event, b: Event, c: Event, d: Event)
    ensures AfterAll(accessTtl, w, [a, b, c, d])
            == After(accessTtl, After(accessTtl, After(accessTtl, After(accessTtl, w, a), b), c), d)
  {
    assert [a, b, c, d][1..] == [b, c, d];
    Three(accessTtl, After(accessTtl, w, a), b, c, d);
  }

  /** A refresh, up to where it has read its session as live. */
  function Reading(q: Request, t: TokenId): seq<Event> {
    [Present(q, t), Claim(q), Check(q, true)]
  }

  lemma ReadingReads(accessTtl: nat, w: World, q: Request, t: TokenId)
    requires Renewable(w, t) && q !in w.requests
    ensures AfterAll(accessTtl, w, Reading(q, t)) == ReadAsLive(w, q, t)
  {
    Three(accessTtl, w, Present(q, t), Claim(q), Check(q, true));
    RenewableIsRead(accessTtl, w, q, t);
  }

  /** One user signed in, at `clock`, for `seconds`. */
  predicate SignedIn(w: World, clock: Time, expiresAt: Time) {
    && w.clock == clock && w.sessions == map[0 := Session(7, expiresAt, None)]
    && w.tokens == map[0 := Token(0, 0, expiresAt, false, false)]
    && w.requests == map[] && w.locks == map[] && w.index == map[] && w.indexedAt == map[]
    && w.access == {Access(0, clock)} && w.tip == map[0 := 0]
  }

  lemma SignsIn(accessTtl: nat, clock: Time, ttlSeconds: nat)
    ensures SignedIn(AfterAll(accessTtl, EMPTY, [Tick(clock), Start(0, 0, 0, 7, ttlSeconds, {})]), clock, clock + ttlSeconds * SECOND)
  {
    Two(accessTtl, EMPTY, Tick(clock), Start(0, 0, 0, 7, ttlSeconds, {}));
    var w := After(accessTtl, EMPTY, Tick(clock));
    assert w == EMPTY.(clock := clock);
    var w' := After(accessTtl, w, Start(0, 0, 0, 7, ttlSeconds, {}));
    assert w'.sessions == map[0 := Session(7, clock + ttlSeconds * SECOND, None)];
  }

  // --- revoked while a refresh is under way ----------------------------------------------------------------

  /** A refresh has read its session as live when another sign-in of the user
      passes the ceiling and revokes it. */
  function CeilingOvertakes(): seq<Event> {
    [Tick(0), Start(0, 0, 0, 7, 60, {})] + Reading(1, 0) + [Start(1, 1, 1, 7, 60, {0})]
  }

  lemma CeilingRevokes(accessTtl: nat, w: World)
    requires SignedIn(w, 0, 60000)
    ensures var w' := After(accessTtl, ReadAsLive(w, 1, 0), Start(1, 1, 1, 7, 60, {0}));
            IsRevoked(w', 0) && LiveFor(w', 1, 0) && 2 !in w'.tokens
  {
    var live := ReadAsLive(w, 1, 0);
    assert MayStart(live, Start(1, 1, 1, 7, 60, {0}));
  }

  lemma CeilingInTurn(accessTtl: nat)
    ensures var w := AfterAll(accessTtl, EMPTY, CeilingOvertakes());
            IsRevoked(w, 0) && LiveFor(w, 1, 0) && 2 !in w.tokens
  {
    var start := [Tick(0), Start(0, 0, 0, 7, 60, {})];
    var last := Start(1, 1, 1, 7, 60, {0});
    var w := AfterAll(accessTtl, EMPTY, start);
    SignsIn(accessTtl, 0, 60);
    ReadingReads(accessTtl, w, 1, 0);
    InTurn(accessTtl, EMPTY, start, Reading(1, 0));
    InTurn(accessTtl, EMPTY, start + Reading(1, 0), [last]);
    One(accessTtl, ReadAsLive(w, 1, 0), last);
    CeilingRevokes(accessTtl, w);
  }

  lemma MintedAfterAll(accessTtl: nat, w: World, r: Request, s: SessionId, n: TokenId)
    requires IsRevoked(w, s) && LiveFor(w, r, s) && n !in w.tokens
    ensures var w' := AfterAll(accessTtl, w, [Mint(r, n)]);
            IsRevoked(w', s) && n in SessionTokens(w', s) && !w'.tokens[n].used && !w'.tokens[n].revoked
            && Access(s, w.requests[r].now) in AccessOf(w', s)
  {
    One(accessTtl, w, Mint(r, n));
    LiveIsRenewed(accessTtl, w, r, s, n);
  }

  /** A session that is revoked is renewed: a reachable state in which one has
      been while a request is live for it, and what that request then does. */
  lemma RevokedIsRenewed(accessTtl: nat)
    ensures var w := AfterAll(accessTtl, EMPTY, CeilingOvertakes());
            IsRevoked(w, 0) && LiveFor(w, 1, 0) && 2 !in w.tokens
    ensures var w' := AfterAll(accessTtl, EMPTY, CeilingOvertakes() + [Mint(1, 2)]);
            IsRevoked(w', 0) && 2 in SessionTokens(w', 0) && !w'.tokens[2].used && !w'.tokens[2].revoked
  {
    CeilingInTurn(accessTtl);
    InTurn(accessTtl, EMPTY, CeilingOvertakes(), [Mint(1, 2)]);
    MintedAfterAll(accessTtl, AfterAll(accessTtl, EMPTY, CeilingOvertakes()), 1, 0, 2);
  }

  // --- a durable revocation that is lost ---------------------------------------------------------------------

  /** A refresh, its token presented again, and the revocation that fails. */
  function Lost(): seq<Event> {
    [Tick(0), Start(0, 0, 0, 7, 60, {})] + Reading(1, 0) + [Mint(1, 1), Present(2, 0), ReviseFamily(2, false), IndexReuse(2)]
  }

  /** Reuse has been refused and the index told, and nothing else was written. */
  predicate RefusedOnly(w: World) {
    && 2 in w.requests && w.requests[2].phase == Ended(false) && 3 !in w.requests
    && 0 in w.indexedAt && w.sessions == map[0 := Session(7, 60000, None)]
    && Renewable(w, 1) && w.tokens[1].session == 0 && 2 !in w.tokens
  }

  lemma MintedOnce(accessTtl: nat, w: World)
    requires SignedIn(w, 0, 60000)
    ensures var w' := After(accessTtl, ReadAsLive(w, 1, 0), Mint(1, 1));
            && w'.clock == 0 && w'.sessions == w.sessions && w'.locks == map[]
            && w'.tokens == map[0 := Token(0, 0, 60000, true, false), 1 := Token(0, 0, 60000, false, false)]
            && w'.requests == map[1 := Pending(0, Ended(true))]
  {
    var w' := After(accessTtl, ReadAsLive(w, 1, 0), Mint(1, 1));
    assert w'.locks == map[];
  }

  lemma ReuseRefused(accessTtl: nat, w: World)
    requires w.clock == 0 && w.sessions == map[0 := Session(7, 60000, None)] && w.locks == map[]
    requires w.tokens == map[0 := Token(0, 0, 60000, true, false), 1 := Token(0, 0, 60000, false, false)]
    requires w.requests == map[1 := Pending(0, Ended(true))]
    ensures RefusedOnly(After(accessTtl, After(accessTtl, After(accessTtl, w, Present(2, 0)), ReviseFamily(2, false)), IndexReuse(2)))
  {
    var presented := After(accessTtl, w, Present(2, 0));
    assert presented == w.(requests := w.requests[2 := Pending(0, Reusing(0, 0, false))]);
    var revised := After(accessTtl, presented, ReviseFamily(2, false));
    assert revised == presented.(requests := presented.requests[2 := Pending(0, Reusing(0, 0, true))]);
  }

  lemma LostRefuses(accessTtl: nat)
    ensures RefusedOnly(AfterAll(accessTtl, EMPTY, Lost()))
  {
    var start := [Tick(0), Start(0, 0, 0, 7, 60, {})];
    var rest := [Mint(1, 1), Present(2, 0), ReviseFamily(2, false), IndexReuse(2)];
    var w := AfterAll(accessTtl, EMPTY, start);
    SignsIn(accessTtl, 0, 60);
    ReadingReads(accessTtl, w, 1, 0);
    InTurn(accessTtl, EMPTY, start, Reading(1, 0));
    InTurn(accessTtl, EMPTY, start + Reading(1, 0), rest);
    Four(accessTtl, ReadAsLive(w, 1, 0), rest[0], rest[1], rest[2], rest[3]);
    MintedOnce(accessTtl, w);
    ReuseRefused(accessTtl, After(accessTtl, ReadAsLive(w, 1, 0), Mint(1, 1)));
  }

  lemma NewestIsExchanged(accessTtl: nat, w: World)
    requires RefusedOnly(w)
    ensures var w' := After(accessTtl, ReadAsLive(w, 3, 1), Mint(3, 2));
            && 2 in w'.requests && w'.requests[2].phase == Ended(false) && 0 in w'.indexedAt && !IsRevoked(w', 0)
            && 2 in SessionTokens(w', 0) && !w'.tokens[2].used && !w'.tokens[2].revoked
  {
    LiveIsRenewed(accessTtl, ReadAsLive(w, 3, 1), 3, 0, 2);
  }

  /** From the sign-in on: the reused token is refused and the index told, and
      the family's newest token is exchanged all the same, of a session that is
      not revoked. */
  lemma ReusedFamilyIsRenewed(accessTtl: nat)
    ensures var w := AfterAll(accessTtl, EMPTY, Lost() + Reading(3, 1) + [Mint(3, 2)]);
            && 2 in w.requests && w.requests[2].phase == Ended(false) && 0 in w.indexedAt && !IsRevoked(w, 0)
            && 2 in SessionTokens(w, 0) && !w.tokens[2].used && !w.tokens[2].revoked
  {
    var refused := AfterAll(accessTtl, EMPTY, Lost());
    LostRefuses(accessTtl);
    ReadingReads(accessTtl, refused, 3, 1);
    InTurn(accessTtl, EMPTY, Lost(), Reading(3, 1));
    InTurn(accessTtl, EMPTY, Lost() + Reading(3, 1), [Mint(3, 2)]);
    One(accessTtl, ReadAsLive(refused, 3, 1), Mint(3, 2));
    NewestIsExchanged(accessTtl, refused);
  }

  // --- the margin, over whole runs -----------------------------------------------------------------------

  /** Nothing accepts an access token of a session that was revoked no more than
      `delay` after a readable index was last told of it, in any run. */
  ghost predicate SafeWithin(accessTtl: nat, delay: nat) {
    forall events, s, a :: !AcceptedAfter(accessTtl, delay, events, s, a)
  }

  predicate AcceptedAfter(accessTtl: nat, delay: nat, events: seq<Event>, s: SessionId, a: Access) {
    var w := AfterAll(accessTtl, EMPTY, events);
    && IsRevoked(w, s) && s in w.indexedAt && w.sessions[s].revokedAt.value <= w.indexedAt[s] + delay
    && a in AccessOf(w, s) && Accepted(accessTtl, w, a, true)
  }

  /** A sign-out looks up the tokens there are while a refresh has one of them
      marked; when it gets to write them there is another, which it does not
      know of. It tells the index, and takes its time to commit. */
  function SlowSignOut(): seq<Event> {
    [RevokeRow(0, 0, 7), Mint(2, 1), RevokeTokens(0), RevokeIndex(0)]
  }

  /** Meanwhile that other token is exchanged; and once the index has forgotten
      the session, the access token that went with it is still fresh. */
  function LateRun(accessTtl: nat): seq<Event> {
    [Tick(999), Start(0, 0, 0, 7, 3600, {})] + Reading(2, 0) + SlowSignOut()
    + [Tick(49001)] + Reading(1, 1) + [Mint(1, 2), RevokeCommit(0), Tick((accessTtl + 10) * SECOND + 999)]
  }

  const SIGNED_IN := Session(7, 3600999, None)

  predicate HalfSignedOut(accessTtl: nat, w: World, clock: Time) {
    && w.clock == clock && w.sessions == map[0 := SIGNED_IN] && w.locks == map[0 := 0]
    && w.tokens == map[0 := Token(0, 0, 3600999, true, false), 1 := Token(0, 0, 3600999, false, false)]
    && w.requests == map[0 := Pending(999, Revoking(0, {0}, true, true)), 2 := Pending(999, Ended(true))]
    && w.index == map[0 := 999 + RevocationTtlSeconds(accessTtl) * SECOND] && w.indexedAt == map[0 := 999]
  }

  /** The sign-out has looked its tokens up, and waits for the refresh. */
  function Waiting(w: World): World {
    ReadAsLive(w, 2, 0).(requests := map[2 := Pending(999, Live(0)), 0 := Pending(999, Revoking(0, {0}, false, false))])
  }

  lemma SignOutWaits(accessTtl: nat, w: World)
    requires SignedIn(w, 999, 3600999)
    ensures After(accessTtl, ReadAsLive(w, 2, 0), RevokeRow(0, 0, 7)) == Waiting(w)
    ensures After(accessTtl, Waiting(w), RevokeTokens(0)) == Waiting(w)
  {
    var live := ReadAsLive(w, 2, 0);
    assert UnrevokedTokens(live, 0) == {0};
    assert live.requests == map[2 := Pending(999, Live(0))];
    assert 0 in Waiting(w).locks && 0 in Waiting(w).requests[0].phase.tokens;
  }

  /** The refresh has committed, and the sign-out may go on. */
  predicate Refreshed(w: World) {
    && w.clock == 999 && w.sessions == map[0 := SIGNED_IN] && w.locks == map[]
    && w.tokens == map[0 := Token(0, 0, 3600999, true, false), 1 := Token(0, 0, 3600999, false, false)]
    && w.requests == map[0 := Pending(999, Revoking(0, {0}, false, false)), 2 := Pending(999, Ended(true))]
    && w.index == map[] && w.indexedAt == map[]
  }

  lemma RefreshCommits(accessTtl: nat, w: World)
    requires SignedIn(w, 999, 3600999)
    ensures Refreshed(After(accessTtl, Waiting(w), Mint(2, 1)))
  {
    var minted := After(accessTtl, Waiting(w), Mint(2, 1));
    assert minted.locks == map[];
  }

  lemma SignOutGoesOn(accessTtl: nat, w: World)
    requires Refreshed(w)
    ensures HalfSignedOut(accessTtl, After(accessTtl, After(accessTtl, w, RevokeTokens(0)), RevokeIndex(0)), 999)
  {
    var held := After(accessTtl, w, RevokeTokens(0));
    assert held.requests == map[0 := Pending(999, Revoking(0, {0}, true, false)), 2 := Pending(999, Ended(true))];
    assert held.locks == map[0 := 0];
  }

  lemma HalfWay(accessTtl: nat)
    ensures var opening := [Tick(999), Start(0, 0, 0, 7, 3600, {})] + Reading(2, 0) + SlowSignOut();
            HalfSignedOut(accessTtl, AfterAll(accessTtl, EMPTY, opening), 999)
  {
    var start := [Tick(999), Start(0, 0, 0, 7, 3600, {})];
    var w := AfterAll(accessTtl, EMPTY, start);
    SignsIn(accessTtl, 999, 3600);
    ReadingReads(accessTtl, w, 2, 0);
    InTurn(accessTtl, EMPTY, start, Reading(2, 0));
    InTurn(accessTtl, EMPTY, start + Reading(2, 0), SlowSignOut());
    Four(accessTtl, ReadAsLive(w, 2, 0), RevokeRow(0, 0, 7), Mint(2, 1), RevokeTokens(0), RevokeIndex(0));
    SignOutWaits(accessTtl, w);
    RefreshCommits(accessTtl, w);
    SignOutGoesOn(accessTtl, After(accessTtl, Waiting(w), Mint(2, 1)));
  }

  /** What has happened by the time the sign-out commits. */
  predicate Overtaken(accessTtl: nat, w: World) {
    && w.clock == 50000 && w.sessions == map[0 := SIGNED_IN] && Access(0, 50000) in w.access
    && 0 in w.requests && w.requests[0].phase == Revoking(0, {0}, true, true)
    && w.index == map[0 := 999 + RevocationTtlSeconds(accessTtl) * SECOND] && w.indexedAt == map[0 := 999]
  }

  lemma RefreshOvertakes(accessTtl: nat, w: World)
    requires HalfSignedOut(accessTtl, w, 50000)
    ensures Overtaken(accessTtl, After(accessTtl, AfterAll(accessTtl, w, Reading(1, 1)), Mint(1, 2)))
  {
    assert Renewable(w, 1);
    ReadingReads(accessTtl, w, 1, 1);
  }

  lemma CommitsLate(accessTtl: nat, w: World)
    requires Overtaken(accessTtl, w)
    ensures var w' := After(accessTtl, After(accessTtl, w, RevokeCommit(0)), Tick((accessTtl + 10) * SECOND + 999));
            && w'.clock == 50000 + (accessTtl + 10) * SECOND + 999
            && w'.index == w.index && w'.indexedAt == w.indexedAt && w'.access == w.access
            && 0 in w'.sessions && w'.sessions[0].revokedAt == Some(50000)
  {
  }

  lemma LateRunInTurn(accessTtl: nat, half: World)
    requires half == AfterAll(accessTtl, EMPTY, [Tick(999), Start(0, 0, 0, 7, 3600, {})] + Reading(2, 0) + SlowSignOut())
    ensures AfterAll(accessTtl, EMPTY, LateRun(accessTtl))
            == var later := AfterAll(accessTtl, After(accessTtl, half, Tick(49001)), Reading(1, 1));
               After(accessTtl, After(accessTtl, After(accessTtl, later, Mint(1, 2)), RevokeCommit(0)),
                     Tick((accessTtl + 10) * SECOND + 999))
  {
    var opening := [Tick(999), Start(0, 0, 0, 7, 3600, {})] + Reading(2, 0) + SlowSignOut();
    var last := Tick((accessTtl + 10) * SECOND + 999);
    InTurn(accessTtl, EMPTY, opening, [Tick(49001)]);
    One(accessTtl, half, Tick(49001));
    InTurn(accessTtl, EMPTY, opening + [Tick(49001)], Reading(1, 1));
    InTurn(accessTtl, EMPTY, opening + [Tick(49001)] + Reading(1, 1), [Mint(1, 2), RevokeCommit(0), last]);
    Three(accessTtl, AfterAll(accessTtl, EMPTY, opening + [Tick(49001)] + Reading(1, 1)), Mint(1, 2), RevokeCommit(0), last);
  }

  /** A sign-out that takes more than the margin between telling the index and
      committing: a token it does not hold is exchanged in between, and the access
      token it gives outlives the index. */
  lemma LateCommitLeavesAccess(accessTtl: nat)
    ensures AcceptedAfter(accessTtl, MARGIN + 1, LateRun(accessTtl), 0, Access(0, 50000))
  {
    var half := AfterAll(accessTtl, EMPTY, [Tick(999), Start(0, 0, 0, 7, 3600, {})] + Reading(2, 0) + SlowSignOut());
    HalfWay(accessTtl);
    LateRunInTurn(accessTtl, half);
    var ticked := After(accessTtl, half, Tick(49001));
    RefreshOvertakes(accessTtl, ticked);
    CommitsLate(accessTtl, After(accessTtl, AfterAll(accessTtl, ticked, Reading(1, 1)), Mint(1, 2)));
    MarginIsExact(50000, accessTtl, 999);
  }

  /** The exact margin: access ends with the session in every run if and only if
      its revocation commits within 49 seconds of the index being told. */
  lemma SafeWithinMargin(accessTtl: nat, delay: nat)
    ensures SafeWithin(accessTtl, delay) <==> delay <= MARGIN
  {
    if delay <= MARGIN {
      forall events, s, a ensures !AcceptedAfter(accessTtl, delay, events, s, a) {
        if AcceptedAfter(accessTtl, delay, events, s, a) {
          RevokedSessionIsOver(accessTtl, events, s);
        }
      }
    } else {
      LateCommitLeavesAccess(accessTtl);
      assert AcceptedAfter(accessTtl, delay, LateRun(accessTtl), 0, Access(0, 50000));
    }
  }
}
