/** The index of revoked sessions, kept as long as an access token could last
    (`auth/revocation.py` and the expiry arithmetic of `auth/tokens.py`). Time
    is in milliseconds; a token's expiry is in whole seconds. */
module Revocation {

  type SessionId = nat
  type Time = nat

  const SECOND := 1000
  const CLOCK_SKEW_SECONDS := 10
  const REVOCATION_SKEW_SECONDS := 60

  // --- access tokens -------------------------------------------------------------------------------

  /** `exp`: the lifetime from the request's time, in whole seconds. */
  function ExpiryOf(requestedAt: Time, ttlSeconds: nat): nat {
    (requestedAt + ttlSeconds * SECOND) / SECOND
  }

  /** Whether a token is still within its expiry and the skew allowed. */
  predicate Fresh(exp: nat, now: Time) {
    exp + CLOCK_SKEW_SECONDS >= now / SECOND
  }

  /** How long a revocation is remembered. */
  function RevocationTtlSeconds(accessTtlSeconds: nat): nat {
    accessTtlSeconds + REVOCATION_SKEW_SECONDS
  }

  /** How much later than a revocation a token may have been requested and still
      be outlived by it. */
  const MARGIN := (REVOCATION_SKEW_SECONDS - CLOCK_SKEW_SECONDS - 1) * SECOND

  /** The index remembers a revocation longer than any token requested by then,
      or up to the margin later, stays fresh. */
  lemma IndexOutlivesToken(requestedAt: Time, ttlSeconds: nat, revokedAt: Time, now: Time)
    requires requestedAt <= revokedAt + MARGIN
    requires now >= revokedAt + RevocationTtlSeconds(ttlSeconds) * SECOND
    ensures !Fresh(ExpiryOf(requestedAt, ttlSeconds), now)
  {
    var latest := revokedAt + MARGIN;
    assert ExpiryOf(requestedAt, ttlSeconds) * SECOND <= requestedAt + ttlSeconds * SECOND;
    assert now >= revokedAt + ttlSeconds * SECOND + 60000;
    assert (ExpiryOf(requestedAt, ttlSeconds) + CLOCK_SKEW_SECONDS + 1) * SECOND <= requestedAt + ttlSeconds * SECOND + 11000;
  }

  /** The margin is exact: at the moment the index forgets a revocation, a token
      is still fresh exactly when it was requested in the fiftieth second after
      the revocation's, or later. */
  lemma MarginIsExact(requestedAt: Time, ttlSeconds: nat, revokedAt: Time)
    ensures Fresh(ExpiryOf(requestedAt, ttlSeconds), revokedAt + RevocationTtlSeconds(ttlSeconds) * SECOND)
            <==> requestedAt / SECOND >= revokedAt / SECOND + (MARGIN / SECOND + 1)
  {
    WholeSeconds(requestedAt, ttlSeconds);
    WholeSeconds(revokedAt, ttlSeconds + REVOCATION_SKEW_SECONDS);
  }

  lemma WholeSeconds(at: Time, seconds: nat)
    ensures (at + seconds * SECOND) / SECOND == at / SECOND + seconds
  {
  }

  // --- the in-memory index -----------------------------------------------------------------------------

  /** A revocation, as its caller asked for it. */
  datatype Revoked = Revoked(session: SessionId, at: Time, ttlSeconds: nat)

  /** When the latest revocation of a session stops mattering; zero if there is
      none. */
  function LapsesAt(history: seq<Revoked>, session: SessionId): Time {
    if history == [] then 0
    else
      var last := history[|history| - 1];
      if last.session == session then last.at + last.ttlSeconds * SECOND
      else LapsesAt(history[..|history| - 1], session)
  }

  lemma LapsesAfter(history: seq<Revoked>, r: Revoked, session: SessionId)
    ensures LapsesAt(history + [r], session)
            == if r.session == session then r.at + r.ttlSeconds * SECOND else LapsesAt(history, session)
  {
    assert (history + [r])[..|history|] == history;
  }

  class InMemoryRevocationStore {
    var entries: map<SessionId, Time>
    /** Every revocation written so far, and the latest time this was used. */
    ghost var history: seq<Revoked>
    ghost var latest: Time

    /** An entry is the latest revocation of its session, and every revocation
        that has not lapsed has its entry. */
    ghost predicate Valid()
      reads this
    {
      forall session :: Accurate(entries, history, latest, session)
    }

    static ghost predicate Accurate(entries: map<SessionId, Time>, history: seq<Revoked>, latest: Time,
                                    session: SessionId) {
      && (session in entries ==> entries[session] == LapsesAt(history, session))
      && (LapsesAt(history, session) > latest ==> session in entries)
    }

    constructor ()
      ensures Valid() && history == [] && latest == 0
    {
      entries := map[];
      history := [];
      latest := 0;
    }

    /** Sweeps what has lapsed, then remembers the session. */
    method Revoke(session: SessionId, ttlSeconds: nat, now: Time)
      requires Valid() && now >= latest
      modifies this
      ensures Valid() && latest == now
      ensures history == old(history) + [Revoked(session, now, ttlSeconds)]
      ensures session in entries && forall s :: s in entries && s != session ==> entries[s] > now
    {
      ghost var before, was := entries, history;
      entries := map s | s in entries && entries[s] > now :: entries[s];
      entries := entries[session := now + ttlSeconds * SECOND];
      history := history + [Revoked(session, now, ttlSeconds)];
      ghost var earlier := latest;
      latest := now;
      forall s ensures Accurate(entries, history, latest, s) {
        assert Accurate(before, was, earlier, s);
        LapsesAfter(was, Revoked(session, now, ttlSeconds), s);
      }
    }

    /** Whether the session has been revoked and that still matters: exactly
        while its latest revocation has not lapsed. */
    method IsRevoked(session: SessionId, now: Time) returns (revoked: bool)
      requires Valid() && now >= latest
      modifies this
      ensures Valid() && latest == now && history == old(history)
      ensures revoked <==> LapsesAt(history, session) > now
    {
      ghost var before, earlier := entries, latest;
      assert Accurate(entries, history, latest, session);
      latest := now;
      if session !in entries {
        revoked := false;
      } else if entries[session] <= now {
        entries := entries - {session};
        revoked := false;
      } else {
        revoked := true;
      }
      forall s ensures Accurate(entries, history, latest, s) {
        assert Accurate(before, history, earlier, s);
      }
    }
  }
}
