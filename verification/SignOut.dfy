/** Signing a user's other devices out (`SessionService.revoke_others`, over
    `SessionRepository.list_active` and `revoke`). */
module SignOut {
  import opened Wrappers
  import opened Ordering
  import opened Distinct

  const MAX_LISTED_SESSIONS := 50

  type Time = int

  datatype Row = Row(id: nat, user: nat, createdAt: Time, expiresAt: Time, revoked: bool)

  predicate IsLive(row: Row, user: nat, now: Time) {
    row.user == user && !row.revoked && row.expiresAt > now
  }

  predicate Newer(a: Row, b: Row) {
    a.createdAt >= b.createdAt
  }

  function LiveRows(rows: seq<Row>, user: nat, now: Time): seq<Row> {
    if rows == [] then []
    else (if IsLive(rows[0], user, now) then [rows[0]] else []) + LiveRows(rows[1..], user, now)
  }

  /** A user's live sessions, newest first, as many as are ever listed. */
  function Listed(rows: seq<Row>, user: nat, now: Time): seq<Row> {
    Capped(Sort(Newer, LiveRows(rows, user, now)), MAX_LISTED_SESSIONS)
  }

  /** The row under an id, if it is the user's, becomes revoked. */
  function WithRevoked(rows: seq<Row>, id: nat, user: nat): (r: seq<Row>)
    ensures |r| == |rows|
  {
    seq(|rows|, i requires 0 <= i < |rows| => if rows[i].id == id && rows[i].user == user then rows[i].(revoked := true) else rows[i])
  }

  predicate Revocable(rows: seq<Row>, id: nat, user: nat) {
    exists i :: 0 <= i < |rows| && rows[i].id == id && rows[i].user == user && !rows[i].revoked
  }

  /** A refresh token's row. */
  datatype TokenRow = TokenRow(session: nat, revoked: bool)

  /** The session rows, the refresh tokens and the revocation index. */
  datatype Store = Store(rows: seq<Row>, tokens: seq<TokenRow>, index: map<nat, Time>)

  function WithTokensRevoked(tokens: seq<TokenRow>, id: nat): (t: seq<TokenRow>)
    ensures |t| == |tokens|
  {
    seq(|tokens|, i requires 0 <= i < |tokens| => if tokens[i].session == id then tokens[i].(revoked := true) else tokens[i])
  }

  /** Signing one session out: if there is a row to revoke, then that row, its
      tokens and its entry in the index; otherwise nothing. `lapsesAt` is when an
      entry written now stops mattering. */
  function Revoked(store: Store, id: nat, user: nat, lapsesAt: nat -> Time): Store {
    if Revocable(store.rows, id, user)
    then Store(WithRevoked(store.rows, id, user), WithTokensRevoked(store.tokens, id), store.index[id := lapsesAt(id)])
    else store
  }

  function Others(listed: seq<Row>, keep: Option<nat>): seq<nat> {
    if listed == [] then []
    else Others(listed[..|listed| - 1], keep)
         + if keep == Some(listed[|listed| - 1].id) then [] else [listed[|listed| - 1].id]
  }

  /** The user is still signed in by it. */
  predicate SignsIn(row: Row, user: nat, now: Time) {
    row.user == user && !row.revoked && now < row.expiresAt
  }

  /** Every row of the user under one of the ids is revoked, and no other. */
  function WithAllRevoked(rows: seq<Row>, ids: seq<nat>, user: nat): (r: seq<Row>)
    ensures |r| == |rows|
  {
    seq(|rows|, i requires 0 <= i < |rows| => if rows[i].id in ids && rows[i].user == user then rows[i].(revoked := true) else rows[i])
  }

  /** The sessions that some of the ids sign out. */
  predicate Reaches(rows: seq<Row>, ids: seq<nat>, user: nat, session: nat) {
    session in ids && exists i :: 0 <= i < |rows| && rows[i].id == session && rows[i].user == user && !rows[i].revoked
  }

  /** All the tokens of the sessions the ids sign out are revoked, all those
      sessions are in the index, and nothing else has changed. */
  ghost predicate SignsOut(store: Store, ids: seq<nat>, user: nat, lapsesAt: nat -> Time, store': Store) {
    && store'.rows == WithAllRevoked(store.rows, ids, user)
    && |store'.tokens| == |store.tokens|
    && (forall i :: 0 <= i < |store.tokens| ==>
          store'.tokens[i] == if Reaches(store.rows, ids, user, store.tokens[i].session) then store.tokens[i].(revoked := true) else store.tokens[i])
    && (forall session :: session in store'.index <==> session in store.index || Reaches(store.rows, ids, user, session))
    && (forall session :: session in store'.index ==>
          store'.index[session] == if Reaches(store.rows, ids, user, session) then lapsesAt(session) else store.index[session])
  }

  lemma StillRevocable(rows: seq<Row>, ids: seq<nat>, id: nat, user: nat)
    ensures Revocable(WithAllRevoked(rows, ids, user), id, user) <==> id !in ids && Revocable(rows, id, user)
  {
    var rows' := WithAllRevoked(rows, ids, user);
    if i: int :| 0 <= i < |rows| && rows[i].id == id && rows[i].user == user && !rows[i].revoked && id !in ids {
      assert rows'[i] == rows[i];
    }
  }

  lemma NothingToRevoke(rows: seq<Row>, id: nat, user: nat)
    requires !Revocable(rows, id, user)
    ensures WithRevoked(rows, id, user) == rows
  {
    assert forall i :: 0 <= i < |rows| && rows[i].id == id && rows[i].user == user ==> rows[i] == rows[i].(revoked := true);
  }

  /** One more session signed out, or found to be so already. */
  lemma SignsOutOneMore(store: Store, ids: seq<nat>, user: nat, lapsesAt: nat -> Time, done: Store, id: nat)
    requires SignsOut(store, ids, user, lapsesAt, done)
    ensures SignsOut(store, ids + [id], user, lapsesAt, Revoked(done, id, user, lapsesAt))
  {
    StillRevocable(store.rows, ids, id, user);
    RevokedOneMore(store.rows, ids, id, user);
    if !Revocable(done.rows, id, user) {
      NothingToRevoke(done.rows, id, user);
    }
    forall session ensures Reaches(store.rows, ids + [id], user, session)
                           <==> Reaches(store.rows, ids, user, session) || (session == id && Revocable(done.rows, id, user)) {
    }
  }

  predicate UniqueRows(rows: seq<Row>) {
    forall i, j :: 0 <= i < j < |rows| ==> rows[i].id != rows[j].id
  }

  lemma {:induction false} LiveRowsAreLive(rows: seq<Row>, user: nat, now: Time)
    ensures forall row :: row in LiveRows(rows, user, now) <==> row in rows && IsLive(row, user, now)
    ensures UniqueRows(rows) ==> UniqueRows(LiveRows(rows, user, now))
  {
    if rows != [] {
      LiveRowsAreLive(rows[1..], user, now);
      assert rows == [rows[0]] + rows[1..];
      var rest := LiveRows(rows[1..], user, now);
      if UniqueRows(rows) {
        forall j | 0 <= j < |rest| ensures rest[j].id != rows[0].id {
          assert rest[j] in rest && rest[j] in rows[1..];
        }
      }
    }
  }

  lemma ListedAreLive(rows: seq<Row>, user: nat, now: Time)
    ensures forall row :: row in Listed(rows, user, now) ==> row in rows && SignsIn(row, user, now)
    ensures |Listed(rows, user, now)| <= 50
    ensures |LiveRows(rows, user, now)| <= MAX_LISTED_SESSIONS ==>
              forall row :: row in rows && IsLive(row, user, now) ==> row in Listed(rows, user, now)
  {
    LiveRowsAreLive(rows, user, now);
    SameMembers(LiveRows(rows, user, now), Sort(Newer, LiveRows(rows, user, now)));
    forall row | row in Listed(rows, user, now) ensures row in LiveRows(rows, user, now) {
      assert row in Sort(Newer, LiveRows(rows, user, now));
    }
  }

  lemma {:induction false} OthersAreListed(listed: seq<Row>, keep: Option<nat>)
    ensures forall id :: id in Others(listed, keep) <==> keep != Some(id) && exists i :: 0 <= i < |listed| && listed[i].id == id
  {
    if listed != [] {
      var init := listed[..|listed| - 1];
      OthersAreListed(init, keep);
      assert forall i :: 0 <= i < |init| ==> init[i] == listed[i];
    }
  }

  lemma RevokedOneMore(rows: seq<Row>, ids: seq<nat>, id: nat, user: nat)
    ensures WithRevoked(WithAllRevoked(rows, ids, user), id, user) == WithAllRevoked(rows, ids + [id], user)
  {
  }

  /** How many of the ids named a live row when their turn came. */
  function RevokedCount(rows: seq<Row>, ids: seq<nat>, user: nat): nat {
    if ids == [] then 0
    else
      var before, last := ids[..|ids| - 1], ids[|ids| - 1];
      RevokedCount(rows, before, user) + if Revocable(WithAllRevoked(rows, before, user), last, user) then 1 else 0
  }

  /** All of them count, if they name live rows and none twice. */
  lemma {:induction false} AllCount(rows: seq<Row>, ids: seq<nat>, user: nat)
    requires NoDuplicates(ids) && forall id :: id in ids ==> Revocable(rows, id, user)
    ensures RevokedCount(rows, ids, user) == |ids|
  {
    if ids != [] {
      var before, last := ids[..|ids| - 1], ids[|ids| - 1];
      AllCount(rows, before, user);
      StillRevocable(rows, before, last, user);
    }
  }

  lemma {:induction false} OthersAreDistinct(listed: seq<Row>, keep: Option<nat>)
    requires UniqueRows(listed)
    ensures NoDuplicates(Others(listed, keep))
  {
    if listed != [] {
      var init := listed[..|listed| - 1];
      OthersAreDistinct(init, keep);
      OthersAreListed(init, keep);
    }
  }

  lemma ListedOnce(rows: seq<Row>, user: nat, now: Time)
    requires UniqueRows(rows)
    ensures UniqueRows(Listed(rows, user, now))
  {
    var live := LiveRows(rows, user, now);
    var sorted := Sort(Newer, live);
    LiveRowsAreLive(rows, user, now);
    assert NoDuplicates(live);
    DistinctSameMultiset(live, sorted);
    SameMembers(live, sorted);
    forall i, j | 0 <= i < j < |sorted| ensures sorted[i].id != sorted[j].id {
      assert sorted[i] in live && sorted[j] in live && sorted[i] != sorted[j];
      if sorted[i].id == sorted[j].id {
        SameRow(live, sorted[i], sorted[j]);
      }
    }
  }

  /** Every session that is listed and not kept counts, once. */
  lemma CountIsOfOthers(rows: seq<Row>, user: nat, keep: Option<nat>, now: Time)
    requires UniqueRows(rows)
    ensures var others := Others(Listed(rows, user, now), keep); RevokedCount(rows, others, user) == |others|
  {
    var listed := Listed(rows, user, now);
    var others := Others(listed, keep);
    ListedOnce(rows, user, now);
    OthersAreDistinct(listed, keep);
    OthersAreListed(listed, keep);
    ListedAreLive(rows, user, now);
    forall id | id in others ensures Revocable(rows, id, user) {
      var i :| 0 <= i < |listed| && listed[i].id == id;
      assert listed[i] in listed;
      var k :| 0 <= k < |rows| && rows[k] == listed[i];
    }
    AllCount(rows, others, user);
  }

  lemma CountOneMore(rows: seq<Row>, ids: seq<nat>, id: nat, user: nat)
    ensures RevokedCount(rows, ids + [id], user)
            == RevokedCount(rows, ids, user) + if Revocable(WithAllRevoked(rows, ids, user), id, user) then 1 else 0
  {
    assert (ids + [id])[..|ids|] == ids;
  }

  lemma OthersOneMore(listed: seq<Row>, keep: Option<nat>, n: nat)
    requires n < |listed|
    ensures Others(listed[..n + 1], keep) == Others(listed[..n], keep) + if keep == Some(listed[n].id) then [] else [listed[n].id]
  {
    assert listed[..n + 1][..n] == listed[..n];
  }

  lemma NoneRevoked(rows: seq<Row>, user: nat)
    ensures WithAllRevoked(rows, [], user) == rows
  {
  }

  /** How far the loop has got after `n` listed sessions. */
  ghost predicate SignedOutUpTo(store: Store, user: nat, keep: Option<nat>, lapsesAt: nat -> Time, listed: seq<Row>,
                                n: nat,
                                done: Store, revoked: nat)
    requires n <= |listed|
  {
    && SignsOut(store, Others(listed[..n], keep), user, lapsesAt, done)
    && revoked == RevokedCount(store.rows, Others(listed[..n], keep), user)
  }

  lemma SignedOutOneMore(store: Store, user: nat, keep: Option<nat>, lapsesAt: nat -> Time, listed: seq<Row>, n: nat,
                         done: Store, revoked: nat)
    requires n < |listed| && SignedOutUpTo(store, user, keep, lapsesAt, listed, n, done, revoked)
    ensures keep == Some(listed[n].id) ==> SignedOutUpTo(store, user, keep, lapsesAt, listed, n + 1, done, revoked)
    ensures keep != Some(listed[n].id) ==>
              SignedOutUpTo(store, user, keep, lapsesAt, listed, n + 1, Revoked(done, listed[n].id, user, lapsesAt),
                            revoked + if Revocable(done.rows, listed[n].id, user) then 1 else 0)
  {
    var ids := Others(listed[..n], keep);
    OthersOneMore(listed, keep, n);
    if keep == Some(listed[n].id) {
      assert ids + [] == ids;
    } else {
      SignsOutOneMore(store, ids, user, lapsesAt, done, listed[n].id);
      CountOneMore(store.rows, ids, listed[n].id, user);
    }
  }

  lemma NobodySignedOut(store: Store, user: nat, keep: Option<nat>, lapsesAt: nat -> Time, listed: seq<Row>)
    ensures SignedOutUpTo(store, user, keep, lapsesAt, listed, 0, store, 0)
  {
    NoneRevoked(store.rows, user);
    assert listed[..0] == [];
  }

  /** One listed session after another, counting those there were to revoke. */
  method RevokeOthers(store: Store, user: nat, keep: Option<nat>, now: Time, lapsesAt: nat -> Time)
    returns (store': Store, revoked: nat)
    ensures SignsOut(store, Others(Listed(store.rows, user, now), keep), user, lapsesAt, store')
    ensures revoked == RevokedCount(store.rows, Others(Listed(store.rows, user, now), keep), user)
    ensures UniqueRows(store.rows) ==> revoked == |Others(Listed(store.rows, user, now), keep)|
  {
    var listed := Listed(store.rows, user, now);
    if UniqueRows(store.rows) {
      CountIsOfOthers(store.rows, user, keep, now);
    }
    store', revoked := store, 0;
    NobodySignedOut(store, user, keep, lapsesAt, listed);
    for i := 0 to |listed|
      invariant SignedOutUpTo(store, user, keep, lapsesAt, listed, i, store', revoked)
    {
      SignedOutOneMore(store, user, keep, lapsesAt, listed, i, store', revoked);
      if keep != Some(listed[i].id) {
        if Revocable(store'.rows, listed[i].id, user) {
          revoked := revoked + 1;
        }
        store' := Revoked(store', listed[i].id, user, lapsesAt);
      }
    }
    assert listed[..|listed|] == listed;
  }

  /** What becomes of one live row: it is revoked exactly if it was listed and
      is not the one kept. */
  lemma RowAfterwards(rows: seq<Row>, user: nat, keep: Option<nat>, now: Time, i: nat)
    requires UniqueRows(rows) && i < |rows| && SignsIn(rows[i], user, now)
    ensures var rows' := WithAllRevoked(rows, Others(Listed(rows, user, now), keep), user);
            SignsIn(rows'[i], user, now) <==> keep == Some(rows[i].id) || rows[i] !in Listed(rows, user, now)
  {
    var listed := Listed(rows, user, now);
    ListedAreLive(rows, user, now);
    OthersAreListed(listed, keep);
    assert rows[i] in rows;
    if k: int :| 0 <= k < |listed| && listed[k].id == rows[i].id {
      assert listed[k] in listed && listed[k] in rows;
      SameRow(rows, rows[i], listed[k]);
    }
  }

  /** The row is dead, or is the one kept. */
  predicate DeadOrKept(row: Row, user: nat, keep: Option<nat>, now: Time) {
    SignsIn(row, user, now) ==> keep == Some(row.id)
  }

  predicate SignedOut(rows: seq<Row>, user: nat, keep: Option<nat>, now: Time) {
    forall i :: 0 <= i < |rows| ==> DeadOrKept(rows[i], user, keep, now)
  }

  /** Every live row is listed, or is the one kept. */
  predicate Reached(rows: seq<Row>, user: nat, keep: Option<nat>, now: Time) {
    forall i :: 0 <= i < |rows| ==> ListedOrKept(rows, user, keep, now, i)
  }

  predicate ListedOrKept(rows: seq<Row>, user: nat, keep: Option<nat>, now: Time, i: nat)
    requires i < |rows|
  {
    rows[i] in Listed(rows, user, now) || DeadOrKept(rows[i], user, keep, now)
  }

  lemma RowSignedOut(rows: seq<Row>, user: nat, keep: Option<nat>, now: Time, i: nat)
    requires UniqueRows(rows) && i < |rows|
    ensures var rows' := WithAllRevoked(rows, Others(Listed(rows, user, now), keep), user);
            DeadOrKept(rows'[i], user, keep, now) <==> ListedOrKept(rows, user, keep, now, i)
  {
    if SignsIn(rows[i], user, now) {
      RowAfterwards(rows, user, keep, now, i);
    }
  }

  /** Afterwards the user is signed in nowhere but on the device kept, exactly
      when every live session that was too old to be listed is that device. */
  lemma OnlyKeptStaysLive(rows: seq<Row>, user: nat, keep: Option<nat>, now: Time)
    requires UniqueRows(rows)
    ensures SignedOut(WithAllRevoked(rows, Others(Listed(rows, user, now), keep), user), user, keep, now)
            <==> Reached(rows, user, keep, now)
  {
    var rows' := WithAllRevoked(rows, Others(Listed(rows, user, now), keep), user);
    forall i | 0 <= i < |rows| ensures DeadOrKept(rows'[i], user, keep, now) <==> ListedOrKept(rows, user, keep, now, i) {
      RowSignedOut(rows, user, keep, now, i);
    }
    if SignedOut(rows', user, keep, now) {
      forall i | 0 <= i < |rows| ensures ListedOrKept(rows, user, keep, now, i) {
        assert DeadOrKept(rows'[i], user, keep, now);
      }
    }
    if Reached(rows, user, keep, now) {
      forall i | 0 <= i < |rows'| ensures DeadOrKept(rows'[i], user, keep, now) {
        assert ListedOrKept(rows, user, keep, now, i);
      }
    }
  }

  /** Of the sessions too many to be listed, the oldest are left out. */
  lemma LeftOutAreOldest(rows: seq<Row>, user: nat, now: Time, listed: Row, left: Row)
    requires listed in Listed(rows, user, now)
    requires left in rows && SignsIn(left, user, now) && left !in Listed(rows, user, now)
    ensures listed.createdAt >= left.createdAt && |Listed(rows, user, now)| == 50
  {
    var live, front := LiveRows(rows, user, now), Listed(rows, user, now);
    var sorted := Sort(Newer, live);
    LiveRowsAreLive(rows, user, now);
    SameMembers(live, sorted);
    SortSorts(Newer, live);
    var i :| 0 <= i < |front| && front[i] == listed;
    var j :| 0 <= j < |sorted| && sorted[j] == left;
    forall k | 0 <= k < |front| ensures sorted[k] in front {
      assert front[k] == sorted[k];
    }
    assert |front| <= j;
    assert Newer(sorted[i], sorted[j]);
  }

  /** With no more live sessions than are ever listed, that is always so. */
  lemma FewAreAllReached(rows: seq<Row>, user: nat, keep: Option<nat>, now: Time)
    requires |LiveRows(rows, user, now)| <= MAX_LISTED_SESSIONS
    ensures Reached(rows, user, keep, now)
  {
    ListedAreLive(rows, user, now);
    forall i | 0 <= i < |rows| ensures ListedOrKept(rows, user, keep, now, i) {
      assert rows[i] in rows;
    }
  }

  lemma SameRow(rows: seq<Row>, a: Row, b: Row)
    requires UniqueRows(rows) && a in rows && b in rows && a.id == b.id
    ensures a == b
  {
    var i :| 0 <= i < |rows| && rows[i] == a;
    var j :| 0 <= j < |rows| && rows[j] == b;
    assert i == j;
  }

  /** A session that was live and is signed out is so everywhere: its row and all
      its tokens are revoked and the index has it. */
  lemma SignedOutEverywhere(store: Store, user: nat, keep: Option<nat>, now: Time,
                            lapsesAt: nat -> Time, store': Store, i: nat)
    requires UniqueRows(store.rows) && i < |store.rows| && SignsIn(store.rows[i], user, now)
    requires SignsOut(store, Others(Listed(store.rows, user, now), keep), user, lapsesAt, store')
    ensures !SignsIn(store'.rows[i], user, now) ==>
              && store.rows[i].id in store'.index && store'.index[store.rows[i].id] == lapsesAt(store.rows[i].id)
              && forall k :: 0 <= k < |store'.tokens| && store'.tokens[k].session == store.rows[i].id ==> store'.tokens[k].revoked
    ensures SignsIn(store'.rows[i], user, now) ==>
              forall k :: 0 <= k < |store'.tokens| && store'.tokens[k].session == store.rows[i].id ==> store'.tokens[k] == store.tokens[k]
  {
    var id, ids := store.rows[i].id, Others(Listed(store.rows, user, now), keep);
    assert Revocable(store.rows, id, user);
    assert SignsIn(store'.rows[i], user, now) <==> !Reaches(store.rows, ids, user, id);
  }
}
