/**
 * The two Postgres tables the handlers use, `users` and
 * `magic_link_tokens`, as an in-memory store. Each SQL statement the
 * handlers issue is one method, with a `fail` flag standing for any error
 * the database might report; a transaction is a snapshot of both tables
 * taken at `Begin` and restored by `Rollback` or a failed `Commit`.
 */
module TokenStore {
  import opened Wrappers

  type UserId = nat
  type TokenId = nat

  /** An instant, in nanoseconds on the database clock. */
  type Time = int

  /**
   * `sha256.Sum256` of a string's bytes, as a free constructor: two digests
   * are equal exactly when their preimages are (a collision-free hash).
   */
  datatype Digest = Sha256(preimage: string)

  function H(s: string): (d: Digest)
    ensures d.preimage == s
  {
    Sha256(s)
  }

  /** A row of `users`. */
  datatype User = User(email: string, lastLoginAt: Option<Time>)

  /** A row of `magic_link_tokens`. */
  datatype Token = Token(userId: UserId, hash: Digest, expiresAt: Time, consumedAt: Option<Time>)

  /** The errors a statement can report: `pgx.ErrNoRows`, a constraint violation, or anything else. */
  datatype DbError = NoRows | ConstraintViolation | QueryFailed

  datatype Snapshot = Snapshot(users: map<UserId, User>, tokens: map<TokenId, Token>)

  predicate EmailsUnique(users: map<UserId, User>) {
    forall u, v | u in users && v in users :: users[u].email == users[v].email ==> u == v
  }

  /** The schema's constraints: ids come from the sequences, `users.email` is unique, `user_id` references `users`. */
  predicate Consistent(users: map<UserId, User>, tokens: map<TokenId, Token>, nextUserId: nat, nextTokenId: nat) {
    && (forall u | u in users :: u < nextUserId)
    && (forall t | t in tokens :: t < nextTokenId && tokens[t].userId in users)
    && EmailsUnique(users)
  }

  /** The filter of the redemption query: matching hash, `consumed_at IS NULL` and `expires_at > now()`. */
  predicate Redeemable(tokens: map<TokenId, Token>, id: TokenId, h: Digest, now: Time) {
    && id in tokens
    && tokens[id].hash == h
    && tokens[id].consumedAt.None?
    && tokens[id].expiresAt > now
  }

  /** `UPDATE magic_link_tokens SET consumed_at = now WHERE id = $1`. */
  function Consume(tokens: map<TokenId, Token>, id: TokenId, now: Time): (r: map<TokenId, Token>)
    ensures r.Keys == tokens.Keys
    ensures forall t | t in tokens && t != id :: r[t] == tokens[t]
    ensures id in tokens ==> r[id] == tokens[id].(consumedAt := Some(now))
  {
    if id in tokens then tokens[id := tokens[id].(consumedAt := Some(now))] else tokens
  }

  /** `UPDATE users SET last_login_at = now WHERE id = $1`. */
  function TouchLogin(users: map<UserId, User>, id: UserId, now: Time): (r: map<UserId, User>)
    ensures r.Keys == users.Keys
    ensures forall u | u in users :: r[u].email == users[u].email
    ensures forall u | u in users && u != id :: r[u] == users[u]
    ensures id in users ==> r[id].lastLoginAt == Some(now)
  {
    if id in users then users[id := users[id].(lastLoginAt := Some(now))] else users
  }

  /** The user whose email is `email`, if any (unique when `EmailsUnique`). */
  ghost function UserByEmail(users: map<UserId, User>, email: string): (r: Option<UserId>)
    ensures r.Some? ==> r.value in users && users[r.value].email == email
    ensures r.None? ==> forall u | u in users :: users[u].email != email
  {
    if exists u | u in users :: users[u].email == email then
      var u :| u in users && users[u].email == email; Some(u)
    else None
  }

  /** Under unique emails, any user with the email is the one `UserByEmail` finds. */
  lemma UserByEmailUnique(users: map<UserId, User>, email: string, u: UserId)
    requires EmailsUnique(users)
    requires u in users && users[u].email == email
    ensures UserByEmail(users, email) == Some(u)
  {
  }

  /** Inserting a user with a fresh email and id keeps emails unique and makes the new user the one found. */
  lemma InsertUserKeepsEmailsUnique(users: map<UserId, User>, id: UserId, email: string)
    requires EmailsUnique(users) && id !in users
    requires UserByEmail(users, email).None?
    ensures EmailsUnique(users[id := User(email, None)])
    ensures UserByEmail(users[id := User(email, None)], email) == Some(id)
  {
    var users' := users[id := User(email, None)];
    UserByEmailUnique(users', email, id);
  }

  class Store {
    var users: map<UserId, User>
    var tokens: map<TokenId, Token>
    var nextUserId: nat
    var nextTokenId: nat
    /** The tables as they were at `Begin`, while a transaction is open. */
    var tx: Option<Snapshot>

    ghost predicate Valid()
      reads this
    {
      && Consistent(users, tokens, nextUserId, nextTokenId)
      && (tx.Some? ==> Consistent(tx.value.users, tx.value.tokens, nextUserId, nextTokenId))
    }

    constructor ()
      ensures Valid() && tx.None?
      ensures users == map[] && tokens == map[] && nextUserId == 0 && nextTokenId == 0
    {
      users, tokens := map[], map[];
      nextUserId, nextTokenId := 0, 0;
      tx := None;
    }

    /** `SELECT id FROM users WHERE email = $1`. */
    method FindUserByEmail(email: string, fail: bool) returns (r: Result<UserId, DbError>)
      requires Valid()
      ensures fail ==> r == Err(QueryFailed)
      ensures !fail && UserByEmail(users, email).None? ==> r == Err(NoRows)
      ensures !fail && UserByEmail(users, email).Some? ==> r == Ok(UserByEmail(users, email).value)
    {
      if fail {
        return Err(QueryFailed);
      }
      if u :| u in users && users[u].email == email {
        UserByEmailUnique(users, email, u);
        r := Ok(u);
      } else {
        r := Err(NoRows);
      }
    }

    /** `INSERT INTO users (email) VALUES ($1) RETURNING id`. */
    method InsertUser(email: string, fail: bool) returns (r: Result<UserId, DbError>)
      requires Valid() && tx.None?
      modifies this
      ensures Valid() && tx.None? && tokens == old(tokens) && nextTokenId == old(nextTokenId)
      ensures fail ==> r == Err(QueryFailed)
      ensures !fail && old(UserByEmail(users, email)).Some? ==> r == Err(ConstraintViolation)
      ensures r.Err? ==> users == old(users) && nextUserId == old(nextUserId)
      ensures !fail && old(UserByEmail(users, email)).None? ==>
        && r == Ok(old(nextUserId))
        && users == old(users)[old(nextUserId) := User(email, None)]
        && nextUserId == old(nextUserId) + 1
      ensures r.Ok? ==> UserByEmail(users, email) == Some(r.value)
    {
      if fail {
        return Err(QueryFailed);
      }
      if u :| u in users && users[u].email == email {
        return Err(ConstraintViolation);
      }
      var id := nextUserId;
      InsertUserKeepsEmailsUnique(users, id, email);
      users := users[id := User(email, None)];
      nextUserId := nextUserId + 1;
      r := Ok(id);
    }

    /** `INSERT INTO magic_link_tokens (user_id, token_hash, expires_at) VALUES ($1, $2, $3)`. */
    method InsertToken(userId: UserId, hash: Digest, expiresAt: Time, fail: bool) returns (r: Result<TokenId, DbError>)
      requires Valid() && tx.None?
      modifies this
      ensures Valid() && tx.None? && users == old(users) && nextUserId == old(nextUserId)
      ensures fail ==> r == Err(QueryFailed)
      ensures !fail && userId !in users ==> r == Err(ConstraintViolation)
      ensures r.Err? ==> tokens == old(tokens) && nextTokenId == old(nextTokenId)
      ensures !fail && userId in users ==>
        && r == Ok(old(nextTokenId))
        && tokens == old(tokens)[old(nextTokenId) := Token(userId, hash, expiresAt, None)]
        && nextTokenId == old(nextTokenId) + 1
    {
      if fail {
        return Err(QueryFailed);
      }
      if userId !in users {
        return Err(ConstraintViolation);
      }
      var id := nextTokenId;
      tokens := tokens[id := Token(userId, hash, expiresAt, None)];
      nextTokenId := nextTokenId + 1;
      r := Ok(id);
    }

    /** `pool.Begin`: opens a transaction. */
    method Begin(fail: bool) returns (ok: bool)
      requires Valid() && tx.None?
      modifies this`tx
      ensures Valid()
      ensures ok == !fail
      ensures tx == if ok then Some(Snapshot(users, tokens)) else None
    {
      ok := !fail;
      if ok {
        tx := Some(Snapshot(users, tokens));
      }
    }

    /**
     * `SELECT id, user_id FROM magic_link_tokens WHERE token_hash = $1 AND
     * consumed_at IS NULL AND expires_at > now() FOR UPDATE`, scanned by
     * `QueryRow`: some matching row, or `NoRows` when none matches.
     */
    method SelectRedeemable(h: Digest, now: Time, fail: bool) returns (r: Result<(TokenId, UserId), DbError>)
      requires Valid() && tx.Some?
      ensures r == Err(QueryFailed) <==> fail
      ensures !fail ==> (r == Err(NoRows) <==> forall t | t in tokens :: !Redeemable(tokens, t, h, now))
      ensures r.Ok? ==> Redeemable(tokens, r.value.0, h, now) && r.value.1 == tokens[r.value.0].userId
      ensures r.Ok? || r == Err(NoRows) || r == Err(QueryFailed)
    {
      if fail {
        return Err(QueryFailed);
      }
      if t :| t in tokens && Redeemable(tokens, t, h, now) {
        r := Ok((t, tokens[t].userId));
      } else {
        r := Err(NoRows);
      }
    }

    /** The consuming `UPDATE` on `magic_link_tokens`, inside the transaction. */
    method ConsumeToken(id: TokenId, now: Time, fail: bool) returns (ok: bool)
      requires Valid() && tx.Some?
      modifies this`tokens
      ensures Valid()
      ensures ok == !fail
      ensures tokens == if ok then Consume(old(tokens), id, now) else old(tokens)
    {
      ok := !fail;
      if ok {
        tokens := Consume(tokens, id, now);
      }
    }

    /** The `last_login_at` `UPDATE` on `users`, inside the transaction. */
    method TouchLastLogin(id: UserId, now: Time, fail: bool) returns (ok: bool)
      requires Valid() && tx.Some?
      modifies this`users
      ensures Valid()
      ensures ok == !fail
      ensures users == if ok then TouchLogin(old(users), id, now) else old(users)
    {
      ok := !fail;
      if ok {
        users := TouchLogin(users, id, now);
      }
    }

    /** `SELECT email FROM users WHERE id = $1`. */
    method ReadEmail(id: UserId, fail: bool) returns (r: Result<string, DbError>)
      requires Valid()
      ensures fail ==> r == Err(QueryFailed)
      ensures !fail && id !in users ==> r == Err(NoRows)
      ensures !fail && id in users ==> r == Ok(users[id].email)
    {
      if fail {
        r := Err(QueryFailed);
      } else if id !in users {
        r := Err(NoRows);
      } else {
        r := Ok(users[id].email);
      }
    }

    /** `tx.Commit`: keeps the transaction's changes, or on failure discards them. */
    method Commit(fail: bool) returns (ok: bool)
      requires Valid() && tx.Some?
      modifies this`users, this`tokens, this`tx
      ensures Valid() && tx.None?
      ensures ok == !fail
      ensures ok ==> users == old(users) && tokens == old(tokens)
      ensures !ok ==> users == old(tx.value.users) && tokens == old(tx.value.tokens)
    {
      ok := !fail;
      if !ok {
        users, tokens := tx.value.users, tx.value.tokens;
      }
      tx := None;
    }

    /** The deferred `tx.Rollback`: restores the snapshot, and does nothing once the transaction is closed. */
    method Rollback()
      requires Valid()
      modifies this`users, this`tokens, this`tx
      ensures Valid() && tx.None?
      ensures old(tx).Some? ==> users == old(tx.value.users) && tokens == old(tx.value.tokens)
      ensures old(tx).None? ==> users == old(users) && tokens == old(tokens)
    {
      if tx.Some? {
        users, tokens := tx.value.users, tx.value.tokens;
      }
      tx := None;
    }
  }
}

/** What one redemption does to the tables, and why a token is redeemed at most once. */
module Redemption {
  import opened Wrappers
  import opened TokenStore

  /**
   * A successful redemption of row `id` for digest `h` at `now`: the row
   * was redeemable, it alone is marked consumed, and its owner alone gets
   * `last_login_at = now`.
   */
  ghost predicate RedeemedBy(users0: map<UserId, User>, tokens0: map<TokenId, Token>,
                             users1: map<UserId, User>, tokens1: map<TokenId, Token>,
                             id: TokenId, h: Digest, now: Time)
  {
    && Redeemable(tokens0, id, h, now)
    && tokens1 == Consume(tokens0, id, now)
    && users1 == TouchLogin(users0, tokens0[id].userId, now)
  }

  /** Some row passes the redemption query's filter. */
  ghost predicate AnyRedeemable(tokens: map<TokenId, Token>, h: Digest, now: Time) {
    exists t | t in tokens :: Redeemable(tokens, t, h, now)
  }

  /** No row has ever been un-consumed: every consumed row survives unchanged. */
  ghost predicate ConsumedRowsFinal(tokens0: map<TokenId, Token>, tokens1: map<TokenId, Token>) {
    forall t | t in tokens0 && tokens0[t].consumedAt.Some? :: t in tokens1 && tokens1[t] == tokens0[t]
  }

  /** The unconsumed rows for digest `h`, whatever their expiry. */
  ghost function Unconsumed(tokens: map<TokenId, Token>, h: Digest): set<TokenId> {
    set t | t in tokens && tokens[t].hash == h && tokens[t].consumedAt.None?
  }

  lemma ConsumeKeepsConsumedRows(tokens: map<TokenId, Token>, id: TokenId, now: Time)
    requires id in tokens && tokens[id].consumedAt.None?
    ensures ConsumedRowsFinal(tokens, Consume(tokens, id, now))
  {
  }

  /** Consuming a redeemable row removes exactly that row from the unconsumed rows of its digest. */
  lemma ConsumeShrinksUnconsumed(tokens: map<TokenId, Token>, id: TokenId, h: Digest, now: Time)
    requires Redeemable(tokens, id, h, now)
    ensures id in Unconsumed(tokens, h)
    ensures Unconsumed(Consume(tokens, id, now), h) == Unconsumed(tokens, h) - {id}
    ensures |Unconsumed(Consume(tokens, id, now), h)| == |Unconsumed(tokens, h)| - 1
  {
    var after := Consume(tokens, id, now);
    assert Unconsumed(after, h) == Unconsumed(tokens, h) - {id};
  }

  /** With no unconsumed row for a digest, no presentation of it is redeemable at any time. */
  lemma NothingUnconsumedNothingRedeemable(tokens: map<TokenId, Token>, h: Digest, now: Time)
    requires Unconsumed(tokens, h) == {}
    ensures !AnyRedeemable(tokens, h, now)
  {
    forall t | t in tokens ensures !Redeemable(tokens, t, h, now) {
      assert t !in Unconsumed(tokens, h);
    }
  }

  /** Once row `id` is consumed it is never redeemable again, for any digest and any later time. */
  lemma ConsumedNeverRedeemable(tokens: map<TokenId, Token>, id: TokenId, now: Time, h: Digest, later: Time)
    requires id in tokens
    ensures !Redeemable(Consume(tokens, id, now), id, h, later)
  {
  }

  /** The row `QueryRow` returns when several match: some redeemable row, fixed for given tables. */
  ghost function PickRedeemable(tokens: map<TokenId, Token>, h: Digest, now: Time): (t: TokenId)
    requires exists t | t in tokens :: Redeemable(tokens, t, h, now)
    ensures Redeemable(tokens, t, h, now)
  {
    var t :| t in tokens && Redeemable(tokens, t, h, now); t
  }

  /**
   * The number of rows consumed by a serial run of redemptions presenting
   * digest `h` at the instants `times`, each attempt consuming some
   * redeemable row when there is one.
   */
  ghost function SerialRedemptions(tokens: map<TokenId, Token>, h: Digest, times: seq<Time>): nat
    decreases |times|
  {
    if times == [] then 0
    else if exists t | t in tokens :: Redeemable(tokens, t, h, times[0]) then
      1 + SerialRedemptions(Consume(tokens, PickRedeemable(tokens, h, times[0]), times[0]), h, times[1..])
    else SerialRedemptions(tokens, h, times[1..])
  }

  /** However many attempts are made, no more redemptions succeed than there are unconsumed rows for the digest. */
  lemma {:induction false} SerialRedemptionsBounded(tokens: map<TokenId, Token>, h: Digest, times: seq<Time>)
    ensures SerialRedemptions(tokens, h, times) <= |Unconsumed(tokens, h)|
    decreases |times|
  {
    if times != [] {
      if exists t | t in tokens :: Redeemable(tokens, t, h, times[0]) {
        var t := PickRedeemable(tokens, h, times[0]);
        ConsumeShrinksUnconsumed(tokens, t, h, times[0]);
        SerialRedemptionsBounded(Consume(tokens, t, times[0]), h, times[1..]);
      } else {
        SerialRedemptionsBounded(tokens, h, times[1..]);
      }
    }
  }

  /**
   * A secret issued once and presented N times, the first time before it
   * expires, is redeemed exactly once: the first attempt succeeds and every
   * later one is refused.
   */
  lemma SingleIssuanceRedeemedOnce(tokens: map<TokenId, Token>, id: TokenId, h: Digest, times: seq<Time>)
    requires Unconsumed(tokens, h) == {id}
    requires times != [] && tokens[id].expiresAt > times[0]
    ensures SerialRedemptions(tokens, h, times) == 1
  {
    assert id in Unconsumed(tokens, h);
    assert Redeemable(tokens, id, h, times[0]);
    var t := PickRedeemable(tokens, h, times[0]);
    ConsumeShrinksUnconsumed(tokens, t, h, times[0]);
    SerialRedemptionsBounded(Consume(tokens, t, times[0]), h, times[1..]);
  }
}
