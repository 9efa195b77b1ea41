/**
 * The magic-link handlers of `internal/http/auth.go`: issuing a link
 * (`requestMagicLink`, `ensureUser`, `generateToken`), redeeming it
 * (`verifyMagicLink`) and `logout`. The Postgres pool is a `Store?`
 * (`null` when no database is configured); the wall clock, `crypto/rand`
 * and every database error are parameters.
 */
module Auth {
  import opened Wrappers
  import opened GoText
  import opened Base64Url
  import opened Configuration
  import opened TokenStore
  import opened Redemption

  /** A `huma` status error: the status code and the message the caller sees. */
  datatype HttpError = HttpError(status: int, message: string)

  const Unavailable := HttpError(503, "database unavailable")
  const EmailRequired := HttpError(400, "email is required")
  const LoadUserFailed := HttpError(500, "failed to load user")
  const GenerateTokenFailed := HttpError(500, "failed to generate token")
  const StoreTokenFailed := HttpError(500, "failed to store token")
  const TokenRequired := HttpError(400, "token is required")
  const BeginFailed := HttpError(500, "failed to start transaction")
  const InvalidOrExpired := HttpError(401, "invalid or expired token")
  const LoadTokenFailed := HttpError(500, "failed to load token")
  const ConsumeFailed := HttpError(500, "failed to consume token")
  const UpdateLoginFailed := HttpError(500, "failed to update login time")
  const CommitFailed := HttpError(500, "failed to commit token")
  const AccessTokenFailed := HttpError(500, "failed to generate access token")

  datatype MagicLinkResponse = MagicLinkResponse(ok: bool, devLoginUrl: Option<string>)
  datatype UserInfo = UserInfo(id: UserId, email: string)
  datatype VerifyResponse = VerifyResponse(accessToken: string, user: UserInfo)
  datatype LogoutResponse = LogoutResponse(ok: bool)

  /** Which statement of an issuance the database fails. */
  datatype IssueFaults = IssueFaults(lookupUser: bool, insertUser: bool, insertToken: bool)

  /** Which step of a redemption the database fails. */
  datatype RedeemFaults = RedeemFaults(begin: bool, selectToken: bool, consume: bool,
                                       touchLogin: bool, readEmail: bool, commit: bool)
  {
    predicate AnyAfterSelect() { consume || touchLogin || readEmail || commit }
  }

  /** A freshly generated secret and the digest that is stored in its place. */
  datatype IssuedToken = IssuedToken(secret: string, hash: Digest)

  /** The length of the raw URL-safe encoding of 32 bytes. */
  const TokenLength := 43

  /**
   * The email as `requestMagicLink` keys the account on: lower-cased, then
   * trimmed. It is empty (the 400 case) exactly when the input is all white
   * space, and it holds no upper-case letter.
   */
  function NormalizeEmail(raw: string): (e: string)
    ensures e == "" <==> AllSpace(raw)
    ensures forall k :: 0 <= k < |e| ==> !IsAsciiUpper(e[k])
  {
    var lowered := ToLower(raw);
    assert AllSpace(lowered) <==> AllSpace(raw) by {
      assert forall k :: 0 <= k < |raw| ==> (IsSpace(lowered[k]) <==> IsSpace(raw[k]));
    }
    TrimSpaceKeepsNoUpper(lowered);
    TrimSpace(lowered)
  }

  /** Normalizing an already normalized email changes nothing. */
  lemma NormalizeEmailIdempotent(raw: string)
    ensures NormalizeEmail(NormalizeEmail(raw)) == NormalizeEmail(raw)
  {
    var lowered := ToLower(raw);
    var n := TrimSpace(lowered);
    ToLowerOfLower(n);
    assert ToLower(n) == n;
    TrimSpaceIdempotent(lowered);
  }

  /**
   * `generateToken`: the raw URL-safe base64 of 32 random bytes and the
   * SHA-256 of that string. `None` for the random source stands for a
   * failing `rand.Read`.
   */
  function GenerateToken(random: Option<seq<byte>>): (r: Option<IssuedToken>)
    requires random.Some? ==> |random.value| == 32
    ensures r.Some? <==> random.Some?
    ensures r.Some? ==> r.value.secret == Encode(random.value)
    ensures r.Some? ==> |r.value.secret| == TokenLength && AllUrlSafe(r.value.secret)
    ensures r.Some? ==> r.value.hash == H(r.value.secret)
    ensures r.Some? ==> Decode(r.value.secret) == Some(random.value)
  {
    match random
    case None => None
    case Some(bytes) =>
      DecodeEncode(bytes);
      var secret := Encode(bytes);
      Some(IssuedToken(secret, H(secret)))
  }

  /** Different random bytes give different stored digests. */
  lemma DistinctRandomDistinctDigests(a: seq<byte>, b: seq<byte>)
    requires |a| == 32 && |b| == 32 && a != b
    ensures GenerateToken(Some(a)).value.hash != GenerateToken(Some(b)).value.hash
  {
    EncodeInjective(a, b);
  }

  /** A generated secret survives the `TrimSpace` that `verifyMagicLink` applies to it. */
  lemma SecretSurvivesTrim(s: string)
    requires AllUrlSafe(s)
    ensures TrimSpace(s) == s
  {
    TrimSpaceOfTrimmed(s);
  }

  /** The issuance response: the dev link only in the `dev` environment, and then the secret as its `token` query parameter. */
  function IssuanceResponse(cfg: Config, secret: string): (r: MagicLinkResponse)
    ensures r.ok
    ensures r.devLoginUrl.Some? <==> cfg.env == "dev"
    ensures r.devLoginUrl.Some? ==>
      var link := r.devLoginUrl.value;
      && |link| == |cfg.magicLinkBaseUrl| + 7 + |secret|
      && link[..|cfg.magicLinkBaseUrl|] == cfg.magicLinkBaseUrl
      && link[|cfg.magicLinkBaseUrl|..|cfg.magicLinkBaseUrl| + 7] == "?token="
      && link[|cfg.magicLinkBaseUrl| + 7..] == secret
  {
    if cfg.env == "dev" then
      var link := cfg.magicLinkBaseUrl + "?token=" + secret;
      assert link[..|cfg.magicLinkBaseUrl|] == cfg.magicLinkBaseUrl;
      assert link[|cfg.magicLinkBaseUrl|..|cfg.magicLinkBaseUrl| + 7] == "?token=";
      assert link[|cfg.magicLinkBaseUrl| + 7..] == secret;
      MagicLinkResponse(true, Some(link))
    else MagicLinkResponse(true, None)
  }

  /** `logout`: a stateless acknowledgement. */
  function Logout(): (r: LogoutResponse)
    ensures r.ok
  {
    LogoutResponse(true)
  }

  /** The freshly issued row for `secret`, owned by `userId`, expiring one TTL after `now`. */
  function IssuedRow(cfg: Config, userId: UserId, secret: string, now: Time): (t: Token)
    ensures t.consumedAt.None?
  {
    Token(userId, H(secret), now + cfg.magicLinkTtl, None)
  }

  /** A freshly issued secret is redeemable from its issuance until, and not at, its expiry. */
  lemma IssuedRowRedeemableUntilExpiry(cfg: Config, tokens: map<TokenId, Token>, id: TokenId,
                                       userId: UserId, secret: string, now: Time, later: Time)
    requires id in tokens && tokens[id] == IssuedRow(cfg, userId, TrimSpace(secret), now)
    ensures now <= later < now + cfg.magicLinkTtl ==> Redeemable(tokens, id, H(TrimSpace(secret)), later)
    ensures later >= now + cfg.magicLinkTtl ==> !Redeemable(tokens, id, H(TrimSpace(secret)), later)
  {
  }

  class AuthHandler {
    const cfg: Config
    const pool: Store?

    constructor (cfg: Config, pool: Store?)
      ensures this.cfg == cfg && this.pool == pool
    {
      this.cfg := cfg;
      this.pool := pool;
    }

    /** `ensureUser`: the id of the user with this email, inserting the user first when there is none. */
    method EnsureUser(email: string, faults: IssueFaults) returns (r: Result<UserId, DbError>)
      requires pool != null && pool.Valid() && pool.tx.None?
      modifies pool
      ensures pool.Valid() && pool.tx.None?
      ensures pool.tokens == old(pool.tokens) && pool.nextTokenId == old(pool.nextTokenId)
      ensures old(UserByEmail(pool.users, email)).Some? ==>
        && pool.users == old(pool.users) && pool.nextUserId == old(pool.nextUserId)
        && r == if faults.lookupUser then Err(QueryFailed) else Ok(old(UserByEmail(pool.users, email)).value)
      ensures old(UserByEmail(pool.users, email)).None? && (faults.lookupUser || faults.insertUser) ==>
        && pool.users == old(pool.users) && pool.nextUserId == old(pool.nextUserId)
        && r == Err(QueryFailed)
      ensures old(UserByEmail(pool.users, email)).None? && !faults.lookupUser && !faults.insertUser ==>
        && r == Ok(old(pool.nextUserId))
        && pool.users == old(pool.users)[old(pool.nextUserId) := User(email, None)]
        && pool.nextUserId == old(pool.nextUserId) + 1
      ensures r.Ok? ==> UserByEmail(pool.users, email) == Some(r.value)
    {
      var found := pool.FindUserByEmail(email, faults.lookupUser);
      if found.Ok? {
        return found;
      }
      if found.error != NoRows {
        return found;
      }
      r := pool.InsertUser(email, faults.insertUser);
    }

    /** `requestMagicLink`. */
    method RequestMagicLink(rawEmail: string, now: Time, random: Option<seq<byte>>, faults: IssueFaults)
      returns (r: Result<MagicLinkResponse, HttpError>)
      requires random.Some? ==> |random.value| == 32
      requires pool != null ==> pool.Valid() && pool.tx.None?
      modifies pool
      ensures pool == null ==> r == Err(Unavailable)
      ensures pool != null ==> pool.Valid() && pool.tx.None?
      ensures pool != null ==> ConsumedRowsFinal(old(pool.tokens), pool.tokens)
      ensures pool != null && r.Err? ==> pool.tokens == old(pool.tokens) && pool.nextTokenId == old(pool.nextTokenId)
      ensures pool != null && NormalizeEmail(rawEmail) == "" ==>
        r == Err(EmailRequired) && pool.users == old(pool.users) && pool.nextUserId == old(pool.nextUserId)
      ensures pool != null && NormalizeEmail(rawEmail) != "" ==>
        var email := NormalizeEmail(rawEmail);
        var known := old(UserByEmail(pool.users, email));
        if faults.lookupUser || (known.None? && faults.insertUser) then
          && r == Err(LoadUserFailed)
          && pool.users == old(pool.users) && pool.nextUserId == old(pool.nextUserId)
        else
          && pool.users == (if known.Some? then old(pool.users) else old(pool.users)[old(pool.nextUserId) := User(email, None)])
          && pool.nextUserId == (if known.Some? then old(pool.nextUserId) else old(pool.nextUserId) + 1)
          && UserByEmail(pool.users, email) == Some(if known.Some? then known.value else old(pool.nextUserId))
          && (random.None? ==> r == Err(GenerateTokenFailed))
          && (random.Some? && faults.insertToken ==> r == Err(StoreTokenFailed))
          && (random.Some? && !faults.insertToken ==>
                var secret := Encode(random.value);
                && r == Ok(IssuanceResponse(cfg, secret))
                && pool.tokens == old(pool.tokens)[old(pool.nextTokenId) :=
                                   IssuedRow(cfg, UserByEmail(pool.users, email).value, secret, now)]
                && pool.nextTokenId == old(pool.nextTokenId) + 1)
    {
      if pool == null {
        return Err(Unavailable);
      }
      var email := NormalizeEmail(rawEmail);
      if email == "" {
        return Err(EmailRequired);
      }
      var userId := EnsureUser(email, faults);
      if userId.Err? {
        return Err(LoadUserFailed);
      }
      r := IssueToken(userId.value, now, random, faults);
    }

    /** The second half of `requestMagicLink`: generate a secret, store its digest for the user, answer. */
    method IssueToken(userId: UserId, now: Time, random: Option<seq<byte>>, faults: IssueFaults)
      returns (r: Result<MagicLinkResponse, HttpError>)
      requires random.Some? ==> |random.value| == 32
      requires pool != null && pool.Valid() && pool.tx.None? && userId in pool.users
      modifies pool
      ensures pool.Valid() && pool.tx.None?
      ensures pool.users == old(pool.users) && pool.nextUserId == old(pool.nextUserId)
      ensures random.None? ==> r == Err(GenerateTokenFailed)
      ensures random.Some? && faults.insertToken ==> r == Err(StoreTokenFailed)
      ensures r.Err? ==> pool.tokens == old(pool.tokens) && pool.nextTokenId == old(pool.nextTokenId)
      ensures random.Some? && !faults.insertToken ==>
        var secret := Encode(random.value);
        && r == Ok(IssuanceResponse(cfg, secret))
        && pool.tokens == old(pool.tokens)[old(pool.nextTokenId) := IssuedRow(cfg, userId, secret, now)]
        && pool.nextTokenId == old(pool.nextTokenId) + 1
    {
      var generated := GenerateToken(random);
      if generated.None? {
        return Err(GenerateTokenFailed);
      }
      var token := generated.value;
      assert token == IssuedToken(Encode(random.value), H(Encode(random.value)));
      var expiresAt := now + cfg.magicLinkTtl;
      var inserted := pool.InsertToken(userId, token.hash, expiresAt, faults.insertToken);
      if inserted.Err? {
        return Err(StoreTokenFailed);
      }
      assert Token(userId, token.hash, expiresAt, None) == IssuedRow(cfg, userId, token.secret, now);
      r := Ok(IssuanceResponse(cfg, token.secret));
    }

    /**
     * The transaction of `verifyMagicLink`, from `Begin` to `Commit`, with
     * the deferred `Rollback` on every exit: on success the redeemed row's
     * owner; on any failure the tables as they were.
     */
    method RedeemInTransaction(h: Digest, now: Time, faults: RedeemFaults) returns (r: Result<UserInfo, HttpError>)
      requires pool != null && pool.Valid() && pool.tx.None?
      modifies pool
      ensures pool.Valid() && pool.tx.None?
      ensures pool.nextUserId == old(pool.nextUserId) && pool.nextTokenId == old(pool.nextTokenId)
      ensures faults.begin ==> r == Err(BeginFailed)
      ensures !faults.begin && faults.selectToken ==> r == Err(LoadTokenFailed)
      ensures r == Err(InvalidOrExpired) <==> !faults.begin && !faults.selectToken && !AnyRedeemable(old(pool.tokens), h, now)
      ensures !faults.begin && !faults.selectToken && AnyRedeemable(old(pool.tokens), h, now) ==>
        && (faults.consume ==> r == Err(ConsumeFailed))
        && (!faults.consume && faults.touchLogin ==> r == Err(UpdateLoginFailed))
        && (!faults.consume && !faults.touchLogin && faults.readEmail ==> r == Err(LoadUserFailed))
        && (!faults.consume && !faults.touchLogin && !faults.readEmail && faults.commit ==> r == Err(CommitFailed))
      ensures r.Ok? <==> !faults.begin && !faults.selectToken && AnyRedeemable(old(pool.tokens), h, now) && !faults.AnyAfterSelect()
      ensures r.Err? ==> pool.users == old(pool.users) && pool.tokens == old(pool.tokens)
      ensures r.Ok? ==>
        exists t | t in old(pool.tokens) ::
          && RedeemedBy(old(pool.users), old(pool.tokens), pool.users, pool.tokens, t, h, now)
          && r.value == UserInfo(old(pool.tokens)[t].userId, old(pool.users)[old(pool.tokens)[t].userId].email)
    {
      var begun := pool.Begin(faults.begin);
      if !begun {
        return Err(BeginFailed);
      }
      r := StatementsInTransaction(h, now, faults);
      if r.Err? {
        pool.Rollback();
        return;
      }
      var committed := pool.Commit(faults.commit);
      pool.Rollback();
      if !committed {
        return Err(CommitFailed);
      }
    }

    /**
     * The statements `verifyMagicLink` runs inside its open transaction:
     * lock a redeemable row, consume it, stamp its owner's login time and
     * read the owner's email. On an error the caller rolls back.
     */
    method StatementsInTransaction(h: Digest, now: Time, faults: RedeemFaults) returns (r: Result<UserInfo, HttpError>)
      requires pool != null && pool.Valid() && pool.tx == Some(Snapshot(pool.users, pool.tokens))
      modifies pool`users, pool`tokens
      ensures pool.Valid()
      ensures faults.selectToken ==> r == Err(LoadTokenFailed)
      ensures r == Err(InvalidOrExpired) <==> !faults.selectToken && !AnyRedeemable(old(pool.tokens), h, now)
      ensures !faults.selectToken && AnyRedeemable(old(pool.tokens), h, now) ==>
        && (faults.consume ==> r == Err(ConsumeFailed))
        && (!faults.consume && faults.touchLogin ==> r == Err(UpdateLoginFailed))
        && (!faults.consume && !faults.touchLogin && faults.readEmail ==> r == Err(LoadUserFailed))
      ensures r.Ok? <==> !faults.selectToken && AnyRedeemable(old(pool.tokens), h, now)
                         && !faults.consume && !faults.touchLogin && !faults.readEmail
      ensures r.Ok? ==>
        exists t | t in old(pool.tokens) ::
          && RedeemedBy(old(pool.users), old(pool.tokens), pool.users, pool.tokens, t, h, now)
          && r.value == UserInfo(old(pool.tokens)[t].userId, old(pool.users)[old(pool.tokens)[t].userId].email)
    {
      ghost var users0, tokens0 := pool.users, pool.tokens;
      var row := pool.SelectRedeemable(h, now, faults.selectToken);
      if row.Err? {
        return if row.error == NoRows then Err(InvalidOrExpired) else Err(LoadTokenFailed);
      }
      var (tokenId, userId) := row.value;
      var consumed := pool.ConsumeToken(tokenId, now, faults.consume);
      if !consumed {
        return Err(ConsumeFailed);
      }
      var touched := pool.TouchLastLogin(userId, now, faults.touchLogin);
      if !touched {
        return Err(UpdateLoginFailed);
      }
      var email := pool.ReadEmail(userId, faults.readEmail);
      if email.Err? {
        return Err(LoadUserFailed);
      }
      assert RedeemedBy(users0, tokens0, pool.users, pool.tokens, tokenId, h, now);
      r := Ok(UserInfo(userId, email.value));
    }

    /** `verifyMagicLink`. */
    method VerifyMagicLink(rawToken: string, now: Time, random: Option<seq<byte>>, faults: RedeemFaults)
      returns (r: Result<VerifyResponse, HttpError>)
      requires random.Some? ==> |random.value| == 32
      requires pool != null ==> pool.Valid() && pool.tx.None?
      modifies pool
      ensures pool == null ==> r == Err(Unavailable)
      ensures pool != null ==> pool.Valid() && pool.tx.None?
      ensures pool != null ==> pool.nextUserId == old(pool.nextUserId) && pool.nextTokenId == old(pool.nextTokenId)
      ensures pool != null ==> ConsumedRowsFinal(old(pool.tokens), pool.tokens)
      ensures pool != null && TrimSpace(rawToken) == "" ==>
        r == Err(TokenRequired) && pool.users == old(pool.users) && pool.tokens == old(pool.tokens)
      ensures pool != null && TrimSpace(rawToken) != "" ==>
        var h := H(TrimSpace(rawToken));
        var redeems := !faults.begin && !faults.selectToken && AnyRedeemable(old(pool.tokens), h, now)
                       && !faults.AnyAfterSelect();
        // Unknown, expired and already consumed secrets all get this one answer.
        && (r == Err(InvalidOrExpired) <==> !faults.begin && !faults.selectToken && !AnyRedeemable(old(pool.tokens), h, now))
        // Each failing statement of the transaction has its own 500.
        && (faults.begin ==> r == Err(BeginFailed))
        && (!faults.begin && faults.selectToken ==> r == Err(LoadTokenFailed))
        && (!faults.begin && !faults.selectToken && AnyRedeemable(old(pool.tokens), h, now) ==>
              && (faults.consume ==> r == Err(ConsumeFailed))
              && (!faults.consume && faults.touchLogin ==> r == Err(UpdateLoginFailed))
              && (!faults.consume && !faults.touchLogin && faults.readEmail ==> r == Err(LoadUserFailed))
              && (!faults.consume && !faults.touchLogin && !faults.readEmail && faults.commit ==> r == Err(CommitFailed)))
        // Only a committed transaction changes the tables, and then by exactly one redemption.
        && (redeems ==>
              exists t | t in old(pool.tokens) ::
                && RedeemedBy(old(pool.users), old(pool.tokens), pool.users, pool.tokens, t, h, now)
                && (r.Ok? ==> r.value.user == UserInfo(old(pool.tokens)[t].userId,
                                                       old(pool.users)[old(pool.tokens)[t].userId].email)))
        && (!redeems ==> pool.users == old(pool.users) && pool.tokens == old(pool.tokens))
        // A commit followed by a failing random source consumes the row and still reports an error.
        && (redeems && random.None? ==> r == Err(AccessTokenFailed))
        && (r.Ok? <==> redeems && random.Some?)
        && (r.Ok? ==> r.value.accessToken == Encode(random.value))
    {
      if pool == null {
        return Err(Unavailable);
      }
      var token := TrimSpace(rawToken);
      if token == "" {
        return Err(TokenRequired);
      }
      var user := RedeemInTransaction(H(token), now, faults);
      if user.Err? {
        return Err(user.error);
      }
      var access := GenerateToken(random);
      if access.None? {
        return Err(AccessTokenFailed);
      }
      r := Ok(VerifyResponse(access.value.secret, user.value));
    }
  }
}
