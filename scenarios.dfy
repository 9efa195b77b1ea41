/**
 * Clients of the handlers, in the manner of end-to-end tests: what a
 * caller can conclude from the handlers' contracts alone.
 */
module Scenarios {
  import opened Wrappers
  import opened GoText
  import opened Base64Url
  import opened Configuration
  import opened TokenStore
  import opened Redemption
  import opened Auth

  /**
   * A secret that is the only unconsumed row for its digest, presented
   * twice before it expires with no database fault: the first attempt
   * redeems it, the second gets the generic 401.
   */
  method RedeemTwice(handler: AuthHandler, secret: string, id: TokenId, t1: Time, t2: Time, access: seq<byte>)
      returns (first: Result<VerifyResponse, HttpError>, second: Result<VerifyResponse, HttpError>)
    requires handler.pool != null && handler.pool.Valid() && handler.pool.tx.None?
    requires TrimSpace(secret) != "" && |access| == 32
    requires Unconsumed(handler.pool.tokens, H(TrimSpace(secret))) == {id}
    requires handler.pool.tokens[id].expiresAt > t1
    modifies handler.pool
    ensures first.Ok? && second == Err(InvalidOrExpired)
  {
    var steady := RedeemFaults(false, false, false, false, false, false);
    var h := H(TrimSpace(secret));
    assert id in Unconsumed(handler.pool.tokens, h);
    assert Redeemable(handler.pool.tokens, id, h, t1);
    assert AnyRedeemable(handler.pool.tokens, h, t1);
    first := handler.VerifyMagicLink(secret, t1, Some(access), steady);
    ghost var t :| t in old(handler.pool.tokens)
             && RedeemedBy(old(handler.pool.users), old(handler.pool.tokens), handler.pool.users, handler.pool.tokens, t, h, t1);
    ConsumeShrinksUnconsumed(old(handler.pool.tokens), t, h, t1);
    assert Unconsumed(handler.pool.tokens, h) == {};
    NothingUnconsumedNothingRedeemable(handler.pool.tokens, h, t2);
    second := handler.VerifyMagicLink(secret, t2, Some(access), steady);
  }

  /**
   * Two links requested for one email with no fault: at most one user is
   * added, and both new rows belong to that email's user.
   */
  method IssueTwice(handler: AuthHandler, rawEmail: string, now: Time, random1: seq<byte>, random2: seq<byte>)
    requires handler.pool != null && handler.pool.Valid() && handler.pool.tx.None?
    requires NormalizeEmail(rawEmail) != "" && |random1| == 32 && |random2| == 32
    modifies handler.pool
    ensures var email := NormalizeEmail(rawEmail);
      && UserByEmail(handler.pool.users, email).Some?
      && handler.pool.users.Keys <= old(handler.pool.users.Keys) + {old(handler.pool.nextUserId)}
      && var owner := UserByEmail(handler.pool.users, email).value;
         var n := old(handler.pool.nextTokenId);
         handler.pool.tokens == old(handler.pool.tokens)[n := IssuedRow(handler.cfg, owner, Encode(random1), now)]
                                                        [n + 1 := IssuedRow(handler.cfg, owner, Encode(random2), now)]
  {
    var calm := IssueFaults(false, false, false);
    var email := NormalizeEmail(rawEmail);
    var first := handler.RequestMagicLink(rawEmail, now, Some(random1), calm);
    ghost var owner := UserByEmail(handler.pool.users, email).value;
    ghost var users1 := handler.pool.users;
    var second := handler.RequestMagicLink(rawEmail, now, Some(random2), calm);
    assert handler.pool.users == users1;
  }

  /** Without a database both handlers answer 503, whatever the input; `logout` still succeeds. */
  method NoDatabase(email: string, token: string, now: Time)
      returns (issued: Result<MagicLinkResponse, HttpError>, verified: Result<VerifyResponse, HttpError>,
               loggedOut: LogoutResponse)
    ensures issued == Err(Unavailable) && verified == Err(Unavailable)
    ensures issued.error.status == 503 && loggedOut.ok
  {
    var handler := new AuthHandler(Load(map[]), null);
    issued := handler.RequestMagicLink(email, now, None, IssueFaults(false, false, false));
    verified := handler.VerifyMagicLink(token, now, None, RedeemFaults(false, false, false, false, false, false));
    loggedOut := Logout();
  }
}
