# Magic-link sign-in of amiglot-api, in Dafny

This project models the passwordless sign-in of the amiglot API server and
proves properties of that model. It covers the three handlers of
`internal/http/auth.go` (`requestMagicLink`, `verifyMagicLink`, `logout`) and
their helpers `ensureUser` and `generateToken`. It also covers `config.Load`
from `internal/config/config.go`.

A user posts an email to `/auth/magic-link`. The server normalizes the
email and finds or creates the user. It generates a 32-byte random secret,
encodes it as unpadded URL-safe base64, and stores only its SHA-256 digest,
with an expiry of one TTL from now. In the `dev` environment the response
carries the sign-in link. The user then posts the secret to `/auth/verify`.
Inside one transaction the server looks up an unconsumed, unexpired row
with that digest and marks it consumed. It then stamps the owner's
`last_login_at`, reads the owner's email and commits. Finally it answers
with a fresh access token and the user.

Layout, one module per concern:

- `wrappers.dfy` (`Wrappers`): `Option` and `Result`.
- `gotext.dfy` (`GoText`): `strings.TrimSpace`, `strings.ToLower`, `strconv.Atoi`, plus `strconv.Itoa` as Atoi's inverse.
- `base64url.dfy` (`Base64Url`): `base64.RawURLEncoding` (section 5 of RFC 4648, no padding) and a reference decoder.
- `configuration.dfy` (`Configuration`): `config.Load` as a function of the environment.
  - Also holds the as-written TTL computation, which overflows (see Findings).
- `tokenstore.dfy`:
  - `TokenStore`: the `users` and `magic_link_tokens` tables as a `Store` class with map fields. Each SQL statement is a method, with a `fail` flag for a database error; a transaction is a snapshot that `Rollback` and a failed `Commit` restore.
  - `Redemption`: what one redemption does to the tables, and why a secret is redeemed at most once.
- `auth.dfy` (`Auth`): the handler class `AuthHandler` and its pure helpers.
- `scenarios.dfy` (`Scenarios`): client methods that draw end-to-end conclusions from the handlers' contracts alone.

Inputs from the environment are parameters:

- the current time (`now`);
- the 32 random bytes, or `None` when `rand.Read` fails (`random`);
- which database statements fail (`IssueFaults`, `RedeemFaults`).

## Model

| member | source | states |
|---|---|---|
| GoText.IsSpace | internal/http/auth.go:49 | The white space that `strings.TrimSpace` removes, as `unicode.IsSpace` defines it: tab, newline, vertical tab, form feed, carriage return, space, U+0085, U+00A0 and the Unicode White_Space code points. |
| GoText.TrimSpace | internal/http/auth.go:49 | The result is empty exactly when the input is all white space (`unicode.IsSpace`). Otherwise it neither starts nor ends with white space. It is an infix of the input with only white space removed on either side. |
| GoText.TrimSpaceOfTrimmed | internal/http/auth.go:105 | A string with no white space at either end is its own trim. |
| GoText.TrimSpaceIdempotent | internal/http/auth.go:105 | Trimming twice is trimming once. |
| GoText.LowerChar | internal/http/auth.go:49 | The lower-casing of one character: never upper-case, white space exactly when the input was, and unchanged unless it is an ASCII upper-case letter. |
| GoText.ToLower | internal/http/auth.go:49 | Same length as the input; each character is lower-cased (ASCII). |
| GoText.TrimSpaceKeepsNoUpper | internal/http/auth.go:49 | Trimming a string with no upper-case letter leaves none. |
| GoText.ToLowerOfLower | internal/http/auth.go:49 | A string with no upper-case letter is its own lower-casing. |
| GoText.Atoi | internal/config/config.go:37 | A value only for a non-empty, optionally signed digit string whose value fits in int64. A negative value only with a leading '-'. |
| GoText.AtoiItoa | internal/config/config.go:37 | Atoi parses the decimal rendering of every int64 back to the same number. |
| Base64Url.SextetChar | internal/http/auth.go:195 | Every 6-bit value maps to a URL-safe character. |
| Base64Url.CharSextet | internal/http/auth.go:195 | A character decodes exactly when it is URL-safe, to the value that encodes to it. |
| Base64Url.CharSextetOfSextetChar | internal/http/auth.go:195 | Decoding a character inverts encoding it. |
| Base64Url.EncodeQuantum | internal/http/auth.go:195 | Three bytes become four URL-safe characters. |
| Base64Url.Encode | internal/http/auth.go:195 | n bytes become (4n+2)/3 characters, with no padding and all URL-safe. |
| Base64Url.DecodeGroup | internal/http/auth.go:195 | A group of k characters decodes to k-1 bytes. |
| Base64Url.QuantumRoundTrip | internal/http/auth.go:195 | Decoding an encoded three-byte group gives the bytes back. |
| Base64Url.OneByteRoundTrip | internal/http/auth.go:195 | A trailing single byte round-trips. |
| Base64Url.TwoByteRoundTrip | internal/http/auth.go:195 | A trailing pair of bytes round-trips. |
| Base64Url.DecodeEncode | internal/http/auth.go:195 | Decode(Encode(b)) == b for byte strings of every length. |
| Base64Url.EncodeInjective | internal/http/auth.go:195 | Distinct byte strings have distinct encodings. |
| Configuration.Getenv | internal/config/config.go:20-44 | `os.Getenv` over the environment map: the value of a set variable, and "" for an unset one. |
| Configuration.GetenvOr | internal/config/config.go:20-33 | An empty or unset variable gives the default; any other value is kept. |
| Configuration.WrapInt64 | internal/config/config.go:47 | Go's int64 multiplication result: in range, congruent modulo 2^64, and the identity in range. |
| Configuration.TtlMinutesAsWritten | internal/config/config.go:35-40 | The minute count as written: the parsed value whenever `Atoi` accepts the variable and the value is positive, otherwise 15. |
| Configuration.LoadAsWritten | internal/config/config.go:19-49 | The TTL is the product wrapped into int64, as the code computes it. |
| Configuration.TtlOverflowsAboveBound | internal/config/config.go:36-47 | As written, every accepted count above 153722867 gives a TTL other than that many minutes, because the product wraps. |
| Configuration.TtlOverflowAsWritten | internal/config/config.go:47 | With MAGIC_LINK_TTL_MINUTES=153722868 the TTL as written is negative. |
| Configuration.OverflowingTtlParses | internal/config/config.go:36-38 | "153722868" is accepted as the minute count. |
| Configuration.OverflowingProductWraps | internal/config/config.go:47 | 153722868 minutes in nanoseconds wraps to -9223371993709551616. |
| Configuration.TtlMinutes | internal/config/config.go:35-40 | The corrected minute count, between 1 and the largest count that fits. It is the parsed value whenever `Atoi` accepts the variable and the value is in that range, otherwise 15. |
| Configuration.Load | internal/config/config.go:19-49 | The corrected `Load` of the Findings row. PORT, ENV and MAGIC_LINK_BASE_URL default when empty. DATABASE_URL passes through. The TTL is a whole number of minutes, at least one minute, and fits in int64. |
| Configuration.LoadDefaults | internal/config/config.go:19-49 | The empty environment gives "6174", "", "prod", "http://localhost:3000/auth/verify" and 15 minutes. |
| Configuration.LoadHonoursTtl | internal/config/config.go:36-38 | Any value that `Atoi` accepts (so also "+30" or "030") as a positive minute count that fits becomes the TTL. |
| Configuration.LoadHonoursDecimalTtl | internal/config/config.go:36-38 | In particular the plain decimal spelling of such a count becomes the TTL. |
| Configuration.LoadFallsBackToFifteen | internal/config/config.go:35-40 | An unset, unparsable, zero or negative count gives 15 minutes. In the corrected `Load`, so does a count too large to fit in int64. |
| Configuration.LoadAgreesBelowOverflow | internal/config/config.go:47 | Without overflow the corrected Load equals the code as written. |
| TokenStore.H | internal/http/auth.go:110 | The digest determines its preimage (no SHA-256 collisions). |
| TokenStore.Redeemable | internal/http/auth.go:123-124 | The redemption query's filter: the row exists, carries the digest, has no `consumed_at`, and `expires_at` is after `now`. |
| TokenStore.Consume | internal/http/auth.go:135 | Only row `id` changes, and it gains `consumed_at = now`. |
| TokenStore.TouchLogin | internal/http/auth.go:139 | Only user `id` changes, and it gains `last_login_at = now`. Emails are kept. |
| TokenStore.UserByEmail | internal/http/auth.go:174 | A user with that email, or none when no user has it. |
| TokenStore.UserByEmailUnique | internal/http/auth.go:174 | With unique emails, the user found is the only user with the email. |
| TokenStore.InsertUserKeepsEmailsUnique | internal/http/auth.go:182 | Inserting a new email keeps emails unique and makes the new row the one found. |
| TokenStore.Store.FindUserByEmail | internal/http/auth.go:174 | The user with the email, `NoRows` when none has it, an error on failure. |
| TokenStore.Store.InsertUser | internal/http/auth.go:182 | A fresh id and a row with no login time. A taken email is a constraint violation. On error the tables are unchanged. |
| TokenStore.Store.InsertToken | internal/http/auth.go:65-70 | Exactly one new unconsumed row with the given owner, digest and expiry. A missing owner is a constraint violation. On error nothing changes. |
| TokenStore.Store.Begin | internal/http/auth.go:112 | On success, opens a transaction holding a snapshot of both tables. |
| TokenStore.Store.SelectRedeemable | internal/http/auth.go:122-133 | Matches the filter on digest, `consumed_at IS NULL` and `expires_at > now`. `NoRows` exactly when no row matches; otherwise a matching row and its owner. |
| TokenStore.Store.ConsumeToken | internal/http/auth.go:135 | On success the tokens become Consume(tokens, id, now); on failure they are unchanged. |
| TokenStore.Store.TouchLastLogin | internal/http/auth.go:139 | On success the users become TouchLogin(users, id, now); on failure they are unchanged. |
| TokenStore.Store.ReadEmail | internal/http/auth.go:144 | The owner's email, `NoRows` for a missing user, an error on failure. |
| TokenStore.Store.Commit | internal/http/auth.go:148 | Success keeps the transaction's changes; failure restores the snapshot. |
| TokenStore.Store.Rollback | internal/http/auth.go:116-118 | Restores the snapshot of an open transaction, and is a no-op after a commit. |
| Redemption.ConsumeKeepsConsumedRows | internal/http/auth.go:135 | Consuming a row never alters a row that is already consumed. |
| Redemption.ConsumeShrinksUnconsumed | internal/http/auth.go:122-137 | A redemption removes exactly the redeemed row from its digest's unconsumed rows. |
| Redemption.NothingUnconsumedNothingRedeemable | internal/http/auth.go:124 | With no unconsumed row for a digest, nothing is redeemable at any time. |
| Redemption.ConsumedNeverRedeemable | internal/http/auth.go:124 | A consumed row never matches the redemption filter again. |
| Redemption.PickRedeemable | internal/http/auth.go:122-128 | The row a redemption picks passes the filter. |
| Redemption.SerialRedemptionsBounded | internal/http/auth.go:122-137 | A series of redemptions of a digest, at any instants, succeeds at most as often as there are unconsumed rows for it. Each redemption consumes the row `PickRedeemable` selects. |
| Redemption.SingleIssuanceRedeemedOnce | internal/http/auth.go:122-137 | A secret issued once and presented N times, first before expiry, is redeemed exactly once. |
| Auth.NormalizeEmail | internal/http/auth.go:49-52 | The key `requestMagicLink` uses for an email: lower-cased and trimmed. It is empty, so the request gets the 400, exactly when the input is all white space. It holds no upper-case letter. |
| Auth.NormalizeEmailIdempotent | internal/http/auth.go:49 | Normalizing a normalized email changes nothing, so users are keyed on one canonical email. |
| Auth.GenerateToken | internal/http/auth.go:190-198 | Fails exactly when the random source fails. Otherwise the secret is Encode(random): 43 URL-safe characters that decode to the random bytes, with hash == SHA-256(secret). |
| Auth.DistinctRandomDistinctDigests | internal/http/auth.go:190-198 | Distinct random bytes give distinct stored digests. |
| Auth.SecretSurvivesTrim | internal/http/auth.go:105 | A generated secret is unchanged by the TrimSpace in verify. |
| Auth.IssuanceResponse | internal/http/auth.go:74-83 | `ok` is true. `dev_login_url` is present exactly when Env == "dev", and is then base URL + "?token=" + secret. |
| Auth.Logout | internal/http/auth.go:168-170 | Always `{ok: true}`. |
| Auth.IssuedRow | internal/http/auth.go:64-70 | The issued row starts unconsumed. |
| Auth.IssuedRowRedeemableUntilExpiry | internal/http/auth.go:64 | The issued secret is redeemable from issuance until, and not at, now + TTL. |
| Auth.AuthHandler.constructor | internal/http/auth.go:25-26 | The handler holds the configuration and the pool it was built with, as `registerAuthRoutes` builds it. |
| Auth.AuthHandler.EnsureUser | internal/http/auth.go:172-188 | Returns the existing user for the email and changes nothing. Otherwise inserts exactly one user with that email. On a failure, an error and no new user. Tokens are untouched. |
| Auth.AuthHandler.IssueToken | internal/http/auth.go:59-83 | Random failure gives 500 "failed to generate token"; insert failure gives 500 "failed to store token", both with the tokens untouched. Otherwise exactly one new row IssuedRow(user, Encode(random), now) and the issuance response. |
| Auth.AuthHandler.RequestMagicLink | internal/http/auth.go:44-84 | No pool gives 503; a blank email gives 400; user lookup or insert failure gives 500. Otherwise the user keyed on the normalized email, with the whole new user table and user counter given, then what IssueToken states. No failure leaves a token row, and consumed rows are never altered. |
| Auth.AuthHandler.StatementsInTransaction | internal/http/auth.go:120-146 | Inside the transaction: 401 exactly when no row is redeemable, each statement's failure gives its own 500, and success redeems exactly one redeemable row for the owner. |
| Auth.AuthHandler.RedeemInTransaction | internal/http/auth.go:112-150 | The whole transaction: success exactly when begin, select, update, select and commit all succeed on a redeemable digest, with RedeemedBy holding between the old and new tables. Any error restores both tables. |
| Auth.AuthHandler.VerifyMagicLink | internal/http/auth.go:100-162 | No pool gives 503; a blank token gives 400. The uniform 401 comes exactly when no row is redeemable. Each failing statement gets its own 500: begin, select, consume, last-login update, email read, commit. A redemption consumes exactly that row and stamps its owner's login; anything else leaves the tables unchanged. Success needs a redemption and a random source, with the owner's id and email and a fresh access token. |
| Scenarios.RedeemTwice | internal/http/auth.go:100-162 | A secret with one live row, presented twice without faults, succeeds the first time and gets 401 the second time. |
| Scenarios.IssueTwice | internal/http/auth.go:44-84 | Two requests for one email add at most one user and two rows owned by that email's user. |
| Scenarios.NoDatabase | internal/http/auth.go:45-47 | Without a database both handlers answer 503, and logout still answers `ok`. |

## Left out

- Concurrency: the model runs calls one after another. `FOR UPDATE` row locking and the race between concurrent `ensureUser` calls (the unique constraint turns the loser into a 500) are not modelled.
- SHA-256 internals: the digest is a free constructor, so it is assumed collision-free and no 32-byte layout is modelled.
- `crypto/rand` becomes the `random` parameter, and only the failure of `rand.Read` is modelled.
- Clocks: the application clock (`time.Now()`, line 64) and the database clock (`now()` in SQL) are one parameter `now`. Clock skew between them is not modelled.
- Database errors are abstract flags, one per statement. Connection pooling, `context` cancellation and the driver's error text are left out.
- Ids are natural-number counters, where the database hands out opaque string ids. This does not affect the handlers' answers.
- TokenStore.Store.SelectRedeemable: when several rows match, `QueryRow` returns some database-chosen row. The model leaves the choice open with `:|`, so the properties hold for any choice.
- GoText.ToLower: only ASCII letters are lower-cased. Go's full Unicode case mapping is not modelled, so two emails that differ only in non-ASCII case are different accounts here.
- Logging (`log.Printf`, lines 78 and 80) is output only and is not modelled.
- Routing, JSON encoding and the server start-up (`router.go`, `main.go`, `db.go`) are not part of this model. `registerAuthRoutes` is reduced to the `AuthHandler` constructor.
- The `users` row created by `ensureUser` is committed before the token is generated. A later random-source or token-insert failure therefore leaves the new user in place. The model follows the code: `RequestMagicLink` keeps the user on those failures.
- TokenStore.Store.Commit: a failed commit is taken to have discarded the transaction. A commit whose outcome is unknown to the server is not modelled: for example, the connection drops after the database has committed. The source then answers 500 "failed to commit token" (auth.go:148-150) while the row may already be consumed. The "any failure restores both tables" clauses of `RedeemInTransaction` and `VerifyMagicLink` rest on this assumption.
- After a successful commit, a failing access-token generation still answers 500 with the row consumed. `VerifyMagicLink` states this outright rather than treating it as a rollback.
- No access token is stored, and `logout` revokes nothing, because the source keeps no session state.

## Findings

| source | as written | input that shows it | evidently intended | confidence | as-written member | corrected member |
|---|---|---|---|---|---|---|
| internal/config/config.go:47 | `time.Duration(ttlMinutes) * time.Minute` is computed in int64 and wraps around for any accepted `ttlMinutes` above 153722867 | `MAGIC_LINK_TTL_MINUTES=153722868` gives a TTL of -9223371993709551616 ns, so every link is issued already expired | only positive TTLs, with counts too large to represent falling back like other invalid values | not executed | Configuration.TtlOverflowAsWritten | Configuration.Load |
