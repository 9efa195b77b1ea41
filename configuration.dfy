/**
 * Runtime configuration (`config.Load`), modelled as a function of the
 * process environment. `os.Getenv` returns "" both for an unset variable
 * and for one set to the empty string; `Getenv` does the same over a map.
 */
module Configuration {
  import opened Wrappers
  import opened GoText

  /** A `time.Duration`: a signed 64-bit count of nanoseconds. */
  type Duration = int

  const Minute: Duration := 60_000_000_000
  const DefaultPort := "6174"
  const DefaultEnv := "prod"
  const DefaultMagicLinkBaseUrl := "http://localhost:3000/auth/verify"
  const DefaultTtlMinutes := 15

  /** The largest minute count whose duration still fits in an int64 of nanoseconds. */
  const MaxTtlMinutes := MaxInt64 / Minute

  type Environment = map<string, string>

  datatype Config = Config(
    port: string,
    databaseUrl: string,
    env: string,
    magicLinkBaseUrl: string,
    magicLinkTtl: Duration)

  function Getenv(environ: Environment, key: string): string {
    if key in environ then environ[key] else ""
  }

  /** The value of an environment variable, or `default` when it is empty or unset. */
  function GetenvOr(environ: Environment, key: string, default: string): (v: string)
    requires default != ""
    ensures v != ""
    ensures Getenv(environ, key) != "" ==> v == Getenv(environ, key)
    ensures Getenv(environ, key) == "" ==> v == default
  {
    var raw := Getenv(environ, key);
    if raw == "" then default else raw
  }

  /** Two's-complement wrap-around of an integer into the int64 range, as Go's `*` on `time.Duration` does. */
  function WrapInt64(x: int): (r: int)
    ensures MinInt64 <= r <= MaxInt64
    ensures (r - x) % 0x1_0000_0000_0000_0000 == 0
    ensures MinInt64 <= x <= MaxInt64 ==> r == x
  {
    (x - MinInt64) % 0x1_0000_0000_0000_0000 + MinInt64
  }

  /** The minute count as written: a value that parses and is positive, otherwise 15. */
  function TtlMinutesAsWritten(raw: string): (m: int)
    ensures m > 0
    ensures Atoi(raw).Some? && Atoi(raw).value > 0 ==> m == Atoi(raw).value
    ensures !(Atoi(raw).Some? && Atoi(raw).value > 0) ==> m == DefaultTtlMinutes
  {
    var parsed := Atoi(raw);
    if raw != "" && parsed.Some? && parsed.value > 0 then parsed.value else DefaultTtlMinutes
  }

  /**
   * `Load` as written: `time.Duration(ttlMinutes) * time.Minute` wraps
   * around the int64 range, so a large minute count gives a negative TTL.
   */
  function LoadAsWritten(environ: Environment): (c: Config)
    ensures c.magicLinkTtl == WrapInt64(TtlMinutesAsWritten(Getenv(environ, "MAGIC_LINK_TTL_MINUTES")) * Minute)
  {
    Load(environ).(magicLinkTtl := WrapInt64(TtlMinutesAsWritten(Getenv(environ, "MAGIC_LINK_TTL_MINUTES")) * Minute))
  }

  /**
   * As written, every accepted minute count above `MaxTtlMinutes` loses its
   * value: the product no longer fits, so the TTL is not that many minutes.
   */
  lemma TtlOverflowsAboveBound(environ: Environment, n: int)
    requires MaxTtlMinutes < n <= MaxInt64
    requires Atoi(Getenv(environ, "MAGIC_LINK_TTL_MINUTES")) == Some(n)
    ensures LoadAsWritten(environ).magicLinkTtl != n * Minute
  {
  }

  /** The variable the counterexample sets: one minute past the largest representable duration, 153722868. */
  const OverflowingTtlEnvironment: Environment := map["MAGIC_LINK_TTL_MINUTES" := Itoa(MaxTtlMinutes + 1)]

  /** With `MAGIC_LINK_TTL_MINUTES=153722868` the TTL as written is negative: tokens are born expired. */
  lemma TtlOverflowAsWritten()
    ensures MaxTtlMinutes + 1 == 153722868
    ensures LoadAsWritten(OverflowingTtlEnvironment).magicLinkTtl < 0
  {
    var n := MaxTtlMinutes + 1;
    assert n == 153722868;
    OverflowingTtlParses();
    OverflowingProductWraps();
  }

  /** The counterexample's variable parses to a positive minute count one past the bound. */
  lemma OverflowingTtlParses()
    ensures TtlMinutesAsWritten(Getenv(OverflowingTtlEnvironment, "MAGIC_LINK_TTL_MINUTES")) == MaxTtlMinutes + 1
  {
    AtoiItoa(MaxTtlMinutes + 1);
  }

  /** 153722868 minutes is 9223372080000000000 ns, which wraps to -9223371993709551616. */
  lemma OverflowingProductWraps()
    ensures WrapInt64((MaxTtlMinutes + 1) * Minute) == -9223371993709551616
  {
    assert MaxTtlMinutes + 1 == 153722868;
    assert (MaxTtlMinutes + 1) * Minute == 9_223_372_080_000_000_000;
    assert 9_223_372_080_000_000_000 - MinInt64 == 18_446_744_116_854_775_808;
    assert 18_446_744_116_854_775_808 == 0x1_0000_0000_0000_0000 + 43_145_224_192;
  }

  /**
   * The minute count, corrected: a value that parses, is positive and whose
   * duration fits in an int64; every other value falls back to 15.
   */
  function TtlMinutes(raw: string): (m: int)
    ensures 0 < m <= MaxTtlMinutes
    ensures Atoi(raw).Some? && 0 < Atoi(raw).value <= MaxTtlMinutes ==> m == Atoi(raw).value
    ensures !(Atoi(raw).Some? && 0 < Atoi(raw).value <= MaxTtlMinutes) ==> m == DefaultTtlMinutes
  {
    var parsed := Atoi(raw);
    if raw != "" && parsed.Some? && 0 < parsed.value <= MaxTtlMinutes then parsed.value
    else DefaultTtlMinutes
  }

  /** `config.Load`, with the TTL chosen by `TtlMinutes`. */
  function Load(environ: Environment): (c: Config)
    ensures c.port == GetenvOr(environ, "PORT", DefaultPort)
    ensures c.env == GetenvOr(environ, "ENV", DefaultEnv)
    ensures c.magicLinkBaseUrl == GetenvOr(environ, "MAGIC_LINK_BASE_URL", DefaultMagicLinkBaseUrl)
    ensures c.databaseUrl == Getenv(environ, "DATABASE_URL")
    ensures c.magicLinkTtl % Minute == 0
    ensures Minute <= c.magicLinkTtl <= MaxInt64
  {
    Config(
      port := GetenvOr(environ, "PORT", DefaultPort),
      databaseUrl := Getenv(environ, "DATABASE_URL"),
      env := GetenvOr(environ, "ENV", DefaultEnv),
      magicLinkBaseUrl := GetenvOr(environ, "MAGIC_LINK_BASE_URL", DefaultMagicLinkBaseUrl),
      magicLinkTtl := TtlMinutes(Getenv(environ, "MAGIC_LINK_TTL_MINUTES")) * Minute)
  }

  /** The empty environment yields every default. */
  lemma LoadDefaults()
    ensures Load(map[]) == Config("6174", "", "prod", "http://localhost:3000/auth/verify", 15 * Minute)
  {
  }

  /**
   * Any spelling `strconv.Atoi` accepts ("30", "+30", "030") of a positive
   * minute count that fits is used as the TTL.
   */
  lemma LoadHonoursTtl(environ: Environment, n: int)
    requires 0 < n <= MaxTtlMinutes
    requires Atoi(Getenv(environ, "MAGIC_LINK_TTL_MINUTES")) == Some(n)
    ensures Load(environ).magicLinkTtl == n * Minute
  {
  }

  /** In particular the canonical decimal spelling of such a count is used. */
  lemma LoadHonoursDecimalTtl(environ: Environment, n: int)
    requires 0 < n <= MaxTtlMinutes
    requires Getenv(environ, "MAGIC_LINK_TTL_MINUTES") == Itoa(n)
    ensures Load(environ).magicLinkTtl == n * Minute
  {
    AtoiItoa(n);
    LoadHonoursTtl(environ, n);
  }

  /**
   * Unset, non-numeric, zero and negative minute counts give 15 minutes, as
   * the code does; so, in the corrected `Load`, does a count too large for
   * its duration to fit an int64.
   */
  lemma LoadFallsBackToFifteen(environ: Environment)
    requires var p := Atoi(Getenv(environ, "MAGIC_LINK_TTL_MINUTES")); p.None? || p.value <= 0 || p.value > MaxTtlMinutes
    ensures Load(environ).magicLinkTtl == 15 * Minute
  {
  }

  /** Where the multiplication does not overflow, the corrected `Load` agrees with the code as written. */
  lemma LoadAgreesBelowOverflow(environ: Environment)
    requires TtlMinutesAsWritten(Getenv(environ, "MAGIC_LINK_TTL_MINUTES")) <= MaxTtlMinutes
    ensures LoadAsWritten(environ) == Load(environ)
  {
  }
}
