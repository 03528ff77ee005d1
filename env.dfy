/**
  The site's configuration read from the process environment: the client
  and server settings with their defaults, the start-up validation, and the
  derived configuration.

  The environment is a map from variable name to value; a name missing from
  the map is an unset variable. Whether a string is accepted by the `URL`
  constructor is the parameter `isValidUrl`.
 */
module Env {
  import opened Wrappers
  import opened JsString

  type Environment = map<string, string>

  /** `process.env[name]`. */
  function Get(env: Environment, name: string): Option<string> {
    if name in env then Some(env[name]) else None
  }

  /** A variable holding a truthy string: set and not empty. */
  predicate IsSet(v: Option<string>) {
    v.Some? && v.value != ""
  }

  /** `process.env[name] || fallback`. */
  function OrDefault(env: Environment, name: string, fallback: string): (r: string)
    ensures IsSet(Get(env, name)) ==> r == env[name]
    ensures !IsSet(Get(env, name)) ==> r == fallback
  {
    if IsSet(Get(env, name)) then env[name] else fallback
  }

  /** `process.env[name] === 'true'`. */
  predicate Flag(env: Environment, name: string) {
    Get(env, name) == Some("true")
  }

  /** `process.env[name] ? parseInt(process.env[name], 10) : fallback`. */
  function IntOrDefault(env: Environment, name: string, fallback: Num): (r: Num)
    ensures !IsSet(Get(env, name)) ==> r == fallback
    ensures IsSet(Get(env, name)) ==> r == ParseInt(env[name])
  {
    if IsSet(Get(env, name)) then ParseInt(env[name]) else fallback
  }

  datatype ClientEnv = ClientEnv(
    siteUrl: string,
    siteName: string,
    siteDescription: string,
    gaId: Option<string>,
    devMode: bool,
    debugMode: bool,
    enableBlog: bool,
    enableNewsletter: bool,
    enableContactForm: bool)

  const DefaultSiteUrl := "http://localhost:3000"

  /** `clientEnv`. */
  function ClientEnvOf(env: Environment): ClientEnv {
    ClientEnv(
      OrDefault(env, "NEXT_PUBLIC_SITE_URL", DefaultSiteUrl),
      OrDefault(env, "NEXT_PUBLIC_SITE_NAME", "Portfolio"),
      OrDefault(env, "NEXT_PUBLIC_SITE_DESCRIPTION", ""),
      Get(env, "NEXT_PUBLIC_GA_ID"),
      Flag(env, "NEXT_PUBLIC_DEV_MODE"),
      Flag(env, "NEXT_PUBLIC_DEBUG_MODE"),
      Flag(env, "NEXT_PUBLIC_ENABLE_BLOG"),
      Flag(env, "NEXT_PUBLIC_ENABLE_NEWSLETTER"),
      Flag(env, "NEXT_PUBLIC_ENABLE_CONTACT_FORM"))
  }

  /**
    The site URL is the variable's value when set and non-empty, otherwise
    the local development address, so it is never empty; each feature flag
    is on exactly when its variable reads `true`.
   */
  lemma ClientEnvSpec(env: Environment)
    ensures ClientEnvOf(env).siteUrl != ""
    ensures ClientEnvOf(env).siteUrl == DefaultSiteUrl <==>
      !IsSet(Get(env, "NEXT_PUBLIC_SITE_URL")) || env["NEXT_PUBLIC_SITE_URL"] == DefaultSiteUrl
    ensures ClientEnvOf(env).enableContactForm <==>
      "NEXT_PUBLIC_ENABLE_CONTACT_FORM" in env && env["NEXT_PUBLIC_ENABLE_CONTACT_FORM"] == "true"
    ensures ClientEnvOf(env).enableNewsletter <==>
      "NEXT_PUBLIC_ENABLE_NEWSLETTER" in env && env["NEXT_PUBLIC_ENABLE_NEWSLETTER"] == "true"
    ensures ClientEnvOf(env).enableBlog <==>
      "NEXT_PUBLIC_ENABLE_BLOG" in env && env["NEXT_PUBLIC_ENABLE_BLOG"] == "true"
  {
  }

  /** A flag set to anything but exactly `true` (`TRUE`, `1`, `yes`) is off. */
  lemma FlagIsExact(env: Environment, name: string)
    requires name in env && env[name] != "true"
    ensures !Flag(env, name)
  {
  }

  datatype ServerEnv = ServerEnv(
    nodeEnv: Option<string>,
    databaseUrl: Option<string>,
    smtpHost: Option<string>,
    smtpPort: Option<Num>,
    smtpSecure: bool,
    smtpUser: Option<string>,
    smtpPass: Option<string>,
    contactFromEmail: Option<string>,
    contactToEmail: Option<string>,
    nextAuthSecret: Option<string>,
    nextAuthUrl: Option<string>,
    rateLimitMax: Num,
    rateLimitWindow: Num,
    newsletterApiKey: Option<string>,
    newsletterListId: Option<string>,
    githubToken: Option<string>,
    githubRepo: Option<string>)

  const DefaultRateLimitMax := 100
  const DefaultRateLimitWindow := 900000

  /** `serverEnv`. */
  function ServerEnvOf(env: Environment): ServerEnv {
    ServerEnv(
      Get(env, "NODE_ENV"),
      Get(env, "DATABASE_URL"),
      Get(env, "SMTP_HOST"),
      if IsSet(Get(env, "SMTP_PORT")) then Some(ParseInt(env["SMTP_PORT"])) else None,
      Flag(env, "SMTP_SECURE"),
      Get(env, "SMTP_USER"),
      Get(env, "SMTP_PASS"),
      Get(env, "CONTACT_FROM_EMAIL"),
      Get(env, "CONTACT_TO_EMAIL"),
      Get(env, "NEXTAUTH_SECRET"),
      Get(env, "NEXTAUTH_URL"),
      IntOrDefault(env, "RATE_LIMIT_MAX", Int(DefaultRateLimitMax)),
      IntOrDefault(env, "RATE_LIMIT_WINDOW", Int(DefaultRateLimitWindow)),
      Get(env, "NEWSLETTER_API_KEY"),
      Get(env, "NEWSLETTER_LIST_ID"),
      Get(env, "GITHUB_TOKEN"),
      Get(env, "GITHUB_REPO"))
  }

  /**
    The rate limits fall back to 100 requests per 900000 ms when unset or
    empty, and otherwise read back any number written in decimal, with or
    without trailing text; the SMTP port is absent when unset or empty.
   */
  lemma ServerEnvSpec(env: Environment, n: nat, rest: string)
    ensures !IsSet(Get(env, "RATE_LIMIT_MAX")) ==> ServerEnvOf(env).rateLimitMax == Int(100)
    ensures !IsSet(Get(env, "RATE_LIMIT_WINDOW")) ==> ServerEnvOf(env).rateLimitWindow == Int(900000)
    ensures (rest == [] || !IsDigit(rest[0])) && Get(env, "RATE_LIMIT_MAX") == Some(Decimal(n) + rest) ==>
      ServerEnvOf(env).rateLimitMax == Int(n)
    ensures ServerEnvOf(env).smtpPort.None? <==> !IsSet(Get(env, "SMTP_PORT"))
  {
    if (rest == [] || !IsDigit(rest[0])) && Get(env, "RATE_LIMIT_MAX") == Some(Decimal(n) + rest) {
      ParseIntDecimal(n, rest);
    }
  }

  /** A rate limit that is not a number reads as `NaN`, not as the default. */
  lemma RateLimitNotANumber(env: Environment)
    requires IsSet(Get(env, "RATE_LIMIT_MAX"))
    requires forall i :: 0 <= i < |env["RATE_LIMIT_MAX"]| ==> !IsDigit(env["RATE_LIMIT_MAX"][i])
    ensures ServerEnvOf(env).rateLimitMax == NaN
  {
    ParseIntNoDigits(env["RATE_LIMIT_MAX"]);
  }

  /* ---------- validation ---------- */

  const SiteUrlRequired := "NEXT_PUBLIC_SITE_URL is required"
  const SiteUrlInvalid := "NEXT_PUBLIC_SITE_URL must be a valid URL"
  const SmtpHostRequired := "SMTP_HOST is required when contact form is enabled in production"
  const NewsletterKeyRequired := "NEWSLETTER_API_KEY is required when newsletter is enabled in production"

  /** The errors `validateEnv` collects, in the order it checks for them. */
  function Errors(client: ClientEnv, server: ServerEnv, isValidUrl: string -> bool): (r: seq<string>)
    ensures |r| <= 4
  {
    (if client.siteUrl == "" then [SiteUrlRequired] else [])
    + (if !isValidUrl(client.siteUrl) then [SiteUrlInvalid] else [])
    + (if server.nodeEnv == Some("production") && client.enableContactForm && !IsSet(server.smtpHost)
       then [SmtpHostRequired] else [])
    + (if server.nodeEnv == Some("production") && client.enableNewsletter && !IsSet(server.newsletterApiKey)
       then [NewsletterKeyRequired] else [])
  }

  /** The thrown error's message. */
  function FailureMessage(errors: seq<string>): string {
    "Environment validation failed:\n" + Join(errors, "\n")
  }

  /**
    `validateEnv`: collect the errors, then throw (here: fail with the
    message) when there is any.
   */
  method ValidateEnv(env: Environment, isValidUrl: string -> bool) returns (outcome: Result<(), string>)
    ensures var errors := Errors(ClientEnvOf(env), ServerEnvOf(env), isValidUrl);
      outcome == if errors == [] then Success(()) else Failure(FailureMessage(errors))
  {
    var client := ClientEnvOf(env);
    var server := ServerEnvOf(env);
    var errors: seq<string> := [];
    if client.siteUrl == "" {
      errors := errors + [SiteUrlRequired];
    }
    if !isValidUrl(client.siteUrl) {
      errors := errors + [SiteUrlInvalid];
    }
    if server.nodeEnv == Some("production") {
      if client.enableContactForm && !IsSet(server.smtpHost) {
        errors := errors + [SmtpHostRequired];
      }
      if client.enableNewsletter && !IsSet(server.newsletterApiKey) {
        errors := errors + [NewsletterKeyRequired];
      }
    }
    assert errors == Errors(client, server, isValidUrl);
    if |errors| > 0 {
      return Failure(FailureMessage(errors));
    }
    return Success(());
  }

  /**
    Each error is reported exactly when its condition holds, and the
    production-only errors never outside production.
   */
  lemma ErrorsSpec(client: ClientEnv, server: ServerEnv, isValidUrl: string -> bool)
    ensures var errors := Errors(client, server, isValidUrl);
      var production := server.nodeEnv == Some("production");
      && (SiteUrlRequired in errors <==> client.siteUrl == "")
      && (SiteUrlInvalid in errors <==> !isValidUrl(client.siteUrl))
      && (SmtpHostRequired in errors <==> production && client.enableContactForm && !IsSet(server.smtpHost))
      && (NewsletterKeyRequired in errors <==> production && client.enableNewsletter && !IsSet(server.newsletterApiKey))
      && (forall e :: e in errors ==>
            e == SiteUrlRequired || e == SiteUrlInvalid || e == SmtpHostRequired || e == NewsletterKeyRequired)
  {
  }

  /** The "is required" error cannot occur, because the site URL has a default. */
  lemma SiteUrlNeverMissing(env: Environment, isValidUrl: string -> bool)
    ensures SiteUrlRequired !in Errors(ClientEnvOf(env), ServerEnvOf(env), isValidUrl)
  {
    ClientEnvSpec(env);
    ErrorsSpec(ClientEnvOf(env), ServerEnvOf(env), isValidUrl);
  }

  /** Outside production only the URL is checked. */
  lemma OutsideProduction(env: Environment, isValidUrl: string -> bool)
    requires Get(env, "NODE_ENV") != Some("production")
    ensures Errors(ClientEnvOf(env), ServerEnvOf(env), isValidUrl) == if isValidUrl(ClientEnvOf(env).siteUrl) then [] else [SiteUrlInvalid]
  {
    ClientEnvSpec(env);
  }

  /* ---------- derived configuration ---------- */

  datatype Features = Features(blog: bool, newsletter: bool, contactForm: bool, analytics: bool)

  datatype Config = Config(
    isDevelopment: bool,
    isProduction: bool,
    isTest: bool,
    siteUrl: string,
    baseUrl: string,
    features: Features,
    debug: bool)

  /** `replace(/\/$/, '')`: one trailing slash removed, if there is one. */
  function StripTrailingSlash(s: string): (r: string)
    ensures s == r || s == r + "/"
    ensures r == s <==> s == [] || s[|s| - 1] != '/'
  {
    if |s| > 0 && s[|s| - 1] == '/' then s[..|s| - 1] else s
  }

  /** `getConfig`. */
  function GetConfig(env: Environment): Config {
    var client := ClientEnvOf(env);
    var server := ServerEnvOf(env);
    Config(
      server.nodeEnv == Some("development"),
      server.nodeEnv == Some("production"),
      server.nodeEnv == Some("test"),
      client.siteUrl,
      StripTrailingSlash(client.siteUrl),
      Features(client.enableBlog, client.enableNewsletter, client.enableContactForm, IsSet(client.gaId)),
      client.debugMode)
  }

  /**
    At most one environment is on; analytics is on exactly when a non-empty
    analytics id is set; the base URL loses at most one trailing slash, so a
    URL ending in two keeps one.
   */
  lemma GetConfigSpec(env: Environment)
    ensures var c := GetConfig(env);
      && !(c.isDevelopment && c.isProduction) && !(c.isDevelopment && c.isTest) && !(c.isProduction && c.isTest)
      && (c.features.analytics <==> "NEXT_PUBLIC_GA_ID" in env && env["NEXT_PUBLIC_GA_ID"] != "")
      && (c.siteUrl == c.baseUrl || c.siteUrl == c.baseUrl + "/")
      && (|c.siteUrl| >= 2 && c.siteUrl[|c.siteUrl| - 2..] == "//" ==> c.baseUrl[|c.baseUrl| - 1] == '/')
  {
    var c := GetConfig(env);
    if |c.siteUrl| >= 2 && c.siteUrl[|c.siteUrl| - 2..] == "//" {
      assert c.siteUrl[|c.siteUrl| - 2] == '/';
    }
  }
}
