/** Setup (src/setup.rs): telling an Anthropic API key from a Claude setup (OAuth) token,
    checking such a token's format, and choosing the Bun release for a platform. The
    network call that checks an API key is represented by its outcome, a parameter. */
module Setup {
  import opened Wrappers
  import opened Strings

  datatype CredentialType = ApiKey | OAuthToken

  /** Setup tokens begin with this. */
  const OAUTH_PREFIX: string := "sk-ant-oat"
  /** The shortest setup token accepted. */
  const SETUP_TOKEN_MIN_LENGTH: nat := 80

  /** `detect_credential_type`: the prefix test on the credential exactly as given. */
  function DetectCredentialType(credential: string): (t: CredentialType)
    ensures t == OAuthToken <==> StartsWith(credential, OAUTH_PREFIX)
  {
    if StartsWith(credential, OAUTH_PREFIX) then OAuthToken else ApiKey
  }

  const BAD_FORMAT := "Invalid token format: expected token starting with sk-ant-oat"

  function TooShort(n: nat): string {
    "Token looks too short (got " + NatToString(n) + " chars, expected at least 80). Paste the full setup token."
  }

  /** `validate_oauth_token`: once trimmed, the token must carry the prefix and be at least
      80 characters long; the prefix is checked first. */
  function ValidateOAuthToken(token: string): (r: Result<()>)
    ensures r.Ok? <==> StartsWith(Trim(token), OAUTH_PREFIX) && |Trim(token)| >= SETUP_TOKEN_MIN_LENGTH
    ensures !StartsWith(Trim(token), OAUTH_PREFIX) ==> r == Err(BAD_FORMAT)
    ensures StartsWith(Trim(token), OAUTH_PREFIX) && |Trim(token)| < SETUP_TOKEN_MIN_LENGTH ==>
      r == Err(TooShort(|Trim(token)|))
  {
    var trimmed := Trim(token);
    if !StartsWith(trimmed, OAUTH_PREFIX) then Err(BAD_FORMAT)
    else if |trimmed| < SETUP_TOKEN_MIN_LENGTH then Err(TooShort(|trimmed|))
    else Ok(())
  }

  /** `get_env_oauth_token`: ANTHROPIC_OAUTH_TOKEN when it is set, else
      CLAUDE_CODE_OAUTH_TOKEN; the two lookups are parameters. */
  function EnvOAuthToken(anthropic: Option<string>, claudeCode: Option<string>): (t: Option<string>)
    ensures anthropic.Some? ==> t == anthropic
    ensures anthropic.None? ==> t == claudeCode
    ensures t.Some? <==> anthropic.Some? || claudeCode.Some?
  {
    anthropic.Or(claudeCode)
  }

  /** What the API-key probe (`GET /v1/models`) came back with. */
  datatype ProbeOutcome =
    | ConnectFailed
    | Status(code: nat, display: string)

  /** `validate_api_key`: any 2xx status accepts the key, 401 rejects it, and every other
      status or a failed connection is an error naming it. */
  function ValidateApiKey(probe: ProbeOutcome): (r: Result<()>)
    ensures r.Ok? <==> probe.Status? && 200 <= probe.code < 300
    ensures probe.Status? && probe.code == 401 ==> r == Err("Invalid API key")
    ensures probe.ConnectFailed? ==> r == Err("Failed to connect to Anthropic API")
    ensures probe.Status? && !(200 <= probe.code < 300) && probe.code != 401 ==>
              r == Err("API error: " + probe.display)
  {
    match probe
    case ConnectFailed => Err("Failed to connect to Anthropic API")
    case Status(code, display) =>
      if 200 <= code < 300 then Ok(())
      else if code == 401 then Err("Invalid API key")
      else Err("API error: " + display)
  }

  /** `validate_credential`: OAuth tokens get the format check alone and never reach the
      network; everything else is probed against the API. */
  function ValidateCredential(credential: string, probe: ProbeOutcome): (r: Result<()>)
    ensures DetectCredentialType(credential) == OAuthToken ==> r == ValidateOAuthToken(credential)
    ensures DetectCredentialType(credential) == ApiKey ==> r == ValidateApiKey(probe)
  {
    match DetectCredentialType(credential)
    case ApiKey => ValidateApiKey(probe)
    case OAuthToken => ValidateOAuthToken(credential)
  }

  /** A credential that starts with the prefix keeps it once trimmed. */
  lemma PrefixSurvivesTrim(credential: string)
    requires StartsWith(credential, OAUTH_PREFIX)
    ensures StartsWith(Trim(credential), OAUTH_PREFIX)
  {
    var p := OAUTH_PREFIX;
    assert credential[0] == p[0];
    TrimIsPrefix(credential);
    var t := Trim(credential);
    assert credential[|p| - 1] == p[|p| - 1];
    assert |t| >= |p| || IsSpace(credential[|p| - 1]);
    assert t[..|p|] == credential[..|p|];
  }

  /** An OAuth token is accepted, whatever the network would say, exactly when its trimmed
      form has at least 80 characters. */
  lemma OAuthAcceptedByLength(credential: string, probe: ProbeOutcome)
    requires DetectCredentialType(credential) == OAuthToken
    ensures ValidateCredential(credential, probe).Ok? <==> |Trim(credential)| >= SETUP_TOKEN_MIN_LENGTH
  {
    PrefixSurvivesTrim(credential);
  }

  /** Detection does not trim: a setup token pasted after a space is taken for an API key
      and probed, although its own format check would accept it. */
  lemma LeadingSpaceDetectsApiKey(token: string)
    requires StartsWith(token, OAUTH_PREFIX) && |token| >= SETUP_TOKEN_MIN_LENGTH && !IsSpace(token[|token| - 1])
    ensures DetectCredentialType(" " + token) == ApiKey
    ensures ValidateOAuthToken(" " + token).Ok?
    ensures forall probe :: ValidateCredential(" " + token, probe) == ValidateApiKey(probe)
  {
    var s := " " + token;
    assert s[0] != OAUTH_PREFIX[0];
    assert token[0] == OAUTH_PREFIX[0];
    SpacedTokenTrims(token);
  }

  /** Helper: the leading space is all that trimming removes. */
  lemma SpacedTokenTrims(token: string)
    requires |token| > 0 && !IsSpace(token[0]) && !IsSpace(token[|token| - 1])
    ensures Trim(" " + token) == token
  {
    var s := " " + token;
    assert s[1..] == token;
    assert TrimStart(token) == token;
    assert TrimStart(s) == TrimStart(token);
    TrimOfTrimmed(token);
  }

  /** Where the pinned Bun release is published. */
  const BUN_RELEASE := "https://github.com/oven-sh/bun/releases/download/bun-v1.2.4/"

  /** `bun_download_url`: a release archive for macOS and Linux on arm64 and x86-64, and
      an error naming the platform for everything else. */
  function BunDownloadUrl(os: string, arch: string): (r: Result<string>)
    ensures r.Ok? <==> (os == "macos" || os == "linux") && (arch == "aarch64" || arch == "x86_64")
    ensures r.Err? ==> r.msg == "Unsupported platform: " + os + "-" + arch
  {
    match (os, arch)
    case ("macos", "aarch64") => Ok(BUN_RELEASE + "bun-darwin-aarch64.zip")
    case ("macos", "x86_64") => Ok(BUN_RELEASE + "bun-darwin-x64.zip")
    case ("linux", "aarch64") => Ok(BUN_RELEASE + "bun-linux-aarch64.zip")
    case ("linux", "x86_64") => Ok(BUN_RELEASE + "bun-linux-x64.zip")
    case _ => Err("Unsupported platform: " + os + "-" + arch)
  }

  /** Bun's own names for the supported platforms. */
  function BunOs(os: string): string {
    if os == "macos" then "darwin" else os
  }

  function BunArch(arch: string): string {
    if arch == "x86_64" then "x64" else arch
  }

  /** The archive name Bun publishes for a platform. */
  function BunArchive(os: string, arch: string): string {
    "bun-" + BunOs(os) + "-" + BunArch(arch) + ".zip"
  }

  /** Every URL in the table is the release directory plus "bun-{os}-{arch}.zip" in Bun's
      naming (darwin for macOS, x64 for x86-64). */
  lemma BunUrlsFollowReleaseNaming(os: string, arch: string)
    requires BunDownloadUrl(os, arch).Ok?
    ensures BunDownloadUrl(os, arch).value == BUN_RELEASE + BunArchive(os, arch)
  {
    if os == "macos" && arch == "aarch64" {
      DarwinArm();
    } else if os == "macos" {
      DarwinX64();
    } else if arch == "aarch64" {
      LinuxArm();
    } else {
      LinuxX64();
    }
  }

  // Proof steps for the lemma above: each archive name spelled out in a proof of its
  // own, which keeps the comparisons of string literals apart.
  lemma DarwinArm()
    ensures BunArchive("macos", "aarch64") == "bun-darwin-aarch64.zip"
  {
  }

  lemma DarwinX64()
    ensures BunArchive("macos", "x86_64") == "bun-darwin-x64.zip"
  {
  }

  lemma LinuxArm()
    ensures BunArchive("linux", "aarch64") == "bun-linux-aarch64.zip"
  {
  }

  lemma LinuxX64()
    ensures BunArchive("linux", "x86_64") == "bun-linux-x64.zip"
  {
  }

}
