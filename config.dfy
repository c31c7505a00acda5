/** Configuration (src/config.rs): the channels the user set up, the AI backend and its
    credentials, and the per-channel settings pairing and onboarding read. Reading and
    writing config.toml and the directory layout are file-system work and are not part of
    this model; a configuration here is the value the TOML parser would produce. */
module Config {
  import opened Wrappers

  /** Which AI backend answers messages. */
  datatype AiBackend = Claude | Cursor

  /** `#[default]` on the enum. */
  const DEFAULT_BACKEND: AiBackend := Claude

  datatype TelegramConfig = TelegramConfig(
    botToken: string,
    autoApprove: bool,
    sharedIdentity: bool,
    onboardingPrompt: Option<string>)

  datatype SignalConfig = SignalConfig(
    phoneNumber: string,
    autoApprove: bool,
    sharedIdentity: bool,
    onboardingPrompt: Option<string>)

  datatype SlackConfig = SlackConfig(
    botToken: string,
    appToken: string,
    autoApprove: bool,
    sharedIdentity: bool,
    onboardingPrompt: Option<string>)

  datatype ChannelsConfig = ChannelsConfig(
    telegram: Option<TelegramConfig>,
    signal: Option<SignalConfig>,
    slack: Option<SlackConfig>)

  datatype ClaudeConfig = ClaudeConfig(
    apiKey: Option<string>,
    useVertex: bool,
    vertexProjectId: Option<string>,
    vertexRegion: Option<string>,
    vertexCredentialsPath: Option<string>)

  datatype CursorConfig = CursorConfig(apiKey: Option<string>, model: Option<string>)

  datatype Config = Config(
    channels: ChannelsConfig,
    claude: ClaudeConfig,
    cursor: CursorConfig,
    backend: AiBackend,
    onboardingPrompt: Option<string>)

  /** What pairing and onboarding need to know about one channel. */
  datatype ChannelSettings = ChannelSettings(
    autoApprove: bool,
    sharedIdentity: bool,
    onboardingPrompt: Option<string>)

  const DEFAULT_SETTINGS := ChannelSettings(false, false, None)

  /** The channel names, in the order the configuration lists them. */
  const CHANNEL_NAMES: seq<string> := ["telegram", "signal", "slack"]

  /** `Config::default()`: no channels, no credentials, the Claude backend. */
  function DefaultConfig(): (c: Config)
    ensures c.backend == DEFAULT_BACKEND
    ensures c.channels.telegram.None? && c.channels.signal.None? && c.channels.slack.None?
    ensures c.onboardingPrompt.None?
  {
    Config(
      ChannelsConfig(None, None, None),
      ClaudeConfig(None, false, None, None, None),
      CursorConfig(None, None),
      Claude,
      None)
  }

  /** The channel called `name` has a section in the configuration. */
  predicate IsConfigured(cfg: Config, name: string) {
    (name == "telegram" && cfg.channels.telegram.Some?)
    || (name == "signal" && cfg.channels.signal.Some?)
    || (name == "slack" && cfg.channels.slack.Some?)
  }

  /** The position of a channel name in CHANNEL_NAMES. */
  function Rank(name: string): nat {
    if name == "telegram" then 0 else if name == "signal" then 1 else 2
  }

  /** `configured_channels`: every configured channel, once, in CHANNEL_NAMES order. */
  function ConfiguredChannels(cfg: Config): (r: seq<string>)
    ensures forall n :: n in r <==> IsConfigured(cfg, n)
    ensures forall i, j :: 0 <= i < j < |r| ==> Rank(r[i]) < Rank(r[j])
    ensures |r| <= |CHANNEL_NAMES|
  {
    (if cfg.channels.telegram.Some? then ["telegram"] else [])
    + (if cfg.channels.signal.Some? then ["signal"] else [])
    + (if cfg.channels.slack.Some? then ["slack"] else [])
  }

  /** A configured channel's own settings, its own prompt overriding the global one. */
  function Configured(auto: bool, shared: bool, own: Option<string>, global: Option<string>): ChannelSettings {
    ChannelSettings(auto, shared, own.Or(global))
  }

  /** `channel_settings`: the configured channel's switches and prompt; an unknown or
      unconfigured channel gets the defaults, without even the global prompt. */
  function ChannelSettingsFor(cfg: Config, channel: string): (s: ChannelSettings)
    ensures !IsConfigured(cfg, channel) ==> s == DEFAULT_SETTINGS
    ensures channel == "telegram" && cfg.channels.telegram.Some? ==>
      var c := cfg.channels.telegram.value;
      s.autoApprove == c.autoApprove && s.sharedIdentity == c.sharedIdentity
    ensures channel == "signal" && cfg.channels.signal.Some? ==>
      var c := cfg.channels.signal.value;
      s.autoApprove == c.autoApprove && s.sharedIdentity == c.sharedIdentity
    ensures channel == "slack" && cfg.channels.slack.Some? ==>
      var c := cfg.channels.slack.value;
      s.autoApprove == c.autoApprove && s.sharedIdentity == c.sharedIdentity
    ensures IsConfigured(cfg, channel) ==>
      (s.onboardingPrompt.Some? <==> OwnPrompt(cfg, channel).Some? || cfg.onboardingPrompt.Some?)
  {
    var global := cfg.onboardingPrompt;
    if channel == "telegram" then
      match cfg.channels.telegram
      case Some(c) => Configured(c.autoApprove, c.sharedIdentity, c.onboardingPrompt, global)
      case None => DEFAULT_SETTINGS
    else if channel == "signal" then
      match cfg.channels.signal
      case Some(c) => Configured(c.autoApprove, c.sharedIdentity, c.onboardingPrompt, global)
      case None => DEFAULT_SETTINGS
    else if channel == "slack" then
      match cfg.channels.slack
      case Some(c) => Configured(c.autoApprove, c.sharedIdentity, c.onboardingPrompt, global)
      case None => DEFAULT_SETTINGS
    else DEFAULT_SETTINGS
  }

  /** The prompt a configured channel's own section sets, if any. */
  function OwnPrompt(cfg: Config, channel: string): Option<string>
    requires IsConfigured(cfg, channel)
  {
    if channel == "telegram" then cfg.channels.telegram.value.onboardingPrompt
    else if channel == "signal" then cfg.channels.signal.value.onboardingPrompt
    else cfg.channels.slack.value.onboardingPrompt
  }

  /** The channel's own prompt wins over the global one; without its own, the global one applies. */
  lemma ChannelPromptPrecedence(cfg: Config, channel: string)
    requires IsConfigured(cfg, channel)
    ensures OwnPrompt(cfg, channel).Some? ==>
      ChannelSettingsFor(cfg, channel).onboardingPrompt == OwnPrompt(cfg, channel)
    ensures OwnPrompt(cfg, channel).None? ==>
      ChannelSettingsFor(cfg, channel).onboardingPrompt == cfg.onboardingPrompt
  {
  }

  /** Settings other than the defaults exist only for the channels `configured_channels` lists. */
  lemma SettingsOnlyForListed(cfg: Config, channel: string)
    ensures ChannelSettingsFor(cfg, channel) != DEFAULT_SETTINGS ==> channel in ConfiguredChannels(cfg)
  {
  }

  /** `is_claude_configured`: with Vertex AI, a non-empty project ID; otherwise any API key,
      even an empty one. */
  function ClaudeConfigured(c: ClaudeConfig): (b: bool)
    ensures c.useVertex ==> (b <==> c.vertexProjectId.Some? && c.vertexProjectId.value != [])
    ensures !c.useVertex ==> (b <==> c.apiKey.Some?)
  {
    if c.useVertex then c.vertexProjectId.Some? && c.vertexProjectId.value != []
    else c.apiKey.Some?
  }

  /** Each mode looks at its own credential only: the other one never changes the answer. */
  lemma ClaudeModesIndependent(c: ClaudeConfig, key: Option<string>, project: Option<string>)
    ensures c.useVertex ==> ClaudeConfigured(c.(apiKey := key)) == ClaudeConfigured(c)
    ensures !c.useVertex ==> ClaudeConfigured(c.(vertexProjectId := project)) == ClaudeConfigured(c)
  {
  }

  /** `is_cursor_configured`: a Cursor API key is present. */
  function CursorConfigured(c: CursorConfig): (b: bool)
    ensures b <==> c.apiKey.Some?
  {
    c.apiKey.Some?
  }

  /** `is_backend_configured`: the selected backend's own check, and only that one. */
  function BackendConfigured(cfg: Config): (b: bool)
    ensures cfg.backend == Claude ==> (b <==> ClaudeConfigured(cfg.claude))
    ensures cfg.backend == Cursor ==> (b <==> CursorConfigured(cfg.cursor))
  {
    match cfg.backend
    case Claude => ClaudeConfigured(cfg.claude)
    case Cursor => CursorConfigured(cfg.cursor)
  }

  /** A fresh configuration selects Claude, lists no channel, and is not ready to answer. */
  lemma DefaultConfigIsEmpty()
    ensures DefaultConfig().backend == Claude
    ensures ConfiguredChannels(DefaultConfig()) == []
    ensures !BackendConfigured(DefaultConfig())
    ensures forall ch :: ChannelSettingsFor(DefaultConfig(), ch) == DEFAULT_SETTINGS
  {
  }
}
