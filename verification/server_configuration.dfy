/**
 * The generated TypeScript bindings for `server_configuration.proto`: the
 * three enum mappers, the default message, `fromPartial` and the default
 * handling of `toJSON`.
 *
 * Enum-typed and permission-typed fields hold the enum's number, as they do in
 * TypeScript. Messages nested below `ServerConfiguration` other than
 * `ExternalCDNConfig` are carried as complete values.
 */
module ServerConfigurationProto {
  import opened Wrappers
  import opened EnumJson

  // ---------------------------------------------------------------------------
  // Enums

  const AuthenticationFeatureTable: seq<Entry> :=
    [Entry(0, "AUTHENTICATION_FEATURE_UNKNOWN"), Entry(1, "CREATE_ACCOUNT"), Entry(2, "LOGIN")]

  /** `authenticationFeatureFromJSON`. */
  function AuthenticationFeatureFromJson(j: Json): (v: int)
    ensures v in {Unrecognized, 0, 1, 2}
  {
    FromJsonRange(AuthenticationFeatureTable, j);
    FromJson(AuthenticationFeatureTable, j)
  }

  /** `authenticationFeatureToJSON`. */
  function AuthenticationFeatureToJson(v: int): (name: string)
    ensures v !in {0, 1, 2} ==> name == UnrecognizedName
  {
    ToJson(AuthenticationFeatureTable, v)
  }

  /**
   * Each declared `AuthenticationFeature` is accepted as a number and as its
   * name, and `fromJSON(toJSON(v)) == v`; everything else is `UNRECOGNIZED`.
   */
  lemma AuthenticationFeatureRoundTrip(v: int, j: Json)
    ensures v in {0, 1, 2} ==>
      AuthenticationFeatureFromJson(Str(AuthenticationFeatureToJson(v))) == v &&
      AuthenticationFeatureFromJson(Num(v)) == v
    ensures (forall e :: e in AuthenticationFeatureTable ==> !Matches(e, j)) ==>
      AuthenticationFeatureFromJson(j) == Unrecognized
  {
    var t := AuthenticationFeatureTable;
    assert WellFormed(t);
    if v in {0, 1, 2} {
      assert t[v].number == v;
      FromJsonToJson(t, v);
    }
    if forall e :: e in t ==> !Matches(e, j) {
      NoMatchIsUnrecognized(t, j);
    }
  }

  const PrivateUserStrategyTable: seq<Entry> :=
    [Entry(0, "ACCOUNT_IS_FROZEN"), Entry(1, "LIMITED_CREEPINESS"), Entry(2, "LET_ME_CREEP_ON_PPL")]

  /** `privateUserStrategyFromJSON`. */
  function PrivateUserStrategyFromJson(j: Json): (v: int)
    ensures v in {Unrecognized, 0, 1, 2}
  {
    FromJsonRange(PrivateUserStrategyTable, j);
    FromJson(PrivateUserStrategyTable, j)
  }

  /** `privateUserStrategyToJSON`. */
  function PrivateUserStrategyToJson(v: int): (name: string)
    ensures v !in {0, 1, 2} ==> name == UnrecognizedName
  {
    ToJson(PrivateUserStrategyTable, v)
  }

  /** The round trip and unknown-input rules for `PrivateUserStrategy`. */
  lemma PrivateUserStrategyRoundTrip(v: int, j: Json)
    ensures v in {0, 1, 2} ==>
      PrivateUserStrategyFromJson(Str(PrivateUserStrategyToJson(v))) == v &&
      PrivateUserStrategyFromJson(Num(v)) == v
    ensures (forall e :: e in PrivateUserStrategyTable ==> !Matches(e, j)) ==>
      PrivateUserStrategyFromJson(j) == Unrecognized
  {
    var t := PrivateUserStrategyTable;
    assert WellFormed(t);
    if v in {0, 1, 2} {
      assert t[v].number == v;
      FromJsonToJson(t, v);
    }
    if forall e :: e in t ==> !Matches(e, j) {
      NoMatchIsUnrecognized(t, j);
    }
  }

  const WebUserInterfaceTable: seq<Entry> :=
    [Entry(0, "FLUTTER_WEB"), Entry(1, "HANDLEBARS_TEMPLATES"), Entry(2, "REACT_TAMAGUI")]

  /** `webUserInterfaceFromJSON`. */
  function WebUserInterfaceFromJson(j: Json): (v: int)
    ensures v in {Unrecognized, 0, 1, 2}
  {
    FromJsonRange(WebUserInterfaceTable, j);
    FromJson(WebUserInterfaceTable, j)
  }

  /** `webUserInterfaceToJSON`. */
  function WebUserInterfaceToJson(v: int): (name: string)
    ensures v !in {0, 1, 2} ==> name == UnrecognizedName
  {
    ToJson(WebUserInterfaceTable, v)
  }

  /** The round trip and unknown-input rules for `WebUserInterface`. */
  lemma WebUserInterfaceRoundTrip(v: int, j: Json)
    ensures v in {0, 1, 2} ==>
      WebUserInterfaceFromJson(Str(WebUserInterfaceToJson(v))) == v &&
      WebUserInterfaceFromJson(Num(v)) == v
    ensures (forall e :: e in WebUserInterfaceTable ==> !Matches(e, j)) ==>
      WebUserInterfaceFromJson(j) == Unrecognized
  {
    var t := WebUserInterfaceTable;
    assert WellFormed(t);
    if v in {0, 1, 2} {
      assert t[v].number == v;
      FromJsonToJson(t, v);
    }
    if forall e :: e in t ==> !Matches(e, j) {
      NoMatchIsUnrecognized(t, j);
    }
  }

  // ---------------------------------------------------------------------------
  // Messages

  datatype ExternalCdnConfig = ExternalCdnConfig(
    frontendHost: string,
    backendHost: string,
    secureMedia: bool,
    mediaIpv4Allowlist: Option<string>,
    mediaIpv6Allowlist: Option<string>,
    cdnGrpc: bool)

  datatype FeatureSettings = FeatureSettings(
    visible: bool, defaultModeration: int, defaultVisibility: int, customTitle: Option<string>)

  datatype PostSettings = PostSettings(
    visible: bool, defaultModeration: int, defaultVisibility: int, customTitle: Option<string>,
    enableReplies: bool)

  datatype ServerLogo = ServerLogo(
    squareMediaId: Option<string>, squareMediaIdDark: Option<string>,
    wideMediaId: Option<string>, wideMediaIdDark: Option<string>)

  /** ARGB colours. */
  datatype ServerColors = ServerColors(
    primary: Option<int>, navigation: Option<int>, author: Option<int>, admin: Option<int>,
    moderator: Option<int>)

  datatype ServerInfo = ServerInfo(
    name: Option<string>,
    shortName: Option<string>,
    description: Option<string>,
    privacyPolicy: Option<string>,
    logo: Option<ServerLogo>,
    webUserInterface: Option<int>,
    colors: Option<ServerColors>,
    mediaPolicy: Option<string>,
    recommendedServerHosts: seq<string>)

  datatype ServerConfiguration = ServerConfiguration(
    serverInfo: Option<ServerInfo>,
    anonymousUserPermissions: seq<int>,
    defaultUserPermissions: seq<int>,
    basicUserPermissions: seq<int>,
    peopleSettings: Option<FeatureSettings>,
    groupSettings: Option<FeatureSettings>,
    postSettings: Option<PostSettings>,
    eventSettings: Option<FeatureSettings>,
    mediaSettings: Option<FeatureSettings>,
    externalCdnConfig: Option<ExternalCdnConfig>,
    privateUserStrategy: int,
    authenticationFeatures: seq<int>)

  /** `DeepPartial<ExternalCDNConfig>`: every field may be absent (`undefined` or `null`). */
  datatype PartialExternalCdnConfig = PartialExternalCdnConfig(
    frontendHost: Option<string>,
    backendHost: Option<string>,
    secureMedia: Option<bool>,
    mediaIpv4Allowlist: Option<string>,
    mediaIpv6Allowlist: Option<string>,
    cdnGrpc: Option<bool>)

  /** `DeepPartial<ServerConfiguration>`. */
  datatype PartialServerConfiguration = PartialServerConfiguration(
    serverInfo: Option<ServerInfo>,
    anonymousUserPermissions: Option<seq<int>>,
    defaultUserPermissions: Option<seq<int>>,
    basicUserPermissions: Option<seq<int>>,
    peopleSettings: Option<FeatureSettings>,
    groupSettings: Option<FeatureSettings>,
    postSettings: Option<PostSettings>,
    eventSettings: Option<FeatureSettings>,
    mediaSettings: Option<FeatureSettings>,
    externalCdnConfig: Option<PartialExternalCdnConfig>,
    privateUserStrategy: Option<int>,
    authenticationFeatures: Option<seq<int>>)

  /** `createBaseExternalCDNConfig`. */
  function CreateBaseExternalCdnConfig(): (c: ExternalCdnConfig)
    ensures c.frontendHost == "" && c.backendHost == "" && !c.secureMedia && !c.cdnGrpc
    ensures c.mediaIpv4Allowlist.None? && c.mediaIpv6Allowlist.None?
  {
    ExternalCdnConfig("", "", false, None, None, false)
  }

  /** `ExternalCDNConfig.fromPartial`: present fields are kept, absent ones take the default. */
  function ExternalCdnConfigFromPartial(p: PartialExternalCdnConfig): (c: ExternalCdnConfig)
    ensures c.frontendHost == p.frontendHost.GetOr(CreateBaseExternalCdnConfig().frontendHost)
    ensures c.backendHost == p.backendHost.GetOr(CreateBaseExternalCdnConfig().backendHost)
    ensures c.secureMedia == p.secureMedia.GetOr(CreateBaseExternalCdnConfig().secureMedia)
    ensures c.mediaIpv4Allowlist == p.mediaIpv4Allowlist && c.mediaIpv6Allowlist == p.mediaIpv6Allowlist
    ensures c.cdnGrpc == p.cdnGrpc.GetOr(CreateBaseExternalCdnConfig().cdnGrpc)
  {
    ExternalCdnConfig(
      p.frontendHost.GetOr(""), p.backendHost.GetOr(""), p.secureMedia.GetOr(false),
      p.mediaIpv4Allowlist, p.mediaIpv6Allowlist, p.cdnGrpc.GetOr(false))
  }

  /** A complete `ExternalCDNConfig` seen as a partial one with every field present. */
  function ExternalCdnConfigAsPartial(c: ExternalCdnConfig): PartialExternalCdnConfig {
    PartialExternalCdnConfig(
      Some(c.frontendHost), Some(c.backendHost), Some(c.secureMedia),
      c.mediaIpv4Allowlist, c.mediaIpv6Allowlist, Some(c.cdnGrpc))
  }

  /** `createBaseServerConfiguration`. */
  function CreateBaseServerConfiguration(): (m: ServerConfiguration)
    ensures m.serverInfo.None? && m.externalCdnConfig.None?
    ensures m.anonymousUserPermissions == [] && m.defaultUserPermissions == [] && m.basicUserPermissions == []
    ensures m.authenticationFeatures == []
    ensures m.peopleSettings.None? && m.groupSettings.None? && m.postSettings.None?
    ensures m.eventSettings.None? && m.mediaSettings.None?
    ensures m.privateUserStrategy == 0
  {
    ServerConfiguration(None, [], [], [], None, None, None, None, None, None, 0, [])
  }

  /** `ServerConfiguration.fromPartial`: every absent field takes the base default. */
  function ServerConfigurationFromPartial(p: PartialServerConfiguration): (m: ServerConfiguration)
    ensures m.serverInfo == p.serverInfo
    ensures m.anonymousUserPermissions == p.anonymousUserPermissions.GetOr([])
    ensures m.defaultUserPermissions == p.defaultUserPermissions.GetOr([])
    ensures m.basicUserPermissions == p.basicUserPermissions.GetOr([])
    ensures m.peopleSettings == p.peopleSettings && m.groupSettings == p.groupSettings
    ensures m.postSettings == p.postSettings
    ensures m.eventSettings == p.eventSettings && m.mediaSettings == p.mediaSettings
    ensures p.externalCdnConfig.None? <==> m.externalCdnConfig.None?
    ensures p.externalCdnConfig.Some? ==>
      m.externalCdnConfig.value == ExternalCdnConfigFromPartial(p.externalCdnConfig.value)
    ensures m.privateUserStrategy == p.privateUserStrategy.GetOr(CreateBaseServerConfiguration().privateUserStrategy)
    ensures m.authenticationFeatures == p.authenticationFeatures.GetOr([])
  {
    var base := CreateBaseServerConfiguration();
    base.(
      serverInfo := p.serverInfo,
      anonymousUserPermissions := p.anonymousUserPermissions.GetOr([]),
      defaultUserPermissions := p.defaultUserPermissions.GetOr([]),
      basicUserPermissions := p.basicUserPermissions.GetOr([]),
      peopleSettings := p.peopleSettings,
      groupSettings := p.groupSettings,
      postSettings := p.postSettings,
      eventSettings := p.eventSettings,
      mediaSettings := p.mediaSettings,
      externalCdnConfig :=
        match p.externalCdnConfig
        case Some(c) => Some(ExternalCdnConfigFromPartial(c))
        case None => None,
      privateUserStrategy := p.privateUserStrategy.GetOr(0),
      authenticationFeatures := p.authenticationFeatures.GetOr([]))
  }

  /** A complete message seen as a partial one with every field present. */
  function ServerConfigurationAsPartial(m: ServerConfiguration): PartialServerConfiguration {
    PartialServerConfiguration(
      m.serverInfo,
      Some(m.anonymousUserPermissions), Some(m.defaultUserPermissions), Some(m.basicUserPermissions),
      m.peopleSettings, m.groupSettings, m.postSettings, m.eventSettings, m.mediaSettings,
      match m.externalCdnConfig
      case Some(c) => Some(ExternalCdnConfigAsPartial(c))
      case None => None,
      Some(m.privateUserStrategy),
      Some(m.authenticationFeatures))
  }

  /** The partial message with every field absent: `{}`. */
  const EmptyPartial: PartialServerConfiguration :=
    PartialServerConfiguration(None, None, None, None, None, None, None, None, None, None, None, None)

  /** `fromPartial` returns a complete message unchanged, and `fromPartial({})` is the default. */
  lemma FromPartialRoundTrip(m: ServerConfiguration)
    ensures ServerConfigurationFromPartial(ServerConfigurationAsPartial(m)) == m
    ensures ServerConfigurationFromPartial(EmptyPartial) == CreateBaseServerConfiguration()
  {
  }

  /** `ExternalCDNConfig.fromPartial` returns a complete config unchanged and fills `{}` with the default. */
  lemma ExternalCdnConfigFromPartialRoundTrip(c: ExternalCdnConfig)
    ensures ExternalCdnConfigFromPartial(ExternalCdnConfigAsPartial(c)) == c
    ensures ExternalCdnConfigFromPartial(PartialExternalCdnConfig(None, None, None, None, None, None)) ==
      CreateBaseExternalCdnConfig()
  {
  }

  /**
   * The JSON object `toJSON` builds: an absent field is one `toJSON` leaves
   * out. Nested messages and permission numbers are carried as they are.
   */
  datatype ServerConfigurationJson = ServerConfigurationJson(
    serverInfo: Option<ServerInfo>,
    anonymousUserPermissions: Option<seq<int>>,
    defaultUserPermissions: Option<seq<int>>,
    basicUserPermissions: Option<seq<int>>,
    peopleSettings: Option<FeatureSettings>,
    groupSettings: Option<FeatureSettings>,
    postSettings: Option<PostSettings>,
    eventSettings: Option<FeatureSettings>,
    mediaSettings: Option<FeatureSettings>,
    externalCdnConfig: Option<ExternalCdnConfig>,
    privateUserStrategy: Option<string>,
    authenticationFeatures: Option<seq<string>>)

  /** `{}`. */
  const EmptyJson: ServerConfigurationJson :=
    ServerConfigurationJson(None, None, None, None, None, None, None, None, None, None, None, None)

  /** A list field is written only when non-empty (`list?.length` is truthy). */
  function NonEmpty<T>(xs: seq<T>): (r: Option<seq<T>>)
    ensures r.None? <==> |xs| == 0
    ensures r.Some? ==> r.value == xs
  {
    if |xs| > 0 then Some(xs) else None
  }

  /** `ServerConfiguration.toJSON`: defaulted fields are left out. */
  function ServerConfigurationToJson(m: ServerConfiguration): (o: ServerConfigurationJson)
    ensures o.privateUserStrategy.None? <==> m.privateUserStrategy == 0
    ensures o.privateUserStrategy.Some? ==> o.privateUserStrategy.value == PrivateUserStrategyToJson(m.privateUserStrategy)
    ensures o.authenticationFeatures.None? <==> |m.authenticationFeatures| == 0
    ensures o.authenticationFeatures.Some? ==>
      |o.authenticationFeatures.value| == |m.authenticationFeatures| &&
      forall i :: 0 <= i < |m.authenticationFeatures| ==>
        o.authenticationFeatures.value[i] == AuthenticationFeatureToJson(m.authenticationFeatures[i])
    ensures o.anonymousUserPermissions.None? <==> |m.anonymousUserPermissions| == 0
    ensures o.defaultUserPermissions.None? <==> |m.defaultUserPermissions| == 0
    ensures o.basicUserPermissions.None? <==> |m.basicUserPermissions| == 0
    ensures o.anonymousUserPermissions.Some? ==> o.anonymousUserPermissions.value == m.anonymousUserPermissions
    ensures o.defaultUserPermissions.Some? ==> o.defaultUserPermissions.value == m.defaultUserPermissions
    ensures o.basicUserPermissions.Some? ==> o.basicUserPermissions.value == m.basicUserPermissions
    ensures o.peopleSettings == m.peopleSettings && o.groupSettings == m.groupSettings &&
      o.postSettings == m.postSettings && o.eventSettings == m.eventSettings &&
      o.mediaSettings == m.mediaSettings
    ensures o.serverInfo == m.serverInfo && o.externalCdnConfig == m.externalCdnConfig
  {
    var features := m.authenticationFeatures;
    ServerConfigurationJson(
      m.serverInfo,
      NonEmpty(m.anonymousUserPermissions),
      NonEmpty(m.defaultUserPermissions),
      NonEmpty(m.basicUserPermissions),
      m.peopleSettings, m.groupSettings, m.postSettings, m.eventSettings, m.mediaSettings,
      m.externalCdnConfig,
      if m.privateUserStrategy != 0 then Some(PrivateUserStrategyToJson(m.privateUserStrategy)) else None,
      NonEmpty(seq(|features|, i requires 0 <= i < |features| => AuthenticationFeatureToJson(features[i]))))
  }

  /** `toJSON` writes nothing at all exactly for the default message. */
  lemma ToJsonEmptyIffDefault(m: ServerConfiguration)
    ensures ServerConfigurationToJson(m) == EmptyJson <==> m == CreateBaseServerConfiguration()
  {
  }

  /**
   * The authentication features `toJSON` writes read back as the same
   * numbers, provided each is a declared value.
   */
  lemma AuthenticationFeaturesJsonRoundTrip(m: ServerConfiguration)
    requires forall i :: 0 <= i < |m.authenticationFeatures| ==> m.authenticationFeatures[i] in {0, 1, 2}
    ensures var o := ServerConfigurationToJson(m).authenticationFeatures;
      o.Some? ==> forall i :: 0 <= i < |o.value| ==> AuthenticationFeatureFromJson(Str(o.value[i])) == m.authenticationFeatures[i]
  {
    var o := ServerConfigurationToJson(m).authenticationFeatures;
    if o.Some? {
      forall i | 0 <= i < |o.value|
        ensures AuthenticationFeatureFromJson(Str(o.value[i])) == m.authenticationFeatures[i]
      {
        AuthenticationFeatureRoundTrip(m.authenticationFeatures[i], Other);
      }
    }
  }
}
