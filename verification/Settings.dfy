/** The settings table and the in-memory configuration built from it: `pkg/appsettings`
    and the soft settings of `pkg/config/config.go`, with the onboarding guards of
    `pkg/cli/onboard.go` and `pkg/onboarding/handler.go`. */
module Settings {
  import opened Common
  import Cors

  /** The well-known setting keys. */
  datatype Name =
    | AccessTokenExpiration | RefreshTokenExpiration | AuthorizationCodeExpiration | AccessTokenAudience
    | AllowSelfSignup | SsoEnabled | SsoSessionIdleTimeout | SsoSessionMaxAge | ValidationMinUsernameLength
    | ValidationMaxUsernameLength | ValidationMinPasswordLength | ValidationMaxPasswordLength
    | AccountLockoutMaxAttempts | AccountLockoutDuration | AuthMode | PasskeyRpName | PasskeyLoginMode
    | TrustDeviceEnabled | TrustDeviceExpiration | CleanupInterval | CleanupRetention | PkceEnforceS256
    | RequireMfa | MfaMethod | RequireEmailVerification | EmailVerificationExpiration
    | PasswordResetExpiration | MagicLinkEnabled | MagicLinkExpiration | AuditLogRetention | Applications
    | SmtpHost | SmtpPort | SmtpUsername | SmtpPassword | SmtpFrom | ThemeTitle | ThemeLogoUrl
    | ThemeCssInline | ThemeCssFile | ThemeBrandColor | ThemeTagline | EmailFooterText | Onboarded
    | AllowSelfServiceDeletion | AllowUsernameChange | AllowEmailChange | SignupShowOptionalFields
    | ProfileFieldEmail | ProfileFieldGivenName | ProfileFieldFamilyName | ProfileFieldMiddleName
    | ProfileFieldNickname | ProfileFieldPhone | ProfileFieldPicture | ProfileFieldWebsite
    | ProfileFieldGender | ProfileFieldBirthdate | ProfileFieldProfile | ProfileFieldLocale
    | ProfileFieldAddress | FooterLinks | DeviceCodeExpiration | DeviceCodePollingInterval
    | CorsAllowedOrigins | AdminUiHiddenPages | AdminUiHiddenSettings | AdminUiHiddenColumns | DefaultPageSize

  /** The `defaults` table. */
  function Default(n: Name): string {
    match n
    case AccessTokenExpiration => "15m"
    case RefreshTokenExpiration => "720h"
    case AuthorizationCodeExpiration => "10m"
    case AccessTokenAudience => "[]"
    case AllowSelfSignup => "false"
    case SsoEnabled => "true"
    case SsoSessionIdleTimeout => "4h"
    case SsoSessionMaxAge => "720h"
    case ValidationMinUsernameLength => "4"
    case ValidationMaxUsernameLength => "64"
    case ValidationMinPasswordLength => "6"
    case ValidationMaxPasswordLength => "64"
    case AccountLockoutMaxAttempts => "5"
    case AccountLockoutDuration => "15m"
    case AuthMode => "password"
    case PasskeyRpName => "Autentico"
    case PasskeyLoginMode => "username_first"
    case TrustDeviceEnabled => "false"
    case TrustDeviceExpiration => "720h"
    case CleanupInterval => "6h"
    case CleanupRetention => "24h"
    case PkceEnforceS256 => "true"
    case RequireMfa => "false"
    case MfaMethod => "totp"
    case RequireEmailVerification => "false"
    case EmailVerificationExpiration => "24h"
    case PasswordResetExpiration => "1h"
    case MagicLinkEnabled => "false"
    case MagicLinkExpiration => "15m"
    case AuditLogRetention => "720h"
    case Applications => "[]"
    case SmtpHost => ""
    case SmtpPort => "587"
    case SmtpUsername => ""
    case SmtpPassword => ""
    case SmtpFrom => ""
    case ThemeTitle => "Autentico"
    case ThemeLogoUrl => ""
    case ThemeCssInline => ""
    case ThemeCssFile => ""
    case ThemeBrandColor => "#ff7b00"
    case ThemeTagline => ""
    case EmailFooterText => ""
    case Onboarded => "false"
    case AllowSelfServiceDeletion => "false"
    case AllowUsernameChange => "false"
    case AllowEmailChange => "false"
    case SignupShowOptionalFields => "false"
    case ProfileFieldEmail => "optional"
    case ProfileFieldGivenName => "optional"
    case ProfileFieldFamilyName => "optional"
    case ProfileFieldMiddleName => "hidden"
    case ProfileFieldNickname => "hidden"
    case ProfileFieldPhone => "optional"
    case ProfileFieldPicture => "optional"
    case ProfileFieldWebsite => "hidden"
    case ProfileFieldGender => "hidden"
    case ProfileFieldBirthdate => "hidden"
    case ProfileFieldProfile => "hidden"
    case ProfileFieldLocale => "hidden"
    case ProfileFieldAddress => "optional"
    case FooterLinks => "[]"
    case DeviceCodeExpiration => "10m"
    case DeviceCodePollingInterval => "5"
    case CorsAllowedOrigins => ""
    case AdminUiHiddenPages => "[]"
    case AdminUiHiddenSettings => "[]"
    case AdminUiHiddenColumns => "{}"
    case DefaultPageSize => "100"
  }

  /** A key of the settings table: well-known, or anything else (`private_key` included). */
  datatype Key = Known(name: Name) | Other(text: string)

  const ONBOARDING := Known(Onboarded)
  const PROTECTED: set<Key> := {ONBOARDING, Other("private_key")}

  type Table = map<Key, string>

  /** The parsers of Go's standard library, the last two of JSON texts for a list of strings
      and for a list of labelled links; `None` is a parse error. */
  datatype Go = Go(
    duration: string -> Option<int>, atoi: string -> Option<int>, strings: string -> Option<seq<string>>,
    links: string -> Option<seq<(string, string)>>)

  /** What is used of `time.ParseDuration`: it accepts the default literals, reads "0" as
      zero and rejects the empty string. */
  ghost predicate Sound(go: Go) {
    && (forall s :: s in ["15m", "720h", "10m", "4h", "6h", "24h", "1h"] ==> go.duration(s).Some?)
    && go.duration("0") == Some(0) && go.duration("") == None
  }

  /** `strconv.ParseBool`. */
  function ParseBool(s: string): Option<bool> {
    if s in ["1", "t", "T", "TRUE", "true", "True"] then Some(true)
    else if s in ["0", "f", "F", "FALSE", "false", "False"] then Some(false)
    else None
  }

  /** `durationSettings`: the validated keys, each with its extra accepted values. */
  function Specials(n: Name): Option<seq<string>> {
    match n
    case SsoSessionIdleTimeout | SsoSessionMaxAge => Some(["", "0"])
    case AuditLogRetention => Some(["", "0", "-1"])
    case AccessTokenExpiration | RefreshTokenExpiration | AuthorizationCodeExpiration
       | AccountLockoutDuration | TrustDeviceExpiration | CleanupInterval | CleanupRetention
       | EmailVerificationExpiration | PasswordResetExpiration | MagicLinkExpiration => Some([])
    case _ => None
  }

  /** How a block of `LoadIntoConfig` turns the stored text into a config field. `Span`
      carries the fallback for an unparsable duration: None is "keep the field". */
  datatype Kind =
    | Plain | NonEmptyText | Flag(otherwise: bool) | Number | PositiveNumber
    | Span(fallback: Option<int>) | AuditSpan | StringList | LinkList | CorsList | NotLoaded

  /** Which block of `LoadIntoConfig` reads the setting. */
  function KindOf(n: Name): Kind {
    match n
    case AccessTokenExpiration | RefreshTokenExpiration | AuthorizationCodeExpiration | AccountLockoutDuration
       | TrustDeviceExpiration | CleanupInterval | CleanupRetention | EmailVerificationExpiration
       | PasswordResetExpiration | MagicLinkExpiration | DeviceCodeExpiration => Span(None)
    case SsoSessionIdleTimeout | SsoSessionMaxAge => Span(Some(0))
    case AuditLogRetention => AuditSpan
    case AllowSelfSignup | TrustDeviceEnabled | RequireMfa | RequireEmailVerification | MagicLinkEnabled
       | AllowSelfServiceDeletion | AllowUsernameChange | AllowEmailChange | SignupShowOptionalFields => Flag(false)
    case SsoEnabled | PkceEnforceS256 => Flag(true)
    case ValidationMinUsernameLength | ValidationMaxUsernameLength | ValidationMinPasswordLength
       | ValidationMaxPasswordLength | AccountLockoutMaxAttempts | DeviceCodePollingInterval => Number
    case DefaultPageSize => PositiveNumber
    case AccessTokenAudience | AdminUiHiddenPages | AdminUiHiddenSettings => StringList
    case FooterLinks => LinkList
    case CorsAllowedOrigins => CorsList
    case ThemeCssFile => NonEmptyText
    case Onboarded | Applications => NotLoaded
    case _ => Plain
  }

  datatype Value = TextV(s: string) | FlagV(b: bool) | NumberV(n: int) | SpanV(text: string, d: int)
    | ListV(items: seq<string>) | LinksV(links: seq<(string, string)>)

  const ALL_NAMES: set<Name> := set n: Name | true

  /** The config struct, by the setting that fills each field. It has every field. */
  type Config = c: map<Name, Value> | c.Keys == ALL_NAMES witness map n: Name | n in ALL_NAMES :: FlagV(false)

  // ---------------------------------------------------------------- the meaning

  /** The value validator's verdict on one setting. */
  ghost predicate Acceptable(go: Go, n: Name, v: string) {
    Specials(n).Some? ==> v in Specials(n).value || go.duration(v).Some?
  }

  ghost predicate ValidDurations(go: Go, t: Table) {
    forall n :: Known(n) in t ==> Acceptable(go, n, t[Known(n)])
  }

  /** The table after `EnsureDefaults` has seen the names in `done`. An empty value
      counts as missing. */
  function Defaulted(t: Table, done: set<Name>): Table {
    t + map n: Name | n in done && Missing(t, n) :: Known(n) := Default(n)
  }

  /** The parsed duration of a field. */
  function SpanOf(f: Value): int {
    if f.SpanV? then f.d else 0
  }

  /** One block of `LoadIntoConfig`, given what the field held before. A duration is kept as
      text and parsed. */
  function LoadField(go: Go, kind: Kind, v: string, before: Value): Value {
    match kind
    case Plain => TextV(v)
    case NonEmptyText => if v != "" then TextV(v) else before
    case Flag(otherwise) => FlagV(if ParseBool(v).Some? then ParseBool(v).value else otherwise)
    case Number => if go.atoi(v).Some? then NumberV(go.atoi(v).value) else before
    case PositiveNumber =>
      if go.atoi(v).Some? && go.atoi(v).value > 0 then NumberV(go.atoi(v).value) else before
    case Span(fallback) =>
      SpanV(v, if go.duration(v).Some? then go.duration(v).value
               else if fallback.Some? then fallback.value else SpanOf(before))
    case AuditSpan =>
      SpanV(v, if v in ["0", "", "-1"] then SpanOf(before)
               else if go.duration(v).Some? then go.duration(v).value else 0)
    case StringList => if go.strings(v).Some? then ListV(go.strings(v).value) else before
    case LinkList => if go.links(v).Some? then LinksV(go.links(v).value) else before
    case CorsList => ListV(Cors.Origins(v))
    case NotLoaded => before
  }

  /** The guard of the block: does the stored text alone decide the field? */
  predicate Decides(go: Go, kind: Kind, v: string) {
    match kind
    case NonEmptyText => v != ""
    case Number => go.atoi(v).Some?
    case PositiveNumber => go.atoi(v).Some? && go.atoi(v).value > 0
    case Span(fallback) => go.duration(v).Some? || fallback.Some?
    case AuditSpan => v !in ["0", "", "-1"]
    case StringList => go.strings(v).Some?
    case LinkList => go.links(v).Some?
    case NotLoaded => false
    case _ => true
  }

  /** The config after `LoadIntoConfig` has seen the names in `done`. */
  function Loaded(go: Go, t: Table, c: Config, done: set<Name>): Config {
    map n | n in ALL_NAMES ::
      if n in done && Known(n) in t then LoadField(go, KindOf(n), t[Known(n)], c[n]) else c[n]
  }

  function Load(go: Go, t: Table, c: Config): Config {
    Loaded(go, t, c, ALL_NAMES)
  }

  /** The table after an accepted import: known, unprotected keys of the payload. */
  function Imported(t: Table, payload: Table, done: set<Key>): Table {
    t + map k | k in payload && k in done && k.Known? && k !in PROTECTED :: payload[k]
  }

  predicate Missing(t: Table, n: Name) {
    Known(n) !in t || t[Known(n)] == ""
  }

  lemma {:induction false} DefaultedAt(t: Table, done: set<Name>, k: Key)
    ensures k in Defaulted(t, done) <==> k in t || (k.Known? && k.name in done)
    ensures k in Defaulted(t, done) ==>
      Defaulted(t, done)[k] == (if k.Known? && k.name in done && Missing(t, k.name) then Default(k.name) else t[k])
  {
  }

  lemma {:induction false} DefaultedNone(t: Table)
    ensures Defaulted(t, {}) == t
  {
  }

  lemma {:induction false} DefaultedStep(t: Table, done: set<Name>, n: Name)
    requires n !in done
    ensures Missing(Defaulted(t, done), n) <==> Missing(t, n)
    ensures Defaulted(t, done + {n}) ==
      if Missing(t, n) then Defaulted(t, done)[Known(n) := Default(n)] else Defaulted(t, done)
  {
    var l := Defaulted(t, done + {n});
    var r := if Missing(t, n) then Defaulted(t, done)[Known(n) := Default(n)] else Defaulted(t, done);
    DefaultedAt(t, done, Known(n));
    forall k ensures k in l <==> k in r {
      DefaultedAt(t, done, k);
      DefaultedAt(t, done + {n}, k);
    }
    forall k | k in l ensures l[k] == r[k] {
      DefaultedAt(t, done, k);
      DefaultedAt(t, done + {n}, k);
    }
  }

  lemma {:induction false} ImportedStep(t: Table, payload: Table, done: set<Key>, k: Key)
    requires k in payload
    ensures Imported(t, payload, done + {k}) ==
      if k.Known? && k !in PROTECTED then Imported(t, payload, done)[k := payload[k]] else Imported(t, payload, done)
  {
  }

  predicate IsOnboardedIn(t: Table) {
    ONBOARDING in t && ParseBool(t[ONBOARDING]) == Some(true)
  }

  // ------------------------------------------------------------------- the store

  /** What `GetSetting` finds. */
  function Lookup(t: Table, k: Key): Option<string> {
    if k in t then Some(t[k]) else None
  }

  /** The table after a history of `SetSetting` calls. */
  function Written(t: Table, writes: seq<(Key, string)>): Table
    decreases |writes|
  {
    if writes == [] then t else Written(t[writes[0].0 := writes[0].1], writes[1..])
  }

  /** A setting reads as what was last written to it, or, if nothing was, as before. */
  lemma {:induction false} ReadsLastWrite(t: Table, writes: seq<(Key, string)>, k: Key)
    ensures (forall i :: 0 <= i < |writes| ==> writes[i].0 != k) ==> Lookup(Written(t, writes), k) == Lookup(t, k)
    ensures forall i :: 0 <= i < |writes| && writes[i].0 == k && (forall j :: i < j < |writes| ==> writes[j].0 != k) ==>
      Lookup(Written(t, writes), k) == Some(writes[i].1)
    decreases |writes|
  {
    if writes != [] {
      var rest := writes[1..];
      assert forall i :: 0 <= i < |rest| ==> rest[i] == writes[i + 1];
      ReadsLastWrite(t[writes[0].0 := writes[0].1], rest, k);
      forall i | 0 <= i < |writes| && writes[i].0 == k && (forall j :: i < j < |writes| ==> writes[j].0 != k)
        ensures Lookup(Written(t, writes), k) == Some(writes[i].1)
      {
        if i > 0 {
          assert rest[i - 1] == writes[i];
        }
      }
    }
  }

  // ------------------------------------------------------------------ the server

  class Server {
    const go: Go
    var settings: Table
    var config: Config
    var users: nat

    constructor (go: Go, config: Config)
      ensures this.go == go && settings == map[] && this.config == config && users == 0
    {
      this.go := go;
      this.config := config;
      settings, users := map[], 0;
    }

    method GetSetting(k: Key) returns (v: Option<string>)
      ensures v == Lookup(settings, k)
    {
      v := if k in settings then Some(settings[k]) else None;
    }

    method SetSetting(k: Key, v: string)
      modifies this`settings
      ensures settings == old(settings)[k := v] == Written(old(settings), [(k, v)])
    {
      settings := settings[k := v];
    }

    method EnsureDefaults()
      modifies this`settings
      ensures settings == Defaulted(old(settings), ALL_NAMES)
    {
      hide Defaulted;
      DefaultedNone(settings);
      var todo := ALL_NAMES;
      assert ALL_NAMES - todo == {} && ALL_NAMES - {} == ALL_NAMES;
      while todo != {}
        invariant settings == Defaulted(old(settings), ALL_NAMES - todo)
        decreases todo
      {
        var n :| n in todo;
        DefaultedStep(old(settings), ALL_NAMES - todo, n);
        assert ALL_NAMES - (todo - {n}) == ALL_NAMES - todo + {n};
        var existing := GetSetting(Known(n));
        if existing.None? || existing.value == "" {
          SetSetting(Known(n), Default(n));
        }
        todo := todo - {n};
      }
    }

    /** The blocks of the source, one per setting; a block reads only its own setting and
        writes only its own field. */
    method LoadIntoConfig()
      modifies this`config
      ensures config == Load(go, settings, old(config))
    {
      var cfg := config;
      var todo := ALL_NAMES;
      while todo != {}
        invariant cfg == Loaded(go, settings, old(config), ALL_NAMES - todo)
        decreases todo
      {
        var n :| n in todo;
        var v := GetSetting(Known(n));
        if v.Some? {
          cfg := cfg[n := LoadField(go, KindOf(n), v.value, cfg[n])];
        }
        todo := todo - {n};
      }
      config := cfg;
    }

    method ValidateDurationSettings(updates: Table) returns (ok: bool)
      ensures ok <==> ValidDurations(go, updates)
    {
      var todo := ALL_NAMES;
      while todo != {}
        invariant forall n :: n !in todo && Known(n) in updates ==> Acceptable(go, n, updates[Known(n)])
        decreases todo
      {
        var n :| n in todo;
        if Specials(n).Some? && Known(n) in updates {
          var v := updates[Known(n)];
          if v !in Specials(n).value && go.duration(v).None? {
            assert !Acceptable(go, n, updates[Known(n)]);
            return false;
          }
        }
        todo := todo - {n};
      }
      return true;
    }

    method HandlePutSettings(body: Table) returns (accepted: bool)
      modifies this`settings, this`config
      ensures accepted <==> ValidDurations(go, body - PROTECTED)
      ensures accepted ==> settings == old(settings) + (body - PROTECTED)
      ensures accepted ==> config == Load(go, settings, old(config))
      ensures !accepted ==> settings == old(settings) && config == old(config)
    {
      var updates := Unprotected(body);
      accepted := ValidateDurationSettings(updates);
      if accepted {
        StoreAll(updates);
        LoadIntoConfig();
      }
    }

    /** The body without the protected keys. */
    method Unprotected(body: Table) returns (updates: Table)
      ensures updates == body - PROTECTED
    {
      updates := body;
      var todo := body.Keys;
      while todo != {}
        invariant todo <= body.Keys && updates == body - (PROTECTED - todo)
        decreases todo
      {
        var k :| k in todo;
        if k in PROTECTED {
          updates := updates - {k};
        }
        todo := todo - {k};
      }
    }

    method StoreAll(updates: Table)
      modifies this`settings
      ensures settings == old(settings) + updates
    {
      var todo := updates.Keys;
      while todo != {}
        invariant todo <= updates.Keys
        invariant settings == old(settings) + map k | k in updates && k !in todo :: updates[k]
        decreases todo
      {
        var k :| k in todo;
        SetSetting(k, updates[k]);
        todo := todo - {k};
      }
    }

    method HandleExportSettings() returns (file: Table)
      ensures file == settings - {ONBOARDING}
    {
      file := settings - {ONBOARDING};
    }

    method HandleImportApply(payload: Table) returns (accepted: bool)
      modifies this`settings, this`config
      ensures accepted <==> ValidDurations(go, payload)
      ensures accepted ==> settings == Imported(old(settings), payload, payload.Keys)
      ensures accepted ==> config == Load(go, settings, old(config))
      ensures !accepted ==> settings == old(settings) && config == old(config)
    {
      accepted := ValidateDurationSettings(payload);
      if accepted {
        var todo := payload.Keys;
        while todo != {}
          invariant todo <= payload.Keys
          invariant settings == Imported(old(settings), payload, payload.Keys - todo)
          invariant config == old(config)
          decreases todo
        {
          var k :| k in todo;
          ImportedStep(old(settings), payload, payload.Keys - todo, k);
          assert payload.Keys - (todo - {k}) == payload.Keys - todo + {k};
          if k !in PROTECTED && k.Known? {
            SetSetting(k, payload[k]);
          }
          todo := todo - {k};
        }
        assert payload.Keys - {} == payload.Keys;
        LoadIntoConfig();
      }
    }

    method HandleUpdateApplications(json: string)
      modifies this`settings
      ensures settings == old(settings)[Known(Applications) := json]
    {
      SetSetting(Known(Applications), json);
    }

    method IsOnboarded() returns (b: bool)
      ensures b <==> IsOnboardedIn(settings)
    {
      var v := GetSetting(ONBOARDING);
      if v.None? {
        return false;
      }
      return ParseBool(v.value) == Some(true);
    }

    /** The flags say whether counting the users, validating the request, `CreateUser`,
        `UpdateUser` and storing the flag succeed. */
    method ExecuteOnboard(countOk: bool, requestOk: bool, createOk: bool, roleOk: bool, flagOk: bool)
      returns (done: bool)
      modifies this
      ensures done <==> MayOnboard(old(settings), old(users), countOk, requestOk, createOk) && roleOk && flagOk
      ensures done ==> settings == old(settings)[ONBOARDING := "true"] && config == Load(go, settings, old(config))
      ensures !done ==> settings == old(settings) && config == old(config)
      ensures users == if MayOnboard(old(settings), old(users), countOk, requestOk, createOk) then 1 else old(users)
    {
      var already := IsOnboarded();
      if already || !countOk || users > 0 || !requestOk || !createOk {
        return false;
      }
      users := users + 1;
      if !roleOk || !flagOk {
        return false;
      }
      SetSetting(ONBOARDING, "true");
      LoadIntoConfig();
      return true;
    }

    /** The onboarding page. Its handler has the same guards, but goes on whether or not
        `UpdateUser` and storing the flag succeed, logs the new user in and answers as done. */
    method HandleOnboardPost(countOk: bool, requestOk: bool, createOk: bool, flagOk: bool) returns (done: bool)
      modifies this
      ensures done <==> MayOnboard(old(settings), old(users), countOk, requestOk, createOk)
      ensures settings == if done && flagOk then old(settings)[ONBOARDING := "true"] else old(settings)
      ensures config == if done then Load(go, settings, old(config)) else old(config)
      ensures users == if done then 1 else old(users)
    {
      var already := IsOnboarded();
      if already || users > 0 || !requestOk {
        return false;
      }
      if !countOk || users > 0 || !createOk {
        return false;
      }
      users := users + 1;
      if flagOk {
        SetSetting(ONBOARDING, "true");
      }
      LoadIntoConfig();
      return true;
    }
  }

  /** The guards up to the creation of the admin account. */
  predicate MayOnboard(t: Table, users: nat, countOk: bool, requestOk: bool, createOk: bool) {
    !IsOnboardedIn(t) && countOk && users == 0 && requestOk && createOk
  }
}
