/** Whole runs of the settings component: restarts, PUTs, imports, application updates,
    onboarding and user deletions, in any order. Every step is one of the methods of
    `Settings.Server`, with the state change that its contract states. */
module SettingsRuns {
  import opened Common
  import opened Settings
  import Cors
  import Text

  datatype State = State(settings: Table, config: Config, users: nat, booted: bool)

  datatype Step =
    | Restart
    | Put(body: Table)
    | Import(payload: Table)
    | UpdateApplications(json: string)
    | Onboard(countOk: bool, requestOk: bool, createOk: bool, roleOk: bool, flagOk: bool)
    | WebOnboard(countOk: bool, requestOk: bool, createOk: bool, flagOk: bool)
    | CreateUser
    | DeleteUsers(left: nat)

  /** The step is answered as a successful onboarding. */
  predicate Onboards(st: State, s: Step) {
    && (s.Onboard? || s.WebOnboard?)
    && MayOnboard(st.settings, st.users, s.countOk, s.requestOk, s.createOk)
    && (s.Onboard? ==> s.roleOk && s.flagOk)
  }

  function Reload(go: Go, st: State, t: Table): State {
    st.(settings := t, config := Load(go, t, st.config))
  }

  ghost function Apply(go: Go, st: State, s: Step): State {
    match s
    case Restart => Reload(go, st, Defaulted(st.settings, ALL_NAMES)).(booted := true)
    case Put(body) =>
      if ValidDurations(go, body - PROTECTED) then Reload(go, st, st.settings + (body - PROTECTED)) else st
    case Import(payload) =>
      if ValidDurations(go, payload) then Reload(go, st, Imported(st.settings, payload, payload.Keys)) else st
    case UpdateApplications(json) => st.(settings := st.settings[Known(Applications) := json])
    case Onboard(countOk, requestOk, createOk, roleOk, flagOk) =>
      if !MayOnboard(st.settings, st.users, countOk, requestOk, createOk) then st
      else if !roleOk || !flagOk then st.(users := 1)
      else Reload(go, st, st.settings[ONBOARDING := "true"]).(users := 1)
    case WebOnboard(_, _, _, flagOk) =>
      if !Onboards(st, s) then st
      else Reload(go, st, if flagOk then st.settings[ONBOARDING := "true"] else st.settings).(users := 1)
    case CreateUser => st.(users := st.users + 1)
    case DeleteUsers(left) => st.(users := if left < st.users then left else st.users)
  }

  /** The steps of the run model are the methods of the server. */
  method Perform(server: Server, s: Step, ghost before: State) returns (ghost after: State)
    requires before.settings == server.settings && before.config == server.config && before.users == server.users
    modifies server
    ensures after == Apply(server.go, before, s)
    ensures after.settings == server.settings && after.config == server.config && after.users == server.users
  {
    after := Apply(server.go, before, s);
    match s
    case Restart =>
      server.EnsureDefaults();
      server.LoadIntoConfig();
    case Put(body) => var _ := server.HandlePutSettings(body);
    case Import(payload) => var _ := server.HandleImportApply(payload);
    case UpdateApplications(json) => server.HandleUpdateApplications(json);
    case Onboard(countOk, requestOk, createOk, roleOk, flagOk) =>
      var _ := server.ExecuteOnboard(countOk, requestOk, createOk, roleOk, flagOk);
    case WebOnboard(countOk, requestOk, createOk, flagOk) =>
      var _ := server.HandleOnboardPost(countOk, requestOk, createOk, flagOk);
    case CreateUser => server.users := server.users + 1;
    case DeleteUsers(left) => server.users := if left < server.users then left else server.users;
  }

  ghost function Run(go: Go, st: State, steps: seq<Step>): State
    decreases |steps|
  {
    if steps == [] then st else Run(go, Apply(go, st, steps[0]), steps[1..])
  }

  // ------------------------------------------------------------------ invariants

  /** The value of a duration setting: its parse, or 0 for the accepted "". */
  function Meaning(go: Go, v: string): int {
    if go.duration(v).Some? then go.duration(v).value else 0
  }

  /** The cache agrees: every validated duration, audit retention excepted, is in the
      config with the meaning of its stored text. */
  ghost predicate Agrees(go: Go, st: State) {
    forall n :: Specials(n).Some? && n != AuditLogRetention && Known(n) in st.settings ==>
      st.config[n] == SpanV(st.settings[Known(n)], Meaning(go, st.settings[Known(n)]))
  }

  ghost predicate Inv(go: Go, st: State) {
    && ValidDurations(go, st.settings)
    && (st.booted ==> (forall n: Name :: Known(n) in st.settings) && Agrees(go, st))
  }

  lemma {:induction false} DefaultsAcceptable(go: Go, n: Name)
    requires Sound(go)
    ensures Acceptable(go, n, Default(n))
  {
  }

  lemma {:induction false} DurationKinds(n: Name)
    requires Specials(n).Some? && n != AuditLogRetention
    ensures KindOf(n) == (if n == SsoSessionIdleTimeout || n == SsoSessionMaxAge then Span(Some(0)) else Span(None))
    ensures KindOf(n) == Span(None) ==> Specials(n).value == []
  {
  }

  /** A validated duration is decided by its text alone. */
  lemma {:induction false} ValidatedDecides(go: Go, n: Name, v: string, before: Value)
    requires Sound(go) && Specials(n).Some? && n != AuditLogRetention && Acceptable(go, n, v)
    ensures LoadField(go, KindOf(n), v, before) == SpanV(v, Meaning(go, v))
  {
    DurationKinds(n);
    SpanDecides(go, KindOf(n).fallback, v, before, Specials(n).value);
  }

  lemma {:induction false} SpanDecides(go: Go, fallback: Option<int>, v: string, before: Value, specials: seq<string>)
    requires fallback == Some(0) || (fallback == None && specials == [])
    requires v in specials || go.duration(v).Some?
    ensures LoadField(go, Span(fallback), v, before) == SpanV(v, Meaning(go, v))
  {
  }

  lemma {:induction false} ReloadAgrees(go: Go, st: State, t: Table)
    requires Sound(go) && ValidDurations(go, t)
    ensures Agrees(go, Reload(go, st, t))
  {
    forall n | Specials(n).Some? && n != AuditLogRetention && Known(n) in t
      ensures Load(go, t, st.config)[n] == SpanV(t[Known(n)], Meaning(go, t[Known(n)]))
    {
      ValidatedDecides(go, n, t[Known(n)], st.config[n]);
    }
  }

  lemma {:induction false} RestartIsValid(go: Go, t: Table)
    requires Sound(go) && ValidDurations(go, t)
    ensures ValidDurations(go, Defaulted(t, ALL_NAMES))
    ensures forall n: Name :: Known(n) in Defaulted(t, ALL_NAMES)
  {
    forall n: Name
      ensures Known(n) in Defaulted(t, ALL_NAMES) && Acceptable(go, n, Defaulted(t, ALL_NAMES)[Known(n)])
    {
      DefaultedAt(t, ALL_NAMES, Known(n));
      DefaultsAcceptable(go, n);
    }
  }

  lemma {:induction false} ReloadKeepsInv(go: Go, st: State, t: Table)
    requires Sound(go) && Inv(go, st) && st.settings.Keys <= t.Keys && ValidDurations(go, t)
    ensures Inv(go, Reload(go, st, t))
  {
    ReloadAgrees(go, st, t);
  }

  lemma {:induction false} PutKeepsInv(go: Go, st: State, body: Table)
    requires Sound(go) && Inv(go, st)
    ensures Inv(go, Apply(go, st, Put(body)))
  {
    if ValidDurations(go, body - PROTECTED) {
      ReloadKeepsInv(go, st, st.settings + (body - PROTECTED));
    }
  }

  lemma {:induction false} ImportKeepsInv(go: Go, st: State, payload: Table)
    requires Sound(go) && Inv(go, st)
    ensures Inv(go, Apply(go, st, Import(payload)))
  {
    if ValidDurations(go, payload) {
      ImportedIsValid(go, st.settings, payload);
      ReloadKeepsInv(go, st, Imported(st.settings, payload, payload.Keys));
    }
  }

  lemma {:induction false} RestartKeepsInv(go: Go, st: State)
    requires Sound(go) && Inv(go, st)
    ensures Inv(go, Apply(go, st, Restart))
  {
    RestartIsValid(go, st.settings);
    ReloadAgrees(go, st, Defaulted(st.settings, ALL_NAMES));
  }

  lemma {:induction false} UsersAside(go: Go, st: State, users: nat)
    requires Inv(go, st)
    ensures Inv(go, st.(users := users))
  {
  }

  lemma {:induction false} OnboardedState(go: Go, st: State, s: Step)
    requires s.Onboard? || s.WebOnboard?
    ensures Apply(go, st, s) in
      {st, st.(users := 1), Reload(go, st, st.settings).(users := 1),
       Reload(go, st, st.settings[ONBOARDING := "true"]).(users := 1)}
  {
  }

  lemma {:induction false} OnboardKeepsInv(go: Go, st: State, s: Step)
    requires Sound(go) && Inv(go, st) && (s.Onboard? || s.WebOnboard?)
    ensures Inv(go, Apply(go, st, s))
  {
    hide Load, Inv;
    OnboardedState(go, st, s);
    UsersAside(go, st, 1);
    ReloadKeepsInv(go, st, st.settings);
    UsersAside(go, Reload(go, st, st.settings), 1);
    ReloadKeepsInv(go, st, st.settings[ONBOARDING := "true"]);
    UsersAside(go, Reload(go, st, st.settings[ONBOARDING := "true"]), 1);
  }

  lemma {:induction false} ApplicationsKeepInv(go: Go, st: State, json: string)
    requires Inv(go, st)
    ensures Inv(go, Apply(go, st, UpdateApplications(json)))
  {
  }

  lemma {:induction false} StepKeepsInv(go: Go, st: State, s: Step)
    requires Sound(go) && Inv(go, st)
    ensures Inv(go, Apply(go, st, s))
  {
    match s
    case Restart => RestartKeepsInv(go, st);
    case Put(body) => PutKeepsInv(go, st, body);
    case Import(payload) => ImportKeepsInv(go, st, payload);
    case UpdateApplications(json) => ApplicationsKeepInv(go, st, json);
    case Onboard(_, _, _, _, _) => OnboardKeepsInv(go, st, s);
    case WebOnboard(_, _, _, _) => OnboardKeepsInv(go, st, s);
    case CreateUser =>
    case DeleteUsers(_) =>
  }

  /** From any run: every duration setting stays acceptable to the validator, and from the
      first start on the table is complete and the in-memory config agrees with it,
      whatever the config held to begin with. */
  lemma {:induction false} RunKeepsInv(go: Go, st: State, steps: seq<Step>)
    requires Sound(go) && Inv(go, st)
    ensures Inv(go, Run(go, st, steps))
    decreases |steps|
  {
    if steps != [] {
      StepKeepsInv(go, st, steps[0]);
      RunKeepsInv(go, Apply(go, st, steps[0]), steps[1..]);
    }
  }

  /** A database that has just been created, under any config. */
  predicate Fresh(st: State) {
    st.settings == map[] && !st.booted
  }

  // -------------------------------------------------------------- export, import

  /** A file exported by any server that has run in any way is accepted by any other
      server. Afterwards every known, unprotected key has the source's value there, every
      other key is as it was, and the importing server's config agrees with its table. */
  lemma {:induction false} ExportImport(go: Go, source: State, steps: seq<Step>, target: State)
    requires Sound(go) && Fresh(source) && Inv(go, target)
    ensures
      var from := Run(go, source, [Restart] + steps);
      var file := from.settings - {ONBOARDING};
      var after := Apply(go, target, Import(file));
      && ValidDurations(go, file)
      && (forall n: Name :: n != Onboarded ==>
            Known(n) in from.settings && Known(n) in after.settings
            && after.settings[Known(n)] == from.settings[Known(n)])
      && (forall k :: k == ONBOARDING || k.Other? ==>
            (k in after.settings <==> k in target.settings)
            && (k in target.settings ==> after.settings[k] == target.settings[k]))
      && Agrees(go, after)
  {
    StepKeepsInv(go, source, Restart);
    RunAfterBoot(go, Apply(go, source, Restart), steps);
    assert ([Restart] + steps)[1..] == steps;
    ImportExport(go, Run(go, source, [Restart] + steps).settings, target);
  }

  lemma {:induction false} ImportExport(go: Go, from: Table, target: State)
    requires Sound(go) && Inv(go, target)
    requires ValidDurations(go, from) && forall n: Name :: Known(n) in from
    ensures
      var file := from - {ONBOARDING};
      var after := Apply(go, target, Import(file));
      && ValidDurations(go, file)
      && (forall n: Name :: n != Onboarded ==>
            Known(n) in after.settings && after.settings[Known(n)] == from[Known(n)])
      && (forall k :: k == ONBOARDING || k.Other? ==>
            (k in after.settings <==> k in target.settings)
            && (k in target.settings ==> after.settings[k] == target.settings[k]))
      && Agrees(go, after)
  {
    var file := from - {ONBOARDING};
    var t := Imported(target.settings, file, file.Keys);
    assert ValidDurations(go, file);
    ImportedIsValid(go, target.settings, file);
    assert Apply(go, target, Import(file)) == Reload(go, target, t);
    ReloadAgrees(go, target, t);
    ImportedTable(target.settings, from);
  }

  lemma {:induction false} ImportedIsValid(go: Go, t: Table, file: Table)
    requires ValidDurations(go, t) && ValidDurations(go, file)
    ensures ValidDurations(go, Imported(t, file, file.Keys))
  {
  }

  lemma {:induction false} ImportedTable(target: Table, from: Table)
    requires forall n: Name :: Known(n) in from
    ensures
      var file := from - {ONBOARDING};
      var after := Imported(target, file, file.Keys);
      && (forall n: Name :: n != Onboarded ==> Known(n) in after && after[Known(n)] == from[Known(n)])
      && (forall k :: k == ONBOARDING || k.Other? ==>
            (k in after <==> k in target) && (k in target ==> after[k] == target[k]))
  {
  }

  /** The export is documented to leave out the SMTP password. It does not: the file has the
      password exactly when the table has it, and an import hands it to the other server. */
  lemma {:induction false} ExportCarriesPassword(go: Go, from: Table, target: State)
    requires Sound(go) && ValidDurations(go, from)
    ensures
      var secret, file := Known(SmtpPassword), from - {ONBOARDING};
      var after := Apply(go, target, Import(file));
      && Lookup(file, secret) == Lookup(from, secret)
      && Lookup(after.settings, secret) ==
           if secret in from then Lookup(from, secret) else Lookup(target.settings, secret)
  {
    var file := from - {ONBOARDING};
    assert ValidDurations(go, file);
    ImportedAt(target.settings, file, Known(SmtpPassword));
  }

  lemma {:induction false} ImportedAt(t: Table, file: Table, k: Key)
    requires k.Known? && k !in PROTECTED
    ensures Lookup(Imported(t, file, file.Keys), k) == if k in file then Lookup(file, k) else Lookup(t, k)
  {
  }

  /** A PUT of one acceptable, unprotected value. */
  lemma {:induction false} PutOne(go: Go, st: State, n: Name, v: string)
    requires n != Onboarded && Acceptable(go, n, v)
    ensures
      var after := Apply(go, st, Put(map[Known(n) := v]));
      && after.settings == st.settings[Known(n) := v]
      && after.config[n] == LoadField(go, KindOf(n), v, st.config[n])
  {
    var body := map[Known(n) := v];
    assert body - PROTECTED == body;
    assert ValidDurations(go, body);
    assert st.settings + body == st.settings[Known(n) := v];
  }

  lemma {:induction false} RunAfterBoot(go: Go, st: State, steps: seq<Step>)
    requires Sound(go) && Inv(go, st) && st.booted
    ensures Inv(go, Run(go, st, steps)) && Run(go, st, steps).booted
    decreases |steps|
  {
    if steps != [] {
      StepKeepsInv(go, st, steps[0]);
      RunAfterBoot(go, Apply(go, st, steps[0]), steps[1..]);
    }
  }

  // ------------------------------------------------------------------- the cache

  /** Reloading without a change in the table changes nothing. */
  lemma {:induction false} LoadIdempotent(go: Go, t: Table, c: Config)
    ensures Load(go, t, Load(go, t, c)) == Load(go, t, c)
  {
  }

  /** Exactly when a setting's field can be trusted after a reload: the field is a function
      of the stored text, whatever the config held before, if and only if the text passes
      the guard of its block. */
  lemma {:induction false} FieldIsDecidedIff(go: Go, n: Name, v: string)
    ensures Decides(go, KindOf(n), v) <==>
      forall a: Value, b: Value :: LoadField(go, KindOf(n), v, a) == LoadField(go, KindOf(n), v, b)
  {
    if !Decides(go, KindOf(n), v) {
      var kind := KindOf(n);
      if kind.Span? || kind.AuditSpan? {
        assert LoadField(go, kind, v, SpanV("", 0)) == SpanV(v, 0);
        assert LoadField(go, kind, v, SpanV("", 1)) == SpanV(v, 1);
      } else {
        assert LoadField(go, kind, v, FlagV(true)) == FlagV(true);
        assert LoadField(go, kind, v, FlagV(false)) == FlagV(false);
      }
    }
  }

  /** What the parsers make of the texts of the defaults. */
  ghost predicate ReadsDefaults(go: Go) {
    && go.duration("15m") == Some(15 * MINUTE) && go.duration("10m") == Some(10 * MINUTE)
    && go.duration("1h") == Some(HOUR) && go.duration("4h") == Some(4 * HOUR) && go.duration("6h") == Some(6 * HOUR)
    && go.duration("24h") == Some(24 * HOUR) && go.duration("720h") == Some(720 * HOUR)
    && go.atoi("4") == Some(4) && go.atoi("5") == Some(5) && go.atoi("6") == Some(6) && go.atoi("64") == Some(64)
    && go.atoi("100") == Some(100) && go.strings("[]") == Some([]) && go.links("[]") == Some([])
  }

  const MINUTE := 60_000_000_000
  const HOUR := 60 * MINUTE

  /** The config compiled into the program, which holds until the settings are loaded. */
  function BuiltIn(n: Name): Value {
    match n
    case AccessTokenExpiration | AccountLockoutDuration | MagicLinkExpiration => SpanV("15m", 15 * MINUTE)
    case RefreshTokenExpiration | SsoSessionMaxAge | TrustDeviceExpiration => SpanV("720h", 720 * HOUR)
    case AuthorizationCodeExpiration | DeviceCodeExpiration => SpanV("10m", 10 * MINUTE)
    case SsoSessionIdleTimeout => SpanV("4h", 4 * HOUR)
    case CleanupInterval => SpanV("6h", 6 * HOUR)
    case CleanupRetention | EmailVerificationExpiration => SpanV("24h", 24 * HOUR)
    case PasswordResetExpiration => SpanV("1h", HOUR)
    case AuditLogRetention => SpanV("", 0)
    case SsoEnabled | PkceEnforceS256 => FlagV(true)
    case AllowSelfSignup | TrustDeviceEnabled | RequireMfa | RequireEmailVerification | MagicLinkEnabled
       | AllowSelfServiceDeletion | AllowUsernameChange | AllowEmailChange | SignupShowOptionalFields => FlagV(false)
    case AccountLockoutMaxAttempts | DeviceCodePollingInterval => NumberV(5)
    case ValidationMinUsernameLength => NumberV(4)
    case ValidationMinPasswordLength => NumberV(6)
    case ValidationMaxUsernameLength | ValidationMaxPasswordLength => NumberV(64)
    case DefaultPageSize => NumberV(100)
    case AccessTokenAudience | AdminUiHiddenPages | AdminUiHiddenSettings | CorsAllowedOrigins => ListV([])
    case FooterLinks => LinksV([])
    case AuthMode => TextV("password")
    case PasskeyRpName | ThemeTitle => TextV("Autentico")
    case PasskeyLoginMode => TextV("username_first")
    case MfaMethod => TextV("totp")
    case SmtpPort => TextV("587")
    case ProfileFieldEmail | ProfileFieldGivenName | ProfileFieldFamilyName | ProfileFieldPhone | ProfileFieldPicture
       | ProfileFieldLocale | ProfileFieldAddress => TextV("optional")
    case ProfileFieldMiddleName | ProfileFieldNickname | ProfileFieldWebsite | ProfileFieldGender
       | ProfileFieldBirthdate | ProfileFieldProfile => TextV("hidden")
    case AdminUiHiddenColumns => TextV("{}")
    case _ => TextV("")
  }

  /** A fresh server's settings are meant to be what it was compiled with. The first start loads
      exactly the built-in value of every field, whatever the config held before, except for three:
      the locale field of the profile, the brand color and the audit retention. */
  lemma {:induction false} DefaultsAreBuiltInIff(go: Go, c: Config, n: Name)
    requires ReadsDefaults(go) && n !in {Onboarded, Applications, ThemeCssFile}
    ensures Load(go, Defaulted(map[], ALL_NAMES), c)[n] == BuiltIn(n) <==>
      n !in {ProfileFieldLocale, ThemeBrandColor, AuditLogRetention}
  {
    hide Default, KindOf, BuiltIn, LoadField, Defaulted, ReadsDefaults;
    DefaultedAt(map[], ALL_NAMES, Known(n));
    assert Load(go, Defaulted(map[], ALL_NAMES), c)[n] == LoadField(go, KindOf(n), Default(n), c[n]);
    DefaultField(go, n, c[n]);
  }

  lemma {:induction false} DefaultField(go: Go, n: Name, before: Value)
    requires ReadsDefaults(go) && n !in {Onboarded, Applications, ThemeCssFile}
    ensures LoadField(go, KindOf(n), Default(n), before) == BuiltIn(n) <==>
      n !in {ProfileFieldLocale, ThemeBrandColor, AuditLogRetention}
  {
    hide Default, BuiltIn, LoadField, KindOf, ReadsDefaults;
    match n
    case AccessTokenExpiration | AccountLockoutDuration | MagicLinkExpiration => QuarterHours(go, n, before);
    case AuthorizationCodeExpiration | DeviceCodeExpiration | PasswordResetExpiration => ShortSpans(go, n, before);
    case RefreshTokenExpiration | TrustDeviceExpiration | SsoSessionMaxAge => Months(go, n, before);
    case CleanupInterval | CleanupRetention | EmailVerificationExpiration | SsoSessionIdleTimeout => Days(go, n,
                                                                                                          before);
    case SsoEnabled | PkceEnforceS256 => FlagsOn(go, n, before);
    case AllowSelfSignup | TrustDeviceEnabled | RequireMfa | RequireEmailVerification
       | MagicLinkEnabled => FlagsOff(go, n, before);
    case AllowSelfServiceDeletion | AllowUsernameChange | AllowEmailChange
       | SignupShowOptionalFields => AccountFlags(go, n, before);
    case AccountLockoutMaxAttempts | DeviceCodePollingInterval | DefaultPageSize => Counts(go, n, before);
    case ValidationMinUsernameLength | ValidationMinPasswordLength | ValidationMaxUsernameLength
       | ValidationMaxPasswordLength => Lengths(go, n, before);
    case FooterLinks => Links(go, n, before);
    case AccessTokenAudience | AdminUiHiddenPages | AdminUiHiddenSettings => StringLists(go, n, before);
    case CorsAllowedOrigins => Origins(go, n, before);
    case SmtpHost | SmtpUsername | SmtpPassword | SmtpFrom | SmtpPort => MailTexts(go, n, before);
    case ThemeLogoUrl | ThemeCssInline | ThemeTagline | ThemeTitle | EmailFooterText => ThemeTexts(go, n, before);
    case AuthMode | PasskeyRpName | PasskeyLoginMode | MfaMethod | AdminUiHiddenColumns => ModeTexts(go, n, before);
    case ProfileFieldEmail | ProfileFieldGivenName | ProfileFieldFamilyName => ShownNames(go, n, before);
    case ProfileFieldPhone | ProfileFieldPicture | ProfileFieldAddress => ShownRest(go, n, before);
    case ProfileFieldMiddleName | ProfileFieldNickname | ProfileFieldWebsite => HiddenNames(go, n, before);
    case ProfileFieldGender | ProfileFieldBirthdate | ProfileFieldProfile => HiddenRest(go, n, before);
    case ProfileFieldLocale | ThemeBrandColor | AuditLogRetention => OtherDefaults(go, n, before);
    case Onboarded | Applications | ThemeCssFile =>
  }

  // The fields in small groups of one kind.

  lemma {:induction false} QuarterHours(go: Go, n: Name, before: Value)
    requires ReadsDefaults(go) && n in {AccessTokenExpiration, AccountLockoutDuration, MagicLinkExpiration}
    ensures LoadField(go, KindOf(n), Default(n), before) == BuiltIn(n)
  {
  }

  lemma {:induction false} ShortSpans(go: Go, n: Name, before: Value)
    requires ReadsDefaults(go) && n in {AuthorizationCodeExpiration, DeviceCodeExpiration, PasswordResetExpiration}
    ensures LoadField(go, KindOf(n), Default(n), before) == BuiltIn(n)
  {
  }

  lemma {:induction false} Months(go: Go, n: Name, before: Value)
    requires ReadsDefaults(go) && n in {RefreshTokenExpiration, TrustDeviceExpiration, SsoSessionMaxAge}
    ensures LoadField(go, KindOf(n), Default(n), before) == BuiltIn(n)
  {
  }

  lemma {:induction false} Days(go: Go, n: Name, before: Value)
    requires ReadsDefaults(go) &&
      n in {CleanupInterval, CleanupRetention, EmailVerificationExpiration, SsoSessionIdleTimeout}
    ensures LoadField(go, KindOf(n), Default(n), before) == BuiltIn(n)
  {
  }

  lemma {:induction false} FlagsOn(go: Go, n: Name, before: Value)
    requires ReadsDefaults(go) && n in {SsoEnabled, PkceEnforceS256}
    ensures LoadField(go, KindOf(n), Default(n), before) == BuiltIn(n)
  {
  }

  lemma {:induction false} FlagsOff(go: Go, n: Name, before: Value)
    requires ReadsDefaults(go) &&
      n in {AllowSelfSignup, TrustDeviceEnabled, RequireMfa, RequireEmailVerification, MagicLinkEnabled}
    ensures LoadField(go, KindOf(n), Default(n), before) == BuiltIn(n)
  {
  }

  lemma {:induction false} AccountFlags(go: Go, n: Name, before: Value)
    requires ReadsDefaults(go) &&
      n in {AllowSelfServiceDeletion, AllowUsernameChange, AllowEmailChange, SignupShowOptionalFields}
    ensures LoadField(go, KindOf(n), Default(n), before) == BuiltIn(n)
  {
  }

  lemma {:induction false} Counts(go: Go, n: Name, before: Value)
    requires ReadsDefaults(go) && n in {AccountLockoutMaxAttempts, DeviceCodePollingInterval, DefaultPageSize}
    ensures LoadField(go, KindOf(n), Default(n), before) == BuiltIn(n)
  {
  }

  lemma {:induction false} Lengths(go: Go, n: Name, before: Value)
    requires ReadsDefaults(go) &&
      n in {ValidationMinUsernameLength, ValidationMinPasswordLength, ValidationMaxUsernameLength,
            ValidationMaxPasswordLength}
    ensures LoadField(go, KindOf(n), Default(n), before) == BuiltIn(n)
  {
  }

  lemma {:induction false} Links(go: Go, n: Name, before: Value)
    requires ReadsDefaults(go) && n == FooterLinks
    ensures LoadField(go, KindOf(n), Default(n), before) == BuiltIn(n)
  {
  }

  lemma {:induction false} StringLists(go: Go, n: Name, before: Value)
    requires ReadsDefaults(go) && n in {AccessTokenAudience, AdminUiHiddenPages, AdminUiHiddenSettings}
    ensures LoadField(go, KindOf(n), Default(n), before) == BuiltIn(n)
  {
  }

  lemma {:induction false} Origins(go: Go, n: Name, before: Value)
    requires ReadsDefaults(go) && n == CorsAllowedOrigins
    ensures LoadField(go, KindOf(n), Default(n), before) == BuiltIn(n)
  {
    Cors.NoOrigins();
  }

  lemma {:induction false} MailTexts(go: Go, n: Name, before: Value)
    requires ReadsDefaults(go) && n in {SmtpHost, SmtpUsername, SmtpPassword, SmtpFrom, SmtpPort}
    ensures LoadField(go, KindOf(n), Default(n), before) == BuiltIn(n)
  {
  }

  lemma {:induction false} ThemeTexts(go: Go, n: Name, before: Value)
    requires ReadsDefaults(go) && n in {ThemeLogoUrl, ThemeCssInline, ThemeTagline, ThemeTitle, EmailFooterText}
    ensures LoadField(go, KindOf(n), Default(n), before) == BuiltIn(n)
  {
  }

  lemma {:induction false} ModeTexts(go: Go, n: Name, before: Value)
    requires ReadsDefaults(go) && n in {AuthMode, PasskeyRpName, PasskeyLoginMode, MfaMethod, AdminUiHiddenColumns}
    ensures LoadField(go, KindOf(n), Default(n), before) == BuiltIn(n)
  {
  }

  lemma {:induction false} ShownNames(go: Go, n: Name, before: Value)
    requires ReadsDefaults(go) && n in {ProfileFieldEmail, ProfileFieldGivenName, ProfileFieldFamilyName}
    ensures LoadField(go, KindOf(n), Default(n), before) == BuiltIn(n)
  {
  }

  lemma {:induction false} ShownRest(go: Go, n: Name, before: Value)
    requires ReadsDefaults(go) && n in {ProfileFieldPhone, ProfileFieldPicture, ProfileFieldAddress}
    ensures LoadField(go, KindOf(n), Default(n), before) == BuiltIn(n)
  {
  }

  lemma {:induction false} HiddenNames(go: Go, n: Name, before: Value)
    requires ReadsDefaults(go) && n in {ProfileFieldMiddleName, ProfileFieldNickname, ProfileFieldWebsite}
    ensures LoadField(go, KindOf(n), Default(n), before) == BuiltIn(n)
  {
  }

  lemma {:induction false} HiddenRest(go: Go, n: Name, before: Value)
    requires ReadsDefaults(go) && n in {ProfileFieldGender, ProfileFieldBirthdate, ProfileFieldProfile}
    ensures LoadField(go, KindOf(n), Default(n), before) == BuiltIn(n)
  {
  }

  lemma {:induction false} OtherDefaults(go: Go, n: Name, before: Value)
    requires ReadsDefaults(go) && n in {ProfileFieldLocale, ThemeBrandColor, AuditLogRetention}
    ensures LoadField(go, KindOf(n), Default(n), before) != BuiltIn(n)
  {
  }

  /** How a stored text is read, block by block. */
  lemma {:induction false} FieldReads(go: Go, n: Name, v: string, before: Value)
    ensures KindOf(n).Flag? && v in {"1", "t", "T", "TRUE", "true", "True"} ==>
      LoadField(go, KindOf(n), v, before) == FlagV(true)
    ensures KindOf(n).Flag? && v in {"0", "f", "F", "FALSE", "false", "False"} ==>
      LoadField(go, KindOf(n), v, before) == FlagV(false)
    ensures KindOf(n).Number? && go.atoi(v).Some? ==>
      LoadField(go, KindOf(n), v, before) == NumberV(go.atoi(v).value)
    ensures KindOf(n).PositiveNumber? && go.atoi(v).Some? && go.atoi(v).value >= 1 ==>
      LoadField(go, KindOf(n), v, before) == NumberV(go.atoi(v).value)
    ensures KindOf(n).Number? || KindOf(n).PositiveNumber? ==>
      go.atoi(v).None? ==> LoadField(go, KindOf(n), v, before) == before
    ensures KindOf(n).PositiveNumber? && go.atoi(v).Some? && go.atoi(v).value <= 0 ==>
      LoadField(go, KindOf(n), v, before) == before
    ensures KindOf(n).Span? && go.duration(v).Some? ==>
      LoadField(go, KindOf(n), v, before) == SpanV(v, go.duration(v).value)
    ensures KindOf(n).Plain? ==> LoadField(go, KindOf(n), v, before) == TextV(v)
    ensures KindOf(n).NonEmptyText? && v != "" ==> LoadField(go, KindOf(n), v, before) == TextV(v)
    ensures KindOf(n).AuditSpan? && v !in {"", "0", "-1"} && go.duration(v).Some? ==>
      LoadField(go, KindOf(n), v, before) == SpanV(v, go.duration(v).value)
    ensures KindOf(n).StringList? && go.strings(v).Some? ==>
      LoadField(go, KindOf(n), v, before) == ListV(go.strings(v).value)
    ensures KindOf(n).LinkList? && go.links(v).Some? ==>
      LoadField(go, KindOf(n), v, before) == LinksV(go.links(v).value)
  {
  }

  /** The origins of a stored list are its trimmed, non-empty pieces. */
  lemma {:induction false} OriginsRead(go: Go, n: Name, v: string, before: Value, origin: string)
    requires KindOf(n).CorsList?
    ensures LoadField(go, KindOf(n), v, before).ListV?
    ensures
      var pieces := Text.Split(v, ',');
      origin in LoadField(go, KindOf(n), v, before).items <==>
        origin != "" && exists piece :: piece in pieces && Text.TrimSpace(piece) == origin
  {
    var pieces := Text.Split(v, ',');
    Cors.CleanMembers(pieces, origin);
    assert LoadField(go, KindOf(n), v, before).items == Cors.Clean(pieces);
    if i :| 0 <= i < |pieces| && Text.TrimSpace(pieces[i]) == origin {
      assert pieces[i] in pieces;
    }
  }

  /** A flag that cannot be read falls back: on for single sign-on and for PKCE, else off. */
  lemma {:induction false} UnreadableFlag(go: Go, n: Name, v: string, before: Value)
    requires KindOf(n).Flag? && ParseBool(v).None?
    ensures LoadField(go, KindOf(n), v, before) == FlagV(n == SsoEnabled || n == PkceEnforceS256)
  {
  }

  /** `device_code_expiration` is parsed like a duration but not validated like one: a PUT
      of an unparsable value is accepted and stored, and the config keeps the duration it
      had, so table and cache disagree from then on. */
  lemma {:induction false} UnvalidatedDurationGoesStale(go: Go, st: State, junk: string)
    requires Sound(go) && go.duration(junk) == None
    ensures
      var body := map[Known(DeviceCodeExpiration) := junk];
      var after := Apply(go, st, Put(body));
      && after.settings[Known(DeviceCodeExpiration)] == junk
      && after.config[DeviceCodeExpiration] == SpanV(junk, SpanOf(st.config[DeviceCodeExpiration]))
  {
    assert Specials(DeviceCodeExpiration) == None && KindOf(DeviceCodeExpiration) == Span(None);
    PutOne(go, st, DeviceCodeExpiration, junk);
  }

  /** `AuditLogRetention` goes stale when retention is switched off. */
  lemma {:induction false} AuditRetentionGoesStale(go: Go, st: State, off: string)
    requires off in ["", "0", "-1"]
    ensures
      var after := Apply(go, st, Put(map[Known(AuditLogRetention) := off]));
      && after.settings[Known(AuditLogRetention)] == off
      && after.config[AuditLogRetention] == SpanV(off, SpanOf(st.config[AuditLogRetention]))
  {
    PutOne(go, st, AuditLogRetention, off);
  }

  /** The comment on `EnsureDefaults` says that existing values are never overwritten. Exactly
      the values are kept that are not empty, or whose default is empty too. */
  lemma {:induction false} DefaultsKeepIff(t: Table, n: Name)
    requires Known(n) in t
    ensures Defaulted(t, ALL_NAMES)[Known(n)] == t[Known(n)] <==> t[Known(n)] != "" || Default(n) == ""
  {
    DefaultedAt(t, ALL_NAMES, Known(n));
  }

  /** The empty idle timeout ("no timeout") is accepted and loaded as 0, and the next restart
      makes it 4h. */
  lemma {:induction false} RestartReplacesEmptyTimeout(go: Go, st: State)
    requires Sound(go) && Inv(go, st)
    ensures
      var off := Apply(go, st, Put(map[Known(SsoSessionIdleTimeout) := ""]));
      && off.config[SsoSessionIdleTimeout] == SpanV("", 0)
      && Apply(go, off, Restart).config[SsoSessionIdleTimeout] == SpanV("4h", go.duration("4h").value)
  {
    PutOne(go, st, SsoSessionIdleTimeout, "");
    var off := Apply(go, st, Put(map[Known(SsoSessionIdleTimeout) := ""]));
    DefaultsKeepIff(off.settings, SsoSessionIdleTimeout);
    RestartLoads(go, off, SsoSessionIdleTimeout);
    IdleTimeoutLoads(go, "", st.config[SsoSessionIdleTimeout]);
    IdleTimeoutLoads(go, "4h", off.config[SsoSessionIdleTimeout]);
  }

  lemma {:induction false} RestartLoads(go: Go, st: State, n: Name)
    ensures Known(n) in Defaulted(st.settings, ALL_NAMES)
    ensures Apply(go, st, Restart).config[n] ==
      LoadField(go, KindOf(n), Defaulted(st.settings, ALL_NAMES)[Known(n)], st.config[n])
    ensures Defaulted(st.settings, ALL_NAMES)[Known(n)] ==
      if Missing(st.settings, n) then Default(n) else st.settings[Known(n)]
  {
    DefaultedAt(st.settings, ALL_NAMES, Known(n));
  }

  lemma {:induction false} IdleTimeoutLoads(go: Go, v: string, before: Value)
    ensures LoadField(go, KindOf(SsoSessionIdleTimeout), v, before) ==
      SpanV(v, if go.duration(v).Some? then go.duration(v).value else 0)
  {
    assert KindOf(SsoSessionIdleTimeout) == Span(Some(0));
  }

  /** Every setting that is loaded as a duration is validated, except for the device code
      expiration; all other values are accepted as they are. */
  lemma {:induction false} ValidatedIff(go: Go, n: Name, v: string)
    ensures Specials(n).Some? <==> (KindOf(n).Span? || KindOf(n).AuditSpan?) && n != DeviceCodeExpiration
    ensures Specials(n).None? ==> Acceptable(go, n, v)
  {
    hide LoadField, Decides, Default, BuiltIn, Acceptable;
    if Specials(n).None? {
      Unvalidated(go, n, v);
    }
  }

  lemma {:induction false} Unvalidated(go: Go, n: Name, v: string)
    requires Specials(n).None?
    ensures Acceptable(go, n, v)
  {
  }

  /** What is accepted besides durations: nothing for most of them, no timeout for the two of the
      browser login, and for the audit retention also "forever". */
  lemma {:induction false} AcceptedExactly(go: Go, n: Name, v: string)
    requires Specials(n).Some?
    ensures Acceptable(go, n, v) <==>
      || go.duration(v).Some?
      || (n in {SsoSessionIdleTimeout, SsoSessionMaxAge, AuditLogRetention} && v in {"", "0"})
      || (n == AuditLogRetention && v == "-1")
  {
    hide LoadField, Decides, Default, BuiltIn, KindOf;
    if n == SsoSessionIdleTimeout || n == SsoSessionMaxAge {
      assert Specials(n).value == ["", "0"];
    } else if n == AuditLogRetention {
      assert Specials(n).value == ["", "0", "-1"];
    } else {
      assert Specials(n).value == [];
    }
  }

  /** No step writes the private key, and only onboarding and the first start write the flag. */
  lemma {:induction false} ProtectedStay(go: Go, st: State, s: Step)
    ensures Lookup(Apply(go, st, s).settings, Other("private_key")) == Lookup(st.settings, Other("private_key"))
    ensures s.Put? || s.Import? || s.UpdateApplications? || s.CreateUser? || s.DeleteUsers? ==>
      Lookup(Apply(go, st, s).settings, Known(Onboarded)) == Lookup(st.settings, Known(Onboarded))
  {
    if s.Restart? {
      DefaultedAt(st.settings, ALL_NAMES, Other("private_key"));
    }
  }

  // ------------------------------------------------------------------ onboarding

  /** Onboarding is for a server without the flag and without users, and for a valid request; on the
      command line every write must succeed too. */
  lemma {:induction false} OnboardsIff(st: State, s: Step)
    requires s.Onboard? || s.WebOnboard?
    ensures Onboards(st, s) <==>
      && !IsOnboardedIn(st.settings) && st.users == 0 && s.countOk && s.requestOk && s.createOk
      && (s.Onboard? ==> s.roleOk && s.flagOk)
    ensures IsOnboardedIn(st.settings) <==>
      Known(Onboarded) in st.settings && st.settings[Known(Onboarded)] in {"1", "t", "T", "TRUE", "true", "True"}
  {
  }

  /** How many steps of the run are answered as successful onboardings. */
  ghost function Onboardings(go: Go, st: State, steps: seq<Step>): nat
    decreases |steps|
  {
    if steps == [] then 0
    else (if Onboards(st, steps[0]) then 1 else 0) + Onboardings(go, Apply(go, st, steps[0]), steps[1..])
  }

  /** How many of them stored the flag. */
  ghost function StoredOnboardings(go: Go, st: State, steps: seq<Step>): nat
    decreases |steps|
  {
    if steps == [] then 0
    else
      (if Onboards(st, steps[0]) && steps[0].flagOk then 1 else 0)
      + StoredOnboardings(go, Apply(go, st, steps[0]), steps[1..])
  }

  /** No step takes the onboarded flag back. */
  lemma {:induction false} StepKeepsOnboarded(go: Go, st: State, s: Step)
    requires IsOnboardedIn(st.settings)
    ensures IsOnboardedIn(Apply(go, st, s).settings)
  {
  }

  /** Over every sequential run at most one onboarding stores the flag, and none succeeds on a
      server that has it, even if all users are deleted in between. */
  lemma {:induction false} OnboardsAtMostOnce(go: Go, st: State, steps: seq<Step>)
    ensures StoredOnboardings(go, st, steps) <= if IsOnboardedIn(st.settings) then 0 else 1
    ensures IsOnboardedIn(st.settings) ==> Onboardings(go, st, steps) == 0
    decreases |steps|
  {
    if steps != [] {
      if IsOnboardedIn(st.settings) {
        StepKeepsOnboarded(go, st, steps[0]);
      } else if Onboards(st, steps[0]) && steps[0].flagOk {
        assert IsOnboardedIn(Apply(go, st, steps[0]).settings);
      }
      OnboardsAtMostOnce(go, Apply(go, st, steps[0]), steps[1..]);
    }
  }

  /** Exactly when a successful onboarding is the last one: if and only if its flag was stored.
      The page answers as done without looking, and then the server can be onboarded again once
      its users are deleted. */
  lemma {:induction false} OnboardingIsFinalIff(go: Go, st: State, s: Step)
    requires Onboards(st, s)
    ensures s.flagOk <==> forall steps :: Onboardings(go, Apply(go, st, s), steps) == 0
  {
    hide Load, ValidDurations, Defaulted, Imported;
    var after := Apply(go, st, s);
    if s.flagOk {
      forall steps ensures Onboardings(go, after, steps) == 0 {
        OnboardsAtMostOnce(go, after, steps);
      }
    } else {
      var again := WebOnboard(true, true, true, true);
      var steps := [DeleteUsers(0), again];
      var emptied := Apply(go, after, DeleteUsers(0));
      assert steps[0] == DeleteUsers(0) && steps[1..] == [again];
      assert Onboards(emptied, again);
      assert Onboardings(go, after, steps) == Onboardings(go, emptied, [again]);
      assert Onboardings(go, emptied, [again]) >= 1;
    }
  }
}
