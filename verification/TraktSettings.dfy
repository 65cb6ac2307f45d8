/** The Trakt section of the configuration: how settings are merged and fingerprinted. */
module TraktSettings {

  import opened Common
  import opened Text

  /** A settings dictionary as it was read: every key may be missing. */
  datatype Raw = Raw(
    enabled: Option<bool>,
    clientId: Option<string>,
    clientSecret: Option<string>,
    accessToken: Option<string>,
    refreshToken: Option<string>,
    expiresAt: Option<string>)

  /** Merged settings: every key present, text stripped. */
  datatype Settings = Settings(
    enabled: bool,
    clientId: string,
    clientSecret: string,
    accessToken: string,
    refreshToken: string,
    expiresAt: string)

  /** What a token refresh stores; section 6 of RFC 6749. */
  datatype Update = Update(accessToken: string, refreshToken: string, expiresAt: string, instant: real)

  function AsRaw(s: Settings): Raw {
    Raw(Some(s.enabled), Some(s.clientId), Some(s.clientSecret), Some(s.accessToken), Some(s.refreshToken), Some(s.expiresAt))
  }

  function Over<T>(upper: Option<T>, lower: Option<T>): Option<T> { if upper.Some? then upper else lower }

  /** dict(lower); .update(upper) */
  function Overlay(lower: Raw, upper: Raw): Raw {
    Raw(Over(upper.enabled, lower.enabled), Over(upper.clientId, lower.clientId),
        Over(upper.clientSecret, lower.clientSecret), Over(upper.accessToken, lower.accessToken),
        Over(upper.refreshToken, lower.refreshToken), Over(upper.expiresAt, lower.expiresAt))
  }

  function OrEmpty(o: Option<string>): string { if o.Some? then o.value else "" }

  /** `_migrate_trakt_config_v1_to_v2`: an access token without a refresh token forces
      a new authentication. The texts are looked at before they are stripped. */
  function Migrate(r: Raw): Raw {
    if OrEmpty(r.accessToken) != "" && OrEmpty(r.refreshToken) == ""
    then r.(enabled := Some(false), accessToken := Some(""))
    else r
  }

  /** `_merge_trakt_settings` */
  function Merge(raw: Raw): (s: Settings)
    ensures s.enabled ==> s.clientId != "" && s.clientSecret != "" && s.accessToken != "" && s.refreshToken != ""
  {
    var r := Migrate(raw);
    var s := Settings(r.enabled == Some(true), Strip(OrEmpty(r.clientId)), Strip(OrEmpty(r.clientSecret)),
                      Strip(OrEmpty(r.accessToken)), Strip(OrEmpty(r.refreshToken)), Strip(OrEmpty(r.expiresAt)));
    s.(enabled := s.enabled && s.clientId != "" && s.clientSecret != "" && s.accessToken != "" && s.refreshToken != "")
  }

  /** Each key keeps its own value, stripped; a missing one is empty. An access token
      without a refresh token is dropped, and only complete settings are enabled. */
  lemma MergedFields(r: Raw)
    ensures
      var s, lone := Merge(r), OrEmpty(r.accessToken) != "" && OrEmpty(r.refreshToken) == "";
      && (r.clientId.Some? ==> s.clientId == Strip(r.clientId.value)) && (r.clientId.None? ==> s.clientId == "")
      && (r.clientSecret.Some? ==> s.clientSecret == Strip(r.clientSecret.value)) && (r.clientSecret.None? ==> s.clientSecret == "")
      && (r.refreshToken.Some? ==> s.refreshToken == Strip(r.refreshToken.value)) && (r.refreshToken.None? ==> s.refreshToken == "")
      && (r.expiresAt.Some? ==> s.expiresAt == Strip(r.expiresAt.value)) && (r.expiresAt.None? ==> s.expiresAt == "")
      && (lone || r.accessToken.None? ==> s.accessToken == "") && (!lone && r.accessToken.Some? ==> s.accessToken == Strip(r.accessToken.value))
      && (s.enabled <==> r.enabled == Some(true) && "" !in [s.clientId, s.clientSecret, s.accessToken, s.refreshToken])
  { }

  predicate AllStripped(s: Settings) {
    && Stripped(s.clientId) && Stripped(s.clientSecret) && Stripped(s.accessToken)
    && Stripped(s.refreshToken) && Stripped(s.expiresAt)
  }

  /** Settings are kept as they are exactly when their texts have no white space at the
      ends, no access token stands alone, and they are complete where they are enabled. */
  lemma MergeKeepsExactly(s: Settings)
    ensures Merge(AsRaw(s)) == s <==>
      && AllStripped(s)
      && (s.accessToken != "" ==> s.refreshToken != "")
      && (s.enabled ==> s.clientId != "" && s.clientSecret != "" && s.accessToken != "" && s.refreshToken != "")
  {
    StrippedIsStrip(s.clientId);
    StrippedIsStrip(s.clientSecret);
    StrippedIsStrip(s.accessToken);
    StrippedIsStrip(s.refreshToken);
    StrippedIsStrip(s.expiresAt);
  }

  lemma StrippedIsStrip(t: string)
    ensures Strip(t) == t <==> Stripped(t)
  {
    StripResult(t);
    if Stripped(t) { StripStripped(t); }
  }

  /** `_trakt_settings_revision`, the digest being injective. */
  function Revision(r: Raw): Settings { Merge(r) }

  /** A refresh token of blanks only next to a real access token. */
  predicate BlankRefresh(r: Raw) {
    Strip(OrEmpty(r.accessToken)) != "" && OrEmpty(r.refreshToken) != "" && Strip(OrEmpty(r.refreshToken)) == ""
  }

  /** Merging merged settings again changes nothing, except in this one family: the
      blank refresh token survives the migration and is stripped only afterwards. */
  lemma MergeIsIdempotentExactly(r: Raw)
    ensures Merge(AsRaw(Merge(r))) == Merge(r) <==> !BlankRefresh(r)
  {
    var m := Migrate(r);
    StripTwice(OrEmpty(m.clientId));
    StripTwice(OrEmpty(m.clientSecret));
    StripTwice(OrEmpty(m.accessToken));
    StripTwice(OrEmpty(m.refreshToken));
    StripTwice(OrEmpty(m.expiresAt));
  }

  /** The token endpoint's answer as `_token_values_from_refresh` lets it through. */
  predicate Usable(u: Update) {
    u.accessToken != "" && Strip(u.accessToken) == u.accessToken && u.refreshToken != "" && Strip(u.refreshToken) == u.refreshToken
  }

  function Patch(u: Update): Raw {
    Raw(Some(true), None, None, Some(u.accessToken), Some(u.refreshToken), Some(u.expiresAt))
  }

  /** An update makes two dictionaries with one revision agree again: the client's own
      copy of its settings can stand in for the stored ones. */
  lemma PatchKeepsAgreement(a: Raw, b: Raw, u: Update)
    requires Usable(u) && Revision(a) == Revision(b)
    ensures Revision(Overlay(a, Patch(u))) == Revision(Overlay(b, Patch(u)))
  {
    assert Merge(a).clientId == Strip(OrEmpty(a.clientId));
    assert Merge(b).clientSecret == Strip(OrEmpty(b.clientSecret));
  }

  /** What the configuration database and the published configuration hold. */
  datatype Config = Config(active: Raw, stored: Raw)

  /** The settings a refresh is compared against: stored over published. */
  function Current(c: Config): Raw { Overlay(c.active, c.stored) }

  /** `_persist_trakt_token_update` once the revision was found unchanged. */
  function Persisted(c: Config, u: Update): Config {
    var merged := AsRaw(Merge(Overlay(Current(c), Patch(u))));
    Config(merged, merged)
  }

  /** The stored value, the published one where nothing is stored. */
  function Held(stored: Option<string>, published: Option<string>): string {
    match (stored, published)
    case (Some(t), _) => t
    case (None, Some(t)) => t
    case (None, None) => ""
  }

  /** The configuration after a refresh, key by key: the new tokens, the credentials that
      were there, and enabled when those are not blank. */
  predicate RefreshedConfig(before: Config, after: Config, u: Update) {
    var id := Strip(Held(before.stored.clientId, before.active.clientId));
    var secret := Strip(Held(before.stored.clientSecret, before.active.clientSecret));
    && after.stored.accessToken == Some(u.accessToken) && after.stored.refreshToken == Some(u.refreshToken)
    && after.stored.expiresAt == Some(Strip(u.expiresAt))
    && after.stored.clientId == Some(id) && after.stored.clientSecret == Some(secret)
    && after.stored.enabled == Some(id != "" && secret != "")
    && after.active == after.stored
  }

  /** The stored settings after a refresh carry exactly the new tokens, keep the client
      credentials, are enabled when those exist, and have the revision the client
      computes from its own copy. */
  lemma PersistedTokens(c: Config, mine: Raw, u: Update)
    requires Usable(u) && Revision(mine) == Revision(Current(c))
    ensures RefreshedConfig(c, Persisted(c, u), u)
    ensures Revision(Current(Persisted(c, u))) == Revision(Overlay(mine, Patch(u)))
    ensures AsRaw(Revision(Current(Persisted(c, u)))) == Persisted(c, u).stored
  {
    PatchKeepsAgreement(mine, Current(c), u);
    var patched := Overlay(Current(c), Patch(u));
    assert !BlankRefresh(patched);
    MergeIsIdempotentExactly(patched);
    assert Current(Persisted(c, u)) == AsRaw(Merge(patched));
    PersistedIsRefreshed(c, u);
  }

  lemma PersistedIsRefreshed(c: Config, u: Update)
    requires Usable(u)
    ensures RefreshedConfig(c, Persisted(c, u), u)
  {
    MergedFields(Overlay(Current(c), Patch(u)));
  }

  /** Loading the configuration publishes the merged stored settings. */
  function Loaded(c: Config): Config { Config(AsRaw(Merge(c.stored)), c.stored) }

  /** A client built from freshly loaded settings starts with the revision of the
      stored ones, but for the same family. */
  lemma LoadedClientIsCurrentExactly(c: Config)
    ensures Revision(Loaded(c).active) == Revision(Current(Loaded(c))) <==> !BlankRefresh(c.stored)
  {
    var l := Current(Loaded(c));
    assert OrEmpty(l.accessToken) == OrEmpty(c.stored.accessToken) && OrEmpty(l.refreshToken) == OrEmpty(c.stored.refreshToken);
    assert Merge(l) == Merge(c.stored);
    MergeIsIdempotentExactly(c.stored);
  }

  /** Loading does not change the revision of settings a refresh has stored. */
  lemma LoadingKeepsRevision(c: Config)
    requires c.active == c.stored
    ensures Revision(Current(Loaded(c))) == Revision(Current(c))
  {
    var l := Current(Loaded(c));
    assert OrEmpty(l.accessToken) == OrEmpty(c.stored.accessToken) && OrEmpty(l.refreshToken) == OrEmpty(c.stored.refreshToken);
  }
}
