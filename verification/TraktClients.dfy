/** The Trakt client's token refresh and the compare-and-swap that persists it. */
module TraktClients {

  import opened Common
  import opened TraktSettings
  import Text

  const REFRESH_MARGIN := 86400.0
  const SHORT_TOKEN_MARGIN := 300.0

  /** `_token_needs_refresh`; an unknown expiry is 0. */
  function NeedsRefresh(refreshToken: string, expiresAt: real, now: real): (r: bool)
    // The day-long margin never decides: a token is refreshed in its last five minutes.
    ensures r <==> refreshToken != "" && expiresAt != 0.0 && expiresAt - now <= SHORT_TOKEN_MARGIN
  {
    if refreshToken == "" || expiresAt == 0.0 then false
    else
      var remaining := expiresAt - now;
      var margin := if remaining > REFRESH_MARGIN then REFRESH_MARGIN else SHORT_TOKEN_MARGIN;
      remaining <= margin
  }

  /** How the storage behind the configuration behaves during one callback. */
  datatype Storage = Works | LoadFails | SaveFails

  datatype Outcome = Accepted | Rejected | Failed

  /** The configuration under its lock. */
  class ConfigStore {
    var active: Raw
    var stored: Raw

    constructor (active: Raw, stored: Raw)
      ensures Value() == Config(active, stored)
    {
      this.active, this.stored := active, stored;
    }

    function Value(): Config reads this { Config(active, stored) }

    /** `_persist_trakt_token_update`: write only over the revision the client knows. */
    method Persist(u: Update, expected: Settings, storage: Storage) returns (outcome: Outcome)
      modifies this
      ensures outcome == Rejected <==> storage != LoadFails && old(Revision(Current(Value()))) != expected
      ensures outcome == Accepted <==> storage == Works && old(Revision(Current(Value()))) == expected
      ensures Value() == if outcome == Accepted then Persisted(old(Value()), u) else old(Value())
      ensures outcome == Accepted && Usable(u) ==> RefreshedConfig(old(Value()), Value(), u)
    {
      ghost var before := Value();
      if storage == LoadFails {
        return Failed;
      }
      var settings := Overlay(active, stored);
      if Revision(settings) != expected {
        return Rejected;
      }
      settings := Overlay(settings, Patch(u));
      if storage == SaveFails {
        return Failed;
      }
      stored := AsRaw(Merge(settings));
      active := stored;
      outcome := Accepted;
      if Usable(u) { PersistedIsRefreshed(before, u); }
    }
  }

  datatype RefreshError = RequestFailed | ConfigurationChanged | StorageFailed

  class TraktClient {
    const store: ConfigStore
    const clientId: string
    const clientSecret: string
    var accessToken: string
    var refreshToken: string
    var expiresAt: real
    /** The closure cells of the persistence callback. */
    var revision: Settings
    var persisted: Raw

    constructor (settings: Raw, expiresAt: real, store: ConfigStore)
      ensures Valid() && this.store == store && revision == Revision(settings)
    {
      this.store := store;
      clientId, clientSecret := Text.Strip(OrEmpty(settings.clientId)), Text.Strip(OrEmpty(settings.clientSecret));
      accessToken, refreshToken := Text.Strip(OrEmpty(settings.accessToken)), Text.Strip(OrEmpty(settings.refreshToken));
      this.expiresAt, revision, persisted := expiresAt, Revision(settings), settings;
    }

    ghost predicate Valid() reads this { revision == Revision(persisted) }

    predicate Ready() reads this { clientId != "" && clientSecret != "" && refreshToken != "" }

    /** The refresh is not needed any more once the lock is held. */
    predicate Settled(force: bool, expected: Option<string>, now: real) reads this {
      (expected.Some? && accessToken != expected.value) || (!force && !NeedsRefresh(refreshToken, expiresAt, now))
    }

    /** Nothing the client or the configuration remembers has changed. */
    twostate predicate Untouched() reads this, store {
      && accessToken == old(accessToken) && refreshToken == old(refreshToken) && expiresAt == old(expiresAt)
      && revision == old(revision) && persisted == old(persisted) && store.Value() == old(store.Value())
    }

    /** The client holds the tokens of the update, the configuration stores the same
        ones, and the client knows the stored revision. */
    twostate predicate Adopted(u: Update) reads this, store {
      && accessToken == u.accessToken && refreshToken == u.refreshToken && expiresAt == u.instant
      && store.Value() == Persisted(old(store.Value()), u) && RefreshedConfig(old(store.Value()), store.Value(), u)
      && revision == Revision(Current(store.Value()))
    }

    /** The end of a refresh: hand the update to the callback, adopt it when accepted. */
    method PersistAndAdopt(u: Update, storage: Storage) returns (outcome: Outcome)
      requires Valid() && Usable(u)
      modifies this, store
      ensures Valid()
      ensures outcome == Rejected <==> storage != LoadFails && old(revision != Revision(Current(store.Value())))
      ensures outcome == Accepted <==> storage == Works && old(revision == Revision(Current(store.Value())))
      ensures if outcome == Accepted then Adopted(u) else Untouched()
    {
      ghost var before, mine := store.Value(), persisted;
      outcome := store.Persist(u, revision, storage);
      if outcome == Accepted {
        Adopt(u);
        PersistedTokens(before, mine, u);
      }
    }

    /** The callback's cells and the client's tokens, after an accepted update. */
    method Adopt(u: Update)
      modifies this
      ensures persisted == Overlay(old(persisted), Patch(u)) && revision == Revision(persisted)
      ensures accessToken == u.accessToken && refreshToken == u.refreshToken && expiresAt == u.instant
    {
      persisted := Overlay(persisted, Patch(u));
      revision := Revision(persisted);
      accessToken, refreshToken, expiresAt := u.accessToken, u.refreshToken, u.instant;
    }

    /** `_refresh_access_token`; `response` is what the token endpoint answers, None any
        failure. The tokens change only together with the stored settings, and then the
        client knows the stored revision again. */
    method Refresh(force: bool, expected: Option<string>, now: real, response: Option<Update>, storage: Storage)
      returns (r: Result<bool, RefreshError>)
      requires Valid() && (response.Some? ==> Usable(response.value))
      modifies this, store
      ensures Valid()
      ensures r == Ok(false) <==> old(!Ready())
      ensures r == Ok(false) <==> clientId == "" || clientSecret == "" || old(refreshToken) == ""
      ensures r != Ok(false) && (expected == None || expected == Some(old(accessToken)))
              && (force || (old(expiresAt) != 0.0 && old(expiresAt) - now <= 300.0))
              ==> (r == Ok(true) <==> response.Some? && storage == Works && old(revision == Revision(Current(store.Value()))))
      ensures (expected.Some? && expected.value != old(accessToken)) || (!force && (old(expiresAt) == 0.0 || old(expiresAt) - now > 300.0))
              ==> r.Ok? && Untouched()
      ensures r == Err(RequestFailed) <==> old(Ready() && !Settled(force, expected, now)) && response.None?
      ensures r == Err(ConfigurationChanged) <==>
        && old(Ready() && !Settled(force, expected, now)) && response.Some?
        && storage != LoadFails && old(revision != Revision(Current(store.Value())))
      ensures r == Err(StorageFailed) <==>
        && old(Ready() && !Settled(force, expected, now)) && response.Some?
        && (storage == LoadFails || (storage == SaveFails && old(revision == Revision(Current(store.Value())))))
      ensures if r == Ok(true) && old(!Settled(force, expected, now)) then response.Some? && Adopted(response.value) else Untouched()
    {
      if !Ready() {
        return Ok(false);
      }
      if expected.Some? && accessToken != expected.value {
        return Ok(true);
      }
      if !force && !NeedsRefresh(refreshToken, expiresAt, now) {
        return Ok(true);
      }
      if response.None? {
        return Err(RequestFailed);
      }
      var outcome := PersistAndAdopt(response.value, storage);
      match outcome
      case Accepted => r := Ok(true);
      case Rejected => r := Err(ConfigurationChanged);
      case Failed => r := Err(StorageFailed);
    }
  }
}
