/** Several clients, several callers each, and other writers of the configuration,
    interleaved: what a token refresh guarantees. Acquiring a client's token lock, the
    endpoint's answer, the commit and the adoption are separate steps. */
module TraktProtocol {

  import opened Common
  import opened TraktSettings
  import Text

  type ClientId = nat

  datatype Phase = Requesting | Granted(granted: Update) | Committed(committed: Update)

  /** The caller inside a client's token lock. */
  datatype Holder = Holder(expected: Option<string>, phase: Phase)

  datatype Client = Client(accessToken: string, refreshToken: string, revision: Settings, persisted: Raw, holder: Option<Holder>)

  datatype State = State(
    config: Config,
    clients: map<ClientId, Client>,
    /** History: access tokens each client ever had or was granted, */
    seen: map<ClientId, set<string>>,
    /** access tokens committed to the configuration by each client, or built with, */
    backed: map<ClientId, set<string>>,
    /** how many times a caller holding this stale token made its client adopt another, */
    adoptions: map<(ClientId, string), nat>,
    /** and the clients whose revision nobody has invalidated since. */
    inSync: set<ClientId>)

  datatype Event =
    | Build(client: ClientId, settings: Raw)
    | Acquire(client: ClientId, expected: Option<string>, force: bool, due: bool)
    | Respond(client: ClientId, response: Option<Update>)
    | Commit(client: ClientId)
    | CommitFails(client: ClientId)
    | Adopt(client: ClientId)
    | Write(config: Config)

  function Initial(config: Config): State { State(config, map[], map[], map[], map[], {}) }

  predicate HolderIn(s: State, c: ClientId) { c in s.clients && s.clients[c].holder.Some? }

  function PhaseOf(s: State, c: ClientId): Phase requires HolderIn(s, c) { s.clients[c].holder.value.phase }

  /** `_get_trakt_client`: a client of its own for every new revision. */
  function DoBuild(s: State, c: ClientId, settings: Raw): State {
    if c in s.clients then s
    else
      var token := Text.Strip(OrEmpty(settings.accessToken));
      var client := Client(token, Text.Strip(OrEmpty(settings.refreshToken)), Revision(settings), settings, None);
      s.(clients := s.clients[c := client], seen := s.seen[c := {token}], backed := s.backed[c := {token}],
         inSync := if Revision(settings) == Revision(Current(s.config)) then s.inSync + {c} else s.inSync - {c})
  }

  /** Enter the token lock; leave at once when another caller already refreshed or
      nothing is due. */
  function DoAcquire(s: State, c: ClientId, expected: Option<string>, force: bool, due: bool): State {
    if c !in s.clients || s.clients[c].holder.Some? || s.clients[c].refreshToken == "" then s
    else if expected.Some? && s.clients[c].accessToken != expected.value then s
    else if !force && !due then s
    else WithHolder(s, c, Some(Holder(expected, Requesting)))
  }

  function WithHolder(s: State, c: ClientId, h: Option<Holder>): State requires c in s.clients {
    s.(clients := s.clients[c := s.clients[c].(holder := h)])
  }

  function Release(s: State, c: ClientId): State requires c in s.clients { WithHolder(s, c, None) }

  /** The endpoint never issues an access token this client has seen. */
  function DoRespond(s: State, c: ClientId, response: Option<Update>): State {
    if !HolderIn(s, c) || PhaseOf(s, c) != Requesting || c !in s.seen then s
    else if response.None? then Release(s, c)
    else if !Usable(response.value) || response.value.accessToken in s.seen[c] then s
    else
      var h := s.clients[c].holder.value;
      s.(clients := s.clients[c := s.clients[c].(holder := Some(h.(phase := Granted(response.value))))],
         seen := s.seen[c := s.seen[c] + {response.value.accessToken}])
  }

  predicate Accepts(s: State, c: ClientId) { c in s.clients && s.clients[c].revision == Revision(Current(s.config)) }

  /** The callback: compare the revision and write, under the configuration lock. */
  function DoCommit(s: State, c: ClientId): State {
    if !HolderIn(s, c) || !PhaseOf(s, c).Granted? || c !in s.backed then s
    else if !Accepts(s, c) then Release(s, c)
    else
      var u := PhaseOf(s, c).granted;
      var h := s.clients[c].holder.value;
      s.(config := Persisted(s.config, u),
         clients := s.clients[c := s.clients[c].(holder := Some(h.(phase := Committed(u))))],
         backed := s.backed[c := s.backed[c] + {u.accessToken}],
         inSync := {c})
  }

  /** The storage fails inside the callback: nothing is written and the call raises. */
  function DoCommitFails(s: State, c: ClientId): State {
    if HolderIn(s, c) && PhaseOf(s, c).Granted? then Release(s, c) else s
  }

  function Count(s: State, c: ClientId, token: string): nat {
    if (c, token) in s.adoptions then s.adoptions[(c, token)] else 0
  }

  /** The closure cells and the client's tokens, still inside the token lock. */
  function DoAdopt(s: State, c: ClientId): State {
    if !HolderIn(s, c) || !PhaseOf(s, c).Committed? then s
    else
      var u := PhaseOf(s, c).committed;
      var k := s.clients[c];
      var persisted := Overlay(k.persisted, Patch(u));
      var stale := if k.holder.value.expected.Some? then k.holder.value.expected.value else k.accessToken;
      s.(clients := s.clients[c := Client(u.accessToken, u.refreshToken, Revision(persisted), persisted, None)],
         adoptions := s.adoptions[(c, stale) := Count(s, c, stale) + 1])
  }

  /** Any other writer that holds the configuration lock. */
  function DoWrite(s: State, config: Config): State {
    s.(config := config, inSync := if Revision(Current(config)) == Revision(Current(s.config)) then s.inSync else {})
  }

  function Step(s: State, e: Event): State {
    match e
    case Build(c, settings) => DoBuild(s, c, settings)
    case Acquire(c, expected, force, due) => DoAcquire(s, c, expected, force, due)
    case Respond(c, response) => DoRespond(s, c, response)
    case Commit(c) => DoCommit(s, c)
    case CommitFails(c) => DoCommitFails(s, c)
    case Adopt(c) => DoAdopt(s, c)
    case Write(config) => DoWrite(s, config)
  }

  function After(s: State, run: seq<Event>): State
    decreases |run|
  {
    if run == [] then s else After(Step(s, run[0]), run[1..])
  }

  // ---------- undisturbed refreshes ----------

  /** A client starts with the stripped tokens of its settings and knows their revision. */
  lemma BuiltExactly(s: State, c: ClientId, settings: Raw)
    requires c !in s.clients
    ensures
      var s' := DoBuild(s, c, settings);
      && c in s'.clients && s'.clients == s.clients[c := s'.clients[c]] && s'.config == s.config
      && (c in s'.inSync <==> Merge(settings) == Merge(Current(s.config))) && s'.inSync - {c} == s.inSync - {c}
      && var k := s'.clients[c];
         && k.holder == None && k.persisted == settings && k.revision == Merge(settings)
         && (settings.accessToken.Some? ==> k.accessToken == Text.Strip(settings.accessToken.value))
         && (settings.refreshToken.Some? ==> k.refreshToken == Text.Strip(settings.refreshToken.value))
         && (settings.accessToken.None? ==> k.accessToken == "") && (settings.refreshToken.None? ==> k.refreshToken == "")
  { }

  /** The lock is taken when it is free, there is a refresh token, nobody was faster and a
      refresh is due or forced. */
  lemma AcquiredExactly(s: State, c: ClientId, expected: Option<string>, force: bool, due: bool)
    requires c in s.clients
    ensures
      var k, k' := s.clients[c], DoAcquire(s, c, expected, force, due).clients[c];
      if k.holder.None? && k.refreshToken != "" && (expected.None? || expected.value == k.accessToken) && (force || due)
      then k' == k.(holder := Some(Holder(expected, Requesting)))
      else DoAcquire(s, c, expected, force, due) == s
  { }

  function Answered(s: State, c: ClientId, u: Update): State { DoCommit(DoRespond(s, c, Some(u)), c) }

  /** A usable answer is stored and adopted when the stored revision is the one the client
      knows; otherwise, and without an answer, the lock is released and nothing changes. */
  lemma RefreshGoesThrough(s: State, c: ClientId, u: Update)
    requires c in s.clients && s.clients[c].holder.Some? && s.clients[c].holder.value.phase == Requesting
    requires Usable(u) && c in s.seen && c in s.backed && u.accessToken !in s.seen[c]
    ensures
      var k, s' := s.clients[c], DoAdopt(Answered(s, c, u), c);
      var stale := if k.holder.value.expected.Some? then k.holder.value.expected.value else k.accessToken;
      && c in s'.clients && s'.clients == s.clients[c := s'.clients[c]] && s'.clients[c].holder == None
      && if k.revision == Merge(Current(s.config)) then
           && RefreshedConfig(s.config, s'.config, u)
           && s'.clients[c].accessToken == u.accessToken && s'.clients[c].refreshToken == u.refreshToken
           && s'.clients[c].persisted == Overlay(k.persisted, Patch(u)) && s'.clients[c].revision == Merge(s'.clients[c].persisted)
           && u.accessToken in s'.backed[c] && Count(s', c, stale) == Count(s, c, stale) + 1
         else s'.config == s.config && s'.clients[c] == k.(holder := None) && s'.adoptions == s.adoptions
    ensures DoRespond(s, c, None) == Release(s, c)
  {
    PersistedIsRefreshed(s.config, u);
  }

  // ---------- the invariant, client by client ----------

  function Expected(k: Client): Settings {
    if k.holder.Some? && k.holder.value.phase.Committed?
    then Revision(Overlay(k.persisted, Patch(k.holder.value.phase.committed)))
    else k.revision
  }

  ghost predicate TokensSeen(s: State, c: ClientId) requires c in s.clients {
    var k := s.clients[c];
    && c in s.seen && c in s.backed && k.accessToken in s.seen[c] && k.accessToken in s.backed[c]
    && (forall t :: (c, t) in s.adoptions ==> t in s.seen[c])
  }

  ghost predicate HolderFits(s: State, c: ClientId) requires c in s.clients {
    var k := s.clients[c];
    k.holder.Some? ==>
      && (k.holder.value.expected.Some? ==> k.accessToken == k.holder.value.expected.value)
      && match k.holder.value.phase
         case Requesting => true
         case Granted(u) => Usable(u) && Next(s, c, u.accessToken)
         case Committed(u) => Usable(u) && Next(s, c, u.accessToken) && c in s.backed && u.accessToken in s.backed[c]
  }

  /** A token on its way in: seen, but neither current nor ever given up. */
  ghost predicate Next(s: State, c: ClientId, token: string) requires c in s.clients {
    c in s.seen && token in s.seen[c] && token != s.clients[c].accessToken && Count(s, c, token) == 0
  }

  /** The client will be accepted at its next commit. */
  ghost predicate UpToDate(k: Client, config: Config) { Expected(k) == Revision(Current(config)) }

  ghost predicate KnowsItsCopy(k: Client) { k.revision == Revision(k.persisted) }

  ghost predicate ClientInv(s: State, c: ClientId) requires c in s.clients {
    && TokensSeen(s, c) && HolderFits(s, c) && KnowsItsCopy(s.clients[c])
    && Count(s, c, s.clients[c].accessToken) == 0
    && (c in s.inSync ==> UpToDate(s.clients[c], s.config))
  }

  ghost predicate Inv(s: State) {
    && (forall c :: c in s.clients ==> ClientInv(s, c))
    && s.inSync <= s.clients.Keys
    && (forall c, t :: (c, t) in s.adoptions ==> c in s.clients && s.adoptions[(c, t)] <= 1)
  }

  lemma InvInitial(config: Config)
    ensures Inv(Initial(config))
  { }

  /** Only this client's entries differ. */
  ghost predicate Frame(s: State, s': State, c: ClientId) {
    && s'.config == s.config && s'.inSync <= s.inSync + {c}
    && s'.clients.Keys == s.clients.Keys + {c}
    && (forall d :: d in s.clients && d != c ==> s'.clients[d] == s.clients[d])
    && (forall d :: d in s.seen && d != c ==> d in s'.seen && s'.seen[d] == s.seen[d])
    && (forall d :: d in s.backed && d != c ==> d in s'.backed && s'.backed[d] == s.backed[d])
    && (forall d, t :: d != c ==> ((d, t) in s'.adoptions <==> (d, t) in s.adoptions))
    && (forall d, t :: d != c && (d, t) in s.adoptions ==> s'.adoptions[(d, t)] == s.adoptions[(d, t)])
  }

  lemma OtherKept(s: State, s': State, c: ClientId, d: ClientId)
    requires d in s.clients && ClientInv(s, d) && d != c && Frame(s, s', c)
    ensures ClientInv(s', d)
  {
    assert TokensSeen(s', d);
    assert HolderFits(s', d);
  }

  /** A step inside one client keeps the invariant when that client's own part holds. */
  lemma OneClientStep(s: State, s': State, c: ClientId)
    requires Inv(s) && Frame(s, s', c) && ClientInv(s', c)
    requires forall t :: (c, t) in s'.adoptions ==> s'.adoptions[(c, t)] <= 1
    ensures Inv(s')
  {
    forall d | d in s'.clients ensures ClientInv(s', d) {
      if d != c {
        OtherKept(s, s', c, d);
      }
    }
    forall d, t | (d, t) in s'.adoptions ensures d in s'.clients && s'.adoptions[(d, t)] <= 1 {
      if d != c {
        assert (d, t) in s.adoptions;
      }
    }
  }

  lemma BuildKeepsInv(s: State, c: ClientId, settings: Raw)
    requires Inv(s)
    ensures Inv(DoBuild(s, c, settings))
  {
    if c !in s.clients {
      BuiltFrame(s, c, settings);
      OneClientStep(s, DoBuild(s, c, settings), c);
    }
  }

  lemma BuiltFrame(s: State, c: ClientId, settings: Raw)
    requires Inv(s) && c !in s.clients
    ensures Frame(s, DoBuild(s, c, settings), c) && ClientInv(DoBuild(s, c, settings), c)
    ensures DoBuild(s, c, settings).adoptions == s.adoptions
  { }

  lemma AcquireKeepsInv(s: State, c: ClientId, expected: Option<string>, force: bool, due: bool)
    requires Inv(s)
    ensures Inv(DoAcquire(s, c, expected, force, due))
  {
    if DoAcquire(s, c, expected, force, due) != s {
      var k := Some(Holder(expected, Requesting));
      HeldFrame(s, c, k);
      assert ClientInv(s, c);
      assert HolderFits(WithHolder(s, c, k), c);
      OneClientStep(s, WithHolder(s, c, k), c);
    }
  }

  lemma HeldFrame(s: State, c: ClientId, h: Option<Holder>)
    requires c in s.clients
    ensures Frame(s, WithHolder(s, c, h), c)
    ensures TokensSeen(s, c) ==> TokensSeen(WithHolder(s, c, h), c)
  { }

  lemma ReleaseKeepsInv(s: State, c: ClientId)
    requires Inv(s) && HolderIn(s, c) && !PhaseOf(s, c).Committed?
    ensures Inv(Release(s, c))
  {
    HeldFrame(s, c, None);
    assert ClientInv(s, c);
    OneClientStep(s, Release(s, c), c);
  }

  lemma RespondKeepsInv(s: State, c: ClientId, response: Option<Update>)
    requires Inv(s)
    ensures Inv(DoRespond(s, c, response))
  {
    var s' := DoRespond(s, c, response);
    if s' != s {
      if response.None? {
        ReleaseKeepsInv(s, c);
      } else {
        GrantedInv(s, s', c, response.value);
        GrantedFrame(s, s', c, response.value);
        OneClientStep(s, s', c);
      }
    }
  }

  lemma GrantedFrame(s: State, s': State, c: ClientId, u: Update)
    requires HolderIn(s, c) && PhaseOf(s, c) == Requesting && c in s.seen
    requires Usable(u) && u.accessToken !in s.seen[c] && s' == DoRespond(s, c, Some(u))
    ensures Frame(s, s', c) && s'.adoptions == s.adoptions
  { }

  lemma GrantedInv(s: State, s': State, c: ClientId, u: Update)
    requires Inv(s) && HolderIn(s, c) && PhaseOf(s, c) == Requesting && c in s.seen
    requires Usable(u) && u.accessToken !in s.seen[c] && s' == DoRespond(s, c, Some(u))
    ensures ClientInv(s', c)
  {
    assert ClientInv(s, c);
    assert TokensSeen(s', c);
    assert Count(s, c, u.accessToken) == 0;
    assert Next(s', c, u.accessToken);
    assert HolderFits(s', c);
    assert c in s.inSync ==> UpToDate(s.clients[c], s.config);
  }

  lemma CommitKeepsInv(s: State, c: ClientId)
    requires Inv(s)
    ensures Inv(DoCommit(s, c))
  {
    var s' := DoCommit(s, c);
    if HolderIn(s, c) && PhaseOf(s, c).Granted? {
      assert ClientInv(s, c);
      if !Accepts(s, c) {
        ReleaseKeepsInv(s, c);
      } else {
        var same := s'.(config := s.config, inSync := {});
        CommittedFrame(s, s', c);
        CommittedInv(s, s', c);
        forall d | d in s'.clients ensures ClientInv(s', d) {
          if d != c {
            OtherKept(s, same, c, d);
            ElsewhereInv(same, s', d);
          }
        }
      }
    }
  }

  lemma CommittedFrame(s: State, s': State, c: ClientId)
    requires HolderIn(s, c) && PhaseOf(s, c).Granted? && Accepts(s, c) && c in s.backed && s' == DoCommit(s, c)
    ensures Frame(s, s'.(config := s.config, inSync := {}), c) && s'.adoptions == s.adoptions && s'.inSync == {c}
  { }

  /** Only the configuration and the synced clients, not including this one, differ. */
  lemma ElsewhereInv(s: State, s': State, c: ClientId)
    requires c in s.clients && ClientInv(s, c) && s' == s.(config := s'.config, inSync := s'.inSync) && c !in s'.inSync
    ensures ClientInv(s', c)
  {
    assert TokensSeen(s', c) && HolderFits(s', c);
  }

  lemma CommittedInv(s: State, s': State, c: ClientId)
    requires Inv(s) && HolderIn(s, c) && PhaseOf(s, c).Granted? && Accepts(s, c) && c in s.backed && s' == DoCommit(s, c)
    ensures ClientInv(s', c)
  {
    assert ClientInv(s, c);
    var u := PhaseOf(s, c).granted;
    assert TokensSeen(s', c);
    assert Next(s', c, u.accessToken);
    assert HolderFits(s', c);
    CommitIsUpToDate(s.config, s.clients[c], s'.clients[c], u);
  }

  lemma CommitIsUpToDate(config: Config, k: Client, k': Client, u: Update)
    requires Usable(u) && KnowsItsCopy(k) && k.revision == Revision(Current(config))
    requires k'.persisted == k.persisted && k'.holder.Some? && k'.holder.value.phase == Committed(u)
    ensures UpToDate(k', Persisted(config, u))
  {
    PersistedTokens(config, k.persisted, u);
  }

  lemma AdoptKeepsInv(s: State, c: ClientId)
    requires Inv(s)
    ensures Inv(DoAdopt(s, c))
  {
    var s' := DoAdopt(s, c);
    if HolderIn(s, c) && PhaseOf(s, c).Committed? {
      AdoptedFrame(s, s', c);
      AdoptedInv(s, s', c);
      OneClientStep(s, s', c);
    }
  }

  lemma AdoptedFrame(s: State, s': State, c: ClientId)
    requires HolderIn(s, c) && PhaseOf(s, c).Committed? && s' == DoAdopt(s, c)
    ensures Frame(s, s', c)
  { }

  /** The token given up is the one the caller held, and it was never given up before. */
  lemma AdoptedInv(s: State, s': State, c: ClientId)
    requires Inv(s) && HolderIn(s, c) && PhaseOf(s, c).Committed? && s' == DoAdopt(s, c)
    ensures ClientInv(s', c)
    ensures forall t :: (c, t) in s'.adoptions ==> s'.adoptions[(c, t)] <= 1
  {
    assert ClientInv(s, c);
    var k, k' := s.clients[c], s'.clients[c];
    var u := PhaseOf(s, c).committed;
    assert Count(s, c, k.accessToken) == 0 && Count(s, c, u.accessToken) == 0;
    assert Count(s', c, u.accessToken) == 0;
    assert TokensSeen(s', c) && HolderFits(s', c);
    assert Expected(k') == Expected(k);
    assert c in s.inSync ==> UpToDate(k, s.config);
  }

  lemma WriteKeepsInv(s: State, config: Config)
    requires Inv(s)
    ensures Inv(DoWrite(s, config))
  {
    forall c | c in s.clients ensures ClientInv(DoWrite(s, config), c) {
      assert ClientInv(s, c);
    }
  }

  lemma StepKeepsInv(s: State, e: Event)
    requires Inv(s)
    ensures Inv(Step(s, e))
  {
    match e
    case Build(c, settings) => BuildKeepsInv(s, c, settings);
    case Acquire(c, expected, force, due) => AcquireKeepsInv(s, c, expected, force, due);
    case Respond(c, response) => RespondKeepsInv(s, c, response);
    case Commit(c) => CommitKeepsInv(s, c);
    case CommitFails(c) => if HolderIn(s, c) && PhaseOf(s, c).Granted? { ReleaseKeepsInv(s, c); }
    case Adopt(c) => AdoptKeepsInv(s, c);
    case Write(config) => WriteKeepsInv(s, config);
  }

  lemma {:induction false} InvAlways(s: State, run: seq<Event>)
    requires Inv(s)
    ensures Inv(After(s, run))
    decreases |run|
  {
    if run != [] {
      StepKeepsInv(s, run[0]);
      InvAlways(Step(s, run[0]), run[1..]);
    }
  }

  // ---------- the guarantees ----------

  /** Callers that hold one stale access token make their client adopt at most one
      replacement, and every token a client uses was built in or persisted first. */
  lemma OneReplacement(config: Config, run: seq<Event>, c: ClientId, stale: string)
    ensures
      var s := After(Initial(config), run);
      && Count(s, c, stale) <= 1
      && (c in s.clients ==> c in s.backed && s.clients[c].accessToken in s.backed[c])
  {
    InvInitial(config);
    InvAlways(Initial(config), run);
    var s := After(Initial(config), run);
    if c in s.clients {
      assert ClientInv(s, c);
    }
  }

  predicate CommitSucceeds(s: State, c: ClientId) {
    HolderIn(s, c) && PhaseOf(s, c).Granted? && c in s.backed && Accepts(s, c)
  }

  predicate Backs(s: State, c: ClientId, token: string) { c in s.backed && token in s.backed[c] }

  lemma BackedByCommit(s: State, e: Event, c: ClientId, token: string)
    requires Backs(Step(s, e), c, token) && !Backs(s, c, token) && !e.Build?
    ensures e == Commit(c) && CommitSucceeds(s, c) && PhaseOf(s, c).granted.accessToken == token
  {
    match e
    case Build(_, _) =>
    case Acquire(_, _, _, _) =>
    case Respond(_, _) =>
    case Commit(d) => assert CommitSucceeds(s, d);
    case CommitFails(_) =>
    case Adopt(_) =>
    case Write(_) =>
  }

  /** A token becomes backed by building a client with it or by a commit against an
      unchanged revision that stores it. */
  lemma BackedMeansStored(s: State, e: Event, c: ClientId, token: string)
    requires Inv(s) && Backs(Step(s, e), c, token) && !Backs(s, c, token)
    ensures e.Build? || (e == Commit(c) && CommitSucceeds(s, c) && Merge(Step(s, e).config.stored).accessToken == token)
  {
    if !e.Build? {
      BackedByCommit(s, e, c, token);
      CommitStores(s, c);
    }
  }

  lemma CommitStores(s: State, c: ClientId)
    requires Inv(s) && CommitSucceeds(s, c)
    ensures Merge(DoCommit(s, c).config.stored).accessToken == PhaseOf(s, c).granted.accessToken
  {
    assert ClientInv(s, c);
    var u := PhaseOf(s, c).granted;
    PersistedTokens(s.config, s.clients[c].persisted, u);
    assert Current(Persisted(s.config, u)) == Persisted(s.config, u).stored;
  }

  /** Somebody else changes what the stored settings amount to. */
  predicate Disturbs(s: State, e: Event, c: ClientId) {
    match e
    case Write(config) => Revision(Current(config)) != Revision(Current(s.config))
    case Commit(d) => d != c && CommitSucceeds(s, d)
    case _ => false
  }

  predicate Undisturbed(s: State, run: seq<Event>, c: ClientId)
    decreases |run|
  {
    run == [] || (!Disturbs(s, run[0], c) && Undisturbed(Step(s, run[0]), run[1..], c))
  }

  lemma StepStaysInSync(s: State, e: Event, c: ClientId)
    requires c in s.clients && c in s.inSync && !Disturbs(s, e, c)
    ensures c in Step(s, e).inSync
  { }

  lemma {:induction false} StaysInSync(s: State, run: seq<Event>, c: ClientId)
    requires Inv(s) && c in s.inSync && Undisturbed(s, run, c)
    ensures Inv(After(s, run)) && c in After(s, run).inSync && c in After(s, run).clients
    decreases |run|
  {
    if run != [] {
      StepKeepsInv(s, run[0]);
      StepStaysInSync(s, run[0], c);
      StaysInSync(Step(s, run[0]), run[1..], c);
    }
  }

  /** After an accepted refresh the client knows the revision of the stored settings,
      so whatever else happens its next refresh is rejected only if someone else wrote. */
  lemma NextRefreshIsAccepted(s: State, c: ClientId, run: seq<Event>)
    requires Inv(s) && CommitSucceeds(s, c)
    requires Undisturbed(Step(s, Commit(c)), run, c)
    ensures
      var s' := After(Step(s, Commit(c)), run);
      && c in s'.clients && Expected(s'.clients[c]) == Revision(Current(s'.config))
      && (HolderIn(s', c) && PhaseOf(s', c).Granted? ==> CommitSucceeds(s', c))
  {
    StepKeepsInv(s, Commit(c));
    StaysInSync(Step(s, Commit(c)), run, c);
    var s' := After(Step(s, Commit(c)), run);
    assert ClientInv(s', c);
  }

  /** Reloading the configuration after a refresh disturbs nobody. */
  lemma LoadingDisturbsNobody(s: State, c: ClientId, d: ClientId)
    requires Inv(s) && CommitSucceeds(s, c)
    ensures
      var s' := Step(s, Commit(c));
      !Disturbs(s', Write(Loaded(s'.config)), d)
  {
    LoadingKeepsRevision(Step(s, Commit(c)).config);
  }
}
