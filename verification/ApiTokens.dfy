/** The API tokens of one account: how many are usable, how many rows are kept, and what
    the listing shows. */
module ApiTokens {

  import opened Common

  const MAX_ACTIVE := 20
  const MAX_HISTORY := 100
  const MAX_LISTED := MAX_ACTIVE + MAX_HISTORY

  datatype Token = Token(id: nat, createdAt: int, active: bool, expiresAt: Option<int>)

  predicate Usable(t: Token, now: int) { t.active && (t.expiresAt.None? || t.expiresAt.value > now) }

  function UsableIn(rows: set<Token>, now: int): set<Token> { set t | t in rows && Usable(t, now) }

  function StaleIn(rows: set<Token>, now: int): set<Token> { set t | t in rows && !Usable(t, now) }

  /** The order of every query: newest first, larger ids first among equals. */
  predicate Newer(a: Token, b: Token) { a.createdAt > b.createdAt || (a.createdAt == b.createdAt && a.id > b.id) }

  function NewerThan(rows: set<Token>, t: Token): set<Token> { set u | u in rows && Newer(u, t) }

  /** LIMIT n in that order: fewer than n rows are newer. */
  function Newest(rows: set<Token>, n: nat): set<Token> { set t | t in rows && |NewerThan(rows, t)| < n }

  /** `_prune_api_token_history`: of the rows that are not usable, the newest stay. */
  function Prune(rows: set<Token>, now: int): set<Token> {
    rows - (StaleIn(rows, now) - Newest(StaleIn(rows, now), MAX_HISTORY))
  }

  datatype Account = Account(owned: bool, rows: set<Token>, nextId: nat)

  ghost predicate DistinctIds(rows: set<Token>) { forall a, b :: a in rows && b in rows && a.id == b.id ==> a == b }

  ghost predicate IdsOk(a: Account) { DistinctIds(a.rows) && forall t :: t in a.rows ==> t.id < a.nextId }

  /** `create_api_token` once the owner's row is locked. */
  function Create(a: Account, now: int, createdAt: int, expiresAt: Option<int>): Account {
    if !a.owned || |UsableIn(a.rows, now)| >= MAX_ACTIVE then a
    else a.(rows := Prune(a.rows + {Token(a.nextId, createdAt, true, expiresAt)}, now), nextId := a.nextId + 1)
  }

  predicate CanReplace(a: Account, t: Token, checked: int) { a.owned && t in a.rows && Usable(t, checked) }

  /** `revoke_api_token`; the clock is read again for the pruning. */
  function Revoke(a: Account, t: Token, checked: int, now: int): Account {
    if !CanReplace(a, t, checked) then a
    else a.(rows := Prune(a.rows - {t} + {t.(active := false)}, now))
  }

  /** `rotate_api_token`: the replacement expires when the old token would have. */
  function Rotate(a: Account, t: Token, checked: int, createdAt: int, now: int): Account {
    if !CanReplace(a, t, checked) then a
    else
      var replacement := Token(a.nextId, createdAt, true, t.expiresAt);
      a.(rows := Prune(a.rows - {t} + {t.(active := false), replacement}, now), nextId := a.nextId + 1)
  }

  function DeleteOwner(a: Account): Account { a.(owned := false, rows := {}) }

  /** `list_api_tokens` */
  function Listed(a: Account): set<Token> { Newest(a.rows, MAX_LISTED) }

  // ---------- runs ----------

  datatype Event =
    | CreateToken(now: int, createdAt: int, expiresAt: Option<int>)
    | RevokeToken(token: Token, checked: int, now: int)
    | RotateToken(token: Token, checked: int, createdAt: int, now: int)
    | DeleteUser
    | Wait(now: int)

  datatype State = State(account: Account, clock: int)

  /** An event whose clock readings would run backwards does not happen. */
  function Step(s: State, e: Event): State {
    match e
    case CreateToken(now, createdAt, expiresAt) =>
      if now < s.clock then s else State(Create(s.account, now, createdAt, expiresAt), now)
    case RevokeToken(t, checked, now) =>
      if checked < s.clock || now < checked then s else State(Revoke(s.account, t, checked, now), now)
    case RotateToken(t, checked, createdAt, now) =>
      if checked < s.clock || now < checked then s else State(Rotate(s.account, t, checked, createdAt, now), now)
    case DeleteUser => s.(account := DeleteOwner(s.account))
    case Wait(now) => if now < s.clock then s else s.(clock := now)
  }

  function After(s: State, run: seq<Event>): State
    decreases |run|
  {
    if run == [] then s else After(Step(s, run[0]), run[1..])
  }

  /** With a clock that does not run backwards, at one instant even, every event is its call. */
  lemma EventsAreCalls(s: State, t: Token, checked: int, createdAt: int, now: int, expiresAt: Option<int>)
    requires s.clock <= checked <= now
    ensures Step(s, CreateToken(now, createdAt, expiresAt)) == State(Create(s.account, now, createdAt, expiresAt), now)
    ensures Step(s, RevokeToken(t, checked, now)) == State(Revoke(s.account, t, checked, now), now)
    ensures Step(s, RotateToken(t, checked, createdAt, now)) == State(Rotate(s.account, t, checked, createdAt, now), now)
    ensures Step(s, DeleteUser).account.rows == {} && !Step(s, DeleteUser).account.owned && Step(s, Wait(now)).clock == now
  { }

  // ---------- counting ----------

  lemma {:induction false} OldestOf(rows: set<Token>) returns (oldest: Token)
    requires rows != {} && DistinctIds(rows)
    ensures oldest in rows && forall t :: t in rows && t != oldest ==> Newer(t, oldest)
    decreases |rows|
  {
    var some :| some in rows;
    var rest := rows - {some};
    oldest := some;
    if rest != {} {
      var other := OldestOf(rest);
      oldest := if Newer(some, other) then other else some;
      forall t | t in rows && t != oldest ensures Newer(t, oldest) {
        assert t == some || t == other || (t in rest && Newer(t, other));
      }
    } else {
      assert rows == {some};
    }
  }

  /** A LIMIT is never exceeded, and hides nothing that fits. */
  lemma NewestIsLimit(rows: set<Token>, n: nat)
    requires DistinctIds(rows)
    ensures |Newest(rows, n)| <= n
    ensures |rows| <= n ==> Newest(rows, n) == rows
  {
    var kept := Newest(rows, n);
    if kept != {} {
      var oldest := OldestOf(kept);
      SubsetSize(kept - {oldest}, NewerThan(rows, oldest));
    }
    forall t | t in rows ensures |NewerThan(rows, t)| < |rows| {
      SubsetSize(NewerThan(rows, t), rows - {t});
    }
  }

  /** Pruning touches no token that is usable now or later, leaves a bounded history,
      and does nothing before that bound is exceeded. */
  lemma PruneKeepsUsable(rows: set<Token>, now: int, later: int)
    requires DistinctIds(rows) && later >= now
    ensures Prune(rows, now) <= rows
    ensures UsableIn(Prune(rows, now), later) == UsableIn(rows, later)
    ensures |Prune(rows, now)| <= |UsableIn(rows, now)| + MAX_HISTORY
    ensures |StaleIn(rows, now)| <= MAX_HISTORY ==> Prune(rows, now) == rows
  {
    var usable, stale := UsableIn(rows, now), StaleIn(rows, now);
    NewestIsLimit(stale, MAX_HISTORY);
    PruneParts(rows, now, later);
    UnionSize(usable, Newest(stale, MAX_HISTORY));
    if |stale| <= MAX_HISTORY {
      assert rows == usable + stale;
    }
  }

  lemma PruneParts(rows: set<Token>, now: int, later: int)
    requires later >= now
    ensures Prune(rows, now) == UsableIn(rows, now) + Newest(StaleIn(rows, now), MAX_HISTORY)
    ensures UsableIn(Prune(rows, now), later) == UsableIn(rows, later)
  { }

  lemma UnionSize<T>(a: set<T>, b: set<T>)
    ensures |a + b| <= |a| + |b|
  { }

  lemma UsableShrinks(rows: set<Token>, now: int, later: int)
    requires now <= later
    ensures UsableIn(rows, later) <= UsableIn(rows, now)
    ensures |UsableIn(rows, later)| <= |UsableIn(rows, now)|
  {
    SubsetSize(UsableIn(rows, later), UsableIn(rows, now));
  }

  // ---------- the bounds ----------

  ghost predicate Bounded(s: State) {
    && IdsOk(s.account)
    && |UsableIn(s.account.rows, s.clock)| <= MAX_ACTIVE
    && |s.account.rows| <= MAX_LISTED
  }

  lemma PrunedIsBounded(a: Account, now: int)
    requires IdsOk(a) && |UsableIn(a.rows, now)| <= MAX_ACTIVE
    ensures Bounded(State(a.(rows := Prune(a.rows, now)), now))
  {
    PruneKeepsUsable(a.rows, now, now);
  }

  lemma CreateIsBounded(a: Account, now: int, createdAt: int, expiresAt: Option<int>)
    requires IdsOk(a) && |UsableIn(a.rows, now)| < MAX_ACTIVE
    ensures
      var t := Token(a.nextId, createdAt, true, expiresAt);
      var grown := a.(rows := a.rows + {t}, nextId := a.nextId + 1);
      IdsOk(grown) && |UsableIn(grown.rows, now)| <= MAX_ACTIVE
  {
    var t := Token(a.nextId, createdAt, true, expiresAt);
    SubsetSize(UsableIn(a.rows + {t}, now), UsableIn(a.rows, now) + {t});
  }

  lemma ReplaceIsBounded(a: Account, t: Token, createdAt: int, now: int)
    requires IdsOk(a) && t in a.rows && |UsableIn(a.rows, now)| <= MAX_ACTIVE
    ensures
      var off := t.(active := false);
      var replacement := Token(a.nextId, createdAt, true, t.expiresAt);
      && IdsOk(a.(rows := a.rows - {t} + {off}))
      && |UsableIn(a.rows - {t} + {off}, now)| <= MAX_ACTIVE
      && IdsOk(a.(rows := a.rows - {t} + {off, replacement}, nextId := a.nextId + 1))
      && (t.active ==> |UsableIn(a.rows - {t} + {off, replacement}, now)| <= MAX_ACTIVE)
  {
    var off := t.(active := false);
    var replacement := Token(a.nextId, createdAt, true, t.expiresAt);
    SubsetSize(UsableIn(a.rows - {t} + {off}, now), UsableIn(a.rows, now));
    SameIds(a, t, off);
    if t.active {
      ReplacementTakesThePlace(a.rows, t, off, replacement, now);
    }
    var switched := a.(rows := a.rows - {t} + {off});
    OneMoreId(switched, replacement);
    assert a.rows - {t} + {off, replacement} == switched.rows + {replacement};
  }

  lemma SameIds(a: Account, t: Token, off: Token)
    requires IdsOk(a) && t in a.rows && off.id == t.id
    ensures IdsOk(a.(rows := a.rows - {t} + {off}))
  { }

  lemma OneMoreId(a: Account, t: Token)
    requires IdsOk(a) && t.id == a.nextId
    ensures IdsOk(a.(rows := a.rows + {t}, nextId := a.nextId + 1))
  { }

  lemma ReplacementTakesThePlace(rows: set<Token>, t: Token, off: Token, replacement: Token, now: int)
    requires t in rows && t.active && !off.active && replacement.active && replacement.expiresAt == t.expiresAt
    ensures |UsableIn(rows - {t} + {off, replacement}, now)| <= |UsableIn(rows, now)|
  {
    var usable := UsableIn(rows, now);
    if Usable(t, now) {
      SubsetSize(UsableIn(rows - {t} + {off, replacement}, now), usable - {t} + {replacement});
    } else {
      SubsetSize(UsableIn(rows - {t} + {off, replacement}, now), usable);
    }
  }

  lemma StepIsBounded(s: State, e: Event)
    requires Bounded(s)
    ensures Bounded(Step(s, e))
  {
    var a := s.account;
    match e
    case CreateToken(now, createdAt, expiresAt) =>
      if now >= s.clock {
        UsableShrinks(a.rows, s.clock, now);
        if a.owned && |UsableIn(a.rows, now)| < MAX_ACTIVE {
          CreateIsBounded(a, now, createdAt, expiresAt);
          var t := Token(a.nextId, createdAt, true, expiresAt);
          PrunedIsBounded(a.(rows := a.rows + {t}, nextId := a.nextId + 1), now);
        }
      }
    case RevokeToken(t, checked, now) =>
      if s.clock <= checked <= now {
        UsableShrinks(a.rows, s.clock, now);
        if CanReplace(a, t, checked) {
          ReplaceIsBounded(a, t, 0, now);
          PrunedIsBounded(a.(rows := a.rows - {t} + {t.(active := false)}), now);
        }
      }
    case RotateToken(t, checked, createdAt, now) =>
      if s.clock <= checked <= now {
        UsableShrinks(a.rows, s.clock, now);
        if CanReplace(a, t, checked) {
          ReplaceIsBounded(a, t, createdAt, now);
          var replacement := Token(a.nextId, createdAt, true, t.expiresAt);
          PrunedIsBounded(a.(rows := a.rows - {t} + {t.(active := false), replacement}, nextId := a.nextId + 1), now);
        }
      }
    case DeleteUser =>
      assert UsableIn({}, s.clock) == {};
    case Wait(now) =>
      if now >= s.clock {
        UsableShrinks(a.rows, s.clock, now);
      }
  }

  lemma {:induction false} AlwaysBounded(s: State, run: seq<Event>)
    requires Bounded(s)
    ensures Bounded(After(s, run))
    decreases |run|
  {
    if run != [] {
      StepIsBounded(s, run[0]);
      AlwaysBounded(Step(s, run[0]), run[1..]);
    }
  }

  /** From an empty table, whatever happens while the clock does not run backwards: at
      most 20 tokens are ever usable, now or later, at most 120 rows exist, and the
      listing's limit hides none of them. */
  lemma TokensStayBounded(clock: int, run: seq<Event>, later: int)
    ensures
      var s := After(State(Account(true, {}, 0), clock), run);
      && (later >= s.clock ==> |UsableIn(s.account.rows, later)| <= MAX_ACTIVE)
      && |s.account.rows| <= MAX_LISTED
      && Listed(s.account) == s.account.rows
  {
    assert UsableIn({}, clock) == {};
    AlwaysBounded(State(Account(true, {}, 0), clock), run);
    var s := After(State(Account(true, {}, 0), clock), run);
    NewestIsLimit(s.account.rows, MAX_LISTED);
    if later >= s.clock {
      UsableShrinks(s.account.rows, s.clock, later);
    }
  }

  /** A usable token stays usable until it expires, unless it is the one revoked or
      rotated, or its owner goes. */
  lemma UsableOnlyEndsByName(s: State, e: Event, t: Token)
    requires Bounded(s) && t in s.account.rows && Usable(t, Step(s, e).clock)
    requires !e.DeleteUser? && !(e.RevokeToken? && e.token == t) && !(e.RotateToken? && e.token == t)
    ensures t in Step(s, e).account.rows
  {
    var a := s.account;
    match e
    case CreateToken(now, createdAt, expiresAt) =>
      if now >= s.clock && a.owned && |UsableIn(a.rows, now)| < MAX_ACTIVE {
        CreateIsBounded(a, now, createdAt, expiresAt);
        StaysAfterPrune(a.rows + {Token(a.nextId, createdAt, true, expiresAt)}, now, t);
      }
    case RevokeToken(u, checked, now) =>
      if s.clock <= checked <= now && CanReplace(a, u, checked) {
        UsableShrinks(a.rows, s.clock, now);
        ReplaceIsBounded(a, u, 0, now);
        StaysAfterPrune(a.rows - {u} + {u.(active := false)}, now, t);
      }
    case RotateToken(u, checked, createdAt, now) =>
      if s.clock <= checked <= now && CanReplace(a, u, checked) {
        UsableShrinks(a.rows, s.clock, now);
        ReplaceIsBounded(a, u, createdAt, now);
        StaysAfterPrune(a.rows - {u} + {u.(active := false), Token(a.nextId, createdAt, true, u.expiresAt)}, now, t);
      }
    case Wait(_) =>
  }

  lemma StaysAfterPrune(rows: set<Token>, now: int, t: Token)
    requires DistinctIds(rows) && t in rows && Usable(t, now)
    ensures t in Prune(rows, now)
  {
    PruneKeepsUsable(rows, now, now);
    assert t in UsableIn(rows, now);
  }

  // ---------- one call, row by row ----------

  /** After a call that has the rows `all` to store: the usable ones are there, and of the
      others those with fewer than a hundred newer ones among them. */
  ghost predicate StoredOf(all: set<Token>, after: set<Token>, now: int) {
    forall t :: t in after <==>
      t in all && (Alive(t, now) || |set u | u in all && !Alive(u, now) && Newer(u, t)| < 100)
  }

  /** Active, and not expired at this instant. */
  predicate Alive(t: Token, now: int) {
    match t.expiresAt
    case None => t.active
    case Some(end) => t.active && now < end
  }

  lemma PrunedIsStored(all: set<Token>, now: int)
    ensures StoredOf(all, Prune(all, now), now)
  {
    forall t ensures t in Prune(all, now) <==>
      t in all && (Alive(t, now) || |set u | u in all && !Alive(u, now) && Newer(u, t)| < 100)
    {
      assert NewerThan(StaleIn(all, now), t) == set u | u in all && !Alive(u, now) && Newer(u, t);
    }
  }

  /** The row with this id is switched off, and its replacement expires when it would have. */
  ghost predicate Replaces(before: set<Token>, after: set<Token>, id: nat, replacement: Token, now: int) {
    exists t :: t in before && t.id == id && replacement.expiresAt == t.expiresAt
                && StoredOf(before - {t} + {t.(active := false), replacement}, after, now)
  }

  lemma ReplacedRows(rows: set<Token>, t: Token, replacement: Token, now: int)
    requires DistinctIds(rows) && t in rows && replacement.id != t.id && replacement.active && replacement.expiresAt == t.expiresAt
    ensures
      var after := Prune(rows - {t} + {t.(active := false), replacement}, now);
      && Replaces(rows, after, t.id, replacement, now)
      && (forall u :: u in after && u.id == t.id ==> !u.active)
      && (Usable(replacement, now) ==> replacement in after)
  {
    PrunedIsStored(rows - {t} + {t.(active := false), replacement}, now);
  }

  /** The other columns of the account, and an id that was never used. */
  predicate NextIdUsed(a: Account, a': Account) { a'.owned == a.owned && a'.nextId == a.nextId + 1 }

  /** Without its owner an account never has a token again. */
  lemma {:induction false} DeletedOwnerHasNoTokens(s: State, run: seq<Event>)
    requires !s.account.owned && s.account.rows == {}
    ensures !After(s, run).account.owned && After(s, run).account.rows == {}
    ensures forall a :: DeleteOwner(a).rows == {} && !DeleteOwner(a).owned
    decreases |run|
  {
    if run != [] {
      DeletedOwnerHasNoTokens(Step(s, run[0]), run[1..]);
    }
  }

  /** The rows of an account as the functions of the module change them. */
  class TokenTable {
    var account: Account

    constructor ()
      ensures account == Account(true, {}, 0)
    {
      account := Account(true, {}, 0);
    }

    /** `create_api_token`; the new row, or None when there is no owner or no room. */
    method CreateToken(now: int, createdAt: int, expiresAt: Option<int>) returns (r: Option<Token>)
      requires IdsOk(account)
      modifies this
      ensures account == Create(old(account), now, createdAt, expiresAt)
      ensures r.None? <==> !old(account).owned || |UsableIn(old(account).rows, now)| >= MAX_ACTIVE
      ensures r.Some? && (expiresAt.Some? ==> expiresAt.value > now) ==> r.value in account.rows && r.value !in old(account).rows
      ensures r.None? <==> !old(account).owned || |UsableIn(old(account).rows, now)| >= 20
      ensures r.None? ==> account == old(account)
      ensures r.Some? ==>
        && r.value.active && r.value.createdAt == createdAt && r.value.expiresAt == expiresAt && r.value.id == old(account).nextId
        && StoredOf(old(account).rows + {r.value}, account.rows, now) && NextIdUsed(old(account), account)
    {
      if !account.owned || |UsableIn(account.rows, now)| >= MAX_ACTIVE {
        return None;
      }
      var token := Token(account.nextId, createdAt, true, expiresAt);
      PrunedIsStored(account.rows + {token}, now);
      if expiresAt.None? || expiresAt.value > now {
        StaysAfterPrune(account.rows + {token}, now, token);
      }
      account := account.(rows := account.rows + {token}, nextId := account.nextId + 1);
      account := account.(rows := Prune(account.rows, now));
      r := Some(token);
    }

    /** `revoke_api_token` */
    method RevokeToken(id: nat, checked: int, now: int) returns (revoked: bool)
      requires IdsOk(account)
      modifies this
      ensures revoked <==> old(account).owned && exists t :: t in old(account).rows && t.id == id && Alive(t, checked)
      ensures revoked ==> exists t :: t in old(account).rows && t.id == id && account == Revoke(old(account), t, checked, now)
      ensures !revoked ==> account == old(account)
      ensures revoked ==> forall t :: t in account.rows && t.id == id ==> !t.active
      ensures revoked ==>
        exists t :: t in old(account).rows && t.id == id
                    && StoredOf(old(account).rows - {t} + {t.(active := false)}, account.rows, now)
      ensures account.owned == old(account).owned && account.nextId == old(account).nextId
    {
      if !account.owned || !exists t :: t in account.rows && t.id == id {
        return false;
      }
      var t :| t in account.rows && t.id == id;
      if !Usable(t, checked) {
        return false;
      }
      PrunedIsStored(account.rows - {t} + {t.(active := false)}, now);
      account := account.(rows := account.rows - {t} + {t.(active := false)});
      account := account.(rows := Prune(account.rows, now));
      revoked := true;
    }

    /** `rotate_api_token`; the replacement's row, or None. */
    method RotateToken(id: nat, checked: int, createdAt: int, now: int) returns (r: Option<Token>)
      requires IdsOk(account)
      modifies this
      ensures r.Some? <==> old(account).owned && exists t :: t in old(account).rows && t.id == id && Alive(t, checked)
      ensures r.Some? ==> exists t :: t in old(account).rows && t.id == id && r.value.expiresAt == t.expiresAt
                                   && account == Rotate(old(account), t, checked, createdAt, now)
      ensures r.None? ==> account == old(account)
      ensures r.Some? ==>
        && r.value.active && r.value.createdAt == createdAt && r.value.id == old(account).nextId
        && NextIdUsed(old(account), account) && Replaces(old(account).rows, account.rows, id, r.value, now)
      ensures r.Some? ==> forall t :: t in account.rows && t.id == id ==> !t.active
      ensures r.Some? && (r.value.expiresAt.Some? ==> r.value.expiresAt.value > now) ==> r.value in account.rows
    {
      if !account.owned || !exists t :: t in account.rows && t.id == id {
        return None;
      }
      var t :| t in account.rows && t.id == id;
      if !Usable(t, checked) {
        return None;
      }
      var replacement := Token(account.nextId, createdAt, true, t.expiresAt);
      ReplacedRows(account.rows, t, replacement, now);
      account := account.(rows := account.rows - {t} + {t.(active := false), replacement}, nextId := account.nextId + 1);
      account := account.(rows := Prune(account.rows, now));
      r := Some(replacement);
    }
  }
}
