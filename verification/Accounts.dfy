/** Login accounts: the guard that keeps an active administrator, and the authorization
    epoch. Locking, reading, counting and committing are separate steps of a call. */
module Accounts {

  import opened Common

  type UserId = nat
  type Caller = nat

  datatype Role = Admin | Plain | Viewer

  /** A row of the users table: the stored role may disagree with the admin flag. */
  datatype User = User(role: Role, isAdmin: bool, active: bool, hash: nat, epoch: int)

  /** `get_role` */
  function EffectiveRole(u: User): Role { if u.isAdmin then Admin else u.role }

  /** `set_role` */
  function WithRole(u: User, role: Role): User { u.(role := role, isAdmin := role == Admin) }

  type Users = map<UserId, User>

  /** The administrators the guard counts. */
  predicate CountsAsAdmin(u: User) { u.active && u.isAdmin }

  ghost predicate HasAdmin(users: Users) { exists id :: id in users && CountsAsAdmin(users[id]) }

  function OtherAdmins(users: Users, id: UserId): set<UserId> { set x | x in users && x != id && CountsAsAdmin(users[x]) }

  /** The three guarded calls. `password` is the hash made before the lock is taken. */
  datatype Call =
    | UpdateDetails(id: UserId, newRole: Option<Role>, newActive: Option<bool>)
    | UpdateAccount(id: UserId, newRole: Option<Role>, newActive: Option<bool>, password: Option<nat>)
    | Delete(id: UserId)

  function NextRole(row: User, call: Call): Role {
    if !call.Delete? && call.newRole.Some? then call.newRole.value else EffectiveRole(row)
  }

  function NextActive(row: User, call: Call): bool {
    if !call.Delete? && call.newActive.Some? then call.newActive.value else row.active
  }

  /** The call takes an administrator away, judged by the row as it was read. */
  predicate NeedsAnother(row: User, call: Call) {
    && EffectiveRole(row) == Admin
    && if call.Delete? then row.active else NextRole(row, call) != Admin || !NextActive(row, call)
  }

  function NewHash(call: Call): Option<nat> { if call.UpdateAccount? then call.password else None }

  predicate AuthorizationChanges(row: User, call: Call) {
    NextRole(row, call) != EffectiveRole(row) || NextActive(row, call) != row.active || NewHash(call).Some?
  }

  /** What is committed over the stored row `now`, the decision having been made on
      `row`: only the columns the call assigns are written, the epoch from `row`. */
  function Written(now: User, row: User, call: Call): User {
    var u := WithRole(now, NextRole(row, call)).(active := NextActive(row, call));
    var v := if NewHash(call).Some? then u.(hash := NewHash(call).value) else u;
    if AuthorizationChanges(row, call) then v.(epoch := row.epoch + 1) else v
  }

  // ---------- the same, column by column ----------

  /** An administrator by either column. */
  predicate IsAdmin(u: User) { u.isAdmin || u.role == Admin }

  /** Deleting an active administrator, or an update after which an administrator has
      another role or is not active. */
  predicate TakesAdminAway(u: User, call: Call) {
    && IsAdmin(u)
    && match call
       case Delete(_) => u.active
       case UpdateDetails(_, role, active) => (role.Some? && role.value != Admin) || (if active.Some? then !active.value else !u.active)
       case UpdateAccount(_, role, active, _) => (role.Some? && role.value != Admin) || (if active.Some? then !active.value else !u.active)
  }

  /** Both role columns are written, with the role that is asked for or the one in effect;
      the rest stays where nothing is asked for. */
  predicate ColumnsAs(u: User, role: Option<Role>, active: Option<bool>, password: Option<nat>, u': User) {
    && (role.Some? ==> u'.role == role.value)
    && (role.None? ==> u'.role == if u.isAdmin then Admin else u.role)
    && (u'.isAdmin <==> u'.role == Admin)
    && (active.Some? ==> u'.active == active.value) && (active.None? ==> u'.active == u.active)
    && (password.Some? ==> u'.hash == password.value) && (password.None? ==> u'.hash == u.hash)
  }

  /** The epoch counts the updates that set a password or change the role in effect or the
      active flag. */
  predicate EpochAs(u: User, password: Option<nat>, u': User) {
    u'.epoch == if password.Some? || u'.active != u.active || u'.role != (if u.isAdmin then Admin else u.role) then u.epoch + 1 else u.epoch
  }

  predicate UpdatedAs(u: User, call: Call, u': User) {
    match call
    case Delete(_) => true
    case UpdateDetails(_, role, active) => ColumnsAs(u, role, active, None, u') && EpochAs(u, None, u')
    case UpdateAccount(_, role, active, password) => ColumnsAs(u, role, active, password, u') && EpochAs(u, password, u')
  }

  lemma WrittenIsUpdated(u: User, call: Call)
    ensures UpdatedAs(u, call, Written(u, u, call))
    ensures NeedsAnother(u, call) <==> TakesAdminAway(u, call)
  { }

  lemma OthersExactly(users: Users, id: UserId)
    ensures |OtherAdmins(users, id)| > 0 <==> exists other :: other in users && other != id && users[other].active && users[other].isAdmin
  {
    if other :| other in users && other != id && users[other].active && users[other].isAdmin {
      assert other in OtherAdmins(users, id);
    } else {
      assert OtherAdmins(users, id) == {};
    }
  }

  /** Over a row that changed meanwhile, the password a call does not set stays, and the
      epoch goes on from the row that was read. */
  lemma WrittenOverChange(now: User, row: User, call: Call)
    requires !call.Delete?
    ensures
      var read, w := Written(row, row, call), Written(now, row, call);
      && w.role == read.role && w.isAdmin == read.isAdmin && w.active == read.active
      && w.hash == (if call.UpdateAccount? && call.password.Some? then call.password.value else now.hash)
      && w.epoch == if read.epoch == row.epoch then now.epoch else row.epoch + 1
  { }

  // ---------- interleaved calls ----------

  datatype Phase = Entered | Read(row: User) | Counted(row: User, remaining: nat)

  /** The call inside the guard; there is at most one. */
  datatype Guarded = Guarded(caller: Caller, call: Call, phase: Phase)

  datatype State = State(users: Users, guard: Option<Guarded>)

  datatype Event =
    | Enter(caller: Caller, call: Call)
    | ReadRow
    | Count
    | Commit
    | Fail
    | CreateUser(id: UserId, user: User)
    | ChangePassword(id: UserId, hash: nat)

  function DoEnter(s: State, caller: Caller, call: Call): State {
    if s.guard.Some? then s else s.(guard := Some(Guarded(caller, call, Entered)))
  }

  /** Refreshing a row that is gone fails the call. */
  function DoReadRow(s: State): State {
    if s.guard.None? || s.guard.value.phase != Entered then s
    else
      var g := s.guard.value;
      if g.call.id !in s.users then s.(guard := None)
      else s.(guard := Some(g.(phase := Read(s.users[g.call.id]))))
  }

  function DoCount(s: State): State {
    if s.guard.None? || !s.guard.value.phase.Read? then s
    else
      var g := s.guard.value;
      s.(guard := Some(g.(phase := Counted(g.phase.row, |OtherAdmins(s.users, g.call.id)|))))
  }

  predicate MayCommit(s: State) {
    && s.guard.Some?
    && (s.guard.value.phase.Counted? || (s.guard.value.phase.Read? && !NeedsAnother(s.guard.value.phase.row, s.guard.value.call)))
    && (s.guard.value.phase.Counted? && NeedsAnother(s.guard.value.phase.row, s.guard.value.call) ==> s.guard.value.phase.remaining > 0)
  }

  /** Commit, or leave when it was the last administrator; the guard is released. */
  function DoCommit(s: State): State {
    if !MayCommit(s) then s.(guard := if s.guard.Some? && s.guard.value.phase.Counted? then None else s.guard)
    else
      var g := s.guard.value;
      if g.call.id !in s.users then s.(guard := None)
      else State(
        if g.call.Delete? then s.users - {g.call.id}
        else s.users[g.call.id := Written(s.users[g.call.id], g.phase.row, g.call)],
        None)
  }

  /** `update_user_password` locks the row, which `update_user_account` holds too. */
  function DoChangePassword(s: State, id: UserId, hash: nat): State {
    if id !in s.users || RowLocked(s, id) then s
    else s.(users := s.users[id := s.users[id].(hash := hash, epoch := s.users[id].epoch + 1)])
  }

  predicate RowLocked(s: State, id: UserId) {
    s.guard.Some? && s.guard.value.call.UpdateAccount? && s.guard.value.call.id == id && s.guard.value.phase != Entered
  }

  function Step(s: State, e: Event): State {
    match e
    case Enter(caller, call) => DoEnter(s, caller, call)
    case ReadRow => DoReadRow(s)
    case Count => DoCount(s)
    case Commit => DoCommit(s)
    case Fail => s.(guard := None)
    case CreateUser(id, user) => if id in s.users then s else s.(users := s.users[id := user])
    case ChangePassword(id, hash) => DoChangePassword(s, id, hash)
  }

  function After(s: State, run: seq<Event>): State
    decreases |run|
  {
    if run == [] then s else After(Step(s, run[0]), run[1..])
  }

  // ---------- the last administrator ----------

  /** What the guard read about the user still holds, apart from the password. */
  ghost predicate StillTrue(s: State, row: User, id: UserId) {
    id in s.users && s.users[id].role == row.role && s.users[id].isAdmin == row.isAdmin && s.users[id].active == row.active
  }

  ghost predicate GuardInv(s: State) {
    s.guard.Some? ==>
      match s.guard.value.phase
      case Entered => true
      case Read(row) => StillTrue(s, row, s.guard.value.call.id)
      case Counted(row, remaining) =>
        StillTrue(s, row, s.guard.value.call.id) && (remaining > 0 ==> exists x :: x in OtherAdmins(s.users, s.guard.value.call.id))
  }

  lemma CommitKeepsAdmin(s: State)
    requires GuardInv(s) && HasAdmin(s.users)
    ensures HasAdmin(DoCommit(s).users)
  {
    if MayCommit(s) && s.guard.value.call.id in s.users {
      var g := s.guard.value;
      var users' := DoCommit(s).users;
      if NeedsAnother(g.phase.row, g.call) {
        var x :| x in OtherAdmins(s.users, g.call.id);
        assert x in users' && CountsAsAdmin(users'[x]);
      } else {
        var x :| x in s.users && CountsAsAdmin(s.users[x]);
        assert x in users' && CountsAsAdmin(users'[x]);
      }
    }
  }

  lemma StepKeepsAdmin(s: State, e: Event)
    requires GuardInv(s)
    ensures GuardInv(Step(s, e))
    ensures HasAdmin(s.users) ==> HasAdmin(Step(s, e).users)
  {
    match e
    case Count =>
      if s.guard.Some? && s.guard.value.phase.Read? && |OtherAdmins(s.users, s.guard.value.call.id)| > 0 {
        var x :| x in OtherAdmins(s.users, s.guard.value.call.id);
      }
    case Commit =>
      if HasAdmin(s.users) {
        CommitKeepsAdmin(s);
      }
    case CreateUser(id, user) =>
      OthersOnlyGrow(s.users, Step(s, e).users);
    case ChangePassword(id, hash) =>
      OthersOnlyGrow(s.users, Step(s, e).users);
    case _ =>
  }

  lemma OthersOnlyGrow(users: Users, users': Users)
    requires forall x :: x in users ==> x in users' && (CountsAsAdmin(users[x]) ==> CountsAsAdmin(users'[x]))
    ensures HasAdmin(users) ==> HasAdmin(users')
    ensures forall id :: OtherAdmins(users, id) <= OtherAdmins(users', id)
  { }

  /** Once there is an active administrator, one remains after every step of every
      interleaving. */
  lemma {:induction false} AdminRemains(s: State, run: seq<Event>)
    requires GuardInv(s) && HasAdmin(s.users)
    ensures GuardInv(After(s, run)) && HasAdmin(After(s, run).users)
    decreases |run|
  {
    if run != [] {
      StepKeepsAdmin(s, run[0]);
      AdminRemains(Step(s, run[0]), run[1..]);
    }
  }

  // ---------- the authorization epoch ----------

  predicate SameAuthorization(a: User, b: User) {
    EffectiveRole(a) == EffectiveRole(b) && a.active == b.active && a.hash == b.hash
  }

  /** The epoch never falls, and stays only while nothing it stands for changes. */
  predicate EpochTells(before: User, after: User) {
    before.epoch <= after.epoch && (before.epoch == after.epoch ==> SameAuthorization(before, after))
  }

  /** What an update read is what is stored when it writes. */
  predicate Fresh(s: State) {
    (s.guard.Some? && !s.guard.value.call.Delete? && !s.guard.value.phase.Entered? && s.guard.value.call.id in s.users)
    ==> s.guard.value.phase.row == s.users[s.guard.value.call.id]
  }

  /** One step, the row of the committing call being the stored one. */
  lemma StepEpochTells(s: State, e: Event, id: UserId)
    requires e.Commit? ==> Fresh(s)
    requires id in s.users && id in Step(s, e).users
    ensures EpochTells(s.users[id], Step(s, e).users[id])
  { }

  /** A commit of `update_user_details` tells exactly when it writes nothing the epoch
      stands for or no password change came between its read and its write. */
  lemma DetailsCommitExactly(s: State)
    requires GuardInv(s) && MayCommit(s) && s.guard.value.call.UpdateDetails? && s.guard.value.call.id in s.users
    requires s.guard.value.phase.row.epoch <= s.users[s.guard.value.call.id].epoch
    ensures
      var g := s.guard.value;
      var before, after := s.users[g.call.id], DoCommit(s).users[g.call.id];
      EpochTells(before, after) <==> !AuthorizationChanges(g.phase.row, g.call) || g.phase.row.epoch == before.epoch
  {
    var g := s.guard.value;
    assert StillTrue(s, g.phase.row, g.call.id);
  }

  predicate AlwaysThere(s: State, run: seq<Event>, id: UserId)
    decreases |run|
  {
    id in s.users && (run == [] || AlwaysThere(Step(s, run[0]), run[1..], id))
  }

  /** No commit happens over a row that changed since it was read: calls are atomic. */
  predicate AlwaysFresh(s: State, run: seq<Event>)
    decreases |run|
  {
    run == [] || ((run[0].Commit? ==> Fresh(s)) && AlwaysFresh(Step(s, run[0]), run[1..]))
  }

  /** Over any run of atomic calls a user's epoch never falls, and two moments with one
      epoch show one effective role, active flag and password hash. */
  lemma {:induction false} EpochTellsAlways(s: State, run: seq<Event>, id: UserId)
    requires AlwaysThere(s, run, id) && AlwaysFresh(s, run)
    ensures id in After(s, run).users && EpochTells(s.users[id], After(s, run).users[id])
    decreases |run|
  {
    if run != [] {
      StepEpochTells(s, run[0], id);
      EpochTellsAlways(Step(s, run[0]), run[1..], id);
    }
  }

  /** `update_user_details` is not inside the guard and will not come. */
  predicate NoDetails(s: State) { s.guard.Some? ==> !s.guard.value.call.UpdateDetails? }

  predicate NoDetailsIn(run: seq<Event>) {
    forall i :: 0 <= i < |run| ==> run[i].Enter? ==> !run[i].call.UpdateDetails?
  }

  lemma AccountUpdateStaysFresh(s: State, e: Event)
    requires GuardInv(s) && NoDetails(s) && Fresh(s) && (e.Enter? ==> !e.call.UpdateDetails?)
    ensures NoDetails(Step(s, e)) && Fresh(Step(s, e))
  { }

  /** Without that call the epoch tells in every interleaving: `update_user_account`
      locks its row against password changes, and the guard keeps the others out. */
  lemma {:induction false} EpochTellsInterleaved(s: State, run: seq<Event>, id: UserId)
    requires GuardInv(s) && NoDetails(s) && Fresh(s) && NoDetailsIn(run) && AlwaysThere(s, run, id)
    ensures id in After(s, run).users && EpochTells(s.users[id], After(s, run).users[id])
    decreases |run|
  {
    if run != [] {
      assert run[0].Enter? ==> !run[0].call.UpdateDetails?;
      StepKeepsAdmin(s, run[0]);
      AccountUpdateStaysFresh(s, run[0]);
      StepEpochTells(s, run[0], id);
      assert forall i :: 0 <= i < |run[1..]| ==> run[1..][i] == run[i + 1];
      EpochTellsInterleaved(Step(s, run[0]), run[1..], id);
    }
  }

  /** `update_user_details` is not: a password change between its read and its write
      leaves two different authorizations under one epoch. */
  lemma DetailsCanRepeatAnEpoch()
    ensures
      var s := State(map[0 := User(Plain, false, true, 1, 0)], None);
      var call := UpdateDetails(0, Some(Viewer), None);
      var before := After(s, [Enter(7, call), ReadRow, ChangePassword(0, 2)]);
      var after := Step(before, Commit);
      && before.users == map[0 := User(Plain, false, true, 2, 1)]
      && after.users == map[0 := User(Viewer, false, true, 2, 1)]
  {
    var u := User(Plain, false, true, 1, 0);
    var s := State(map[0 := u], None);
    var call := UpdateDetails(0, Some(Viewer), None);
    var e0, e1, e2 := Enter(7, call), ReadRow, ChangePassword(0, 2);
    assert [e0, e1, e2][1..] == [e1, e2] && [e1, e2][1..] == [e2] && [e2][1..] == [];
    var s1 := Step(s, e0);
    var s2 := Step(s1, e1);
    var s3 := Step(s2, e2);
    assert After(s3, []) == s3;
    assert After(s2, [e2]) == s3;
    assert After(s1, [e1, e2]) == s3;
    assert After(s, [e0, e1, e2]) == s3;
  }

  /** The steps of one call without anything in between. */
  function Uninterrupted(s: State, caller: Caller, call: Call): State {
    DoCommit(DoCount(DoReadRow(DoEnter(s, caller, call))))
  }

  /** They do what the call is for, or nothing at all when the user is not there or is the
      last administrator, and leave the guard. */
  lemma UninterruptedIsExact(s: State, caller: Caller, call: Call)
    requires s.guard.None?
    ensures
      var s', id := Uninterrupted(s, caller, call), call.id;
      var other := exists x :: x in s.users && x != id && s.users[x].active && s.users[x].isAdmin;
      && s'.guard.None?
      && if id in s.users && (TakesAdminAway(s.users[id], call) ==> other) then
           if call.Delete? then s'.users == s.users - {id}
           else id in s'.users && UpdatedAs(s.users[id], call, s'.users[id]) && s'.users == s.users[id := s'.users[id]]
         else s'.users == s.users
  {
    OthersExactly(s.users, call.id);
    if call.id in s.users {
      WrittenIsUpdated(s.users[call.id], call);
    }
  }

  /** The calls one after the other, on the rows themselves. */
  class AccountStore {
    var users: Users

    constructor (users: Users)
      ensures this.users == users
    {
      this.users := users;
    }

    /** The three guarded calls, uninterrupted. */
    method Apply(call: Call) returns (done: bool)
      modifies this
      ensures done <==> call.id in old(users) && (NeedsAnother(old(users)[call.id], call) ==> OtherAdmins(old(users), call.id) != {})
      ensures !done ==> users == old(users)
      ensures done && call.Delete? ==> users == old(users) - {call.id}
      ensures done && !call.Delete? ==>
        && call.id in users && users == old(users)[call.id := users[call.id]]
        && EffectiveRole(users[call.id]) == NextRole(old(users)[call.id], call)
        && users[call.id].active == NextActive(old(users)[call.id], call)
        && users[call.id].hash == (if NewHash(call).Some? then NewHash(call).value else old(users)[call.id].hash)
        && EpochTells(old(users)[call.id], users[call.id])
      ensures done <==>
        && call.id in old(users)
        && (TakesAdminAway(old(users)[call.id], call) ==>
              exists other :: other in old(users) && other != call.id && old(users)[other].active && old(users)[other].isAdmin)
      ensures done && !call.Delete? ==> UpdatedAs(old(users)[call.id], call, users[call.id])
      ensures old(HasAdmin(users)) ==> HasAdmin(users)
    {
      if call.id !in users {
        return false;
      }
      var row := users[call.id];
      WrittenIsUpdated(row, call);
      OthersExactly(users, call.id);
      if NeedsAnother(row, call) {
        var remaining := |OtherAdmins(users, call.id)|;
        if remaining == 0 {
          return false;
        }
      }
      ghost var s := State(users, Some(Guarded(0, call, Counted(row, |OtherAdmins(users, call.id)|))));
      if HasAdmin(users) {
        assert OtherAdmins(users, call.id) != {} ==> exists x :: x in OtherAdmins(users, call.id);
        CommitKeepsAdmin(s);
      }
      if call.Delete? {
        users := users - {call.id};
      } else {
        users := users[call.id := Written(row, row, call)];
      }
      done := true;
    }

    /** `update_user_password` */
    method ChangePassword(id: UserId, hash: nat) returns (done: bool)
      modifies this
      ensures done <==> id in old(users)
      ensures users == if done then old(users)[id := old(users)[id].(hash := hash, epoch := old(users)[id].epoch + 1)] else old(users)
      ensures done ==> EpochTells(old(users)[id], users[id])
      ensures old(HasAdmin(users)) ==> HasAdmin(users)
    {
      if id !in users {
        return false;
      }
      ghost var before := users;
      users := users[id := users[id].(hash := hash, epoch := users[id].epoch + 1)];
      OthersOnlyGrow(before, users);
      done := true;
    }
  }
}
