/** `OperationTracker` as the source has it: an object that edits the stored
    registry in place and keeps the set of ids it renews. Each method is one call
    by one owner; its effect on the store is the registry function it names. */
module OperationTracking {

  import opened Common
  import opened OperationRegistry

  /** The key-value row; `update_key_value` is atomic. */
  class Storage {
    var operations: Registry

    constructor ()
      ensures operations == []
    {
      operations := [];
    }
  }

  datatype StartError = Refused | SweeperFailed | StillRunning

  lemma ApplyAllAt(call: Call, me: Owner, now: int, r: Registry, i: nat)
    requires i < |r|
    requires forall j :: 0 <= j < |r| && j != i ==> !Selects(call, me, r[j])
    ensures ApplyAll(call, me, now, r) == r[i := ApplyOne(call, me, now, r[i])]
  { }

  lemma ApplyAllNone(call: Call, me: Owner, now: int, r: Registry)
    requires forall j :: 0 <= j < |r| ==> !Selects(call, me, r[j])
    ensures ApplyAll(call, me, now, r) == r
  { }

  /** An interrupting pass that has dealt with the first `i` records. */
  ghost predicate InterruptedUpTo(call: Call, me: Owner, now: int, before: Registry, i: nat,
                                  registry: Registry, ids: set<Id>, count: nat)
    requires i <= |before|
  {
    && registry == ApplyAll(call, me, now, before[..i]) + before[i..]
    && ids == SelectedIds(call, me, before[..i])
    && count == |ids|
  }

  lemma ApplyAllNext(call: Call, me: Owner, now: int, r: Registry, i: nat)
    requires i < |r|
    ensures ApplyAll(call, me, now, r[..i + 1]) == ApplyAll(call, me, now, r[..i]) + [ApplyOne(call, me, now, r[i])]
  {
    assert r[..i + 1] == r[..i] + [r[i]];
  }

  lemma SelectedIdsNext(call: Call, me: Owner, r: Registry, i: nat)
    requires i < |r| && UniqueIds(r)
    ensures SelectedIds(call, me, r[..i + 1])
         == SelectedIds(call, me, r[..i]) + if Selects(call, me, r[i]) then {r[i].id} else {}
    ensures r[i].id !in SelectedIds(call, me, r[..i])
  {
    UniqueIsPairwise(r);
    assert r[..i + 1] == r[..i] + [r[i]];
  }

  lemma ReplaceAt<T>(done: seq<T>, x: T, y: T, rest: seq<T>)
    ensures (done + ([x] + rest))[|done|] == x
    ensures (done + ([x] + rest))[|done| := y] == (done + [y]) + rest
  { }

  lemma PassReplaces(call: Call, me: Owner, now: int, before: Registry, i: nat)
    requires i < |before|
    ensures var pass := ApplyAll(call, me, now, before[..i]) + before[i..];
            && |pass| == |before| && pass[i] == before[i]
            && pass[i := ApplyOne(call, me, now, before[i])] == ApplyAll(call, me, now, before[..i + 1]) + before[i + 1..]
  {
    ApplyAllNext(call, me, now, before, i);
    assert before[i..] == [before[i]] + before[i + 1..];
    ReplaceAt(ApplyAll(call, me, now, before[..i]), before[i], ApplyOne(call, me, now, before[i]), before[i + 1..]);
  }

  lemma PassStep(call: Call, me: Owner, now: int, before: Registry, i: nat,
                 registry: Registry, ids: set<Id>, count: nat)
    requires i < |before| && UniqueIds(before)
    requires InterruptedUpTo(call, me, now, before, i, registry, ids, count)
    ensures |registry| == |before| && registry[i] == before[i]
    ensures var selected := Selects(call, me, before[i]);
            InterruptedUpTo(call, me, now, before, i + 1,
                            registry[i := ApplyOne(call, me, now, before[i])],
                            ids + (if selected then {before[i].id} else {}),
                            count + (if selected then 1 else 0))
  {
    SelectedIdsNext(call, me, before, i);
    PassReplaces(call, me, now, before, i);
  }

  lemma InterruptOne(call: Call, me: Owner, now: int, o: Operation)
    requires call.InterruptActive? || call.InterruptStale? || call.InterruptOrphaned?
    ensures ApplyOne(call, me, now, o) == if Selects(call, me, o) then InterruptedAs(o, call.message, now) else o
  { }

  lemma PassAt(call: Call, me: Owner, now: int, before: Registry, i: nat, registry: Registry, ids: set<Id>, count: nat)
    requires i < |before| && InterruptedUpTo(call, me, now, before, i, registry, ids, count)
    ensures |registry| == |before| && registry[i] == before[i]
  { }

  lemma PassSelected(call: Call, me: Owner, now: int, before: Registry, i: nat, registry: Registry, ids: set<Id>, count: nat)
    requires call.InterruptActive? || call.InterruptStale? || call.InterruptOrphaned?
    requires i < |before| && UniqueIds(before) && Selects(call, me, before[i])
    requires InterruptedUpTo(call, me, now, before, i, registry, ids, count)
    ensures |registry| == |before|
    ensures InterruptedUpTo(call, me, now, before, i + 1, registry[i := InterruptedAs(before[i], call.message, now)],
                            ids + {before[i].id}, count + 1)
  {
    PassStep(call, me, now, before, i, registry, ids, count);
    InterruptOne(call, me, now, before[i]);
  }

  lemma PassSkipped(call: Call, me: Owner, now: int, before: Registry, i: nat, registry: Registry, ids: set<Id>, count: nat)
    requires i < |before| && UniqueIds(before) && !Selects(call, me, before[i])
    requires InterruptedUpTo(call, me, now, before, i, registry, ids, count)
    ensures InterruptedUpTo(call, me, now, before, i + 1, registry, ids, count)
  {
    PassStep(call, me, now, before, i, registry, ids, count);
    assert ApplyOne(call, me, now, before[i]) == before[i];
    assert registry[i := before[i]] == registry && ids + {} == ids;
  }

  lemma PassDone(call: Call, me: Owner, now: int, before: Registry, registry: Registry, ids: set<Id>, count: nat)
    requires InterruptedUpTo(call, me, now, before, |before|, registry, ids, count)
    ensures registry == ApplyAll(call, me, now, before) && ids == SelectedIds(call, me, before) && count == |ids|
  {
    assert before[..|before|] == before;
  }

  /** A renewing pass that has dealt with the ids in `done`. */
  ghost predicate RenewedFor(done: set<Id>, me: Owner, now: int, before: Registry,
                             registry: Registry, invalidIds: set<Id>, count: nat)
  {
    && registry == ApplyAll(RenewAll(done), me, now, before)
    && invalidIds == done - SelectedIds(RenewAll(done), me, before)
    && count == |SelectedIds(RenewAll(done), me, before)|
  }

  /** Nothing happens for an id no active record of this owner carries, */
  lemma RenewNothingMore(done: set<Id>, id: Id, me: Owner, now: int, before: Registry,
                         registry: Registry, invalidIds: set<Id>, count: nat)
    requires RenewedFor(done, me, now, before, registry, invalidIds, count)
    requires forall o :: o in before && o.id == id ==> o.owner != me || !o.Active()
    ensures RenewedFor(done + {id}, me, now, before, registry, invalidIds + {id}, count)
  {
    forall o | o in before ensures Selects(RenewAll(done + {id}), me, o) == Selects(RenewAll(done), me, o) { }
    var a, b := ApplyAll(RenewAll(done + {id}), me, now, before), ApplyAll(RenewAll(done), me, now, before);
    forall i | 0 <= i < |before| ensures a[i] == b[i] { assert before[i] in before; }
    assert SelectedIds(RenewAll(done + {id}), me, before) == SelectedIds(RenewAll(done), me, before);
    assert id !in SelectedIds(RenewAll(done), me, before);
  }

  /** and otherwise exactly that record is stamped. */
  lemma RenewOneMore(done: set<Id>, i: nat, me: Owner, now: int, before: Registry,
                     registry: Registry, invalidIds: set<Id>, count: nat)
    requires RenewedFor(done, me, now, before, registry, invalidIds, count)
    requires i < |before| && UniqueIds(before) && before[i].owner == me && before[i].Active() && before[i].id !in done
    ensures RenewedFor(done + {before[i].id}, me, now, before,
                       registry[i := before[i].(heartbeat := At(now))], invalidIds, count + 1)
  {
    UniqueIsPairwise(before);
    var id := before[i].id;
    var a := ApplyAll(RenewAll(done + {id}), me, now, before);
    forall j | 0 <= j < |before| && j != i ensures a[j] == registry[j] { assert before[j].id != id; }
    assert a == registry[i := before[i].(heartbeat := At(now))];
    OneMoreSelected(done, i, me, before);
  }

  lemma OneMoreSelected(done: set<Id>, i: nat, me: Owner, before: Registry)
    requires i < |before| && before[i].owner == me && before[i].Active() && before[i].id !in done
    ensures SelectedIds(RenewAll(done + {before[i].id}), me, before) == SelectedIds(RenewAll(done), me, before) + {before[i].id}
    ensures before[i].id !in SelectedIds(RenewAll(done), me, before)
    ensures |SelectedIds(RenewAll(done + {before[i].id}), me, before)| == |SelectedIds(RenewAll(done), me, before)| + 1
  {
    var id := before[i].id;
    var was, live := SelectedIds(RenewAll(done), me, before), SelectedIds(RenewAll(done + {id}), me, before);
    assert before[i] in before && Selects(RenewAll(done + {id}), me, before[i]);
    assert live == was + {id} && id !in was;
  }

  // ---------- what a call leaves in the store ----------

  /** Only the record with this id is different, and it is the changed one; a record that
      is not active any more may have been pruned, where there was no room for it. */
  ghost predicate OneChanged(before: Registry, after: Registry, id: Id, changed: Option<Operation>, maxRecent: nat) {
    && (forall x :: x in after && x.id != id ==> x in before)
    && (forall o :: o in before && o.id != id && o.Active() ==> o in after)
    && (changed.None? ==> forall x :: x in after && x.id == id ==> x in before)
    && (changed.Some? ==>
          && changed.value.id == id && (forall x :: x in after && x.id == id ==> x == changed.value)
          && (changed.value.Active() || |SettledOf(before)| < maxRecent ==> changed.value in after))
  }

  predicate FailedAs(o: Operation, now: int) {
    && o.status == Error && o.message == "Operazione non riuscita" && o.error == Some("Operazione non riuscita")
    && o.updatedAt == now && o.finishedAt == Some(now)
  }

  predicate Addressed(o: Operation, id: Id, me: Owner) { o.id == id && o.owner == me && o.Active() }

  /** The chosen records are interrupted and nothing else changes, but for pruning. */
  ghost predicate OnlyInterrupted(before: Registry, after: Registry, chosen: Operation -> bool, message: string, now: int) {
    && (forall x :: x in after ==> (x in before && !chosen(x)) || exists o :: o in before && chosen(o) && InterruptedFrom(x, o, message, now))
    && (forall o :: o in before && o.Active() && !chosen(o) ==> o in after)
  }

  function IdsWhere(r: Registry, chosen: Operation -> bool): set<Id> { set o | o in r && chosen(o) :: o.id }

  function Own(me: Owner): Operation -> bool { (o: Operation) => o.Active() && o.owner == me }

  function Foreign(me: Owner): Operation -> bool { (o: Operation) => o.Active() && o.owner != me }

  /** Judged by the heartbeat, by the last change where there is none; a time that cannot
      be read counts as lost. */
  function Lost(cutoff: int): Operation -> bool {
    (o: Operation) => o.Active() && (o.heartbeat == Unreadable || (o.heartbeat.At? && o.heartbeat.time <= cutoff)
                                     || (o.heartbeat == Absent && o.updatedAt <= cutoff))
  }

  lemma WriteIsOneChanged(call: Call, me: Owner, now: int, maxRecent: nat, r: Registry, i: nat)
    requires UniqueIds(r) && i < |r| && Selects(call, me, r[i])
    requires (call.Update? || call.Renew? || call.Complete? || call.FailStart?) && call.id == r[i].id
    ensures OneChanged(r, Write(call, me, now, maxRecent, r), call.id, Some(Changed(call, r[i], now)), maxRecent)
  {
    UniqueIsPairwise(r);
    WriteOfOne(call, me, now, maxRecent, r, i);
    if |SettledOf(r)| < maxRecent {
      ApplyAllAt(call, me, now, r, i);
      OneMoreSettled(r, i, ApplyOne(call, me, now, r[i]));
      WriteKeepsWithRoom(call, me, now, maxRecent, r, i);
    }
  }

  lemma OneMoreSettled(r: Registry, i: nat, o: Operation)
    requires i < |r|
    ensures |SettledOf(r[i := o])| <= |SettledOf(r)| + 1
  {
    assert r == r[..i] + ([r[i]] + r[i + 1..]) && r[i := o] == r[..i] + ([o] + r[i + 1..]);
    SettledOfConcat(r[..i], [r[i]] + r[i + 1..]);
    SettledOfConcat(r[..i], [o] + r[i + 1..]);
    SettledOfConcat([r[i]], r[i + 1..]);
    SettledOfConcat([o], r[i + 1..]);
    assert |SettledOf([o])| <= 1;
  }

  lemma WriteOfNothing(call: Call, me: Owner, now: int, maxRecent: nat, r: Registry, id: Id)
    requires forall j :: 0 <= j < |r| ==> !Selects(call, me, r[j])
    ensures OneChanged(r, Write(call, me, now, maxRecent, r), id, None, maxRecent)
  {
    ApplyAllNone(call, me, now, r);
    PruneSpec(r, maxRecent);
  }

  lemma WriteInterrupts(call: Call, me: Owner, now: int, maxRecent: nat, r: Registry, chosen: Operation -> bool)
    requires UniqueIds(r) && (call.InterruptActive? || call.InterruptStale? || call.InterruptOrphaned?)
    requires forall o :: chosen(o) == Selects(call, me, o)
    ensures OnlyInterrupted(r, Write(call, me, now, maxRecent, r), chosen, call.message, now)
    ensures SelectedIds(call, me, r) == IdsWhere(r, chosen)
  {
    var r' := Write(call, me, now, maxRecent, r);
    forall x | x in r'
      ensures (x in r && !chosen(x)) || exists o :: o in r && chosen(o) && InterruptedFrom(x, o, call.message, now)
    {
      WrittenFrom(call, me, now, maxRecent, r, x);
      var o :| o in r && x == ApplyOne(call, me, now, o) && AllowedChange(me, o, x);
      InterruptOne(call, me, now, o);
    }
    WriteIsSafe(call, me, now, maxRecent, r);
    forall o | o in r && o.Active() && !chosen(o) ensures o in r' {
      assert ApplyOne(call, me, now, o) == o;
    }
  }

  lemma WriteInterruptsLost(cutoff: int, message: string, me: Owner, now: int, maxRecent: nat, r: Registry)
    requires UniqueIds(r)
    ensures OnlyInterrupted(r, Write(InterruptStale(cutoff, message), me, now, maxRecent, r), Lost(cutoff), message, now)
    ensures SelectedIds(InterruptStale(cutoff, message), me, r) == IdsWhere(r, Lost(cutoff))
  {
    WriteInterrupts(InterruptStale(cutoff, message), me, now, maxRecent, r, Lost(cutoff));
  }

  /** The records with these ids that are still this owner's and active. */
  function Tracked(me: Owner, ids: set<Id>): Operation -> bool { (o: Operation) => o.Active() && o.owner == me && o.id in ids }

  ghost predicate OnlyRenewed(before: Registry, after: Registry, chosen: Operation -> bool, now: int) {
    && (forall x :: x in after ==> (x in before && !chosen(x)) || exists o :: o in before && chosen(o) && x == o.(heartbeat := At(now)))
    && (forall o :: o in before && o.Active() ==> (if chosen(o) then o.(heartbeat := At(now)) else o) in after)
  }

  lemma WriteRenews(ids: set<Id>, me: Owner, now: int, maxRecent: nat, r: Registry)
    requires UniqueIds(r)
    ensures OnlyRenewed(r, Write(RenewAll(ids), me, now, maxRecent, r), Tracked(me, ids), now)
    ensures SelectedIds(RenewAll(ids), me, r) == IdsWhere(r, Tracked(me, ids))
  {
    var call, r' := RenewAll(ids), Write(RenewAll(ids), me, now, maxRecent, r);
    forall x | x in r'
      ensures (x in r && !Tracked(me, ids)(x)) || exists o :: o in r && Tracked(me, ids)(o) && x == o.(heartbeat := At(now))
    {
      WrittenFrom(call, me, now, maxRecent, r, x);
    }
    WriteIsSafe(call, me, now, maxRecent, r);
    forall o | o in r && o.Active() ensures (if Tracked(me, ids)(o) then o.(heartbeat := At(now)) else o) in r' {
      assert ApplyOne(call, me, now, o).Active();
    }
  }

  class OperationTracker {
    const storage: Storage
    const ownerId: Owner
    const maxRecent: nat
    var heartbeatIds: set<Id>
    var accepting: bool

    constructor (storage: Storage, ownerId: Owner, maxRecent: int)
      ensures this.storage == storage && this.ownerId == ownerId
      ensures this.maxRecent >= 1 && (maxRecent >= 1 ==> this.maxRecent == maxRecent)
      ensures accepting && heartbeatIds == {}
    {
      this.storage := storage;
      this.ownerId := ownerId;
      this.maxRecent := Max(1, if maxRecent == 0 then 40 else maxRecent);
      this.heartbeatIds := {};
      this.accepting := true;
    }

    method IndexOf(registry: Registry, id: Id) returns (i: int)
      ensures -1 <= i < |registry|
      ensures i >= 0 ==> registry[i].id == id
      ensures i < 0 ==> forall o :: o in registry ==> o.id != id
      ensures UniqueIds(registry) ==> forall j :: 0 <= j < |registry| && registry[j].id == id ==> j == i
    {
      i := 0;
      while i < |registry|
        invariant 0 <= i <= |registry|
        invariant forall j :: 0 <= j < i ==> registry[j].id != id
      {
        if registry[i].id == id {
          if UniqueIds(registry) { UniqueIsPairwise(registry); }
          return;
        }
        i := i + 1;
      }
      i := -1;
    }

    /** `id` is fresh; `stamp` was read before the lock; `sweeperStarts` and
        `cleanupSaved` are the outcomes of starting the heartbeat thread and of
        the write that follows a failed start. */
    method Start(id: Id, total: Option<int>, stamp: int, sweeperStarts: bool, cleanupSaved: bool, now: int)
      returns (result: Result<Operation, StartError>)
      requires UniqueIds(storage.operations)
      modifies this`heartbeatIds, storage
      ensures UniqueIds(storage.operations)
      ensures !old(accepting) ==>
                result == Err(Refused) && storage.operations == old(storage.operations) && heartbeatIds == old(heartbeatIds)
      ensures old(accepting) && sweeperStarts ==>
                && result == Ok(NewOperation(id, ownerId, total, stamp)) && StartedAs(result.value, id, ownerId, total, stamp)
                && storage.operations == WriteStart(result.value, maxRecent, old(storage.operations))
                && result.value in storage.operations
                && heartbeatIds == old(heartbeatIds) + {id}
      ensures old(accepting) && !sweeperStarts ==>
                && result == Err(SweeperFailed)
                && heartbeatIds == old(heartbeatIds) - {id}
                && var added := WriteStart(NewOperation(id, ownerId, total, stamp), maxRecent, old(storage.operations));
                   && storage.operations == (if cleanupSaved then Write(FailStart(id), ownerId, now, maxRecent, added) else added)
                   && (cleanupSaved ==> forall o :: o in storage.operations && o.id == id ==> FailedAs(o, now))
    {
      if !accepting { return Err(Refused); }
      var operation := NewOperation(id, ownerId, total, stamp);
      Add(operation);
      heartbeatIds := heartbeatIds + {id};
      if sweeperStarts { return Ok(operation); }
      heartbeatIds := heartbeatIds - {id};
      if cleanupSaved {
        AbandonStart(operation, now);
      }
      result := Err(SweeperFailed);
    }

    /** The mutator of a start, */
    method Add(operation: Operation)
      requires UniqueIds(storage.operations)
      modifies storage
      ensures UniqueIds(storage.operations)
      ensures storage.operations == WriteStart(operation, maxRecent, old(storage.operations))
      ensures operation.Active() ==> operation in storage.operations
    {
      PutSpec(storage.operations, operation);
      PutUnique(storage.operations, operation);
      PruneUnique(Put(storage.operations, operation), maxRecent);
      PruneSpec(Put(storage.operations, operation), maxRecent);
      storage.operations := Prune(Put(storage.operations, operation), maxRecent);
    }

    /** and the one that follows when the heartbeat thread could not be started. */
    method AbandonStart(operation: Operation, now: int)
      requires UniqueIds(storage.operations) && operation in storage.operations && operation.owner == ownerId
      modifies storage
      ensures UniqueIds(storage.operations)
      ensures storage.operations == Write(FailStart(operation.id), ownerId, now, maxRecent, old(storage.operations))
      ensures forall o :: o in storage.operations && o.id == operation.id ==> FailedAs(o, now)
    {
      assert Selects(FailStart(operation.id), ownerId, operation);
      var _ := Mutate(FailStart(operation.id), operation.id, now);
    }

    /** The shared shape of every mutator that addresses one record by id. */
    method Mutate(call: Call, id: Id, now: int) returns (changed: Option<Operation>)
      requires call.Update? || call.Renew? || call.Complete? || call.FailStart?
      requires id == call.id
      requires UniqueIds(storage.operations)
      modifies storage
      ensures UniqueIds(storage.operations)
      ensures storage.operations == Write(call, ownerId, now, maxRecent, old(storage.operations))
      ensures changed.Some? <==> exists o :: o in old(storage.operations) && Selects(call, ownerId, o)
      ensures changed.Some? ==> exists o :: o in old(storage.operations) && Selects(call, ownerId, o)
                                         && changed.value == Changed(call, o, now)
      ensures OneChanged(old(storage.operations), storage.operations, id, changed, maxRecent)
    {
      var registry := storage.operations;
      var i := IndexOf(registry, id);
      if i < 0 || !Selects(call, ownerId, registry[i]) {
        WriteOfNothing(call, ownerId, now, maxRecent, registry, id);
        ApplyAllNone(call, ownerId, now, registry);
        changed := None;
      } else {
        ApplyAllAt(call, ownerId, now, registry, i);
        WriteIsOneChanged(call, ownerId, now, maxRecent, registry, i);
        assert registry[i] in registry;
        var operation := Changed(call, registry[i], now);
        registry := registry[i := operation];
        changed := Some(operation);
      }
      WriteUnique(call, ownerId, now, maxRecent, storage.operations);
      storage.operations := Prune(registry, maxRecent);
    }

    method Update(id: Id, patch: Patch, now: int) returns (updated: Option<Operation>)
      requires UniqueIds(storage.operations)
      modifies storage
      ensures UniqueIds(storage.operations)
      ensures storage.operations
           == Write(Call.Update(id, patch), ownerId, now, maxRecent, old(storage.operations))
      ensures updated.Some? <==> exists o :: o in old(storage.operations) && Addressed(o, id, ownerId)
      ensures updated.Some? ==>
        exists o :: o in old(storage.operations) && Addressed(o, id, ownerId) && UpdatedAs(updated.value, o, patch, now)
      ensures OneChanged(old(storage.operations), storage.operations, id, updated, maxRecent)
    {
      updated := Mutate(Call.Update(id, patch), id, now);
      if updated.Some? {
        ghost var o :| o in old(storage.operations) && Selects(Call.Update(id, patch), ownerId, o)
                       && updated.value == Changed(Call.Update(id, patch), o, now);
        PatchedIsUpdated(o, patch, now);
        assert Addressed(o, id, ownerId);
      }
    }

    method Heartbeat(id: Id, now: int) returns (renewed: bool)
      requires UniqueIds(storage.operations)
      modifies storage
      ensures UniqueIds(storage.operations)
      ensures storage.operations == Write(Renew(id), ownerId, now, maxRecent, old(storage.operations))
      ensures renewed <==> exists o :: o in old(storage.operations) && Addressed(o, id, ownerId)
      ensures renewed ==>
        exists o :: o in old(storage.operations) && Addressed(o, id, ownerId)
                    && OneChanged(old(storage.operations), storage.operations, id, Some(o.(heartbeat := At(now))), maxRecent)
      ensures !renewed ==> OneChanged(old(storage.operations), storage.operations, id, None, maxRecent)
    {
      var changed := Mutate(Renew(id), id, now);
      renewed := changed.Some?;
      if renewed {
        ghost var o :| o in old(storage.operations) && Selects(Renew(id), ownerId, o) && changed.value == Changed(Renew(id), o, now);
        assert Addressed(o, id, ownerId) && changed == Some(o.(heartbeat := At(now)));
      }
    }

    /** `_complete`: the record is closed and, whatever was found, this tracker stops
        renewing the id. */
    method Complete(id: Id, status: Status, message: string, error: Option<string>, now: int)
      returns (closed: Option<Operation>)
      requires UniqueIds(storage.operations)
      modifies this`heartbeatIds, storage
      ensures UniqueIds(storage.operations)
      ensures storage.operations
           == Write(Call.Complete(id, status, message, error), ownerId, now, maxRecent, old(storage.operations))
      ensures closed.Some? <==> exists o :: o in old(storage.operations) && Addressed(o, id, ownerId)
      ensures closed.Some? ==>
        exists o :: o in old(storage.operations) && Addressed(o, id, ownerId) && ClosedAs(closed.value, o, status, message, error, now)
      ensures OneChanged(old(storage.operations), storage.operations, id, closed, maxRecent)
      ensures heartbeatIds == old(heartbeatIds) - {id}
    {
      ghost var call := Call.Complete(id, status, message, error);
      closed := Mutate(Call.Complete(id, status, message, error), id, now);
      heartbeatIds := heartbeatIds - {id};
      if closed.Some? {
        ghost var o :| o in old(storage.operations) && Selects(call, ownerId, o) && closed.value == Changed(call, o, now);
        assert Addressed(o, id, ownerId) && ClosedAs(closed.value, o, status, message, error, now);
      }
    }

    method Finish(id: Id, message: string, now: int) returns (closed: Option<Operation>)
      requires UniqueIds(storage.operations)
      modifies this`heartbeatIds, storage
      ensures UniqueIds(storage.operations)
      ensures closed.Some? <==> exists o :: o in old(storage.operations) && Addressed(o, id, ownerId)
      ensures closed.Some? ==>
        exists o :: o in old(storage.operations) && Addressed(o, id, ownerId) && ClosedAs(closed.value, o, Success, message, None, now)
      ensures OneChanged(old(storage.operations), storage.operations, id, closed, maxRecent)
      ensures heartbeatIds == old(heartbeatIds) - {id}
    {
      closed := Complete(id, Success, message, None, now);
    }

    /** The message of the caller is only logged. */
    method Fail(id: Id, now: int) returns (closed: Option<Operation>)
      requires UniqueIds(storage.operations)
      modifies this`heartbeatIds, storage
      ensures UniqueIds(storage.operations)
      ensures closed.Some? <==> exists o :: o in old(storage.operations) && Addressed(o, id, ownerId)
      ensures closed.Some? ==>
        exists o :: o in old(storage.operations) && Addressed(o, id, ownerId) && ClosedAs(closed.value, o, Error, "Operazione non riuscita", Some("Operazione non riuscita"), now)
      ensures OneChanged(old(storage.operations), storage.operations, id, closed, maxRecent)
      ensures heartbeatIds == old(heartbeatIds) - {id}
    {
      closed := Complete(id, Error, FAILURE_MESSAGE, Some(FAILURE_MESSAGE), now);
    }

    /** `interrupt_active`; an empty message becomes the default. */
    method InterruptOwn(message: string, now: int) returns (interrupted: nat)
      requires UniqueIds(storage.operations)
      modifies this`heartbeatIds, storage
      ensures UniqueIds(storage.operations)
      ensures OnlyInterrupted(old(storage.operations), storage.operations, Own(ownerId),
                              if message == "" then "Operazione interrotta" else message, now)
      ensures interrupted == |IdsWhere(old(storage.operations), Own(ownerId))|
      ensures heartbeatIds == old(heartbeatIds) - IdsWhere(old(storage.operations), Own(ownerId))
    {
      var call := InterruptActive(if message == "" then "Operazione interrotta" else message);
      WriteInterrupts(call, ownerId, now, maxRecent, storage.operations, Own(ownerId));
      interrupted := Interrupt(call, now);
    }

    /** `interrupt_stale`, in seconds: no threshold below a minute. */
    method InterruptLost(message: string, staleAfter: int, clock: int, now: int) returns (interrupted: nat)
      requires UniqueIds(storage.operations)
      modifies this`heartbeatIds, storage
      ensures UniqueIds(storage.operations)
      ensures
        forall cutoff :: cutoff == (if staleAfter < 60 then clock - 60 else clock - staleAfter) ==>
          && OnlyInterrupted(old(storage.operations), storage.operations, Lost(cutoff), message, now)
          && interrupted == |IdsWhere(old(storage.operations), Lost(cutoff))|
          && heartbeatIds == old(heartbeatIds) - IdsWhere(old(storage.operations), Lost(cutoff))
    {
      interrupted := InterruptBefore(clock - Max(60, staleAfter), message, now);
    }

    method InterruptBefore(cutoff: int, message: string, now: int) returns (interrupted: nat)
      requires UniqueIds(storage.operations)
      modifies this`heartbeatIds, storage
      ensures UniqueIds(storage.operations)
      ensures OnlyInterrupted(old(storage.operations), storage.operations, Lost(cutoff), message, now)
      ensures interrupted == |IdsWhere(old(storage.operations), Lost(cutoff))|
      ensures heartbeatIds == old(heartbeatIds) - IdsWhere(old(storage.operations), Lost(cutoff))
    {
      WriteInterruptsLost(cutoff, message, ownerId, now, maxRecent, storage.operations);
      interrupted := Interrupt(InterruptStale(cutoff, message), now);
    }

    /** `interrupt_orphaned` */
    method InterruptForeign(message: string, now: int) returns (interrupted: nat)
      requires UniqueIds(storage.operations)
      modifies this`heartbeatIds, storage
      ensures UniqueIds(storage.operations)
      ensures OnlyInterrupted(old(storage.operations), storage.operations, Foreign(ownerId), message, now)
      ensures interrupted == |IdsWhere(old(storage.operations), Foreign(ownerId))|
      ensures heartbeatIds == old(heartbeatIds) - IdsWhere(old(storage.operations), Foreign(ownerId))
    {
      WriteInterrupts(InterruptOrphaned(message), ownerId, now, maxRecent, storage.operations, Foreign(ownerId));
      interrupted := Interrupt(InterruptOrphaned(message), now);
    }

    /** One turn of the interrupting pass. */
    method InterruptNext(call: Call, ghost before: Registry, now: int, i: nat, registry: Registry, ids: set<Id>, count: nat)
      returns (registry': Registry, ids': set<Id>, count': nat)
      requires call.InterruptActive? || call.InterruptStale? || call.InterruptOrphaned?
      requires i < |before| && UniqueIds(before)
      requires |registry| == |before| && InterruptedUpTo(call, ownerId, now, before, i, registry, ids, count)
      ensures |registry'| == |before| && InterruptedUpTo(call, ownerId, now, before, i + 1, registry', ids', count')
    {
      registry', ids', count' := registry, ids, count;
      PassAt(call, ownerId, now, before, i, registry, ids, count);
      if Selects(call, ownerId, registry[i]) {
        PassSelected(call, ownerId, now, before, i, registry, ids, count);
        ids' := ids + {registry[i].id};
        count' := count + 1;
        registry' := registry[i := InterruptedAs(registry[i], call.message, now)];
      } else {
        PassSkipped(call, ownerId, now, before, i, registry, ids, count);
      }
    }

    /** The mutator shared by `interrupt_active`, `interrupt_stale` and
        `interrupt_orphaned`: one pass over the records, in place. */
    method InterruptRecords(call: Call, before: Registry, now: int)
      returns (registry: Registry, interruptedIds: set<Id>, interrupted: nat)
      requires call.InterruptActive? || call.InterruptStale? || call.InterruptOrphaned?
      requires UniqueIds(before)
      ensures registry == ApplyAll(call, ownerId, now, before)
      ensures interruptedIds == SelectedIds(call, ownerId, before)
      ensures interrupted == |interruptedIds|
    {
      registry, interruptedIds, interrupted := before, {}, 0;
      var i := 0;
      while i < |registry|
        invariant 0 <= i <= |registry| == |before|
        invariant InterruptedUpTo(call, ownerId, now, before, i, registry, interruptedIds, interrupted)
      {
        registry, interruptedIds, interrupted := InterruptNext(call, before, now, i, registry, interruptedIds, interrupted);
        i := i + 1;
      }
      PassDone(call, ownerId, now, before, registry, interruptedIds, interrupted);
    }

    method Interrupt(call: Call, now: int) returns (interrupted: nat)
      requires call.InterruptActive? || call.InterruptStale? || call.InterruptOrphaned?
      requires UniqueIds(storage.operations)
      modifies this`heartbeatIds, storage
      ensures UniqueIds(storage.operations)
      ensures storage.operations == Write(call, ownerId, now, maxRecent, old(storage.operations))
      ensures interrupted == |SelectedIds(call, ownerId, old(storage.operations))|
      ensures heartbeatIds == old(heartbeatIds) - SelectedIds(call, ownerId, old(storage.operations))
    {
      var registry, interruptedIds;
      registry, interruptedIds, interrupted := InterruptRecords(call, storage.operations, now);
      WriteUnique(call, ownerId, now, maxRecent, storage.operations);
      storage.operations := Prune(registry, maxRecent);
      heartbeatIds := heartbeatIds - interruptedIds;
    }

    /** The read-only preflight: true exactly when a sweep with the same cutoff
        would interrupt something. */
    method HasStaleActive(cutoff: int) returns (found: bool)
      ensures found <==> exists o :: o in storage.operations && o.StaleAt(cutoff)
    {
      var registry := storage.operations;
      for i := 0 to |registry|
        invariant forall j :: 0 <= j < i ==> !registry[j].StaleAt(cutoff)
      {
        if registry[i].StaleAt(cutoff) { return true; }
      }
      found := false;
    }

    /** One turn of the renewing pass. */
    method RenewNext(ghost done: set<Id>, id: Id, before: Registry, now: int, registry: Registry, invalidIds: set<Id>, renewed: nat)
      returns (registry': Registry, invalidIds': set<Id>, renewed': nat)
      requires UniqueIds(before) && id !in done
      requires RenewedFor(done, ownerId, now, before, registry, invalidIds, renewed)
      ensures RenewedFor(done + {id}, ownerId, now, before, registry', invalidIds', renewed')
    {
      registry', invalidIds', renewed' := registry, invalidIds, renewed;
      var i := IndexOf(before, id);
      if i < 0 || before[i].owner != ownerId || !before[i].Active() {
        UniqueIsPairwise(before);
        RenewNothingMore(done, id, ownerId, now, before, registry, invalidIds, renewed);
        invalidIds' := invalidIds + {id};
      } else {
        RenewOneMore(done, i, ownerId, now, before, registry, invalidIds, renewed);
        registry' := registry[i := before[i].(heartbeat := At(now))];
        renewed' := renewed + 1;
      }
    }

    /** The mutator of a heartbeat sweep: stamps the records of `ids` that are still
        this tracker's and active, and reports the ids that are not. */
    method RenewRecords(ids: set<Id>, before: Registry, now: int)
      returns (registry: Registry, invalidIds: set<Id>, renewed: nat)
      requires UniqueIds(before)
      ensures registry == ApplyAll(RenewAll(ids), ownerId, now, before)
      ensures invalidIds == ids - SelectedIds(RenewAll(ids), ownerId, before)
      ensures renewed == |SelectedIds(RenewAll(ids), ownerId, before)|
    {
      registry, invalidIds, renewed := before, {}, 0;
      var pending := ids;
      ghost var done: set<Id> := {};
      ApplyAllNone(RenewAll({}), ownerId, now, before);
      assert SelectedIds(RenewAll({}), ownerId, before) == {};
      while pending != {}
        invariant done !! pending && done + pending == ids
        invariant RenewedFor(done, ownerId, now, before, registry, invalidIds, renewed)
      {
        var id :| id in pending;
        registry, invalidIds, renewed := RenewNext(done, id, before, now, registry, invalidIds, renewed);
        pending := pending - {id};
        done := done + {id};
      }
      assert done == ids;
    }

    /** One heartbeat sweep over the tracked ids. */
    method HeartbeatOwned(now: int) returns (renewed: nat)
      requires UniqueIds(storage.operations)
      modifies this`heartbeatIds, storage
      ensures UniqueIds(storage.operations)
      ensures heartbeatIds == SelectedIds(RenewAll(old(heartbeatIds)), ownerId, old(storage.operations))
      ensures renewed == |heartbeatIds|
      ensures heartbeatIds == IdsWhere(old(storage.operations), Tracked(ownerId, old(heartbeatIds)))
      ensures old(heartbeatIds) != {} ==>
        OnlyRenewed(old(storage.operations), storage.operations, Tracked(ownerId, old(heartbeatIds)), now)
      ensures storage.operations == if old(heartbeatIds) == {} then old(storage.operations)
                else Write(RenewAll(old(heartbeatIds)), ownerId, now, maxRecent, old(storage.operations))
    {
      var ids := heartbeatIds;
      ghost var live := SelectedIds(RenewAll(ids), ownerId, storage.operations);
      assert live <= ids;
      WriteRenews(ids, ownerId, now, maxRecent, storage.operations);
      if ids == {} { return 0; }
      var registry, invalidIds;
      registry, invalidIds, renewed := RenewRecords(ids, storage.operations, now);
      WriteUnique(RenewAll(ids), ownerId, now, maxRecent, storage.operations);
      storage.operations := Prune(registry, maxRecent);
      heartbeatIds := heartbeatIds - invalidIds;
      assert heartbeatIds == live;
    }

    method ClearCompleted() returns (removed: nat)
      requires UniqueIds(storage.operations)
      modifies storage
      ensures UniqueIds(storage.operations)
      ensures storage.operations == ActiveOf(old(storage.operations))
      ensures removed == |SettledOf(old(storage.operations))|
    {
      var kept := ActiveOf(storage.operations);
      FiltersSplit(storage.operations);
      removed := |storage.operations| - |kept|;
      UniqueSub(storage.operations, kept);
      PruneActive(kept, maxRecent);
      storage.operations := Prune(kept, maxRecent);
    }

    /** Reopens a closed tracker for a new lifespan, unless its heartbeat thread is
        still alive; an open one is left as it is. */
    method Initialize(threadAlive: bool) returns (result: Result<bool, StartError>)
      modifies this`accepting, this`heartbeatIds
      ensures result == if !old(accepting) && threadAlive then Err(StillRunning) else Ok(!old(accepting))
      ensures accepting <==> old(accepting) || !threadAlive
      ensures heartbeatIds == if result == Ok(true) then {} else old(heartbeatIds)
    {
      if accepting { return Ok(false); }
      if threadAlive { return Err(StillRunning); }
      heartbeatIds := {};
      accepting := true;
      result := Ok(true);
    }

    /** The two critical sections of a shutdown, */
    method CloseAdmission()
      modifies this`accepting
      ensures !accepting
    {
      accepting := false;
    }

    method ForgetHeartbeats()
      modifies this`heartbeatIds
      ensures heartbeatIds == {}
    {
      heartbeatIds := {};
    }

    /** and the whole of it, uninterrupted. `saved` says whether interrupting the active
        records could be written, `joined` whether the heartbeat thread ended in time. */
    method Shutdown(interruptActive: bool, saved: bool, joined: bool, message: string, now: int) returns (stopped: bool)
      requires UniqueIds(storage.operations)
      modifies this`accepting, this`heartbeatIds, storage
      ensures UniqueIds(storage.operations)
      ensures !accepting && stopped == joined
      ensures storage.operations == if interruptActive && saved then
                Write(InterruptActive(message), ownerId, now, maxRecent, old(storage.operations)) else old(storage.operations)
      ensures heartbeatIds == if joined then {}
                else if interruptActive && saved then old(heartbeatIds) - SelectedIds(InterruptActive(message), ownerId, old(storage.operations))
                else old(heartbeatIds)
      ensures interruptActive && saved ==> OnlyInterrupted(old(storage.operations), storage.operations, Own(ownerId), message, now)
      ensures interruptActive && saved && !joined ==> heartbeatIds == old(heartbeatIds) - IdsWhere(old(storage.operations), Own(ownerId))
    {
      WriteInterrupts(InterruptActive(message), ownerId, now, maxRecent, storage.operations, Own(ownerId));
      CloseAdmission();
      if interruptActive && saved {
        var _ := Interrupt(InterruptActive(message), now);
      }
      if joined {
        ForgetHeartbeats();
      }
      stopped := joined;
    }
  }
}
