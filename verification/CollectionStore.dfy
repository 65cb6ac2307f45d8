/** The stored definitions and the four operations that change them: save, enable or
    disable, remove, and the global sync that catches up with everything left over. */
module CollectionStore {

  import opened Common
  import opened Text
  import opened Collections
  import opened CollectionRuns
  import opened EmbyRemote
  import opened GlobalSync

  /** Python's `a or b` on text. */
  function Or(a: string, b: string): string { if a != "" then a else b }

  function Without(ids: seq<ServerId>, dropped: seq<ServerId>): (r: seq<ServerId>)
    ensures forall s :: s in r <==> s in ids && s !in dropped
    ensures NoRepeats(ids) ==> NoRepeats(r)
  {
    if ids == [] then []
    else if ids[|ids| - 1] in dropped then Without(ids[..|ids| - 1], dropped)
    else Without(ids[..|ids| - 1], dropped) + [ids[|ids| - 1]]
  }

  /** list(dict.fromkeys(ids)) */
  function Distinct(ids: seq<ServerId>): (r: seq<ServerId>)
    ensures forall s :: s in r <==> s in ids
    ensures forall i, j :: 0 <= i < j < |r| ==> r[i] != r[j]
  {
    if ids == [] then []
    else
      var r := Distinct(ids[..|ids| - 1]);
      if ids[|ids| - 1] in r then r else r + [ids[|ids| - 1]]
  }

  /** The record a save is about to store, before its debts are settled. */
  function Draft(p: Payload, id: DefinitionId, was: Option<Definition>, servers: seq<ServerId>): (r: Result<Definition, Failure>)
    requires was.Some? ==> was.value.name != "" && Stripped(was.value.name)
    ensures r == Err(NameMissing) <==> Strip(p.name) == "" && (p.name != "" || was.None?)
    ensures r == Err(NoServer) <==> r != Err(NameMissing) && ServerIds(p.serverIds, servers) == []
    ensures r.Ok? ==>
      && r.value.id == id && r.value.name != "" && Stripped(r.value.name) && NamedAs(p, was, r.value)
      && r.value.serverIds == ServerIds(p.serverIds, servers) && r.value.enabled == p.enabled
      && r.value.pendingServers == [] && r.value.deletePending == (was.Some? && was.value.deletePending)
    ensures r.Err? ==> r.error != NotFound
  {
    var name := Strip(Or(p.name, if was.Some? then was.value.name else ""));
    StripResult(Or(p.name, if was.Some? then was.value.name else ""));
    StripStripped(if was.Some? then was.value.name else "");
    StripStripped(name);
    var sortName := Strip(Or(Or(p.sortName, if was.Some? then was.value.sortName else ""), name));
    var serverIds := ServerIds(p.serverIds, servers);
    if name == "" then Err(NameMissing)
    else if serverIds == [] then Err(NoServer)
    else Ok(Definition(id, name, Or(sortName, name), p.enabled, was.Some? && was.value.deletePending, serverIds, []))
  }

  /** The part of a save that cleans deselected servers. */
  method SettleDebts(remote: Remote, was: Definition, d: Definition, servers: seq<ServerId>) returns (d': Definition)
    requires remote.Valid() && remote.confirmed == {}
    modifies remote
    ensures remote.Valid() && remote.faults >= old(remote.faults)
    ensures d' == d.(pendingServers := d'.pendingServers)
    ensures DebtsAfterSave(was, d', servers, remote.boxes, Calls(remote.confirmed, remote.faults == old(remote.faults)))
    ensures Trim(old(remote.boxes), remote.boxes, Deselected(was, d', servers), remote.faults == old(remote.faults))
  {
    var kept := Without(was.pendingServers, d.serverIds);
    var removed := Without(ServerIds(was.serverIds, servers), d.serverIds);
    var added := remote.RetryDebts(removed, d, servers);
    d' := d.(pendingServers := Distinct(kept + added));
    SaveSettles(was, d, d', servers, added, remote.boxes, Calls(remote.confirmed, remote.faults == old(remote.faults)));
    SameTrim(old(remote.boxes), remote.boxes, Owing(removed, d, servers), Deselected(was, d', servers), remote.faults == old(remote.faults));
  }

  lemma SaveSettles(was: Definition, d: Definition, d': Definition, servers: seq<ServerId>, added: seq<ServerId>,
                    boxes': Boxes, calls: Calls)
    requires StillOwed(Without(ServerIds(was.serverIds, servers), d.serverIds), added, servers, boxes', d, calls.confirmed, calls.faultFree)
    requires Unconfirmed(added, d.id, calls.confirmed)
    requires d' == d.(pendingServers := d'.pendingServers)
    requires forall s :: s in d'.pendingServers <==> s in Without(was.pendingServers, d.serverIds) || s in added
    ensures DebtsAfterSave(was, d', servers, boxes', calls)
  {
    assert forall s :: Clean(boxes', s, d) ==> Clean(boxes', s, d');
  }

  lemma StoreKeepsKeyed(records: Records, d: Definition)
    requires Keyed(records) && d.id != "" && Stripped(d.id) && d.name != "" && Stripped(d.name)
    ensures Keyed(records[d.id := d])
  { }

  /** The passes over pending and owing records, as one sync. */
  lemma SyncOf(synced: Boxes, servers: seq<ServerId>, definitions: Records, erased: set<DefinitionId>, between: Boxes, after: Snapshot,
               c3: Cleanups, e3: bool, e4: bool, calls: Calls)
    requires (calls.faultFree ==> e3 && e4) && c3 <= calls.confirmed
    requires Trim(synced, after.boxes, DoomedBy(definitions, servers), calls.faultFree)
    requires Erasable(erased, definitions.Keys, definitions, between, servers, c3) && after.boxes <= between
    requires e3 ==> AllErased(erased, definitions.Keys, definitions, servers)
    requires after.records.Keys == (definitions - erased).Keys
    requires Settled(definitions - erased, after.records, after.records.Keys, after.boxes, servers, calls.confirmed, e4)
    ensures Synced(synced, servers, definitions, after, calls)
  {
    StillErasable(erased, definitions.Keys, definitions.Keys, definitions, between, after.boxes, servers, c3, calls.confirmed);
    assert definitions.Keys - after.records.Keys == erased;
    forall id | id in after.records
      ensures id in definitions && SettledAs(definitions[id], after.records[id], after.boxes, servers, calls.confirmed, calls.faultFree)
    {
      assert SettledAs((definitions - erased)[id], after.records[id], after.boxes, servers, calls.confirmed, e4);
    }
  }

  /** The four passes, one after the other. */
  method SyncPasses(remote: Remote, definitions: Records, servers: seq<ServerId>) returns (kept: Records)
    requires remote.Valid()
    modifies remote
    ensures remote.Valid() && remote.faults >= old(remote.faults)
    ensures Synced(old(remote.boxes), servers, definitions, Snapshot(kept, remote.boxes),
                   Calls(remote.confirmed, remote.faults == old(remote.faults)))
  {
    var gone := Sweep(remote, definitions, servers);
    ghost var b1, f1 := remote.boxes, remote.faults;
    DisabledPass(remote, definitions, servers, gone);
    ghost var b2, f2 := remote.boxes, remote.faults;
    var erased := PendingPass(remote, definitions, servers);
    ghost var b3, f3, c3 := remote.boxes, remote.faults, remote.confirmed;
    kept := OwedPass(remote, definitions - erased, servers);
    FourPasses(old(remote.boxes), b1, b2, b3, remote.boxes, definitions, servers,
               erased, c3, f1 == old(remote.faults), f2 == f1, f3 == f2, remote.faults == f3);
    SyncOf(old(remote.boxes), servers, definitions, erased, b3, Snapshot(kept, remote.boxes),
           c3, f3 == f2, remote.faults == f3, Calls(remote.confirmed, remote.faults == old(remote.faults)));
  }

  class Store {
    const remote: Remote
    var records: Records

    constructor (remote: Remote)
      ensures this.remote == remote && records == map[]
    {
      this.remote := remote;
      records := map[];
    }

    ghost predicate Valid() reads this, remote { remote.Valid() && Keyed(records) }

    ghost function Now(): Snapshot reads this, remote { Snapshot(records, remote.boxes) }

    /** What the calls of an operation came to, given the count of faults before it. */
    ghost function CallsOf(faults: nat): Calls reads remote { Calls(remote.confirmed, remote.faults == faults) }

    /** `save_collection_definition`, as far as it concerns servers and debts. */
    method Save(p: Payload, fresh': DefinitionId, servers: seq<ServerId>) returns (r: Result<Definition, Failure>)
      requires Valid()
      requires fresh' !in records && fresh' != "" && Stripped(fresh')
      requires p.id.Some? ==> p.id.value != "" && Stripped(p.id.value)
      modifies this, remote
      ensures Valid() && remote.faults >= old(remote.faults)
      ensures Saved(p, fresh', r, servers, old(Now()), Now(), CallsOf(old(remote.faults)))
      ensures DebtsKept(old(records), records, remote.boxes, servers, remote.confirmed)
      ensures ErasedWhenClean(old(records), records, remote.boxes, servers, remote.confirmed)
    {
      remote.confirmed := {};
      var id := if p.id.Some? then p.id.value else fresh';
      r := Draft(p, id, if id in records then Some(records[id]) else None, servers);
      if r.Err? {
        return;
      }
      var d := r.value;
      if id in records {
        d := SettleDebts(remote, records[id], d, servers);
      }
      assert d.id == id && d.name == r.value.name;
      StoreKeepsKeyed(records, d);
      SaveKeepsDebts(records, d, p.serverIds, servers, remote.boxes, CallsOf(old(remote.faults)));
      records := records[id := d];
      r := Ok(d);
    }

    /** `set_collection_enabled`: disabling also tries, once, to delete what matches. */
    method SetEnabled(id: DefinitionId, enabled: bool, servers: seq<ServerId>) returns (r: Result<Definition, Failure>)
      requires Valid()
      modifies this, remote
      ensures Valid() && remote.faults >= old(remote.faults)
      ensures Switched(id, enabled, r, servers, old(Now()), Now(), CallsOf(old(remote.faults)))
      ensures DebtsKept(old(records), records, remote.boxes, servers, remote.confirmed)
      ensures ErasedWhenClean(old(records), records, remote.boxes, servers, remote.confirmed)
    {
      remote.confirmed := {};
      if id !in records {
        return Err(NotFound);
      }
      var d := records[id].(enabled := enabled);
      records := records[id := d];
      if !enabled {
        var clean, gone := remote.CleanServers(TargetsOrAll(d, servers), d, {});
      }
      r := Ok(d);
    }

    /** `remove_collection_definition`: true means the record stays, waiting for deletion. */
    method Remove(id: DefinitionId, servers: seq<ServerId>) returns (r: Result<bool, Failure>)
      requires Valid()
      modifies this, remote
      ensures Valid() && remote.faults >= old(remote.faults)
      ensures Removed(id, r, servers, old(Now()), Now(), CallsOf(old(remote.faults)))
      ensures DebtsKept(old(records), records, remote.boxes, servers, remote.confirmed)
      ensures ErasedWhenClean(old(records), records, remote.boxes, servers, remote.confirmed)
    {
      remote.confirmed := {};
      if id !in records {
        return Err(NotFound);
      }
      var d := records[id];
      var targets := TargetsOrAll(d, servers);
      var clean, gone := remote.CleanServers(targets, d, {});
      r := Ok(!clean || targets == []);
      if r.value {
        StoreKeepsKeyed(records, d.(deletePending := true, enabled := false));
        records := records[id := d.(deletePending := true, enabled := false)];
      } else {
        records := records - {id};
      }
      RemoveKeepsDebts(id, r, servers, old(Now()), Now(), CallsOf(old(remote.faults)));
    }

    /** `sync_all_collections` after the sources of the enabled definitions were synced,
        which left `synced` on the servers. */
    method SyncAll(synced: Boxes, servers: seq<ServerId>)
      requires Valid() && DistinctIds(synced)
      modifies this, remote
      ensures Valid() && remote.faults >= old(remote.faults)
      ensures Synced(synced, servers, old(records), Now(), CallsOf(old(remote.faults)))
      ensures DebtsKept(old(records), records, remote.boxes, servers, remote.confirmed)
      ensures ErasedWhenClean(old(records), records, remote.boxes, servers, remote.confirmed)
    {
      remote.boxes, remote.confirmed := synced, {};
      records := SyncPasses(remote, records, servers);
      OperationKeepsDebts(Sync(synced), servers, old(Now()), Now(), CallsOf(old(remote.faults)));
    }
  }
}
