/** The passes of the global sync over every stored definition. */
module GlobalSync {

  import opened Collections
  import opened EmbyRemote

  function DisabledAmong(done: set<DefinitionId>, records: Records, servers: seq<ServerId>): Held -> bool {
    (h: Held) => exists id :: id in done && id in records && SweptAsDisabled(h, records[id], servers)
  }

  function PendingAmong(done: set<DefinitionId>, records: Records, servers: seq<ServerId>): Held -> bool {
    (h: Held) => exists id :: id in done && id in records && SweptAsPending(h, records[id], servers)
  }

  function OwedAmong(done: set<DefinitionId>, records: Records, servers: seq<ServerId>): Held -> bool {
    (h: Held) => exists id :: id in done && id in records && SweptAsOwed(h, records[id], servers)
  }

  function DoomedBy(records: Records, servers: seq<ServerId>): Held -> bool {
    (h: Held) => Unneeded(h, records, servers) || exists id :: id in records && Swept(h, records[id], servers)
  }

  /** Every server is listed and rid of what no enabled definition wants there. */
  method Sweep(remote: Remote, records: Records, servers: seq<ServerId>) returns (gone: Keys)
    requires remote.Valid()
    modifies remote`boxes, remote`faults
    ensures remote.Valid() && Absent(remote.boxes, gone) && remote.faults >= old(remote.faults)
    ensures Trim(old(remote.boxes), remote.boxes, UnneededOn(servers, records, servers), remote.faults == old(remote.faults))
  {
    gone := {};
    for i := 0 to |servers|
      invariant remote.Valid() && Absent(remote.boxes, gone) && remote.faults >= old(remote.faults)
      invariant Trim(old(remote.boxes), remote.boxes, UnneededOn(servers[..i], records, servers), remote.faults == old(remote.faults))
    {
      ghost var b1, f1 := remote.boxes, remote.faults;
      gone := remote.SweepServer(servers[i], records, servers, gone);
      TrimAgain(old(remote.boxes), b1, remote.boxes, UnneededOn(servers[..i], records, servers),
                UnneededOn([servers[i]], records, servers), UnneededOn(servers[..i + 1], records, servers),
                f1 == old(remote.faults), remote.faults == f1);
    }
    assert servers[..|servers|] == servers;
  }

  /** Disabled definitions: whatever matches them goes. */
  method DisabledPass(remote: Remote, records: Records, servers: seq<ServerId>, skip: Keys)
    requires remote.Valid() && Absent(remote.boxes, skip)
    modifies remote
    ensures remote.Valid() && remote.faults >= old(remote.faults) && old(remote.confirmed) <= remote.confirmed
    ensures Trim(old(remote.boxes), remote.boxes, DisabledAmong(records.Keys, records, servers), remote.faults == old(remote.faults))
  {
    var gone := skip;
    var todo, done := records.Keys, {};
    while todo != {}
      invariant remote.Valid() && Absent(remote.boxes, gone) && remote.faults >= old(remote.faults)
      invariant old(remote.confirmed) <= remote.confirmed
      invariant done + todo == records.Keys
      invariant Trim(old(remote.boxes), remote.boxes, DisabledAmong(done, records, servers), remote.faults == old(remote.faults))
      decreases |todo|
    {
      var id :| id in todo;
      var d := records[id];
      ghost var b1, f1, before := remote.boxes, remote.faults, done;
      todo, done := todo - {id}, done + {id};
      if !d.deletePending && !d.enabled {
        var clean;
        clean, gone := remote.CleanServers(TargetsOrAll(d, servers), d, gone);
        TrimAgain(old(remote.boxes), b1, remote.boxes, DisabledAmong(before, records, servers),
                  Matching(TargetsOrAll(d, servers), d), DisabledAmong(done, records, servers),
                  f1 == old(remote.faults), clean);
      } else {
        SameTrim(old(remote.boxes), b1, DisabledAmong(before, records, servers), DisabledAmong(done, records, servers),
                 f1 == old(remote.faults));
      }
    }
    assert done == records.Keys;
  }

  lemma SameTrim(b0: Boxes, b1: Boxes, p: Held -> bool, q: Held -> bool, e: bool)
    requires Trim(b0, b1, p, e) && forall h :: p(h) == q(h)
    ensures Trim(b0, b1, q, e)
  { }

  /** Definitions waiting for deletion: erased once all their servers are clean. */
  method PendingPass(remote: Remote, records: Records, servers: seq<ServerId>) returns (erased: set<DefinitionId>)
    requires remote.Valid()
    modifies remote
    ensures remote.Valid() && remote.faults >= old(remote.faults) && old(remote.confirmed) <= remote.confirmed
    ensures Trim(old(remote.boxes), remote.boxes, PendingAmong(records.Keys, records, servers), remote.faults == old(remote.faults))
    ensures Erasable(erased, records.Keys, records, remote.boxes, servers, remote.confirmed)
    ensures remote.faults == old(remote.faults) ==> AllErased(erased, records.Keys, records, servers)
  {
    erased := {};
    var todo, done := records.Keys, {};
    while todo != {}
      invariant remote.Valid() && remote.faults >= old(remote.faults)
      invariant done + todo == records.Keys
      invariant Trim(old(remote.boxes), remote.boxes, PendingAmong(done, records, servers), remote.faults == old(remote.faults))
      invariant Erasable(erased, done, records, remote.boxes, servers, remote.confirmed)
      invariant old(remote.confirmed) <= remote.confirmed
      invariant remote.faults == old(remote.faults) ==> AllErased(erased, done, records, servers)
      decreases |todo|
    {
      var id :| id in todo;
      var d := records[id];
      ghost var b1, f1, c1, before, was := remote.boxes, remote.faults, remote.confirmed, done, erased;
      todo, done := todo - {id}, done + {id};
      if d.deletePending && TargetsOrAll(d, servers) != [] {
        var clean, _ := remote.CleanServers(TargetsOrAll(d, servers), d, {});
        TrimAgain(old(remote.boxes), b1, remote.boxes, PendingAmong(before, records, servers),
                  Matching(TargetsOrAll(d, servers), d), PendingAmong(done, records, servers),
                  f1 == old(remote.faults), clean);
        StillErasable(was, before, done, records, b1, remote.boxes, servers, c1, remote.confirmed);
        if clean {
          erased := erased + {id};
        }
      } else {
        SameTrim(old(remote.boxes), b1, PendingAmong(before, records, servers), PendingAmong(done, records, servers),
                 f1 == old(remote.faults));
      }
    }
    assert done == records.Keys;
  }

  ghost predicate Erasable(erased: set<DefinitionId>, done: set<DefinitionId>, records: Records, boxes': Boxes, servers: seq<ServerId>,
                           confirmed: Cleanups)
  {
    forall id :: id in erased ==>
      && id in done && id in records && records[id].deletePending && servers != []
      && forall s :: s in TargetsOrAll(records[id], servers) ==> Cleared(boxes', s, records[id], confirmed)
  }

  ghost predicate AllErased(erased: set<DefinitionId>, done: set<DefinitionId>, records: Records, servers: seq<ServerId>) {
    forall id :: id in done && id in records && records[id].deletePending && servers != [] ==> id in erased
  }

  lemma StillErasable(erased: set<DefinitionId>, done: set<DefinitionId>, done': set<DefinitionId>, records: Records,
                      boxes: Boxes, boxes': Boxes, servers: seq<ServerId>, confirmed: Cleanups, confirmed': Cleanups)
    requires Erasable(erased, done, records, boxes, servers, confirmed) && boxes' <= boxes && done <= done' && confirmed <= confirmed'
    ensures Erasable(erased, done', records, boxes', servers, confirmed')
  { }

  function OwedBy(d: Definition, servers: seq<ServerId>): Held -> bool { (h: Held) => SweptAsOwed(h, d, servers) }

  method SettleOne(remote: Remote, d: Definition, servers: seq<ServerId>) returns (e: Definition)
    requires remote.Valid()
    modifies remote
    ensures remote.Valid() && remote.faults >= old(remote.faults)
    ensures Trim(old(remote.boxes), remote.boxes, OwedBy(d, servers), remote.faults == old(remote.faults))
    ensures SettledAs(d, e, remote.boxes, servers, remote.confirmed, remote.faults == old(remote.faults))
    ensures old(remote.confirmed) <= remote.confirmed
  {
    if d.deletePending {
      return d;
    }
    var owed := remote.RetryDebts(d.pendingServers, d, servers);
    SameTrim(old(remote.boxes), remote.boxes, Owing(d.pendingServers, d, servers), OwedBy(d, servers),
             remote.faults == old(remote.faults));
    e := d.(pendingServers := owed);
  }

  /** Servers still owing a clean-up are tried again, and the list shortened. */
  method OwedPass(remote: Remote, definitions: Records, servers: seq<ServerId>) returns (records: Records)
    requires remote.Valid()
    modifies remote
    ensures remote.Valid() && remote.faults >= old(remote.faults) && old(remote.confirmed) <= remote.confirmed
    ensures Trim(old(remote.boxes), remote.boxes, OwedAmong(definitions.Keys, definitions, servers), remote.faults == old(remote.faults))
    ensures records.Keys == definitions.Keys
    ensures Settled(definitions, records, records.Keys, remote.boxes, servers, remote.confirmed, remote.faults == old(remote.faults))
  {
    records := map[];
    var todo := definitions.Keys;
    while todo != {}
      invariant remote.Valid() && remote.faults >= old(remote.faults)
      invariant records.Keys + todo == definitions.Keys
      invariant OwedSoFar(old(remote.boxes), remote.boxes, definitions, records, servers, remote.confirmed, remote.faults == old(remote.faults))
      invariant old(remote.confirmed) <= remote.confirmed
      decreases |todo|
    {
      var id :| id in todo;
      ghost var b1, f1, c1, was := remote.boxes, remote.faults, remote.confirmed, records;
      todo := todo - {id};
      var e := SettleOne(remote, definitions[id], servers);
      records := records[id := e];
      OneMoreSettled(old(remote.boxes), b1, remote.boxes, definitions, was, id, e, servers, c1, remote.confirmed,
                     f1 == old(remote.faults), remote.faults == f1);
    }
  }

  ghost predicate OwedSoFar(b0: Boxes, b1: Boxes, definitions: Records, records: Records, servers: seq<ServerId>,
                            confirmed: Cleanups, e: bool)
  {
    && Trim(b0, b1, OwedAmong(records.Keys, definitions, servers), e)
    && Settled(definitions, records, records.Keys, b1, servers, confirmed, e)
  }

  lemma OneMoreSettled(b0: Boxes, b1: Boxes, b2: Boxes, definitions: Records, records: Records, id: DefinitionId, e: Definition,
                       servers: seq<ServerId>, c1: Cleanups, c2: Cleanups, sofar: bool, now: bool)
    requires id in definitions && OwedSoFar(b0, b1, definitions, records, servers, c1, sofar) && c1 <= c2
    requires Trim(b1, b2, OwedBy(definitions[id], servers), now) && SettledAs(definitions[id], e, b2, servers, c2, now)
    ensures OwedSoFar(b0, b2, definitions, records[id := e], servers, c2, sofar && now)
    ensures records[id := e].Keys == records.Keys + {id}
  {
    MoreOwed(b0, b1, b2, records.Keys, id, definitions, servers, sofar, now);
    assert records[id := e].Keys == records.Keys + {id};
    StillSettled(definitions, records, id, e, b1, b2, servers, c1, c2, sofar, sofar && now);
  }

  lemma MoreOwed(b0: Boxes, b1: Boxes, b2: Boxes, done: set<DefinitionId>, id: DefinitionId, records: Records, servers: seq<ServerId>,
                 e1: bool, e2: bool)
    requires id in records
    requires Trim(b0, b1, OwedAmong(done, records, servers), e1) && Trim(b1, b2, OwedBy(records[id], servers), e2)
    ensures Trim(b0, b2, OwedAmong(done + {id}, records, servers), e1 && e2)
  { }

  ghost predicate SettledAs(d: Definition, e: Definition, boxes': Boxes, servers: seq<ServerId>, confirmed: Cleanups, faultFree: bool) {
    && SameButDebts(d, e)
    && (if d.deletePending then e == d else StillOwed(d.pendingServers, e.pendingServers, servers, boxes', d, confirmed, faultFree))
  }

  ghost predicate Settled(before: Records, after: Records, done: set<DefinitionId>, boxes': Boxes, servers: seq<ServerId>,
                          confirmed: Cleanups, faultFree: bool)
  {
    forall id :: id in done ==> id in before && id in after && SettledAs(before[id], after[id], boxes', servers, confirmed, faultFree)
  }

  lemma StillSettled(before: Records, after: Records, id: DefinitionId, e: Definition,
                     boxes: Boxes, boxes': Boxes, servers: seq<ServerId>, c: Cleanups, c': Cleanups, sofar: bool, now: bool)
    requires Settled(before, after, after.Keys, boxes, servers, c, sofar) && boxes' <= boxes && c <= c' && (now ==> sofar)
    requires id in before && SettledAs(before[id], e, boxes', servers, c', now)
    ensures Settled(before, after[id := e], after[id := e].Keys, boxes', servers, c', now)
  {
    forall k | k in after && k != id ensures SettledAs(before[k], after[k], boxes', servers, c', now) {
      assert SettledAs(before[k], after[k], boxes, servers, c, sofar);
    }
  }

  lemma FourPasses(b0: Boxes, b1: Boxes, b2: Boxes, b3: Boxes, b4: Boxes, records: Records, servers: seq<ServerId>,
                   erased: set<DefinitionId>, c3: Cleanups, e1: bool, e2: bool, e3: bool, e4: bool)
    requires Erasable(erased, records.Keys, records, b3, servers, c3)
    requires Trim(b0, b1, UnneededOn(servers, records, servers), e1)
    requires Trim(b1, b2, DisabledAmong(records.Keys, records, servers), e2)
    requires Trim(b2, b3, PendingAmong(records.Keys, records, servers), e3)
    requires Trim(b3, b4, OwedAmong((records - erased).Keys, records - erased, servers), e4)
    ensures Trim(b0, b4, DoomedBy(records, servers), e1 && e2 && e3 && e4)
  {
    var kept := records - erased;
    forall h: Held ensures OwedAmong(kept.Keys, kept, servers)(h) == OwedAmong(records.Keys, records, servers)(h) {
      if id :| id in records && SweptAsOwed(h, records[id], servers) {
        assert id in kept;
      }
    }
    SameTrim(b3, b4, OwedAmong((records - erased).Keys, records - erased, servers),
             OwedAmong(records.Keys, records, servers), e4);
  }
}
