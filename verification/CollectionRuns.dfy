/** Runs of the four operations on collection definitions, under a configuration of
    servers that may change in between. */
module CollectionRuns {

  import opened Common
  import opened Text
  import opened Collections
  import opened EmbyRemote
  import opened GlobalSync

  datatype Payload = Payload(id: Option<DefinitionId>, name: string, sortName: string, enabled: bool, serverIds: seq<string>)

  datatype Failure = NameMissing | NoServer | NotFound

  datatype Snapshot = Snapshot(records: Records, boxes: Boxes)

  // ---------- what one operation does ----------

  /** What the calls of one operation came to. */
  datatype Calls = Calls(confirmed: Cleanups, faultFree: bool)

  /** What a save may delete: collections matching the new record on the configured
      servers it deselects. */
  function Deselected(old': Definition, d: Definition, servers: seq<ServerId>): Held -> bool {
    (h: Held) =>
      h.server in ServerIds(old'.serverIds, servers) && h.server !in d.serverIds && h.server in servers && Matches(h.box, d)
  }

  /** What a save leaves on the list of debts: old debts not selected again, plus the
      deselected servers whose clean-up was not confirmed. */
  ghost predicate DebtsAfterSave(old': Definition, d: Definition, servers: seq<ServerId>, boxes': Boxes, calls: Calls) {
    var before := ServerIds(old'.serverIds, servers);
    && (forall s :: s in d.pendingServers ==> s !in d.serverIds && (s in old'.pendingServers || s in before))
    && (forall s :: s in old'.pendingServers && s !in d.serverIds ==> s in d.pendingServers)
    && (forall s :: s in before && s !in d.serverIds && s !in old'.pendingServers ==>
          (s in d.pendingServers <==> (s, d.id) !in calls.confirmed))
    && (forall s :: s in before && s !in d.serverIds && s !in d.pendingServers ==> Clean(boxes', s, d))
    && (forall s :: s in before && s !in d.serverIds && s !in servers ==> s in d.pendingServers)
    && (calls.faultFree ==> forall s :: s in d.pendingServers ==> s in old'.pendingServers || s !in servers)
  }

  /** `save_collection_definition`: rejected without effect, or the drafted record is
      stored with its debts settled. */
  ghost predicate Saved(p: Payload, fresh': DefinitionId, r: Result<Definition, Failure>, servers: seq<ServerId>,
                        before: Snapshot, after: Snapshot, calls: Calls)
  {
    && (r.Err? ==> after == before)
    && (r == Err(NameMissing) <==> Strip(p.name) == "" && (p.name != "" || p.id.None? || p.id.value !in before.records))
    && (r == Err(NoServer) <==> r != Err(NameMissing) && ServerIds(p.serverIds, servers) == [])
    && (r.Ok? ==> SavedAs(p, fresh', r.value, servers, before, after, calls))
  }

  /** Name and sort name of a saved record: what was entered, else what was stored, and
      the name where there is no sort name. */
  predicate NamedAs(p: Payload, was: Option<Definition>, d: Definition) {
    && (p.name != "" ==> d.name == Strip(p.name))
    && (p.name == "" ==> was.Some? && d.name == was.value.name)
    && (Strip(p.sortName) != "" ==> d.sortName == Strip(p.sortName))
    && (p.sortName != "" && Strip(p.sortName) == "" ==> d.sortName == d.name)
    && (p.sortName == "" ==>
          d.sortName == if was.Some? && Strip(was.value.sortName) != "" then Strip(was.value.sortName) else d.name)
  }

  ghost predicate SavedAs(p: Payload, fresh': DefinitionId, d: Definition, servers: seq<ServerId>,
                          before: Snapshot, after: Snapshot, calls: Calls)
  {
    && d.id == (if p.id.Some? then p.id.value else fresh')
    && d.serverIds == ServerIds(p.serverIds, servers) && d.enabled == p.enabled
    && NamedAs(p, if d.id in before.records then Some(before.records[d.id]) else None, d)
    && after.records == before.records[d.id := d]
    && (d.id in before.records ==>
          && d.deletePending == before.records[d.id].deletePending
          && Trim(before.boxes, after.boxes, Deselected(before.records[d.id], d, servers), calls.faultFree)
          && DebtsAfterSave(before.records[d.id], d, servers, after.boxes, calls))
    && (d.id !in before.records ==> !d.deletePending && d.pendingServers == [] && after.boxes == before.boxes)
  }

  /** `set_collection_enabled` */
  ghost predicate Switched(id: DefinitionId, enabled: bool, r: Result<Definition, Failure>, servers: seq<ServerId>,
                           before: Snapshot, after: Snapshot, calls: Calls)
  {
    if id !in before.records then r == Err(NotFound) && after == before
    else
      var d := before.records[id].(enabled := enabled);
      && r == Ok(d) && after.records == before.records[id := d]
      && if enabled then after.boxes == before.boxes
         else Trim(before.boxes, after.boxes, Matching(TargetsOrAll(d, servers), d), calls.faultFree)
              && Spares(before.boxes, after.boxes, d, servers)
  }

  /** A definition that asks for some configured server loses nothing on the others. */
  ghost predicate Spares(before: Boxes, after: Boxes, d: Definition, servers: seq<ServerId>) {
    AsksForAny(d, servers) ==> forall h :: h in before && !Asks(d.serverIds, h.server) ==> h in after
  }

  /** `remove_collection_definition`: erased exactly when a server exists and every
      listing and delete of the call was confirmed. */
  ghost predicate Removed(id: DefinitionId, r: Result<bool, Failure>, servers: seq<ServerId>,
                          before: Snapshot, after: Snapshot, calls: Calls)
  {
    if id !in before.records then r == Err(NotFound) && after == before
    else
      var d := before.records[id];
      && r == Ok(servers == [] || !calls.faultFree)
      && after.records == (if r.value then before.records[id := d.(deletePending := true, enabled := false)]
                           else before.records - {id})
      && Trim(before.boxes, after.boxes, Matching(TargetsOrAll(d, servers), d), calls.faultFree)
      && Spares(before.boxes, after.boxes, d, servers)
      && (calls.faultFree ==> AllConfirmed(TargetsOrAll(d, servers), d.id, calls.confirmed))
  }

  /** `sync_all_collections`, its source phase having left `synced` on the servers. */
  ghost predicate Synced(synced: Boxes, servers: seq<ServerId>, before: Records, after: Snapshot, calls: Calls) {
    && Trim(synced, after.boxes, DoomedBy(before, servers), calls.faultFree)
    && (calls.faultFree ==> FaultFree(synced, after.boxes, before, after.records, servers))
    && Settled(before, after.records, after.records.Keys, after.boxes, servers, calls.confirmed, calls.faultFree)
    && Erasable(before.Keys - after.records.Keys, before.Keys, before, after.boxes, servers, calls.confirmed)
  }

  datatype Operation =
    | Save(p: Payload, fresh': DefinitionId, saved: Result<Definition, Failure>)
    | Switch(id: DefinitionId, enabled: bool, switched: Result<Definition, Failure>)
    | Remove(id: DefinitionId, removed: Result<bool, Failure>)
    | Sync(synced: Boxes)

  ghost predicate Performs(op: Operation, servers: seq<ServerId>, before: Snapshot, after: Snapshot, calls: Calls) {
    match op
    case Save(p, fresh', r) => Saved(p, fresh', r, servers, before, after, calls)
    case Switch(id, enabled, r) => Switched(id, enabled, r, servers, before, after, calls)
    case Remove(id, r) => Removed(id, r, servers, before, after, calls)
    case Sync(synced) => Synced(synced, servers, before.records, after, calls)
  }

  lemma SaveKeepsDebts(records: Records, d: Definition, raw: seq<string>, servers: seq<ServerId>, boxes': Boxes, calls: Calls)
    requires d.serverIds == ServerIds(raw, servers)
    requires d.id in records ==> DebtsAfterSave(records[d.id], d, servers, boxes', calls)
    ensures DebtsKept(records, records[d.id := d], boxes', servers, calls.confirmed)
  {
    var records' := records[d.id := d];
    forall id, s | id in records && id in records' && s in servers
      && (Owed(records, id, s) || Selected(records, id, s, servers))
      ensures Owed(records', id, s) || Selected(records', id, s, servers) || Cleared(boxes', s, records'[id], calls.confirmed)
    {
      if id == d.id && s in d.serverIds {
        assert Strip(s) == s;
        assert Selected(records', id, s, servers);
      }
    }
  }

  lemma SwitchKeepsDebts(id: DefinitionId, enabled: bool, r: Result<Definition, Failure>, servers: seq<ServerId>,
                         before: Snapshot, after: Snapshot, calls: Calls)
    requires Switched(id, enabled, r, servers, before, after, calls)
    ensures DebtsKept(before.records, after.records, after.boxes, servers, calls.confirmed)
    ensures ErasedWhenClean(before.records, after.records, after.boxes, servers, calls.confirmed)
  { }

  lemma RemoveKeepsDebts(id: DefinitionId, r: Result<bool, Failure>, servers: seq<ServerId>,
                         before: Snapshot, after: Snapshot, calls: Calls)
    requires Removed(id, r, servers, before, after, calls)
    ensures DebtsKept(before.records, after.records, after.boxes, servers, calls.confirmed)
    ensures ErasedWhenClean(before.records, after.records, after.boxes, servers, calls.confirmed)
  { }

  lemma SettledKeepsDebts(before: Records, after: Records, boxes': Boxes, servers: seq<ServerId>, calls: Calls)
    requires Settled(before, after, after.Keys, boxes', servers, calls.confirmed, calls.faultFree)
    ensures DebtsKept(before, after, boxes', servers, calls.confirmed)
  {
    forall id, s | id in before && id in after && s in servers && (Owed(before, id, s) || Selected(before, id, s, servers))
      ensures Owed(after, id, s) || Selected(after, id, s, servers) || Cleared(boxes', s, after[id], calls.confirmed)
    {
      assert SettledAs(before[id], after[id], boxes', servers, calls.confirmed, calls.faultFree);
    }
  }

  /** Each of the four operations keeps debts and erases records only when cleared. */
  lemma OperationKeepsDebts(op: Operation, servers: seq<ServerId>, before: Snapshot, after: Snapshot, calls: Calls)
    requires Performs(op, servers, before, after, calls)
    ensures DebtsKept(before.records, after.records, after.boxes, servers, calls.confirmed)
    ensures ErasedWhenClean(before.records, after.records, after.boxes, servers, calls.confirmed)
  {
    match op
    case Save(p, fresh', r) =>
      if r.Ok? {
        SaveKeepsDebts(before.records, r.value, p.serverIds, servers, after.boxes, calls);
      }
    case Switch(id, enabled, r) => SwitchKeepsDebts(id, enabled, r, servers, before, after, calls);
    case Remove(id, r) => RemoveKeepsDebts(id, r, servers, before, after, calls);
    case Sync(synced) =>
      SettledKeepsDebts(before.records, after.records, after.boxes, servers, calls);
      assert forall id :: id in before.records && id !in after.records ==> id in before.records.Keys - after.records.Keys;
  }

  // ---------- runs ----------

  /** One operation of a run: what it found on the servers, which may have changed
      since the last operation, and what it left. */
  datatype Turn = Turn(op: Operation, servers: seq<ServerId>, found: Boxes, left: Snapshot, calls: Calls)

  /** The records after the first `k` operations. */
  function RecordsAt(start: Records, run: seq<Turn>, k: nat): Records
    requires k <= |run|
  {
    if k == 0 then start else run[k - 1].left.records
  }

  ghost predicate IsRun(start: Records, run: seq<Turn>) {
    forall k :: 0 <= k < |run| ==> IsTurn(start, run, k)
  }

  ghost predicate IsTurn(start: Records, run: seq<Turn>, k: nat)
    requires k < |run|
  {
    Performs(run[k].op, run[k].servers, Snapshot(RecordsAt(start, run, k), run[k].found), run[k].left, run[k].calls)
  }

  /** The record asks for the server, whatever is configured. */
  predicate AsksFor(records: Records, id: DefinitionId, s: ServerId) { id in records && Asks(records[id].serverIds, s) }

  lemma AsksMeansSelected(records: Records, id: DefinitionId, s: ServerId, servers: seq<ServerId>)
    requires s in servers && s != ""
    ensures Selected(records, id, s, servers) <==> AsksFor(records, id, s)
  { }

  /** One operation of a run hands the debt on, settles it, or is asked for the server. */
  lemma TurnKeepsDebt(start: Records, run: seq<Turn>, k: nat, id: DefinitionId, s: ServerId)
    requires k < |run| && IsTurn(start, run, k) && s != "" && s in run[k].servers
    requires id in RecordsAt(start, run, k) && id in RecordsAt(start, run, k + 1)
    requires Owed(RecordsAt(start, run, k), id, s) || AsksFor(RecordsAt(start, run, k), id, s)
    ensures Owed(RecordsAt(start, run, k + 1), id, s) || AsksFor(RecordsAt(start, run, k + 1), id, s) || SettledBy(start, run, k, id, s)
  {
    var turn, records := run[k], RecordsAt(start, run, k);
    OperationKeepsDebts(turn.op, turn.servers, Snapshot(records, turn.found), turn.left, turn.calls);
    AsksMeansSelected(records, id, s, turn.servers);
    AsksMeansSelected(turn.left.records, id, s, turn.servers);
  }

  /** This operation took the server off the list of debts: it was owed or asked for
      before, is not owed after, and every call of a clean-up of the record there was
      confirmed, nothing being left. */
  ghost predicate SettledBy(start: Records, run: seq<Turn>, k: nat, id: DefinitionId, s: ServerId)
    requires k < |run|
  {
    var was, now := RecordsAt(start, run, k), RecordsAt(start, run, k + 1);
    && (Owed(was, id, s) || AsksFor(was, id, s)) && id in now && !Owed(now, id, s)
    && Cleared(run[k].left.boxes, s, now[id], run[k].calls.confirmed)
  }

  /** In every run, from the moment a server is owed or asked for, while it stays
      configured, the record exists and does not ask for it, it is on the list of
      debts, unless some operation took it off with a confirmed clean-up. */
  lemma {:induction false} DebtPersists(start: Records, run: seq<Turn>, id: DefinitionId, s: ServerId, i: nat, j: nat)
    requires i < j <= |run| && IsRun(start, run) && s != ""
    requires forall k :: i <= k < j ==> s in run[k].servers
    requires forall k :: i <= k <= j ==> id in RecordsAt(start, run, k)
    requires Owed(RecordsAt(start, run, i), id, s) || AsksFor(RecordsAt(start, run, i), id, s)
    requires forall k :: i < k <= j ==> !AsksFor(RecordsAt(start, run, k), id, s)
    ensures Owed(RecordsAt(start, run, j), id, s) || exists k :: i <= k < j && SettledBy(start, run, k, id, s)
  {
    if i + 1 < j {
      DebtPersists(start, run, id, s, i, j - 1);
      if k :| i <= k < j - 1 && SettledBy(start, run, k, id, s) {
        return;
      }
    }
    assert IsTurn(start, run, j - 1) && s in run[j - 1].servers;
    assert id in RecordsAt(start, run, j - 1);
    TurnKeepsDebt(start, run, j - 1, id, s);
  }

  /** The operation erased the record: it knew a server, and on every target all calls of
      the clean-up were confirmed and nothing is left. */
  ghost predicate ErasedBy(start: Records, run: seq<Turn>, k: nat, id: DefinitionId)
    requires k < |run|
  {
    var was := RecordsAt(start, run, k);
    && id in was && id !in RecordsAt(start, run, k + 1) && run[k].servers != []
    && forall s :: s in TargetsOrAll(was[id], run[k].servers) ==> Cleared(run[k].left.boxes, s, was[id], run[k].calls.confirmed)
  }

  /** In every run a record that has disappeared was erased by such an operation. */
  lemma {:induction false} ErasedOnlyWhenClean(start: Records, run: seq<Turn>, id: DefinitionId, i: nat, j: nat) returns (k: nat)
    requires i <= j <= |run| && IsRun(start, run)
    requires id in RecordsAt(start, run, i) && id !in RecordsAt(start, run, j)
    ensures i <= k < j && ErasedBy(start, run, k, id)
    decreases j - i
  {
    if id in RecordsAt(start, run, j - 1) {
      k := j - 1;
      assert IsTurn(start, run, k);
      OperationKeepsDebts(run[k].op, run[k].servers, Snapshot(RecordsAt(start, run, k), run[k].found), run[k].left, run[k].calls);
    } else {
      k := ErasedOnlyWhenClean(start, run, id, i, j - 1);
    }
  }

  // ---------- what an erasure leaves behind ----------

  /** The operation erases the record and leaves something of it on a server it owed. */
  ghost predicate LosesDebt(op: Operation, records: Records, id: DefinitionId, servers: seq<ServerId>, s: ServerId,
                            found: Boxes, after: Snapshot, calls: Calls)
  {
    && Performs(op, servers, Snapshot(records, found), after, calls)
    && Owed(records, id, s) && id !in after.records && !Clean(after.boxes, s, records[id])
  }

  /** Erasing a record also drops its list of debts. That can lose the debt of a server
      exactly when some server is configured and this one is no target of the erasure. */
  lemma ErasureLosesDebtExactly(records: Records, id: DefinitionId, servers: seq<ServerId>, s: ServerId)
    requires Keyed(records) && Owed(records, id, s)
    ensures (exists op, found, after, calls :: LosesDebt(op, records, id, servers, s, found, after, calls))
       <==> servers != [] && s !in TargetsOrAll(records[id], servers)
  {
    forall op, found, after, calls | LosesDebt(op, records, id, servers, s, found, after, calls)
      ensures servers != [] && s !in TargetsOrAll(records[id], servers)
    {
      OperationKeepsDebts(op, servers, Snapshot(records, found), after, calls);
    }
    if servers != [] && s !in TargetsOrAll(records[id], servers) {
      var d, targets := records[id], TargetsOrAll(records[id], servers);
      var h := Held(s, Box("x", d.name, "", []));
      var calls := Calls(set t | t in targets :: (t, d.id), true);
      assert Matches(h.box, d);
      assert LosesDebt(Remove(id, Ok(false)), records, id, servers, s, {h}, Snapshot(records - {id}, {h}), calls);
    }
  }

  /** A collection naming a definition that is not stored does not outlive a fault-free
      sync; one that names none does exactly when no definition cleared there matches it. */
  lemma LeftoverSurvivesExactly(before: Boxes, after: Boxes, records: Records, records': Records, servers: seq<ServerId>, h: Held)
    requires FaultFree(before, after, records, records', servers)
    requires h in before && h.server in servers && h.box.id != "" && NamedBy(h.box.tags) !in records
    ensures h in after <==>
      NamedBy(h.box.tags) == "" && forall k :: k in records && ClearsOn(records[k], h.server, servers) ==> !Matches(h.box, records[k])
  {
    assert h in after <==> !Doomed(h, records, servers);
    forall k | k in records
      ensures Swept(h, records[k], servers) <==> ClearsOn(records[k], h.server, servers) && Matches(h.box, records[k])
    { }
  }

  /** So in every run, once a record is gone and until its id is used again, each
      fault-free sync leaves no collection tagged with the id on a configured server. */
  lemma ErasedTagIsSwept(start: Records, run: seq<Turn>, k: nat, id: DefinitionId)
    requires k < |run| && IsRun(start, run) && run[k].op.Sync? && run[k].calls.faultFree
    requires id != "" && id !in RecordsAt(start, run, k)
    ensures forall h :: h in run[k].left.boxes && h.server in run[k].servers && h.box.id != "" ==> NamedBy(h.box.tags) != id
  {
    assert IsTurn(start, run, k);
    forall h | h in run[k].left.boxes && h.server in run[k].servers && h.box.id != "" ensures NamedBy(h.box.tags) != id {
      assert !Doomed(h, RecordsAt(start, run, k), run[k].servers);
    }
  }
}
