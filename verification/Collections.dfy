/** Collection definitions, the collections they left on Emby servers, and what a
    clean-up is meant to leave behind. */
module Collections {

  import opened Text

  type ServerId = string
  type BoxId = string
  type DefinitionId = string

  /** A collection ("BoxSet") as a server lists it; absent fields are empty. */
  datatype Box = Box(id: BoxId, name: string, sortName: string, tags: seq<string>)

  /** A collection on a server. */
  datatype Held = Held(server: ServerId, box: Box)

  datatype Definition = Definition(
    id: DefinitionId,
    name: string,
    sortName: string,
    enabled: bool,
    deletePending: bool,
    serverIds: seq<ServerId>,
    pendingServers: seq<ServerId>)

  type Records = map<DefinitionId, Definition>
  type Boxes = set<Held>

  /** Clean-ups of a definition on a server in which every call was confirmed. */
  type Cleanups = set<(ServerId, DefinitionId)>

  const TAG_PREFIX := "OctoHubs:"

  function IdTag(id: DefinitionId): string { TAG_PREFIX + id }

  /** `_extract_octohubs_definition_id`: the first tag with the prefix, stripped. */
  function NamedBy(tags: seq<string>): DefinitionId {
    if tags == [] then ""
    else if StartsWith(tags[0], TAG_PREFIX) then Strip(tags[0][|TAG_PREFIX|..])
    else NamedBy(tags[1..])
  }

  /** `_find_collection_ids_for_definition` selects a listed entry. */
  predicate Matches(b: Box, d: Definition) {
    && b.id != ""
    && ((d.id != "" && IdTag(d.id) in b.tags)
        || (d.name != "" && b.name == d.name)
        || (d.sortName != "" && b.sortName == d.sortName))
  }

  /** One of the entries stands for this server. */
  predicate Asks(raw: seq<string>, s: ServerId) { exists i :: 0 <= i < |raw| && Strip(raw[i]) == s }

  /** `_normalize_server_ids`: stripped, known to the configuration when there is
      one, first occurrences only. */
  function ServerIds(raw: seq<string>, servers: seq<ServerId>): (ids: seq<ServerId>)
    ensures forall s :: s in ids ==> s != "" && Strip(s) == s && (servers != [] ==> s in servers)
    ensures forall s :: s in ids ==> Asks(raw, s)
    ensures forall r :: r in raw && Strip(r) != "" && (servers == [] || Strip(r) in servers) ==> Strip(r) in ids
    ensures forall i, j :: 0 <= i < j < |ids| ==> ids[i] != ids[j]
  {
    if raw == [] then []
    else
      var ids, last := ServerIds(raw[..|raw| - 1], servers), Strip(raw[|raw| - 1]);
      StripTwice(raw[|raw| - 1]);
      AsksMore(raw);
      if last == "" || (servers != [] && last !in servers) || last in ids then ids else ids + [last]
  }

  lemma AsksMore(raw: seq<string>)
    requires raw != []
    ensures forall s :: Asks(raw[..|raw| - 1], s) ==> Asks(raw, s)
    ensures Asks(raw, Strip(raw[|raw| - 1]))
  {
    forall s | Asks(raw[..|raw| - 1], s) ensures Asks(raw, s) {
      var i :| 0 <= i < |raw| - 1 && Strip(raw[..|raw| - 1][i]) == s;
      assert Strip(raw[i]) == s;
    }
  }

  /** `_resolve_target_server_ids` of an enriched definition, without the fallback:
      the configured servers it asks for. */
  function Targets(d: Definition, servers: seq<ServerId>): (t: seq<ServerId>)
    ensures forall s :: s in t ==> s in servers
    ensures forall s :: s in t <==> s != "" && s in servers && Asks(d.serverIds, s)
  {
    if servers == [] then [] else ServerIds(d.serverIds, servers)
  }

  /** It asks for at least one configured server. */
  predicate AsksForAny(d: Definition, servers: seq<ServerId>) {
    exists s :: s in servers && s != "" && Asks(d.serverIds, s)
  }

  /** The same with the fallback to every configured server, for a definition that asks
      for none of them. */
  function TargetsOrAll(d: Definition, servers: seq<ServerId>): (t: seq<ServerId>)
    ensures forall s :: s in t ==> s in servers
    ensures forall s :: s in t <==> s in servers && (AsksForAny(d, servers) ==> s != "" && Asks(d.serverIds, s))
    ensures t == [] <==> servers == []
  {
    assert AsksForAny(d, servers) <==> Targets(d, servers) != [] by {
      if Targets(d, servers) != [] { assert Targets(d, servers)[0] in Targets(d, servers); }
    }
    if Targets(d, servers) == [] then servers else Targets(d, servers)
  }

  /** A server never lists two collections under one id. */
  ghost predicate DistinctIds(boxes: Boxes) {
    forall h, k :: h in boxes && k in boxes && h.server == k.server && h.box.id == k.box.id ==> h == k
  }

  /** Between `before` and `after` collections only disappeared, all of them doomed;
      when nothing failed, every doomed one disappeared. */
  ghost predicate Trim(before: Boxes, after: Boxes, doomed: Held -> bool, faultFree: bool) {
    && after <= before
    && (forall h :: h in before && !doomed(h) ==> h in after)
    && (faultFree ==> forall h :: h in after ==> !doomed(h))
  }

  /** No collection on the server matches the definition. */
  ghost predicate Clean(boxes: Boxes, s: ServerId, d: Definition) {
    forall h :: h in boxes && h.server == s ==> !Matches(h.box, d)
  }

  /** A tagged collection no enabled definition wants on its server. */
  predicate Unneeded(h: Held, records: Records, servers: seq<ServerId>) {
    var name := NamedBy(h.box.tags);
    && h.server in servers && h.box.id != "" && name != ""
    && (name !in records || !records[name].enabled || h.server !in Targets(records[name], servers))
  }

  /** Stored under their own canonical id, with a name. */
  ghost predicate Keyed(records: Records) {
    forall id :: id in records ==>
      && records[id].id == id && id != "" && Stripped(id)
      && records[id].name != "" && Stripped(records[id].name)
  }

  /** Every collection on a configured server that names a definition names a stored,
      enabled one that asks for this server. */
  ghost predicate Converged(boxes: Boxes, records: Records, servers: seq<ServerId>) {
    forall h :: h in boxes && h.server in servers && h.box.id != "" && NamedBy(h.box.tags) != "" ==>
      Justified(h, NamedBy(h.box.tags), records)
  }

  predicate Justified(h: Held, name: DefinitionId, records: Records) {
    name in records && records[name].enabled && h.server != "" && Asks(records[name].serverIds, h.server)
  }

  /** The name is read from the first tag with the prefix. */
  lemma {:induction false} NamedByTheFirst(tags: seq<string>, i: nat)
    requires i <= |tags| && forall j :: 0 <= j < i ==> !StartsWith(tags[j], TAG_PREFIX)
    requires i < |tags| ==> StartsWith(tags[i], TAG_PREFIX)
    ensures NamedBy(tags) == if i < |tags| then Strip(tags[i][|TAG_PREFIX|..]) else ""
  {
    if i > 0 {
      assert forall j :: 0 <= j < i - 1 ==> tags[1..][j] == tags[j + 1];
      NamedByTheFirst(tags[1..], i - 1);
    }
  }

  // ---------- a fault-free global sync ----------

  /** The pass over disabled definitions deletes this collection for `d`. */
  predicate SweptAsDisabled(h: Held, d: Definition, servers: seq<ServerId>) {
    !d.deletePending && !d.enabled && h.server in TargetsOrAll(d, servers) && Matches(h.box, d)
  }

  /** The pass over definitions waiting for deletion does. */
  predicate SweptAsPending(h: Held, d: Definition, servers: seq<ServerId>) {
    d.deletePending && h.server in TargetsOrAll(d, servers) && Matches(h.box, d)
  }

  /** The pass over servers still owing a clean-up does. */
  predicate SweptAsOwed(h: Held, d: Definition, servers: seq<ServerId>) {
    !d.deletePending && h.server in d.pendingServers && h.server in servers && Matches(h.box, d)
  }

  predicate Swept(h: Held, d: Definition, servers: seq<ServerId>) {
    SweptAsDisabled(h, d, servers) || SweptAsPending(h, d, servers) || SweptAsOwed(h, d, servers)
  }

  ghost predicate Doomed(h: Held, records: Records, servers: seq<ServerId>) {
    Unneeded(h, records, servers) || exists id :: id in records && Swept(h, records[id], servers)
  }

  /** The records a global sync keeps when nothing fails. */
  ghost predicate RecordsAfterSync(records: Records, records': Records, servers: seq<ServerId>) {
    && (forall id :: id in records' <==> id in records && (records[id].deletePending ==> servers == []))
    && (forall id :: id in records' ==> SameButDebts(records[id], records'[id]))
    && (forall id, s :: id in records' && !records[id].deletePending && s in records'[id].pendingServers ==> s !in servers)
  }

  ghost predicate SameButDebts(d: Definition, e: Definition) { e == d.(pendingServers := e.pendingServers) }

  /** What a global sync leaves when no listing and no delete fails, given what the
      source phase had put on the servers. */
  ghost predicate FaultFree(before: Boxes, after: Boxes, records: Records, records': Records, servers: seq<ServerId>) {
    && Trim(before, after, h => Doomed(h, records, servers), true)
    && RecordsAfterSync(records, records', servers)
  }

  /** Tags the way this program writes them: no padding around the id. */
  predicate Canonical(tags: seq<string>) {
    forall t :: t in tags && StartsWith(t, TAG_PREFIX) ==> Stripped(t[|TAG_PREFIX|..])
  }

  lemma {:induction false} CanonicalNameIsTagged(tags: seq<string>)
    requires NamedBy(tags) != "" && Canonical(tags)
    ensures IdTag(NamedBy(tags)) in tags
  {
    if StartsWith(tags[0], TAG_PREFIX) {
      StripStripped(tags[0][|TAG_PREFIX|..]);
      assert tags[0] == TAG_PREFIX + tags[0][|TAG_PREFIX|..];
    } else {
      CanonicalNameIsTagged(tags[1..]);
    }
  }

  /** A record that is both waiting for deletion and enabled (saved again after its
      removal was requested), with a server to be enabled on. */
  ghost predicate Revived(d: Definition, servers: seq<ServerId>) {
    d.deletePending && d.enabled && Targets(d, servers) != []
  }

  /** With canonical tags a fault-free sync always converges. */
  lemma CanonicalSyncConverges(before: Boxes, after: Boxes, records: Records, records': Records, servers: seq<ServerId>)
    requires Keyed(records) && FaultFree(before, after, records, records', servers)
    requires forall h :: h in before ==> Canonical(h.box.tags)
    ensures Converged(after, records', servers)
  {
    forall h | h in after ensures !Unneeded(h, records', servers) {
      if h.server in servers && h.box.id != "" && NamedBy(h.box.tags) != "" {
        CanonicalNameIsTagged(h.box.tags);
        assert !Doomed(h, records, servers);
        var d := records[NamedBy(h.box.tags)];
        assert Matches(h.box, d) && !Swept(h, d, servers);
      }
    }
  }

  /** Without a revived record it converges whatever the tags look like. */
  lemma UnrevivedSyncConverges(before: Boxes, after: Boxes, records: Records, records': Records, servers: seq<ServerId>)
    requires Keyed(records) && FaultFree(before, after, records, records', servers)
    requires forall id :: id in records ==> !Revived(records[id], servers)
    ensures Converged(after, records', servers)
  {
    forall h | h in after ensures !Unneeded(h, records', servers) {
      if h.server in servers && h.box.id != "" && NamedBy(h.box.tags) != "" {
        assert !Doomed(h, records, servers);
        assert !Revived(records[NamedBy(h.box.tags)], servers);
      }
    }
  }

  /** A collection whose tag names `id` only after stripping. */
  function Padded(id: DefinitionId): Box { Box("x", "", "", [TAG_PREFIX + " " + id]) }

  lemma PaddedIsMissed(id: DefinitionId, records: Records)
    requires Keyed(records) && Stripped(id)
    ensures NamedBy(Padded(id).tags) == id
    ensures forall k :: k in records ==> !Matches(Padded(id), records[k])
  {
    var tag := Padded(id).tags[0];
    var rest := tag[|TAG_PREFIX|..];
    assert rest == " " + id;
    assert LStrip(rest) == LStrip(id) by { assert rest[1..] == id; }
    StripStripped(id);
    assert Strip(rest) == id;
    forall k | k in records ensures !Matches(Padded(id), records[k]) {
      assert IdTag(k)[|TAG_PREFIX|] == k[0] != ' ';
      assert tag[|TAG_PREFIX|] == ' ';
    }
  }

  function KeptRecords(records: Records): Records {
    map k | k in records && !records[k].deletePending :: records[k].(pendingServers := [])
  }

  lemma UndoomedStay(h: Held, records: Records, servers: seq<ServerId>)
    requires Keyed(records) && servers != [] && !Doomed(h, records, servers)
    ensures FaultFree({h}, {h}, records, KeptRecords(records), servers)
  { }

  lemma RevivedEscapes(records: Records, servers: seq<ServerId>, id: DefinitionId)
    requires Keyed(records) && id in records && Revived(records[id], servers)
    ensures exists before, after, records' ::
              FaultFree(before, after, records, records', servers) && !Converged(after, records', servers)
  {
    var s := Targets(records[id], servers)[0];
    assert s in Targets(records[id], servers);
    var h := Held(s, Padded(id));
    PaddedIsMissed(id, records);
    assert !Doomed(h, records, servers);
    UndoomedStay(h, records, servers);
    assert Unneeded(h, KeptRecords(records), servers);
    assert !Converged({h}, KeptRecords(records), servers);
  }

  /** A fault-free sync converges for every content of the servers exactly when no
      record is revived: the pass over delete-pending records looks for the exact
      tag, while the sweep before it reads the stripped one and lets the collection
      of an enabled record pass. */
  lemma ConvergesForEveryContent(records: Records, servers: seq<ServerId>)
    requires Keyed(records)
    ensures (forall before, after, records' | FaultFree(before, after, records, records', servers) ::
               Converged(after, records', servers))
       <==> (forall id :: id in records ==> !Revived(records[id], servers))
  {
    if forall id :: id in records ==> !Revived(records[id], servers) {
      forall before, after, records' | FaultFree(before, after, records, records', servers)
        ensures Converged(after, records', servers)
      {
        UnrevivedSyncConverges(before, after, records, records', servers);
      }
    } else {
      var id :| id in records && Revived(records[id], servers);
      RevivedEscapes(records, servers, id);
    }
  }

  // ---------- collections that should stay ----------

  /** The definition wants its collection on this server. */
  predicate Wants(d: Definition, s: ServerId, servers: seq<ServerId>) { d.enabled && s in Targets(d, servers) }

  /** A global sync deletes what matches this definition on the server. */
  predicate ClearsOn(d: Definition, s: ServerId, servers: seq<ServerId>) {
    if d.deletePending then s in TargetsOrAll(d, servers)
    else (!d.enabled && s in TargetsOrAll(d, servers)) || (s in d.pendingServers && s in servers)
  }

  /** The collection this program keeps for a definition: its name, and no id tag but its own. */
  predicate OwnedBy(b: Box, d: Definition) {
    && b.id != "" && b.name == d.name && IdTag(d.id) in b.tags
    && forall t :: t in b.tags && StartsWith(t, TAG_PREFIX) ==> t == IdTag(d.id)
  }

  predicate SharesName(b: Box, d: Definition) {
    b.name == d.name || (d.sortName != "" && b.sortName == d.sortName)
  }

  lemma {:induction false} OwnedIsNamed(tags: seq<string>, id: DefinitionId)
    requires Stripped(id) && IdTag(id) in tags
    requires forall t :: t in tags && StartsWith(t, TAG_PREFIX) ==> t == IdTag(id)
    ensures NamedBy(tags) == id
  {
    if StartsWith(tags[0], TAG_PREFIX) {
      assert tags[0] in tags && tags[0][|TAG_PREFIX|..] == id;
      StripStripped(id);
    } else {
      OwnedIsNamed(tags[1..], id);
    }
  }

  lemma OwnedMatches(b: Box, d: Definition, e: Definition)
    requires OwnedBy(b, d) && d.id != "" && e.id != "" && e.name != ""
    ensures Matches(b, e) <==> e.id == d.id || SharesName(b, e)
  {
    assert IdTag(e.id)[|TAG_PREFIX|..] == e.id && IdTag(d.id)[|TAG_PREFIX|..] == d.id;
  }

  /** A fault-free sync keeps the collection of a definition that wants it exactly when
      no definition cleared on that server is the same one or shares its name or sort name. */
  lemma OwnedIsKeptExactly(before: Boxes, after: Boxes, records: Records, records': Records, servers: seq<ServerId>,
                           id: DefinitionId, h: Held)
    requires Keyed(records) && FaultFree(before, after, records, records', servers) && h in before
    requires id in records && Wants(records[id], h.server, servers) && OwnedBy(h.box, records[id])
    ensures h in after <==>
      forall k :: k in records && ClearsOn(records[k], h.server, servers) ==> k != id && !SharesName(h.box, records[k])
  {
    OwnedIsNamed(h.box.tags, id);
    forall k | k in records
      ensures Swept(h, records[k], servers) <==> ClearsOn(records[k], h.server, servers) && (k == id || SharesName(h.box, records[k]))
    {
      OwnedMatches(h.box, records[id], records[k]);
    }
    assert h in after <==> !Doomed(h, records, servers);
  }

  /** Two definitions that cannot tell their collections apart. */
  predicate Clash(d: Definition, e: Definition) {
    d.id == e.id || d.name == e.name || (e.sortName != "" && e.sortName == d.sortName)
  }

  /** No fault-free sync, whatever the servers hold, deletes the collection a definition
      wants, named and sorted as the definition says. */
  ghost predicate KeepsWanted(records: Records, servers: seq<ServerId>) {
    forall before, after, records', id, h | FaultFree(before, after, records, records', servers) && IsWanted(before, records, servers, id, h) ::
      h in after
  }

  ghost predicate IsWanted(before: Boxes, records: Records, servers: seq<ServerId>, id: DefinitionId, h: Held) {
    && h in before && id in records && Wants(records[id], h.server, servers)
    && OwnedBy(h.box, records[id]) && h.box.sortName == records[id].sortName
  }

  ghost predicate NoClash(records: Records, servers: seq<ServerId>) {
    forall id, k, s :: id in records && k in records && Wants(records[id], s, servers) && ClearsOn(records[k], s, servers)
      ==> !Clash(records[id], records[k])
  }

  lemma ClashDeletes(records: Records, servers: seq<ServerId>, id: DefinitionId, k: DefinitionId, s: ServerId)
    requires Keyed(records) && id in records && k in records
    requires Wants(records[id], s, servers) && ClearsOn(records[k], s, servers) && Clash(records[id], records[k])
    ensures !KeepsWanted(records, servers)
  {
    var d := records[id];
    var h := Held(s, Box("x", d.name, d.sortName, [IdTag(id)]));
    assert IdTag(id) in h.box.tags;
    OwnedMatches(h.box, d, records[k]);
    assert Swept(h, records[k], servers);
    DoomedGo(h, records, servers);
    WantedGoes(records, KeptRecords(records), servers, id, h);
  }

  lemma DoomedGo(h: Held, records: Records, servers: seq<ServerId>)
    requires servers != [] && Doomed(h, records, servers)
    ensures FaultFree({h}, {}, records, KeptRecords(records), servers)
  { }

  lemma WantedGoes(records: Records, records': Records, servers: seq<ServerId>, id: DefinitionId, h: Held)
    requires FaultFree({h}, {}, records, records', servers) && IsWanted({h}, records, servers, id, h)
    ensures !KeepsWanted(records, servers)
  { }

  /** That is so exactly when no definition cleared on a server clashes with one wanted
      there. */
  lemma WantedIsKeptExactly(records: Records, servers: seq<ServerId>)
    requires Keyed(records)
    ensures KeepsWanted(records, servers) <==> NoClash(records, servers)
  {
    if NoClash(records, servers) {
      forall before, after, records', id, h | FaultFree(before, after, records, records', servers) && IsWanted(before, records, servers, id, h)
        ensures h in after
      {
        OwnedIsKeptExactly(before, after, records, records', servers, id, h);
      }
    } else {
      var id, k, s :| id in records && k in records && Wants(records[id], s, servers) && ClearsOn(records[k], s, servers)
                      && Clash(records[id], records[k]);
      ClashDeletes(records, servers, id, k, s);
    }
  }

  // ---------- debts of clean-up ----------

  /** The server still has to be cleaned for this record. */
  predicate Owed(records: Records, id: DefinitionId, s: ServerId) {
    id in records && s in records[id].pendingServers
  }

  predicate Selected(records: Records, id: DefinitionId, s: ServerId, servers: seq<ServerId>) {
    id in records && s in Targets(records[id], servers)
  }

  /** What one operation does to the debt of a record that outlives it: a configured
      server that owes a clean-up, or was deselected just now, owes it afterwards,
      unless it is selected again or its clean-up was confirmed and left nothing. */
  ghost predicate DebtsKept(records: Records, records': Records, boxes': Boxes, servers: seq<ServerId>, confirmed: Cleanups) {
    forall id, s :: id in records && id in records' && s in servers
      && (Owed(records, id, s) || Selected(records, id, s, servers))
      ==> Owed(records', id, s) || Selected(records', id, s, servers) || Cleared(boxes', s, records'[id], confirmed)
  }

  /** The clean-up of the server was confirmed, and nothing of the definition is left. */
  ghost predicate Cleared(boxes': Boxes, s: ServerId, d: Definition, confirmed: Cleanups) {
    (s, d.id) in confirmed && Clean(boxes', s, d)
  }

  /** A record disappears only when its target servers exist and all were cleared. */
  ghost predicate ErasedWhenClean(records: Records, records': Records, boxes': Boxes, servers: seq<ServerId>, confirmed: Cleanups) {
    forall id :: id in records && id !in records' ==>
      servers != [] && forall s :: s in TargetsOrAll(records[id], servers) ==> Cleared(boxes', s, records[id], confirmed)
  }
}
