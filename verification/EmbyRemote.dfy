/** Emby servers whose listings and deletes may fail at any moment, and the loops that
    clean them up. */
module EmbyRemote {

  import opened Collections

  type Keys = set<(ServerId, BoxId)>

  /** The collections under one of these ids on a server. */
  function WithId(s: ServerId, ids: seq<BoxId>): Held -> bool { (h: Held) => h.server == s && h.box.id in ids }

  /** The collections of a definition on one of these servers. */
  function Matching(targets: seq<ServerId>, d: Definition): Held -> bool {
    (h: Held) => h.server in targets && Matches(h.box, d)
  }

  /** The same, restricted to the configured servers. */
  function Owing(asked: seq<ServerId>, d: Definition, servers: seq<ServerId>): Held -> bool {
    (h: Held) => h.server in asked && h.server in servers && Matches(h.box, d)
  }

  function UnneededOn(on: seq<ServerId>, records: Records, servers: seq<ServerId>): Held -> bool {
    (h: Held) => h.server in on && Unneeded(h, records, servers)
  }

  function UnneededAmong(s: ServerId, entries: seq<Box>, records: Records, servers: seq<ServerId>): Held -> bool {
    (h: Held) => h.server == s && h.box in entries && Unneeded(h, records, servers)
  }

  predicate AllConfirmed(targets: seq<ServerId>, id: DefinitionId, confirmed: Cleanups) {
    forall s :: s in targets ==> (s, id) in confirmed
  }

  predicate Unconfirmed(owed: seq<ServerId>, id: DefinitionId, confirmed: Cleanups) {
    forall s :: s in owed ==> (s, id) !in confirmed
  }

  predicate NoRepeats(ids: seq<ServerId>) { forall i, j :: 0 <= i < j < |ids| ==> ids[i] != ids[j] }

  ghost predicate Absent(boxes: Boxes, gone: Keys) {
    forall h :: h in boxes ==> (h.server, h.box.id) !in gone
  }

  lemma TrimAgain(b0: Boxes, b1: Boxes, b2: Boxes, p: Held -> bool, q: Held -> bool, r: Held -> bool, e1: bool, e2: bool)
    requires Trim(b0, b1, p, e1) && Trim(b1, b2, q, e2)
    requires forall h :: r(h) <==> p(h) || q(h)
    ensures Trim(b0, b2, r, e1 && e2)
  { }

  /** Servers still in debt after each of `asked` was tried: the ones that are not
      configured, and the ones whose clean-up was not confirmed, whatever is there. */
  ghost predicate StillOwed(asked: seq<ServerId>, owed: seq<ServerId>, servers: seq<ServerId>, boxes': Boxes, d: Definition,
                            confirmed: Cleanups, faultFree: bool)
  {
    && (forall s :: s in owed ==> s in asked)
    && (forall s :: s in asked && s !in servers ==> s in owed)
    && (forall s :: s in asked && s !in owed ==> Cleared(boxes', s, d, confirmed))
    && (faultFree ==> forall s :: s in owed ==> s !in servers)
  }

  /** The Emby servers. `faults` counts the calls that were not confirmed, and
      `confirmed` is the history of the operation under way. */
  class Remote {
    var boxes: Boxes
    var faults: nat
    var confirmed: Cleanups

    ghost predicate Valid() reads this { DistinctIds(boxes) }

    /** `_list_emby_collections` */
    method List(s: ServerId) returns (entries: seq<Box>, ok: bool)
      modifies `faults
      ensures faults >= old(faults) && ok == (faults == old(faults))
      ensures ok ==> forall b :: b in entries <==> Held(s, b) in boxes
    {
      entries, ok := [], *;
      if !ok {
        faults := faults + 1;
        return;
      }
      var todo: set<Held> := set h | h in boxes && h.server == s;
      while todo != {}
        invariant forall h :: h in todo ==> h in boxes && h.server == s
        invariant forall b :: b in entries ==> Held(s, b) in boxes
        invariant forall b :: Held(s, b) in boxes ==> b in entries || Held(s, b) in todo
        decreases |todo|
      {
        var h :| h in todo;
        todo, entries := todo - {h}, entries + [h.box];
      }
    }

    /** One DELETE: confirmed, refused, or carried out with its reply lost. */
    method Attempt(s: ServerId, id: BoxId) returns (ok: bool)
      requires Valid()
      modifies `boxes
      ensures Valid()
      ensures Trim(old(boxes), boxes, WithId(s, [id]), ok)
    {
      ok := *;
      var carriedOut: bool := *;
      if ok || carriedOut {
        boxes := set h | h in boxes && !(h.server == s && h.box.id == id);
      }
    }

    /** `_delete_emby_collection` */
    method Delete(s: ServerId, id: BoxId) returns (ok: bool)
      requires Valid() && id != ""
      modifies `boxes, `faults
      ensures Valid()
      ensures faults >= old(faults) && ok == (faults == old(faults))
      ensures Trim(old(boxes), boxes, WithId(s, [id]), ok)
    {
      ok := Attempt(s, id);
      if !ok {
        ok := Attempt(s, id);
      }
      if !ok {
        faults := faults + 1;
      }
    }

    /** `_find_collection_ids_for_definition` */
    method FindIds(s: ServerId, d: Definition) returns (ids: seq<BoxId>, ok: bool)
      requires Valid()
      modifies `faults
      ensures faults >= old(faults) && ok == (faults == old(faults))
      ensures "" !in ids
      ensures ok ==> forall h :: h in boxes && h.server == s ==> (h.box.id in ids <==> Matches(h.box, d))
    {
      var entries;
      entries, ok := List(s);
      ids := [];
      if !ok {
        return;
      }
      for i := 0 to |entries|
        invariant "" !in ids
        invariant forall id :: id in ids ==> exists k :: 0 <= k < i && entries[k].id == id && Matches(entries[k], d)
        invariant forall k :: 0 <= k < i && Matches(entries[k], d) ==> entries[k].id in ids
      {
        if Matches(entries[i], d) && entries[i].id !in ids {
          ids := ids + [entries[i].id];
        }
      }
      forall h | h in boxes && h.server == s ensures h.box.id in ids <==> Matches(h.box, d) {
        assert Held(s, h.box) == h;
        assert h.box in entries;
        if h.box.id in ids {
          var k :| 0 <= k < |entries| && entries[k].id == h.box.id && Matches(entries[k], d);
          assert Held(s, entries[k]) in boxes;
          assert Held(s, entries[k]) == h;
        }
      }
    }

    /** List a server and delete what matches, skipping what was already deleted. */
    method CleanServer(s: ServerId, d: Definition, skip: Keys) returns (clean: bool, gone: Keys)
      requires Valid() && Absent(boxes, skip)
      modifies this
      ensures Valid() && Absent(boxes, gone)
      ensures confirmed == if clean then old(confirmed) + {(s, d.id)} else old(confirmed)
      ensures faults >= old(faults) && clean == (faults == old(faults))
      ensures Trim(old(boxes), boxes, Matching([s], d), clean)
    {
      ghost var b0 := boxes;
      var ids;
      ids, clean := FindIds(s, d);
      gone := skip;
      if !clean {
        return;
      }
      for i := 0 to |ids|
        invariant Valid() && Absent(boxes, gone) && confirmed == old(confirmed)
        invariant faults >= old(faults) && clean == (faults == old(faults))
        invariant Trim(b0, boxes, WithId(s, ids[..i]), clean)
      {
        ghost var b1 := boxes;
        ghost var wasClean := clean;
        var ok := true;
        if (s, ids[i]) !in gone {
          ok := Delete(s, ids[i]);
          if ok {
            gone := gone + {(s, ids[i])};
          } else {
            clean := false;
          }
        }
        TrimAgain(b0, b1, boxes, WithId(s, ids[..i]),
                  WithId(s, [ids[i]]),
                  WithId(s, ids[..i + 1]), wasClean, ok);
      }
      assert ids[..|ids|] == ids;
      if clean {
        confirmed := confirmed + {(s, d.id)};
      }
    }

    method CleanServers(targets: seq<ServerId>, d: Definition, skip: Keys) returns (clean: bool, gone: Keys)
      requires Valid() && Absent(boxes, skip)
      modifies this
      ensures Valid() && Absent(boxes, gone)
      ensures faults >= old(faults) && clean == (faults == old(faults))
      ensures Trim(old(boxes), boxes, Matching(targets, d), clean)
      ensures old(confirmed) <= confirmed && (clean ==> AllConfirmed(targets, d.id, confirmed))
    {
      clean, gone := true, skip;
      for i := 0 to |targets|
        invariant Valid() && Absent(boxes, gone)
        invariant faults >= old(faults) && clean == (faults == old(faults))
        invariant Trim(old(boxes), boxes, Matching(targets[..i], d), clean)
        invariant old(confirmed) <= confirmed && (clean ==> AllConfirmed(targets[..i], d.id, confirmed))
      {
        ghost var b1 := boxes;
        ghost var wasClean := clean;
        var ok;
        ok, gone := CleanServer(targets[i], d, gone);
        clean := clean && ok;
        TrimAgain(old(boxes), b1, boxes, Matching(targets[..i], d),
                  Matching([targets[i]], d),
                  Matching(targets[..i + 1], d), wasClean, ok);
      }
      assert targets[..|targets|] == targets;
    }

    /** Try every server in debt; what is returned is still in debt. */
    method RetryDebts(asked: seq<ServerId>, d: Definition, servers: seq<ServerId>) returns (owed: seq<ServerId>)
      requires Valid()
      modifies this
      ensures Valid() && faults >= old(faults)
      ensures Trim(old(boxes), boxes, Owing(asked, d, servers), faults == old(faults))
      ensures StillOwed(asked, owed, servers, boxes, d, confirmed, faults == old(faults))
      ensures old(confirmed) <= confirmed
      ensures NoRepeats(asked) ==> Unconfirmed(owed, d.id, confirmed - old(confirmed))
    {
      owed := [];
      for i := 0 to |asked|
        invariant Valid() && faults >= old(faults)
        invariant Trim(old(boxes), boxes, Owing(asked[..i], d, servers), faults == old(faults))
        invariant StillOwed(asked[..i], owed, servers, boxes, d, confirmed, faults == old(faults))
        invariant old(confirmed) <= confirmed
        invariant forall s, id :: (s, id) in confirmed - old(confirmed) ==> s in asked[..i]
        invariant NoRepeats(asked) ==> Unconfirmed(owed, d.id, confirmed - old(confirmed))
      {
        ghost var b1, f1 := boxes, faults;
        var clean := false;
        if asked[i] in servers {
          var gone;
          clean, gone := CleanServer(asked[i], d, {});
          TrimAgain(old(boxes), b1, boxes, Owing(asked[..i], d, servers), Matching([asked[i]], d),
                    Owing(asked[..i + 1], d, servers), f1 == old(faults), clean);
        } else {
          assert forall h: Held :: Owing(asked[..i + 1], d, servers)(h) == Owing(asked[..i], d, servers)(h);
        }
        if !clean {
          owed := owed + [asked[i]];
        }
      }
      assert asked[..|asked|] == asked;
    }

    /** The server sweep of a global sync, on one server. */
    method SweepServer(s: ServerId, records: Records, servers: seq<ServerId>, skip: Keys) returns (gone: Keys)
      requires Valid() && Absent(boxes, skip) && s in servers
      modifies `boxes, `faults
      ensures Valid() && Absent(boxes, gone) && faults >= old(faults)
      ensures Trim(old(boxes), boxes, UnneededOn([s], records, servers), faults == old(faults))
    {
      ghost var b0 := boxes;
      var entries, ok := List(s);
      gone := skip;
      if !ok {
        return;
      }
      for i := 0 to |entries|
        invariant Valid() && Absent(boxes, gone) && faults >= old(faults)
        invariant Trim(b0, boxes, UnneededAmong(s, entries[..i], records, servers), faults == old(faults))
      {
        ghost var b1, f1 := boxes, faults;
        var confirmed := true;
        if Unneeded(Held(s, entries[i]), records, servers) {
          confirmed := Delete(s, entries[i].id);
          if confirmed {
            gone := gone + {(s, entries[i].id)};
          }
          OnlyThis(b0, b1, boxes, s, entries[i], confirmed);
        }
        TrimAgain(b0, b1, boxes, UnneededAmong(s, entries[..i], records, servers),
                  UnneededAmong(s, [entries[i]], records, servers),
                  UnneededAmong(s, entries[..i + 1], records, servers), f1 == old(faults), confirmed);
      }
      assert entries[..|entries|] == entries;
      assert forall h :: h in boxes && h.server == s ==> Held(s, h.box) == h;
    }
  }

  /** Among the collections of one listing, deleting by id deletes just that entry. */
  lemma OnlyThis(b0: Boxes, b1: Boxes, b2: Boxes, s: ServerId, b: Box, confirmed: bool)
    requires DistinctIds(b0) && b1 <= b0 && Held(s, b) in b0
    requires Trim(b1, b2, WithId(s, [b.id]), confirmed)
    ensures forall h :: h in b1 && h != Held(s, b) ==> h in b2
    ensures confirmed ==> Held(s, b) !in b2
  { }
}
