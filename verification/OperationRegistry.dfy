/** The persistent operation registry as a value: what every mutator of
    `OperationTracker` does to the stored records, and what one storage write
    (mutator, then pruning) keeps. The registry is Python's ordered dictionary:
    a sequence of records with pairwise different ids. */
module OperationRegistry {

  import opened Common
  import Sorting

  type Id = string
  type Owner = string

  datatype Status = Queued | Running | Success | Error | Skipped | Interrupted | Other(text: string)

  /** A stored timestamp field: missing, present but unreadable, or an instant. */
  datatype Stamp = Absent | Unreadable | At(time: int)

  datatype Operation = Operation(
    id: Id,
    owner: Owner,
    status: Status,
    message: string,
    progress: int,
    current: nat,
    total: Option<nat>,
    error: Option<string>,
    heartbeat: Stamp,
    updatedAt: int,
    finishedAt: Option<int>)
  {
    predicate Active() { status.Queued? || status.Running? }

    /** The instant staleness is judged by; `None` when it cannot be read. */
    function Beat(): Option<int> {
      match heartbeat
      case Absent => Some(updatedAt)
      case Unreadable => None
      case At(t) => Some(t)
    }

    predicate StaleAt(cutoff: int) { Active() && (Beat().None? || Beat().value <= cutoff) }
  }

  type Registry = seq<Operation>

  datatype Patch = Patch(
    message: Option<string>,
    progress: Option<real>,
    current: Option<int>,
    total: Option<int>,
    status: Option<Status>)

  /** One mutator passed to `_mutate_registry`, apart from start and clear. */
  datatype Call =
    | Update(id: Id, patch: Patch)
    | Renew(id: Id)
    | Complete(id: Id, status: Status, message: string, error: Option<string>)
    | InterruptActive(message: string)
    | InterruptStale(cutoff: int, message: string)
    | InterruptOrphaned(message: string)
    | RenewAll(ids: set<Id>)
    | FailStart(id: Id)

  const FAILURE_MESSAGE := "Operazione non riuscita"

  // ---------- progress arithmetic ----------

  /** Python's round(): to the nearest integer, ties to the even one. */
  function RoundHalfEven(x: real): int {
    var below := x.Floor;
    var part := x - below as real;
    if part < 0.5 then below
    else if part > 0.5 then below + 1
    else if below % 2 == 0 then below
    else below + 1
  }

  function NormalizeProgress(x: real): int { Max(0, Min(100, RoundHalfEven(x))) }

  function ProgressFromCounts(current: nat, total: Option<nat>): Option<int> {
    if total.None? || total.value == 0 then None
    else Some(NormalizeProgress(current as real / total.value as real * 100.0))
  }

  function PositiveInt(value: int): Option<nat> { if value > 0 then Some(value) else None }

  /** Rounding is to a nearest integer, and to the even one when two are nearest. */
  lemma RoundsToNearest(x: real)
    ensures -0.5 <= x - RoundHalfEven(x) as real <= 0.5
    ensures x - x.Floor as real == 0.5 ==> RoundHalfEven(x) % 2 == 0
  { }

  /** Reported progress is a percentage that never falls as the count grows, is 0 at the
      start, and 100 exactly from the point where at most half a percent is missing; for
      fewer than 200 items that is when everything is done. */
  lemma ProgressIsMonotone(current: nat, more: nat, total: nat)
    requires current <= more && total > 0
    ensures ProgressFromCounts(current, Some(total)).Some? && ProgressFromCounts(more, Some(total)).Some?
    ensures 0 <= ProgressFromCounts(current, Some(total)).value
                <= ProgressFromCounts(more, Some(total)).value <= 100
    ensures current == 0 ==> ProgressFromCounts(current, Some(total)).value == 0
    ensures ProgressFromCounts(current, Some(total)).value == 100 <==> 200 * current >= 199 * total
    ensures total < 200 ==> (ProgressFromCounts(current, Some(total)).value == 100 <==> current >= total)
  {
    var t := total as real;
    var a, b := current as real / t, more as real / t;
    assert a <= b by { DivisionMonotone(current as real, more as real, t); }
    RoundMonotone(a * 100.0, b * 100.0);
    HundredExactly(current, total);
  }

  lemma HundredExactly(current: nat, total: nat)
    requires total > 0
    ensures NormalizeProgress(current as real / total as real * 100.0) == 100 <==> 200 * current >= 199 * total
  {
    var x, t := current as real, total as real;
    DivideAndMultiply(x, t);
    HundredFrom(x / t, x, t);
    SameComparison(current, total);
  }

  lemma HundredFrom(q: real, x: real, t: real)
    requires t > 0.0 && q * t == x
    ensures NormalizeProgress(q * 100.0) == 100 <==> 200.0 * x >= 199.0 * t
  {
    ShareOf(q, t);
    RoundsToHundred(q * 100.0);
  }

  lemma DivideAndMultiply(x: real, t: real)
    requires t > 0.0
    ensures x / t * t == x
  { }

  lemma SameComparison(current: nat, total: nat)
    ensures 200.0 * current as real >= 199.0 * total as real <==> 200 * current >= 199 * total
  { }

  lemma ShareOf(q: real, t: real)
    requires t > 0.0
    ensures q >= 0.995 <==> 200.0 * (q * t) >= 199.0 * t
  {
    assert 200.0 * (q * t) - 199.0 * t == 200.0 * ((q - 0.995) * t);
    if q >= 0.995 {
      assert (q - 0.995) * t >= 0.0;
    } else {
      assert (0.995 - q) * t > 0.0;
    }
  }

  lemma RoundsToHundred(x: real)
    ensures RoundHalfEven(x) >= 100 <==> x >= 99.5
  { }

  lemma DivisionMonotone(x: real, y: real, t: real)
    requires t > 0.0 && x <= y
    ensures x / t <= y / t
    ensures x == t ==> x / t == 1.0
  {
    assert y / t - x / t == (y - x) / t;
  }

  lemma RoundMonotone(x: real, y: real)
    requires x <= y
    ensures RoundHalfEven(x) <= RoundHalfEven(y)
  { }

  // ---------- one record under one call ----------

  function Patched(o: Operation, p: Patch, now: int): Operation {
    var total := if p.total.Some? then PositiveInt(p.total.value) else o.total;
    var current := if p.current.Some? then Max(0, p.current.value) else o.current;
    var counted := ProgressFromCounts(current, total);
    o.(status := if p.status.Some? then p.status.value else Running,
       message := if p.message.Some? then p.message.value else o.message,
       total := total,
       current := current,
       progress := if p.progress.Some? then NormalizeProgress(p.progress.value)
                   else if counted.Some? then NormalizeProgress(counted.value as real)
                   else o.progress,
       updatedAt := now,
       heartbeat := At(now))
  }

  function InterruptedAs(o: Operation, message: string, now: int): Operation {
    o.(status := Interrupted, message := message, error := None, updatedAt := now, finishedAt := Some(now))
  }

  predicate Selects(call: Call, me: Owner, o: Operation) {
    match call
    case Update(id, _) => o.id == id && o.owner == me && o.Active()
    case Renew(id) => o.id == id && o.owner == me && o.Active()
    case Complete(id, _, _, _) => o.id == id && o.owner == me && o.Active()
    case InterruptActive(_) => o.owner == me && o.Active()
    case InterruptStale(cutoff, _) => o.StaleAt(cutoff)
    case InterruptOrphaned(_) => o.owner != me && o.Active()
    case RenewAll(ids) => o.id in ids && o.owner == me && o.Active()
    case FailStart(id) => o.id == id && o.owner == me
  }

  function Changed(call: Call, o: Operation, now: int): Operation {
    match call
    case Update(_, patch) => Patched(o, patch, now)
    case Renew(_) => o.(heartbeat := At(now))
    case RenewAll(_) => o.(heartbeat := At(now))
    case Complete(_, status, message, error) =>
      o.(status := status, message := message, progress := if status.Success? then 100 else o.progress,
         error := error, updatedAt := now, finishedAt := Some(now))
    case InterruptActive(message) => InterruptedAs(o, message, now)
    case InterruptStale(_, message) => InterruptedAs(o, message, now)
    case InterruptOrphaned(message) => InterruptedAs(o, message, now)
    case FailStart(_) =>
      o.(status := Error, message := FAILURE_MESSAGE, error := Some(FAILURE_MESSAGE),
         updatedAt := now, finishedAt := Some(now))
  }

  function ApplyOne(call: Call, me: Owner, now: int, o: Operation): Operation {
    if Selects(call, me, o) then Changed(call, o, now) else o
  }

  // ---------- what a record looks like afterwards, field by field ----------

  /** The nearest whole number of percent, the even one of two, kept between 0 and 100. */
  predicate IsPercent(n: int, x: real) {
    && 0 <= n <= 100 && (x <= 0.0 ==> n == 0) && (x >= 100.0 ==> n == 100)
    && (0.0 <= x <= 100.0 ==> -0.5 <= x - n as real <= 0.5)
    && (0.0 <= x <= 100.0 && (x - n as real == 0.5 || x - n as real == -0.5) ==> n % 2 == 0)
  }

  lemma NormalizedIsPercent(x: real)
    ensures IsPercent(NormalizeProgress(x), x)
  {
    RoundsToNearest(x);
  }

  predicate StartedAs(o: Operation, id: Id, me: Owner, total: Option<int>, stamp: int) {
    && o.id == id && o.owner == me && o.status == Running && o.message == "Avvio operazione" && o.progress == 0 && o.current == 0
    && o.total == (if total.Some? && total.value > 0 then Some(total.value) else None)
    && o.error == None && o.heartbeat == At(stamp) && o.updatedAt == stamp && o.finishedAt == None
  }

  /** `finish`, `fail`, `skip` and `interrupt`. */
  predicate ClosedAs(c: Operation, o: Operation, status: Status, message: string, error: Option<string>, now: int) {
    && c.id == o.id && c.owner == o.owner && c.current == o.current && c.total == o.total && c.heartbeat == o.heartbeat
    && c.status == status && c.message == message && c.error == error
    && c.progress == (if status == Success then 100 else o.progress)
    && c.updatedAt == now && c.finishedAt == Some(now)
  }

  predicate InterruptedFrom(i: Operation, o: Operation, message: string, now: int) {
    && i.id == o.id && i.owner == o.owner && i.progress == o.progress && i.current == o.current && i.total == o.total
    && i.heartbeat == o.heartbeat && i.status == Interrupted && i.message == message && i.error == None
    && i.updatedAt == now && i.finishedAt == Some(now)
  }

  /** `update`: what is given is written, the rest stays, and the progress follows the
      counts unless it is given itself. */
  predicate UpdatedAs(u: Operation, o: Operation, p: Patch, now: int) {
    && u.id == o.id && u.owner == o.owner && u.error == o.error && u.finishedAt == o.finishedAt
    && u.updatedAt == now && u.heartbeat == At(now)
    && (p.status.Some? ==> u.status == p.status.value) && (p.status.None? ==> u.status == Running)
    && (p.message.Some? ==> u.message == p.message.value) && (p.message.None? ==> u.message == o.message)
    && (p.current.Some? ==> u.current == if p.current.value < 0 then 0 else p.current.value)
    && (p.current.None? ==> u.current == o.current)
    && (p.total.Some? ==> u.total == if p.total.value <= 0 then None else Some(p.total.value))
    && (p.total.None? ==> u.total == o.total)
    && (p.progress.Some? ==> IsPercent(u.progress, p.progress.value))
    && (p.progress.None? && u.total.Some? && u.total.value > 0 ==>
          IsPercent(u.progress, u.current as real / u.total.value as real * 100.0))
    && (p.progress.None? && (u.total.None? || u.total.value == 0) ==> u.progress == o.progress)
  }

  lemma PatchedIsUpdated(o: Operation, p: Patch, now: int)
    ensures UpdatedAs(Patched(o, p, now), o, p, now)
  {
    var u := Patched(o, p, now);
    if p.progress.Some? {
      NormalizedIsPercent(p.progress.value);
    } else if u.total.Some? && u.total.value > 0 {
      var x := u.current as real / u.total.value as real * 100.0;
      NormalizedIsPercent(x);
      WholeIsItself(NormalizeProgress(x));
    }
  }

  lemma WholeIsItself(n: int)
    requires 0 <= n <= 100
    ensures NormalizeProgress(n as real) == n
  { }

  // ---------- the registry under one call ----------

  function IdsOf(r: Registry): set<Id> { set o | o in r :: o.id }

  /** As many different ids as records; `Pairwise` is what that means for indices. */
  ghost predicate UniqueIds(r: Registry) { |IdsOf(r)| == |r| }

  ghost predicate Pairwise(r: Registry) {
    forall i, j :: 0 <= i < j < |r| ==> r[i].id != r[j].id
  }

  lemma {:induction false} IdsBound(r: Registry)
    ensures |IdsOf(r)| <= |r|
  {
    if r != [] {
      IdsBound(r[1..]);
      assert r == [r[0]] + r[1..];
      assert IdsOf(r) == {r[0].id} + IdsOf(r[1..]);
    }
  }

  lemma {:induction false} UniqueIsPairwise(r: Registry)
    requires UniqueIds(r)
    ensures Pairwise(r)
  {
    if r != [] {
      UniqueHead(r);
      UniqueIsPairwise(r[1..]);
      forall i, j | 0 <= i < j < |r| ensures r[i].id != r[j].id {
        assert r[j] == r[1..][j - 1] && r[j] in r[1..];
        if i > 0 { assert r[i] == r[1..][i - 1]; }
      }
    }
  }

  lemma UniqueHead(r: Registry)
    requires r != []
    ensures UniqueIds(r) <==> r[0].id !in IdsOf(r[1..]) && UniqueIds(r[1..])
    ensures IdsOf(r) == {r[0].id} + IdsOf(r[1..])
  {
    IdsBound(r[1..]);
    assert r == [r[0]] + r[1..];
    assert IdsOf(r) == {r[0].id} + IdsOf(r[1..]);
    if r[0].id in IdsOf(r[1..]) { assert IdsOf(r) == IdsOf(r[1..]); }
  }

  lemma {:induction false} PairwiseIsUnique(r: Registry)
    requires Pairwise(r)
    ensures UniqueIds(r)
  {
    if r != [] {
      forall i, j | 0 <= i < j < |r[1..]| ensures r[1..][i].id != r[1..][j].id {
        assert r[i + 1].id != r[j + 1].id;
      }
      PairwiseIsUnique(r[1..]);
      UniqueHead(r);
    }
  }

  function ApplyAll(call: Call, me: Owner, now: int, r: Registry): (r': Registry)
    ensures |r'| == |r|
    ensures forall i :: 0 <= i < |r| ==> r'[i] == ApplyOne(call, me, now, r[i])
  {
    seq(|r|, i requires 0 <= i < |r| => ApplyOne(call, me, now, r[i]))
  }

  function SelectedIds(call: Call, me: Owner, r: Registry): set<Id> {
    set o | o in r && Selects(call, me, o) :: o.id
  }

  /** `registry[id] = operation`: replaces in place, or appends a new key. */
  function Put(r: Registry, o: Operation): Registry {
    if r == [] then [o]
    else if r[0].id == o.id then [o] + r[1..]
    else [r[0]] + Put(r[1..], o)
  }

  function ActiveOf(r: Registry): (a: Registry)
    ensures forall o :: o in a <==> o in r && o.Active()
  {
    if r == [] then []
    else if r[0].Active() then [r[0]] + ActiveOf(r[1..])
    else ActiveOf(r[1..])
  }

  function SettledOf(r: Registry): (s: Registry)
    ensures forall o :: o in s <==> o in r && !o.Active()
  {
    if r == [] then []
    else if !r[0].Active() then [r[0]] + SettledOf(r[1..])
    else SettledOf(r[1..])
  }

  function NewestSettled(r: Registry): Registry {
    Sorting.SortDescending(SettledOf(r), (o: Operation) => o.updatedAt)
  }

  /** `_prune`: every active record, then the newest `maxRecent` of the others. */
  function Prune(r: Registry, maxRecent: nat): Registry {
    ActiveOf(r) + NewestSettled(r)[..Min(maxRecent, |NewestSettled(r)|)]
  }

  function Write(call: Call, me: Owner, now: int, maxRecent: nat, r: Registry): Registry {
    Prune(ApplyAll(call, me, now, r), maxRecent)
  }

  function NewOperation(id: Id, me: Owner, total: Option<int>, stamp: int): Operation {
    Operation(id, me, Running, "Avvio operazione", 0, 0,
              if total.Some? then PositiveInt(total.value) else None,
              None, At(stamp), stamp, None)
  }

  function WriteStart(o: Operation, maxRecent: nat, r: Registry): Registry {
    Prune(Put(r, o), maxRecent)
  }

  function WriteClear(maxRecent: nat, r: Registry): Registry {
    Prune(ActiveOf(r), maxRecent)
  }

  // ---------- facts about ids and filters ----------

  lemma {:induction false} FiltersSplit(r: Registry)
    ensures multiset(ActiveOf(r)) + multiset(SettledOf(r)) == multiset(r)
    ensures |ActiveOf(r)| + |SettledOf(r)| == |r|
  {
    if r != [] {
      FiltersSplit(r[1..]);
      assert r == [r[0]] + r[1..];
    }
  }

  lemma {:induction false} UniqueByMultiset(r: Registry)
    requires Pairwise(r)
    ensures forall o :: o in r ==> multiset(r)[o] == 1
  {
    if r != [] {
      assert r == [r[0]] + r[1..];
      forall i, j | 0 <= i < j < |r[1..]| ensures r[1..][i].id != r[1..][j].id {
        assert r[i + 1].id != r[j + 1].id;
      }
      UniqueByMultiset(r[1..]);
      assert r[0] !in r[1..];
    }
  }

  lemma CountTwice(s: Registry, i: nat, j: nat)
    requires i < j < |s|
    ensures s[i] == s[j] ==> multiset(s)[s[i]] >= 2
  {
    assert s == s[..j] + [s[j]] + s[j + 1..];
    assert s[i] in s[..j];
  }

  lemma SameIdSameRecord(r: Registry, a: Operation, b: Operation)
    requires UniqueIds(r) && a in r && b in r
    ensures a.id == b.id ==> a == b
  {
    UniqueIsPairwise(r);
    var i :| 0 <= i < |r| && r[i] == a;
    var j :| 0 <= j < |r| && r[j] == b;
  }

  /** Rearranging or thinning out a registry keeps its ids different. */
  lemma UniqueSub(r: Registry, s: Registry)
    requires UniqueIds(r)
    requires multiset(s) <= multiset(r)
    ensures UniqueIds(s)
  {
    UniqueIsPairwise(r);
    UniqueByMultiset(r);
    forall i, j | 0 <= i < j < |s| ensures s[i].id != s[j].id {
      assert s[i] in multiset(s) && s[j] in multiset(s);
      CountTwice(s, i, j);
      SameIdSameRecord(r, s[i], s[j]);
      assert multiset(r)[s[i]] == 1;
    }
    PairwiseIsUnique(s);
  }

  lemma {:induction false} PutUnique(r: Registry, o: Operation)
    requires UniqueIds(r)
    ensures UniqueIds(Put(r, o))
    ensures IdsOf(Put(r, o)) == IdsOf(r) + {o.id}
  {
    if r == [] {
      assert IdsOf([o]) == {o.id};
    } else {
      UniqueHead(r);
      UniqueHead(Put(r, o));
      if r[0].id == o.id {
        assert Put(r, o)[1..] == r[1..];
      } else {
        PutUnique(r[1..], o);
        assert Put(r, o)[1..] == Put(r[1..], o);
      }
    }
  }

  /** Writing a record replaces the one with its id where it stands, or else comes last. */
  lemma {:induction false} PutSpec(r: Registry, o: Operation)
    requires UniqueIds(r)
    ensures forall x :: x in Put(r, o) <==> x == o || (x in r && x.id != o.id)
    ensures o.id !in IdsOf(r) ==> Put(r, o) == r + [o]
  {
    if r != [] {
      UniqueHead(r);
      assert r == [r[0]] + r[1..];
      if r[0].id == o.id {
        assert forall x :: x in r[1..] ==> x.id in IdsOf(r[1..]);
      } else {
        PutSpec(r[1..], o);
      }
    }
  }

  lemma {:induction false} PutAt(r: Registry, o: Operation, i: nat)
    requires UniqueIds(r) && i < |r|
    ensures i < |Put(r, o)| && Put(r, o)[i] == if r[i].id == o.id then o else r[i]
  {
    UniqueHead(r);
    if r[0].id == o.id {
      assert i > 0 ==> r[1..][i - 1] == r[i] && r[i] in r[1..];
    } else if i > 0 {
      PutAt(r[1..], o, i - 1);
    }
  }

  lemma {:induction false} PutLength(r: Registry, o: Operation)
    ensures |Put(r, o)| == if o.id in IdsOf(r) then |r| else |r| + 1
  {
    if r != [] {
      assert r == [r[0]] + r[1..];
      PutLength(r[1..], o);
    }
  }

  /** Every other record keeps its place, and the written one the place of its id. */
  lemma PutKeepsPlaces(r: Registry, o: Operation)
    requires UniqueIds(r)
    ensures |Put(r, o)| == if o.id in IdsOf(r) then |r| else |r| + 1
    ensures forall i :: 0 <= i < |r| ==> Put(r, o)[i] == if r[i].id == o.id then o else r[i]
  {
    PutLength(r, o);
    forall i | 0 <= i < |r| ensures Put(r, o)[i] == if r[i].id == o.id then o else r[i] {
      PutAt(r, o, i);
    }
  }

  // ---------- pruning ----------

  lemma SortedSettled(r: Registry)
    ensures multiset(NewestSettled(r)) == multiset(SettledOf(r))
    ensures |NewestSettled(r)| == |SettledOf(r)|
    ensures forall o :: o in NewestSettled(r) <==> o in r && !o.Active()
    ensures forall i, j :: 0 <= i < j < |NewestSettled(r)|
                       ==> NewestSettled(r)[i].updatedAt >= NewestSettled(r)[j].updatedAt
  {
    var key := (o: Operation) => o.updatedAt;
    Sorting.SortIsStableSort(SettledOf(r), key);
    Sorting.SortHasSameElements(SettledOf(r), key);
    forall i, j | 0 <= i < j < |NewestSettled(r)|
      ensures NewestSettled(r)[i].updatedAt >= NewestSettled(r)[j].updatedAt
    {
      assert key(NewestSettled(r)[i]) >= key(NewestSettled(r)[j]);
    }
  }

  lemma PruneUnique(r: Registry, maxRecent: nat)
    requires UniqueIds(r)
    ensures UniqueIds(Prune(r, maxRecent))
  {
    SortedSettled(r);
    FiltersSplit(r);
    var sorted := NewestSettled(r);
    var n := Min(maxRecent, |sorted|);
    assert sorted == sorted[..n] + sorted[n..];
    assert multiset(sorted[..n]) <= multiset(sorted);
    UniqueSub(r, Prune(r, maxRecent));
  }

  lemma KeptNotOlder(sorted: Registry, n: nat, kept: Operation, gone: Operation)
    requires n <= |sorted|
    requires forall i, j :: 0 <= i < j < |sorted| ==> sorted[i].updatedAt >= sorted[j].updatedAt
    requires kept in sorted[..n] && gone in sorted && gone !in sorted[..n]
    ensures kept.updatedAt >= gone.updatedAt
  {
    var i :| 0 <= i < n && sorted[i] == kept;
    assert sorted == sorted[..n] + sorted[n..];
    var j :| 0 <= j < |sorted[n..]| && sorted[n..][j] == gone;
    assert sorted[n + j] == gone;
  }

  lemma PruneSettledCount(r: Registry, maxRecent: nat)
    ensures |SettledOf(Prune(r, maxRecent))| == Min(maxRecent, |SettledOf(r)|)
  {
    SortedSettled(r);
    var kept := NewestSettled(r)[..Min(maxRecent, |NewestSettled(r)|)];
    SettledOfConcat(ActiveOf(r), kept);
    SettledOfActive(ActiveOf(r));
    FiltersSplit(kept);
    NoneActive(kept);
  }

  /** Pruning never drops an active record, keeps as many others as `maxRecent`
      allows, and none of the kept ones is older than a dropped one. */
  lemma PruneSpec(r: Registry, maxRecent: nat)
    ensures forall o :: o in Prune(r, maxRecent) ==> o in r
    ensures forall o :: o in r && o.Active() ==> o in Prune(r, maxRecent)
    ensures |SettledOf(Prune(r, maxRecent))| == Min(maxRecent, |SettledOf(r)|)
    ensures forall kept, gone :: kept in Prune(r, maxRecent) && !kept.Active()
                              && gone in r && gone !in Prune(r, maxRecent)
                              ==> kept.updatedAt >= gone.updatedAt
  {
    SortedSettled(r);
    PruneSettledCount(r, maxRecent);
    var sorted := NewestSettled(r);
    var n := Min(maxRecent, |sorted|);
    forall kept, gone | kept in Prune(r, maxRecent) && !kept.Active() && gone in r && gone !in Prune(r, maxRecent)
      ensures kept.updatedAt >= gone.updatedAt
    {
      assert kept !in ActiveOf(r);
      KeptNotOlder(sorted, n, kept, gone);
    }
  }

  lemma {:induction false} NoneActive(s: Registry)
    requires forall o :: o in s ==> !o.Active()
    ensures ActiveOf(s) == []
  {
    if s != [] { NoneActive(s[1..]); }
  }

  lemma ApplyAllUnique(call: Call, me: Owner, now: int, r: Registry)
    ensures IdsOf(ApplyAll(call, me, now, r)) == IdsOf(r)
  {
    var r' := ApplyAll(call, me, now, r);
    forall o | o in r ensures o.id in IdsOf(r') {
      var i :| 0 <= i < |r| && r[i] == o;
      assert r'[i] in r' && r'[i].id == o.id;
    }
    forall o | o in r' ensures o.id in IdsOf(r) {
      var i :| 0 <= i < |r'| && r'[i] == o;
      assert r[i] in r && r[i].id == o.id;
    }
  }

  lemma WriteUnique(call: Call, me: Owner, now: int, maxRecent: nat, r: Registry)
    requires UniqueIds(r)
    ensures UniqueIds(Write(call, me, now, maxRecent, r))
  {
    ApplyAllUnique(call, me, now, r);
    PruneUnique(ApplyAll(call, me, now, r), maxRecent);
  }

  // ---------- one write ----------

  /** What a write by `me` may do to one record. */
  ghost predicate AllowedChange(me: Owner, o: Operation, o': Operation) {
    && o'.id == o.id
    && o'.owner == o.owner
    && (!o.Active() ==> !o'.Active())
    && (o' != o && o.owner != me ==> o.Active() && o'.status == Interrupted)
  }

  /** Safety of one write: every stored record comes from one that was there by an
      allowed change (so nothing settled is revived, and a foreign record can only
      go from active to interrupted); a record this call leaves active is stored;
      and the settled records are bounded to the newest `maxRecent`. */
  lemma WriteIsSafe(call: Call, me: Owner, now: int, maxRecent: nat, r: Registry)
    requires UniqueIds(r)
    ensures UniqueIds(Write(call, me, now, maxRecent, r))
    ensures forall o' :: o' in Write(call, me, now, maxRecent, r)
                     ==> exists o :: o in r && o' == ApplyOne(call, me, now, o) && AllowedChange(me, o, o')
    ensures forall o :: o in r && ApplyOne(call, me, now, o).Active()
                     ==> ApplyOne(call, me, now, o) in Write(call, me, now, maxRecent, r)
    ensures |SettledOf(Write(call, me, now, maxRecent, r))| <= maxRecent
  {
    var mid := ApplyAll(call, me, now, r);
    var r' := Write(call, me, now, maxRecent, r);
    ApplyAllUnique(call, me, now, r);
    PruneUnique(mid, maxRecent);
    PruneSpec(mid, maxRecent);
    forall o' | o' in r' ensures exists o :: o in r && o' == ApplyOne(call, me, now, o) && AllowedChange(me, o, o') {
      AppliedFrom(call, me, now, r, o');
    }
    forall o | o in r && ApplyOne(call, me, now, o).Active() ensures ApplyOne(call, me, now, o) in r' {
      var i :| 0 <= i < |r| && r[i] == o;
      assert mid[i] in mid;
    }
  }

  lemma AppliedFrom(call: Call, me: Owner, now: int, r: Registry, o': Operation)
    requires o' in ApplyAll(call, me, now, r)
    ensures exists o :: o in r && o' == ApplyOne(call, me, now, o) && AllowedChange(me, o, o')
  {
    var mid := ApplyAll(call, me, now, r);
    var i :| 0 <= i < |mid| && mid[i] == o';
    assert r[i] in r && AllowedChange(me, r[i], o');
  }

  lemma Reassociate(a: Registry, b: Registry, c: Registry)
    ensures a + (b + c) == a + b + c
  { }

  lemma WrittenFrom(call: Call, me: Owner, now: int, maxRecent: nat, r: Registry, o': Operation)
    requires o' in Write(call, me, now, maxRecent, r)
    ensures exists o :: o in r && o' == ApplyOne(call, me, now, o) && AllowedChange(me, o, o')
  {
    PruneSpec(ApplyAll(call, me, now, r), maxRecent);
    AppliedFrom(call, me, now, r, o');
  }

  /** A write that changes the record at `i`. */
  lemma WriteOfOne(call: Call, me: Owner, now: int, maxRecent: nat, r: Registry, i: nat)
    requires UniqueIds(r) && i < |r| && (forall j :: 0 <= j < |r| && j != i ==> !Selects(call, me, r[j]))
    requires ApplyOne(call, me, now, r[i]).id == r[i].id
    ensures
      var r', changed := Write(call, me, now, maxRecent, r), ApplyOne(call, me, now, r[i]);
      && (forall x :: x in r' && x.id == r[i].id ==> x == changed)
      && (forall x :: x in r' && x.id != r[i].id ==> x in r)
      && (forall o :: o in r && o.id != r[i].id && o.Active() ==> o in r')
      && (changed.Active() ==> changed in r')
  {
    var mid := ApplyAll(call, me, now, r);
    PruneSpec(mid, maxRecent);
    UniqueIsPairwise(r);
    forall x | x in mid ensures x == ApplyOne(call, me, now, r[i]) || (x in r && x.id != r[i].id) {
      var j :| 0 <= j < |mid| && mid[j] == x;
      assert j != i ==> x == r[j];
    }
    forall o | o in r && o.id != r[i].id ensures o in mid {
      var j :| 0 <= j < |r| && r[j] == o;
      assert mid[j] == o;
    }
    assert mid[i] == ApplyOne(call, me, now, r[i]);
  }

  /** A closed record is stored when there is room for one more. */
  lemma WriteKeepsWithRoom(call: Call, me: Owner, now: int, maxRecent: nat, r: Registry, i: nat)
    requires i < |r| && |SettledOf(ApplyAll(call, me, now, r))| <= maxRecent
    ensures ApplyOne(call, me, now, r[i]) in Write(call, me, now, maxRecent, r)
  {
    var mid := ApplyAll(call, me, now, r);
    assert mid[i] in mid;
    AllKeptWithRoom(mid, maxRecent);
  }

  lemma AllKeptWithRoom(r: Registry, maxRecent: nat)
    requires |SettledOf(r)| <= maxRecent
    ensures forall o :: o in r ==> o in Prune(r, maxRecent)
  {
    SortedSettled(r);
    var sorted := NewestSettled(r);
    assert |sorted| == |SettledOf(r)| by {
      assert |multiset(sorted)| == |multiset(SettledOf(r))|;
    }
    assert sorted[..Min(maxRecent, |sorted|)] == sorted;
    forall o | o in r && !o.Active() ensures o in sorted {
      assert o in multiset(SettledOf(r));
    }
  }

  lemma {:induction false} SettledOfConcat(a: Registry, b: Registry)
    ensures SettledOf(a + b) == SettledOf(a) + SettledOf(b)
  {
    if a == [] {
      assert a + b == b;
    } else {
      SettledOfConcat(a[1..], b);
      assert (a + b)[0] == a[0] && (a + b)[1..] == a[1..] + b;
      if !a[0].Active() {
        Reassociate([a[0]], SettledOf(a[1..]), SettledOf(b));
      }
    }
  }

  lemma {:induction false} SettledOfActive(a: Registry)
    requires forall o :: o in a ==> o.Active()
    ensures SettledOf(a) == []
  {
    if a != [] { SettledOfActive(a[1..]); }
  }

  lemma {:induction false} ActiveOfActive(r: Registry)
    requires forall o :: o in r ==> o.Active()
    ensures ActiveOf(r) == r
  {
    if r != [] { ActiveOfActive(r[1..]); }
  }

  lemma PruneActive(r: Registry, maxRecent: nat)
    requires forall o :: o in r ==> o.Active()
    ensures Prune(r, maxRecent) == r
  {
    ActiveOfActive(r);
    SettledOfActive(r);
  }
}
