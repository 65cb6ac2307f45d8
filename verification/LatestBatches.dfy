/** The newest batch of a listing, the batches and the versions of one item, and the
    longer list that is returned when the newest batch is too small. */
module LatestBatches {

  import opened Common
  import opened Sorting
  import opened TimeGaps

  /** A listed entry; `created` is its parsed DateCreated, counted from the least date
      the clock knows, or None when it has none. */
  datatype Entry = NotAnItem | Item(name: string, created: Option<nat>)

  /** The date given to undated items when every item has to be ordered. */
  const LEAST_DATE: nat := 0

  // ---------- versions of one item ----------

  function Latest<T>(s: seq<Timed<T>>): int requires s != [] {
    if |s| == 1 then s[0].at else Max(s[0].at, Latest(s[1..]))
  }

  function Earliest<T>(s: seq<Timed<T>>): int requires s != [] {
    if |s| == 1 then s[0].at else Min(s[0].at, Earliest(s[1..]))
  }

  /** `group_version_times` */
  method GroupVersionTimes<T>(versionTimes: seq<Timed<T>>, gapMinutes: int) returns (groups: seq<seq<Timed<T>>>)
    ensures groups == Split(NewestFirst(versionTimes), gapMinutes * MINUTE)
  {
    if versionTimes == [] {
      return [];
    }
    NewestFirstOrder(versionTimes);
    groups := SplitAtGaps(NewestFirst(versionTimes), gapMinutes * MINUTE);
  }

  /** `has_version_time_gap` */
  predicate HasVersionTimeGap<T>(versionTimes: seq<Timed<T>>, gapMinutes: int) {
    |versionTimes| >= 2 && Latest(versionTimes) - Earliest(versionTimes) > gapMinutes * MINUTE
  }

  function NotBefore<T>(s: seq<Timed<T>>, threshold: int): seq<Timed<T>> {
    if s == [] then []
    else (if s[0].at >= threshold then [s[0]] else []) + NotBefore(s[1..], threshold)
  }

  /** `select_recent_versions_by_time`, with the times still attached. */
  function RecentVersions<T>(versionTimes: seq<Timed<T>>, gapMinutes: int): seq<Timed<T>> {
    if versionTimes == [] then [] else NotBefore(versionTimes, Latest(versionTimes) - gapMinutes * MINUTE)
  }

  lemma {:induction false} TimesAreWithin<T>(s: seq<Timed<T>>)
    requires s != []
    ensures forall e :: e in s ==> Earliest(s) <= e.at <= Latest(s)
    ensures exists i :: 0 <= i < |s| && s[i].at == Latest(s)
    ensures exists i :: 0 <= i < |s| && s[i].at == Earliest(s)
  {
    if |s| == 1 {
      assert s[0].at == Latest(s);
    } else {
      TimesAreWithin(s[1..]);
      assert s == [s[0]] + s[1..];
      var i :| 0 <= i < |s[1..]| && s[1..][i].at == Latest(s[1..]);
      var j :| 0 <= j < |s[1..]| && s[1..][j].at == Earliest(s[1..]);
      assert s[i + 1].at == Latest(s) || s[0].at == Latest(s);
      assert s[j + 1].at == Earliest(s) || s[0].at == Earliest(s);
    }
  }

  lemma NewestIsLatest<T>(s: seq<Timed<T>>)
    requires s != []
    ensures NewestFirst(s) != []
    ensures NewestFirst(s)[0].at == Latest(s)
    ensures NewestFirst(s)[|NewestFirst(s)| - 1].at == Earliest(s)
  {
    var o := NewestFirst(s);
    NewestFirstOrder(s);
    TimesAreWithin(s);
    var first, last := o[0], o[|o| - 1];
    NewestFirstMember(s, first);
    NewestFirstMember(s, last);
    var n :| 0 <= n < |s| && s[n].at == Latest(s);
    var m :| 0 <= m < |s| && s[m].at == Earliest(s);
    NewestFirstMember(s, s[n]);
    NewestFirstMember(s, s[m]);
    FirstAndLastBound(o, s[n]);
    FirstAndLastBound(o, s[m]);
  }

  lemma FirstAndLastBound<T>(o: seq<Timed<T>>, e: Timed<T>)
    requires Descending(o, At()) && e in o
    ensures o[0].at >= e.at >= o[|o| - 1].at
  {
    var i :| 0 <= i < |o| && o[i] == e;
    DescendingPair(o, 0, i);
    DescendingPair(o, i, |o| - 1);
  }

  /** Without a time gap between the earliest and the latest version there is one group. */
  lemma NoTimeGapMeansOneGroup<T>(versionTimes: seq<Timed<T>>, gapMinutes: int)
    requires versionTimes != [] && !HasVersionTimeGap(versionTimes, gapMinutes)
    ensures Split(NewestFirst(versionTimes), gapMinutes * MINUTE) == [NewestFirst(versionTimes)]
  {
    var o, gap := NewestFirst(versionTimes), gapMinutes * MINUTE;
    NewestFirstOrder(versionTimes);
    NewestIsLatest(versionTimes);
    forall k | 0 < k < |o| ensures !Wide(o, k, gap) {
      DescendingPair(o, 0, k - 1);
      DescendingPair(o, k, |o| - 1);
    }
    RunIsUnique(o, gap, |o|);
    assert o[..|o|] == o && o[|o|..] == [];
  }

  /** Every version no older than the gap before the newest one is in the first group. */
  lemma RecentAreInTheFirstGroup<T>(versionTimes: seq<Timed<T>>, gapMinutes: int, e: Timed<T>)
    requires e in RecentVersions(versionTimes, gapMinutes)
    ensures e in versionTimes && e in Split(NewestFirst(versionTimes), gapMinutes * MINUTE)[0]
  {
    var o, gap := NewestFirst(versionTimes), gapMinutes * MINUTE;
    NotBeforeContent(versionTimes, Latest(versionTimes) - gap);
    NewestFirstMember(versionTimes, e);
    NewestIsLatest(versionTimes);
    NewestFirstOrder(versionTimes);
    var i :| 0 <= i < |o| && o[i] == e;
    CloseToTheFirst(o, gap, i);
    assert o[..RunLength(o, gap)][i] == e;
  }

  lemma CloseToTheFirst<T>(o: seq<Timed<T>>, gap: int, i: nat)
    requires Descending(o, At()) && i < |o| && o[0].at - o[i].at <= gap
    ensures i < RunLength(o, gap)
  {
    RunIsLongest(o, gap);
    var k := RunLength(o, gap);
    if k <= i {
      DescendingPair(o, 0, k - 1);
      DescendingPair(o, k, i);
    }
  }

  lemma {:induction false} NotBeforeContent<T>(s: seq<Timed<T>>, threshold: int)
    ensures forall e :: e in NotBefore(s, threshold) <==> e in s && e.at >= threshold
  {
    if s != [] {
      NotBeforeContent(s[1..], threshold);
      assert s == [s[0]] + s[1..];
    }
  }

  /** The versions that are no older than the gap before the newest one, each as often as
      it is given, in the order given. */
  lemma RecentExactly<T>(versionTimes: seq<Timed<T>>, gapMinutes: int, e: Timed<T>)
    ensures e in RecentVersions(versionTimes, gapMinutes) <==>
      e in versionTimes && forall x :: x in versionTimes ==> x.at - e.at <= gapMinutes * 60_000_000
  {
    if versionTimes != [] {
      TimesAreWithin(versionTimes);
      NotBeforeContent(versionTimes, Latest(versionTimes) - gapMinutes * MINUTE);
      var i :| 0 <= i < |versionTimes| && versionTimes[i].at == Latest(versionTimes);
      assert versionTimes[i] in versionTimes;
    }
  }

  lemma {:induction false} NotBeforeOfConcat<T>(a: seq<Timed<T>>, b: seq<Timed<T>>, threshold: int)
    ensures NotBefore(a + b, threshold) == NotBefore(a, threshold) + NotBefore(b, threshold)
    ensures |a| == 1 ==> NotBefore(a, threshold) == if a[0].at >= threshold then a else []
  {
    if a == [] {
      assert a + b == b;
    } else {
      NotBeforeOfConcat(a[1..], b, threshold);
      assert (a + b)[1..] == a[1..] + b && (a + b)[0] == a[0];
      Associate(if a[0].at >= threshold then [a[0]] else [], NotBefore(a[1..], threshold), NotBefore(b, threshold));
    }
  }

  /** Some two versions are further apart than the gap. */
  lemma TimeGapExactly<T>(versionTimes: seq<Timed<T>>, gapMinutes: int)
    ensures HasVersionTimeGap(versionTimes, gapMinutes) <==>
      exists i, j :: 0 <= i < |versionTimes| && 0 <= j < |versionTimes| && i != j
                     && versionTimes[i].at - versionTimes[j].at > gapMinutes * 60_000_000
  {
    if |versionTimes| >= 2 {
      TimesAreWithin(versionTimes);
      var i :| 0 <= i < |versionTimes| && versionTimes[i].at == Latest(versionTimes);
      var j :| 0 <= j < |versionTimes| && versionTimes[j].at == Earliest(versionTimes);
      forall k | 0 <= k < |versionTimes| ensures Earliest(versionTimes) <= versionTimes[k].at <= Latest(versionTimes) {
        assert versionTimes[k] in versionTimes;
      }
      if i == j {
        assert versionTimes[0].at == versionTimes[1].at == Latest(versionTimes);
      }
    }
  }

  // ---------- items ----------

  function Items(entries: seq<Entry>): seq<Entry> {
    if entries == [] then []
    else (if entries[0].Item? then [entries[0]] else []) + Items(entries[1..])
  }

  /** The items with a date, with it. */
  function Dated(entries: seq<Entry>): seq<Timed<Entry>> {
    if entries == [] then [] else DatedOne(entries[0]) + Dated(entries[1..])
  }

  function DatedOne(e: Entry): seq<Timed<Entry>> {
    if e.Item? && e.created.Some? then [Timed(e, e.created.value)] else []
  }

  /** Every item, the undated ones at the least date. */
  function AllDated(entries: seq<Entry>): seq<Timed<Entry>> {
    if entries == [] then [] else AllDatedOne(entries[0]) + AllDated(entries[1..])
  }

  function AllDatedOne(e: Entry): seq<Timed<Entry>> {
    if e.NotAnItem? then [] else [Timed(e, if e.created.Some? then e.created.value else LEAST_DATE)]
  }

  function Alone(items: seq<Entry>): seq<seq<Timed<Entry>>> {
    seq(|items|, i requires 0 <= i < |items| => [Timed(items[i], LEAST_DATE)])
  }

  lemma {:induction false} DatedOfConcat(a: seq<Entry>, b: seq<Entry>)
    ensures Dated(a + b) == Dated(a) + Dated(b)
  {
    if a == [] {
      assert a + b == b;
    } else {
      DatedOfConcat(a[1..], b);
      DatedStep(a[0], a[1..] + b);
      assert a + b == [a[0]] + (a[1..] + b);
      Associate(DatedOne(a[0]), Dated(a[1..]), Dated(b));
    }
  }

  lemma DatedStep(e: Entry, rest: seq<Entry>)
    ensures Dated([e] + rest) == DatedOne(e) + Dated(rest)
  {
    assert ([e] + rest)[1..] == rest;
  }

  lemma Associate<T>(a: seq<T>, b: seq<T>, c: seq<T>)
    ensures a + (b + c) == (a + b) + c
  { }

  lemma CountOfConcat<T>(a: seq<T>, b: seq<T>, x: T)
    ensures multiset(a + b)[x] == multiset(a)[x] + multiset(b)[x]
  {
    assert multiset(a + b) == multiset(a) + multiset(b);
  }

  lemma {:induction false} ItemsExactly(entries: seq<Entry>, e: Entry)
    ensures multiset(Items(entries))[e] == if e.Item? then multiset(entries)[e] else 0
  {
    if entries != [] {
      ItemsExactly(entries[1..], e);
      assert entries == [entries[0]] + entries[1..];
      CountOfConcat([entries[0]], entries[1..], e);
      CountOfConcat(if entries[0].Item? then [entries[0]] else [], Items(entries[1..]), e);
    }
  }

  lemma {:induction false} DatedExactly(entries: seq<Entry>, e: Entry, at: int)
    ensures multiset(Dated(entries))[Timed(e, at)] == if e.Item? && e.created.Some? && e.created.value == at then multiset(entries)[e] else 0
  {
    if entries != [] {
      DatedExactly(entries[1..], e, at);
      assert entries == [entries[0]] + entries[1..];
      CountOfConcat([entries[0]], entries[1..], e);
      CountOfConcat(DatedOne(entries[0]), Dated(entries[1..]), Timed(e, at));
    }
  }

  lemma {:induction false} AllDatedExactly(entries: seq<Entry>, e: Entry, at: int)
    ensures multiset(AllDated(entries))[Timed(e, at)] ==
      if e.Item? && at == (if e.created.Some? then e.created.value else 0) then multiset(entries)[e] else 0
  {
    if entries != [] {
      AllDatedExactly(entries[1..], e, at);
      assert entries == [entries[0]] + entries[1..];
      CountOfConcat([entries[0]], entries[1..], e);
      CountOfConcat(AllDatedOne(entries[0]), AllDated(entries[1..]), Timed(e, at));
    }
  }

  /** What is collected: the items; the dated ones with their date; all of them, an undated
      one with the least date. Each as often as it is listed, */
  lemma CollectedExactly(entries: seq<Entry>, e: Entry, at: int)
    ensures multiset(Items(entries))[e] == if e.Item? then multiset(entries)[e] else 0
    ensures multiset(Dated(entries))[Timed(e, at)] == if e.Item? && e.created.Some? && e.created.value == at then multiset(entries)[e] else 0
    ensures multiset(AllDated(entries))[Timed(e, at)] ==
      if e.Item? && at == (if e.created.Some? then e.created.value else 0) then multiset(entries)[e] else 0
  {
    ItemsExactly(entries, e);
    DatedExactly(entries, e, at);
    AllDatedExactly(entries, e, at);
  }

  /** and in the order of the list. */
  lemma {:induction false} CollectedInOrder(a: seq<Entry>, b: seq<Entry>)
    ensures Items(a + b) == Items(a) + Items(b)
    ensures Dated(a + b) == Dated(a) + Dated(b)
    ensures AllDated(a + b) == AllDated(a) + AllDated(b)
  {
    DatedOfConcat(a, b);
    if a == [] {
      assert a + b == b;
    } else {
      CollectedInOrder(a[1..], b);
      assert (a + b)[1..] == a[1..] + b && (a + b)[0] == a[0];
      Associate(if a[0].Item? then [a[0]] else [], Items(a[1..]), Items(b));
      Associate(AllDatedOne(a[0]), AllDated(a[1..]), AllDated(b));
    }
  }

  method CollectDated(entries: seq<Entry>) returns (parsed: seq<Timed<Entry>>)
    ensures parsed == Dated(entries)
  {
    parsed := [];
    for i := 0 to |entries|
      invariant parsed == Dated(entries[..i])
    {
      DatedOfConcat(entries[..i], [entries[i]]);
      assert entries[..i + 1] == entries[..i] + [entries[i]];
      if entries[i].Item? && entries[i].created.Some? {
        parsed := parsed + [Timed(entries[i], entries[i].created.value)];
      }
    }
    assert entries[..|entries|] == entries;
  }

  /** `group_items_by_date` */
  method GroupItemsByDate(entries: seq<Entry>, gapMinutes: int) returns (groups: seq<seq<Timed<Entry>>>)
    ensures groups == if Dated(entries) == [] then Alone(Items(entries)) else Split(NewestFirst(Dated(entries)), gapMinutes * MINUTE)
  {
    var parsed := CollectDated(entries);
    if parsed == [] {
      return Alone(Items(entries));
    }
    NewestFirstOrder(parsed);
    groups := SplitAtGaps(NewestFirst(parsed), gapMinutes * MINUTE);
  }

  /** The newest batch. */
  function Batch(entries: seq<Entry>, gapMinutes: int): seq<Entry> {
    if Dated(entries) == [] then Items(entries)
    else
      NewestFirstOrder(Dated(entries));
      Values(Split(NewestFirst(Dated(entries)), gapMinutes * MINUTE)[0])
  }

  /** `compute_batch`: the first group, found by looking for the first wide gap only. */
  method ComputeBatch(entries: seq<Entry>, gapMinutes: int) returns (batch: seq<Entry>)
    ensures batch == Batch(entries, gapMinutes)
  {
    var parsed := CollectDated(entries);
    if parsed == [] {
      return Items(entries);
    }
    NewestFirstOrder(parsed);
    parsed := NewestFirst(parsed);
    var gap := gapMinutes * MINUTE;
    var boundary := |parsed|;
    for i := 1 to |parsed|
      invariant boundary == |parsed|
      invariant forall k :: 0 < k < i ==> !Wide(parsed, k, gap)
    {
      if parsed[i - 1].at - parsed[i].at > gap {
        boundary := i;
        break;
      }
    }
    RunIsUnique(parsed, gap, boundary);
    batch := Values(parsed[..boundary]);
  }

  // ---------- the longer list ----------

  /** How many different keys the entries have; without a key function, none. */
  function Keys(entries: seq<Entry>, key: Option<Entry -> string>): set<string> {
    if key.None? then {} else set e | e in entries && key.value(e) != "" :: key.value(e)
  }

  predicate Enough(entries: seq<Entry>, minCount: int, targetUnique: int, key: Option<Entry -> string>) {
    (minCount <= 0 || |entries| >= minCount) && (targetUnique <= 0 || |Keys(entries, key)| >= targetUnique)
  }

  function Newest(entries: seq<Entry>): seq<Entry> { Values(NewestFirst(AllDated(entries))) }

  /** No non-empty prefix shorter than `n` is enough. */
  ghost predicate NoneBefore(n: nat, all: seq<Entry>, minCount: int, targetUnique: int, key: Option<Entry -> string>)
    requires n <= |all| + 1
  {
    forall k: nat :: 0 < k < n ==> !Enough(all[..k], minCount, targetUnique, key)
  }

  /** The shortest non-empty prefix that is enough, or all of them. */
  ghost predicate ShortestEnough(r: seq<Entry>, all: seq<Entry>, minCount: int, targetUnique: int, key: Option<Entry -> string>) {
    && r <= all
    && (r == all || (r != [] && Enough(r, minCount, targetUnique, key)))
    && NoneBefore(|r|, all, minCount, targetUnique, key)
  }

  /** `_ensure_batch_with_unique` */
  method EnsureBatchWithUnique(entries: seq<Entry>, gapMinutes: int, minCount: int, targetUnique: int, key: Option<Entry -> string>)
    returns (output: seq<Entry>)
    ensures
      if Enough(Batch(entries, gapMinutes), minCount, targetUnique, key) then output == Batch(entries, gapMinutes)
      else ShortestEnough(output, Newest(entries), minCount, targetUnique, key)
  {
    var batch := ComputeBatch(entries, gapMinutes);
    if Enough(batch, minCount, targetUnique, key) {
      return batch;
    }
    output := ShortestPrefix(Newest(entries), minCount, targetUnique, key);
  }

  method ShortestPrefix(all: seq<Entry>, minCount: int, targetUnique: int, key: Option<Entry -> string>) returns (output: seq<Entry>)
    ensures ShortestEnough(output, all, minCount, targetUnique, key)
  {
    output := [];
    var seen: set<string> := {};
    for i := 0 to |all|
      invariant output == all[..i] && seen == Keys(output, key)
      invariant NoneBefore(i + 1, all, minCount, targetUnique, key)
    {
      ghost var before := output;
      output := output + [all[i]];
      assert output == all[..i + 1];
      seen := seen + (if key.Some? && key.value(all[i]) != "" then {key.value(all[i])} else {});
      assert seen == Keys(output, key) by {
        KeysOfOneMore(before, all[i], key);
      }
      if (minCount <= 0 || |output| >= minCount) && (targetUnique <= 0 || |seen| >= targetUnique) {
        return;
      }
      assert NoneBefore(i + 2, all, minCount, targetUnique, key) by {
        assert !Enough(all[..i + 1], minCount, targetUnique, key);
      }
    }
    assert output == all;
  }

  lemma KeysOfOneMore(entries: seq<Entry>, e: Entry, key: Option<Entry -> string>)
    ensures Keys(entries + [e], key) == Keys(entries, key) + Keys([e], key)
    ensures key.None? ==> Keys([e], key) == {}
    ensures key.Some? ==> Keys([e], key) == if key.value(e) != "" then {key.value(e)} else {}
  {
    if key.Some? {
      assert e in [e];
      forall k ensures k in Keys(entries + [e], key) <==> k in Keys(entries, key) + Keys([e], key) {
        if k in Keys(entries + [e], key) {
          var x :| x in entries + [e] && key.value(x) != "" && key.value(x) == k;
          assert x in entries || x in [e];
        }
      }
    }
  }

  /** Where only a number of items is asked for, the longer list has that many, or all. */
  lemma AsManyAsAsked(r: seq<Entry>, all: seq<Entry>, minCount: int, key: Option<Entry -> string>)
    requires ShortestEnough(r, all, minCount, 0, key) && minCount > 0
    ensures |r| == if minCount <= |all| then minCount else |all|
  {
    if |r| > 1 {
      assert !Enough(all[..|r| - 1], minCount, 0, key);
    }
  }

  /** And where only a number of different keys is asked for, it has exactly that many of
      them, or all there are. */
  lemma AsManyKeysAsAsked(r: seq<Entry>, all: seq<Entry>, targetUnique: int, key: Option<Entry -> string>)
    requires ShortestEnough(r, all, 0, targetUnique, key) && targetUnique > 0
    ensures |Keys(r, key)| == if targetUnique <= |Keys(all, key)| then targetUnique else |Keys(all, key)|
  {
    if r != [] {
      var before := r[..|r| - 1];
      assert r == before + [r[|r| - 1]] && before == all[..|r| - 1];
      KeysOfOneMore(before, r[|r| - 1], key);
      OneKeyMore(Keys(before, key), Keys([r[|r| - 1]], key));
      if |r| > 1 {
        assert !Enough(all[..|r| - 1], 0, targetUnique, key);
      }
    }
    KeysGrow(r, all, key);
  }

  lemma OneKeyMore(a: set<string>, b: set<string>)
    requires |b| <= 1
    ensures |a + b| <= |a| + 1
  { }

  lemma KeysGrow(r: seq<Entry>, all: seq<Entry>, key: Option<Entry -> string>)
    requires r <= all
    ensures |Keys(r, key)| <= |Keys(all, key)|
  {
    SubsetSize(Keys(r, key), Keys(all, key));
  }

  // ---------- does the longer list extend the batch? ----------

  predicate IsUndated(e: Entry) { e.Item? && e.created.None? }

  predicate IsOldest(e: Entry) { e.Item? && e.created == Some(LEAST_DATE) }

  /** No item without a date comes before one dated exactly the least date. */
  predicate Unshadowed(entries: seq<Entry>) {
    forall i, j :: 0 <= i < j < |entries| && IsUndated(entries[i]) ==> !IsOldest(entries[j])
  }

  function UndatedOne(e: Entry): seq<Timed<Entry>> { if IsUndated(e) then [Timed(e, LEAST_DATE)] else [] }

  /** The items without a date, at the least date. */
  function Undated(entries: seq<Entry>): seq<Timed<Entry>> {
    if entries == [] then [] else UndatedOne(entries[0]) + Undated(entries[1..])
  }

  lemma {:induction false} WithKeyOfConcat<T>(a: seq<T>, b: seq<T>, key: T -> int, k: int)
    ensures WithKey(a + b, key, k) == WithKey(a, key, k) + WithKey(b, key, k)
  {
    if a == [] {
      assert a + b == b;
    } else {
      WithKeyOfConcat(a[1..], b, key, k);
      assert (a + b)[1..] == a[1..] + b;
    }
  }

  lemma {:induction false} AboveLeastDate(entries: seq<Entry>, k: int)
    requires k != LEAST_DATE
    ensures WithKey(AllDated(entries), At(), k) == WithKey(Dated(entries), At(), k)
  {
    if entries != [] {
      AboveLeastDate(entries[1..], k);
      WithKeyOfConcat(AllDatedOne(entries[0]), AllDated(entries[1..]), At(), k);
      WithKeyOfConcat(DatedOne(entries[0]), Dated(entries[1..]), At(), k);
    }
  }

  /** The items at the least date, undated ones among them, and the ones really dated so. */
  function AtLeast(entries: seq<Entry>): seq<Timed<Entry>> { WithKey(AllDated(entries), At(), LEAST_DATE) }

  function Oldest(entries: seq<Entry>): seq<Timed<Entry>> { WithKey(Dated(entries), At(), LEAST_DATE) }

  function TimedIf(e: Entry, selected: bool): seq<Timed<Entry>> { if selected then [Timed(e, LEAST_DATE)] else [] }

  lemma LeastDateStep(e: Entry, rest: seq<Entry>)
    ensures AtLeast([e] + rest) == TimedIf(e, IsUndated(e) || IsOldest(e)) + AtLeast(rest)
    ensures Oldest([e] + rest) == TimedIf(e, IsOldest(e)) + Oldest(rest)
    ensures Undated([e] + rest) == TimedIf(e, IsUndated(e)) + Undated(rest)
  {
    assert ([e] + rest)[1..] == rest;
    WithKeyOfConcat(AllDatedOne(e), AllDated(rest), At(), LEAST_DATE);
    WithKeyOfConcat(DatedOne(e), Dated(rest), At(), LEAST_DATE);
  }

  /** The same, by recursion. */
  predicate UnshadowedFrom(entries: seq<Entry>) {
    entries == [] || ((IsUndated(entries[0]) ==> Oldest(entries[1..]) == []) && UnshadowedFrom(entries[1..]))
  }

  lemma {:induction false} NoOldest(entries: seq<Entry>)
    ensures Oldest(entries) == [] <==> forall j :: 0 <= j < |entries| ==> !IsOldest(entries[j])
  {
    if entries != [] {
      assert entries == [entries[0]] + entries[1..];
      NoOldest(entries[1..]);
      LeastDateStep(entries[0], entries[1..]);
      assert forall j :: 0 < j < |entries| ==> entries[j] == entries[1..][j - 1];
    }
  }

  lemma {:induction false} UnshadowedBothWays(entries: seq<Entry>)
    ensures Unshadowed(entries) <==> UnshadowedFrom(entries)
  {
    if entries != [] {
      var rest := entries[1..];
      UnshadowedBothWays(rest);
      NoOldest(rest);
      if Unshadowed(entries) {
        assert forall i, j :: 0 <= i < j < |rest| && IsUndated(rest[i]) ==> IsUndated(entries[i + 1]) && entries[j + 1] == rest[j];
        assert forall j :: 0 <= j < |rest| && IsUndated(entries[0]) ==> entries[j + 1] == rest[j];
      }
      if UnshadowedFrom(entries) {
        forall i, j | 0 <= i < j < |entries| && IsUndated(entries[i]) ensures !IsOldest(entries[j]) {
          assert entries[j] == rest[j - 1];
          assert i > 0 ==> IsUndated(rest[i - 1]);
        }
      }
    }
  }

  /** The really dated ones come first among them exactly when nothing shadows them. */
  lemma UnshadowedMeansOldestFirst(entries: seq<Entry>)
    ensures UnshadowedFrom(entries) ==> AtLeast(entries) == Oldest(entries) + Undated(entries)
    ensures Oldest(entries) <= AtLeast(entries) ==> UnshadowedFrom(entries)
  {
    if UnshadowedFrom(entries) {
      OldestFirst(entries);
    }
    if Oldest(entries) <= AtLeast(entries) {
      NotShadowed(entries);
    }
  }

  lemma {:induction false} OldestFirst(entries: seq<Entry>)
    requires UnshadowedFrom(entries)
    ensures AtLeast(entries) == Oldest(entries) + Undated(entries)
  {
    if entries != [] {
      assert entries == [entries[0]] + entries[1..];
      OldestFirst(entries[1..]);
      LeastDateStep(entries[0], entries[1..]);
    }
  }

  lemma {:induction false} NotShadowed(entries: seq<Entry>)
    requires Oldest(entries) <= AtLeast(entries)
    ensures UnshadowedFrom(entries)
  {
    if entries != [] {
      var e, rest := entries[0], entries[1..];
      assert entries == [e] + rest;
      LeastDateStep(e, rest);
      if IsUndated(e) {
        OldestAreOldest(rest);
        assert Oldest(entries) == Oldest(rest) && AtLeast(entries)[0] == Timed(e, LEAST_DATE);
        assert Oldest(rest) == [];
      } else if IsOldest(e) {
        assert AtLeast(entries)[1..] == AtLeast(rest) && Oldest(entries)[1..] == Oldest(rest);
      } else {
        assert Oldest(entries) == Oldest(rest) && AtLeast(entries) == AtLeast(rest);
      }
      NotShadowed(rest);
    }
  }

  lemma {:induction false} OldestAreOldest(entries: seq<Entry>)
    ensures forall i :: 0 <= i < |Oldest(entries)| ==> IsOldest(Oldest(entries)[i].value)
  {
    if entries != [] {
      assert entries == [entries[0]] + entries[1..];
      OldestAreOldest(entries[1..]);
      LeastDateStep(entries[0], entries[1..]);
    }
  }

  lemma {:induction false} DatedAreDated(entries: seq<Entry>)
    ensures forall e :: e in Dated(entries) ==> e.at >= LEAST_DATE && e.value.Item? && e.value.created == Some(e.at)
  {
    if entries != [] {
      DatedAreDated(entries[1..]);
    }
  }

  /** The dated items above the least date, newest first. */
  function Above(s: seq<Timed<Entry>>): (n: nat) ensures n <= |s| {
    if s == [] || s[0].at <= LEAST_DATE then 0 else 1 + Above(s[1..])
  }

  lemma {:induction false} AboveSplits(s: seq<Timed<Entry>>)
    requires Descending(s, At()) && forall i :: 0 <= i < |s| ==> s[i].at >= LEAST_DATE
    ensures forall i :: 0 <= i < Above(s) ==> s[i].at > LEAST_DATE
    ensures forall i :: Above(s) <= i < |s| ==> s[i].at == LEAST_DATE
    ensures WithKey(s, At(), LEAST_DATE) == s[Above(s)..]
    ensures forall k :: k != LEAST_DATE ==> WithKey(s, At(), k) == WithKey(s[..Above(s)], At(), k)
  {
    if s != [] {
      var n := Above(s);
      if s[0].at > LEAST_DATE {
        forall i, j | 0 <= i < j < |s[1..]| ensures At()(s[1..][i]) >= At()(s[1..][j]) {
          DescendingPair(s, i + 1, j + 1);
        }
        AboveSplits(s[1..]);
        assert s[1..][Above(s[1..])..] == s[n..];
        assert s[..n][1..] == s[1..][..n - 1];
        assert forall i :: 0 < i < |s| ==> s[i] == s[1..][i - 1];
      } else {
        forall i | 0 <= i < |s| ensures s[i].at == LEAST_DATE {
          DescendingPair(s, 0, i);
        }
        AllAtKey(s, LEAST_DATE);
        assert s[..0] == [];
      }
    }
  }

  lemma {:induction false} AllAtKey(s: seq<Timed<Entry>>, k: int)
    requires forall i :: 0 <= i < |s| ==> s[i].at == k
    ensures WithKey(s, At(), k) == s
    ensures forall m :: m != k ==> WithKey(s, At(), m) == []
  {
    if s != [] {
      AllAtKey(s[1..], k);
    }
  }

  /** Ordering every item: the dated ones above the least date as before, then
      whatever is at the least date, in the order it came. */
  lemma AllNewest(entries: seq<Entry>)
    ensures
      var dated := NewestFirst(Dated(entries));
      && dated == dated[..Above(dated)] + Oldest(entries)
      && NewestFirst(AllDated(entries)) == dated[..Above(dated)] + AtLeast(entries)
  {
    var dated := NewestFirst(Dated(entries));
    SortIsStableSort(Dated(entries), At());
    DatedNotBelow(entries);
    AboveSplits(dated);
    var n := Above(dated);
    assert dated == dated[..n] + dated[n..];
    AllAtLeastDate(entries);
    NewestIsAboveThenLeast(entries, dated[..n]);
  }

  lemma DatedNotBelow(entries: seq<Entry>)
    ensures forall i :: 0 <= i < |NewestFirst(Dated(entries))| ==> NewestFirst(Dated(entries))[i].at >= LEAST_DATE
  {
    DatedAreDated(entries);
    var dated := NewestFirst(Dated(entries));
    forall i | 0 <= i < |dated| ensures dated[i].at >= LEAST_DATE {
      NewestFirstMember(Dated(entries), dated[i]);
    }
  }

  lemma {:induction false} AllAtLeastDate(entries: seq<Entry>)
    ensures forall i :: 0 <= i < |AtLeast(entries)| ==> AtLeast(entries)[i].at == LEAST_DATE
  {
    if entries != [] {
      assert entries == [entries[0]] + entries[1..];
      AllAtLeastDate(entries[1..]);
      LeastDateStep(entries[0], entries[1..]);
    }
  }

  lemma NewestIsAboveThenLeast(entries: seq<Entry>, above: seq<Timed<Entry>>)
    requires Descending(above, At()) && forall i :: 0 <= i < |above| ==> above[i].at > LEAST_DATE
    requires forall k :: k != LEAST_DATE ==> WithKey(above, At(), k) == WithKey(Dated(entries), At(), k)
    requires forall i :: 0 <= i < |AtLeast(entries)| ==> AtLeast(entries)[i].at == LEAST_DATE
    ensures NewestFirst(AllDated(entries)) == above + AtLeast(entries)
  {
    var least := AtLeast(entries);
    SortIsStableSort(AllDated(entries), At());
    forall i, j | 0 <= i < j < |above + least| ensures At()((above + least)[i]) >= At()((above + least)[j]) {
      if j < |above| {
        DescendingPair(above, i, j);
      }
    }
    NothingAtKey(above, LEAST_DATE);
    AllAtKey(least, LEAST_DATE);
    forall k ensures WithKey(above + least, At(), k) == WithKey(NewestFirst(AllDated(entries)), At(), k) {
      WithKeyOfConcat(above, least, At(), k);
      if k != LEAST_DATE {
        AboveLeastDate(entries, k);
      }
    }
    StableSortIsUnique(NewestFirst(AllDated(entries)), above + least, At());
  }

  lemma {:induction false} NothingAtKey(s: seq<Timed<Entry>>, k: int)
    requires forall i :: 0 <= i < |s| ==> s[i].at != k
    ensures WithKey(s, At(), k) == []
  {
    if s != [] {
      NothingAtKey(s[1..], k);
    }
  }

  /** A clean condition on the listing: no item of the newest batch is dated the least
      date with an undated item listed before it. */
  predicate BatchUnshadowed(entries: seq<Entry>, gapMinutes: int) {
    Unshadowed(entries) || forall e :: e in Batch(entries, gapMinutes) ==> !IsOldest(e)
  }

  lemma ValuesOfConcat<T>(a: seq<Timed<T>>, b: seq<Timed<T>>)
    ensures Values(a + b) == Values(a) + Values(b)
  { }

  lemma {:induction false} ItemsAreUndated(entries: seq<Entry>)
    requires Dated(entries) == []
    ensures Values(Undated(entries)) == Items(entries)
  {
    if entries != [] {
      var e, rest := entries[0], entries[1..];
      assert DatedOne(e) == [] && Dated(rest) == [];
      ItemsAreUndated(rest);
      ValuesOfConcat(UndatedOne(e), Undated(rest));
      assert Values(UndatedOne(e)) == if e.Item? then [e] else [];
    }
  }

  lemma UndatedBatch(entries: seq<Entry>)
    requires Dated(entries) == []
    ensures Items(entries) == Newest(entries)
  {
    ItemsAreUndated(entries);
    AllNewest(entries);
    NewestFirstOrder(Dated(entries));
    assert Oldest(entries) == [];
    NoOldest(entries);
    UnshadowedBothWays(entries);
    UnshadowedMeansOldestFirst(entries);
    assert NewestFirst(AllDated(entries)) == Undated(entries);
  }

  lemma UnshadowedBatch(entries: seq<Entry>, n: nat)
    requires Unshadowed(entries) && n <= |NewestFirst(Dated(entries))|
    ensures NewestFirst(Dated(entries))[..n] <= NewestFirst(AllDated(entries))
  {
    var dated := NewestFirst(Dated(entries));
    AllNewest(entries);
    UnshadowedBothWays(entries);
    UnshadowedMeansOldestFirst(entries);
    assert NewestFirst(AllDated(entries)) == dated + Undated(entries);
  }

  lemma BatchAbove(entries: seq<Entry>, n: nat)
    requires n <= Above(NewestFirst(Dated(entries)))
    ensures NewestFirst(Dated(entries))[..n] <= NewestFirst(AllDated(entries))
  {
    AllNewest(entries);
  }

  /** Under that condition the batch is where the full ordering starts. */
  lemma BatchStartsNewest(entries: seq<Entry>, gapMinutes: int)
    requires BatchUnshadowed(entries, gapMinutes)
    ensures Batch(entries, gapMinutes) <= Newest(entries)
  {
    if Dated(entries) == [] {
      UndatedBatch(entries);
    } else {
      var dated := NewestFirst(Dated(entries));
      NewestFirstOrder(Dated(entries));
      var n := RunLength(dated, gapMinutes * MINUTE);
      if Unshadowed(entries) {
        UnshadowedBatch(entries, n);
      } else {
        if n > Above(dated) {
          OldestInBatch(entries, gapMinutes, Above(dated));
          assert false;
        }
        BatchAbove(entries, n);
      }
      ValuesPrefix(dated[..n], NewestFirst(AllDated(entries)));
    }
  }

  lemma ValuesPrefix<T>(a: seq<Timed<T>>, b: seq<Timed<T>>)
    requires a <= b
    ensures Values(a) <= Values(b)
  { }

  lemma OldestInBatch(entries: seq<Entry>, gapMinutes: int, i: nat)
    requires Dated(entries) != [] && |NewestFirst(Dated(entries))| == |Dated(entries)|
    requires Above(NewestFirst(Dated(entries))) <= i < RunLength(NewestFirst(Dated(entries)), gapMinutes * MINUTE)
    ensures exists e :: e in Batch(entries, gapMinutes) && IsOldest(e)
  {
    var dated := NewestFirst(Dated(entries));
    AllNewest(entries);
    OldestAreOldest(entries);
    assert dated[i] == Oldest(entries)[i - Above(dated)];
    var batch := Batch(entries, gapMinutes);
    assert batch[i] == dated[i].value;
    assert batch[i] in batch;
  }

  lemma EnoughGrows(a: seq<Entry>, b: seq<Entry>, minCount: int, targetUnique: int, key: Option<Entry -> string>)
    requires a <= b && Enough(a, minCount, targetUnique, key)
    ensures Enough(b, minCount, targetUnique, key)
  {
    assert forall e :: e in a ==> e in b;
    assert Keys(a, key) <= Keys(b, key);
    SubsetSize(Keys(a, key), Keys(b, key));
  }

  /** The result of a call, as the method promises it. */
  ghost predicate Outcome(output: seq<Entry>, entries: seq<Entry>, gapMinutes: int, minCount: int, targetUnique: int, key: Option<Entry -> string>) {
    if Enough(Batch(entries, gapMinutes), minCount, targetUnique, key) then output == Batch(entries, gapMinutes)
    else ShortestEnough(output, Newest(entries), minCount, targetUnique, key)
  }

  /** Then a batch that is too small is extended by the next older items, strictly
      unless there are none. */
  lemma LongerListExtendsBatch(entries: seq<Entry>, gapMinutes: int, minCount: int, targetUnique: int, key: Option<Entry -> string>, output: seq<Entry>)
    requires BatchUnshadowed(entries, gapMinutes) && Outcome(output, entries, gapMinutes, minCount, targetUnique, key)
    ensures Batch(entries, gapMinutes) <= output
    ensures !Enough(Batch(entries, gapMinutes), minCount, targetUnique, key) ==>
      output == Newest(entries) || |output| > |Batch(entries, gapMinutes)|
  {
    var batch := Batch(entries, gapMinutes);
    BatchStartsNewest(entries, gapMinutes);
    if !Enough(batch, minCount, targetUnique, key) {
      if |output| <= |batch| && output != Newest(entries) {
        assert output <= batch;
        EnoughGrows(output, batch, minCount, targetUnique, key);
        assert false;
      }
    }
  }

  /** Whatever is asked for, with non-negative gaps the result starts with the newest
      batch exactly under that condition. */
  lemma AlwaysExtendsBatchExactly(entries: seq<Entry>, gapMinutes: int)
    requires gapMinutes >= 0
    ensures
      (forall output, minCount, targetUnique, key | Outcome(output, entries, gapMinutes, minCount, targetUnique, key) ::
         Batch(entries, gapMinutes) <= output)
      <==> BatchUnshadowed(entries, gapMinutes)
  {
    if BatchUnshadowed(entries, gapMinutes) {
      forall output, minCount, targetUnique, key | Outcome(output, entries, gapMinutes, minCount, targetUnique, key)
        ensures Batch(entries, gapMinutes) <= output
      {
        LongerListExtendsBatch(entries, gapMinutes, minCount, targetUnique, key, output);
      }
    } else {
      ShadowedBatch(entries, gapMinutes);
      var batch := Batch(entries, gapMinutes);
      var output := OneLonger(entries, gapMinutes);
      assert Outcome(output, entries, gapMinutes, |batch| + 1, 0, None) && !(batch <= output);
    }
  }

  ghost function OneLonger(entries: seq<Entry>, gapMinutes: int): seq<Entry> {
    var n := |Batch(entries, gapMinutes)| + 1;
    if n <= |Newest(entries)| then Newest(entries)[..n] else Newest(entries)
  }

  lemma OneLongerIsAnOutcome(entries: seq<Entry>, gapMinutes: int)
    ensures Outcome(OneLonger(entries, gapMinutes), entries, gapMinutes, |Batch(entries, gapMinutes)| + 1, 0, None)
  { }

  /** A batch with an item of the least date is the whole listing of dated items. */
  lemma OldestBatchIsEverything(entries: seq<Entry>, gapMinutes: int, e: Entry)
    requires gapMinutes >= 0 && e in Batch(entries, gapMinutes) && IsOldest(e)
    ensures Batch(entries, gapMinutes) == Values(NewestFirst(Dated(entries)))
  {
    if Dated(entries) == [] {
      ItemsHaveNoDate(entries);
    } else {
      RunOfOldest(entries, gapMinutes * MINUTE, e);
      var dated := NewestFirst(Dated(entries));
      assert dated[..|dated|] == dated;
    }
  }

  lemma RunOfOldest(entries: seq<Entry>, gap: int, e: Entry)
    requires Dated(entries) != [] && gap >= 0 && IsOldest(e)
    requires e in Values(NewestFirst(Dated(entries))[..RunLength(NewestFirst(Dated(entries)), gap)])
    ensures NewestFirst(Dated(entries)) != []
    ensures RunLength(NewestFirst(Dated(entries)), gap) == |NewestFirst(Dated(entries))|
  {
    var dated := NewestFirst(Dated(entries));
    NewestFirstOrder(Dated(entries));
    DatedNotBelow(entries);
    var i :| 0 <= i < RunLength(dated, gap) && dated[i].value == e;
    DatedAreDated(entries);
    NewestFirstMember(Dated(entries), dated[i]);
    LeastIsInTheLastRun(dated, gap, i);
  }

  lemma LeastIsInTheLastRun(dated: seq<Timed<Entry>>, gap: int, i: nat)
    requires Descending(dated, At()) && (forall k :: 0 <= k < |dated| ==> dated[k].at >= LEAST_DATE) && gap >= 0
    requires i < RunLength(dated, gap) && dated[i].at == LEAST_DATE
    ensures RunLength(dated, gap) == |dated|
  {
    RunIsLongest(dated, gap);
    DescendingPair(dated, i, RunLength(dated, gap) - 1);
  }

  lemma {:induction false} ItemsHaveNoDate(entries: seq<Entry>)
    requires Dated(entries) == []
    ensures forall e :: e in Items(entries) ==> IsUndated(e)
  {
    if entries != [] {
      assert DatedOne(entries[0]) == [] && Dated(entries[1..]) == [];
      ItemsHaveNoDate(entries[1..]);
    }
  }

  lemma {:induction false} AllDatedByValue(entries: seq<Entry>)
    ensures forall t :: t in AllDated(entries) ==> [t] == AllDatedOne(t.value)
  {
    if entries != [] {
      AllDatedByValue(entries[1..]);
    }
  }

  lemma ShadowedBatch(entries: seq<Entry>, gapMinutes: int)
    requires gapMinutes >= 0 && !BatchUnshadowed(entries, gapMinutes)
    ensures !(Batch(entries, gapMinutes) <= OneLonger(entries, gapMinutes))
    ensures Outcome(OneLonger(entries, gapMinutes), entries, gapMinutes, |Batch(entries, gapMinutes)| + 1, 0, None)
  {
    OneLongerIsAnOutcome(entries, gapMinutes);
    var e :| e in Batch(entries, gapMinutes) && IsOldest(e);
    OldestBatchIsEverything(entries, gapMinutes, e);
    if Batch(entries, gapMinutes) <= OneLonger(entries, gapMinutes) {
      assert Batch(entries, gapMinutes) <= Newest(entries);
      DatedStartNewest(entries);
      assert false;
    }
  }

  /** An item's value fixes the date it is listed under. */
  lemma SameValueSameDate(entries: seq<Entry>, i: nat)
    requires i < |NewestFirst(Dated(entries))| && i < |NewestFirst(AllDated(entries))|
    requires NewestFirst(Dated(entries))[i].value == NewestFirst(AllDated(entries))[i].value
    ensures NewestFirst(Dated(entries))[i] == NewestFirst(AllDated(entries))[i]
  {
    var dated, all := NewestFirst(Dated(entries))[i], NewestFirst(AllDated(entries))[i];
    NewestFirstMember(AllDated(entries), all);
    NewestFirstMember(Dated(entries), dated);
    AllDatedByValue(entries);
    DatedAreDated(entries);
    assert [all] == AllDatedOne(all.value);
    assert [all][0] == AllDatedOne(all.value)[0];
  }

  lemma DatedStartNewest(entries: seq<Entry>)
    requires Values(NewestFirst(Dated(entries))) <= Newest(entries)
    ensures Unshadowed(entries)
  {
    var dated, all := NewestFirst(Dated(entries)), NewestFirst(AllDated(entries));
    assert dated <= all by {
      forall i | 0 <= i < |dated| ensures i < |all| && dated[i] == all[i] {
        assert Values(all)[i] == Values(dated)[i];
        SameValueSameDate(entries, i);
      }
    }
    AllNewest(entries);
    PrefixBehind(dated[..Above(dated)], Oldest(entries), AtLeast(entries));
    UnshadowedMeansOldestFirst(entries);
    UnshadowedBothWays(entries);
  }

  lemma PrefixBehind<T>(h: seq<T>, a: seq<T>, b: seq<T>)
    requires h + a <= h + b
    ensures a <= b
  {
    assert a == (h + a)[|h|..] && b == (h + b)[|h|..];
  }

  /** The family is not empty: an undated item listed before one of the least date
      replaces it instead of following it. */
  lemma ReplacedBatch()
    ensures
      var entries := [Item("undated", None), Item("oldest", Some(LEAST_DATE))];
      var key := Some((e: Entry) => if e == Item("undated", None) then "k" else "");
      && Batch(entries, 0) == [Item("oldest", Some(LEAST_DATE))]
      && Outcome([Item("undated", None)], entries, 0, 0, 1, key)
  {
    var u, o := Item("undated", None), Item("oldest", Some(LEAST_DATE));
    var entries := [u, o];
    var tu, to := Timed(u, LEAST_DATE), Timed(o, LEAST_DATE);
    assert entries[1..] == [o] && [o][1..] == [];
    DatedStep(o, []);
    DatedStep(u, [o]);
    assert [o] + [] == [o] && [u] + [o] == entries;
    assert DatedOne(u) == [] && DatedOne(o) == [to] && Dated([o]) == [to] && Dated(entries) == [to];
    assert AllDatedOne(u) == [tu] && AllDatedOne(o) == [to];
    assert AllDated([o]) == [to] && AllDated(entries) == [tu] + AllDated(entries[1..]);
    assert SortDescending([to], At()) == [to] by { assert [to][1..] == []; }
    assert [tu, to][1..] == [to];
    assert NewestFirst(AllDated(entries)) == [tu, to];
    assert [to][..1] == [to];
    assert Batch(entries, 0) == [o];
    var key := Some((e: Entry) => if e == u then "k" else "");
    assert Keys([o], key) == {};
    assert u in [u];
    assert Keys([u], key) == {"k"};
    assert Newest(entries)[..1] == [u];
  }
}
