/** Splitting a newest-first list where two neighbours are too far apart in time.
    Instants and gaps count microseconds. */
module TimeGaps {

  import opened Sorting

  const MINUTE := 60_000_000

  datatype Timed<T> = Timed(value: T, at: int)

  function At<T>(): Timed<T> -> int { (e: Timed<T>) => e.at }

  function NewestFirst<T>(s: seq<Timed<T>>): seq<Timed<T>> { SortDescending(s, At()) }

  function Values<T>(s: seq<Timed<T>>): (r: seq<T>)
    ensures |r| == |s| && forall i :: 0 <= i < |s| ==> r[i] == s[i].value
  {
    seq(|s|, i requires 0 <= i < |s| => s[i].value)
  }

  lemma NewestFirstOrder<T>(s: seq<Timed<T>>)
    ensures Descending(NewestFirst(s), At())
    ensures |NewestFirst(s)| == |s| && forall e :: e in NewestFirst(s) <==> e in s
  {
    SortOrders(s, At());
    SortHasSameElements(s, At());
  }

  lemma NewestFirstMember<T>(s: seq<Timed<T>>, e: Timed<T>)
    ensures e in NewestFirst(s) <==> e in s
  {
    SortHasSameElements(s, At());
  }

  /** Neighbours in the list are too far apart. */
  predicate Wide<T>(s: seq<Timed<T>>, k: nat, gap: int) requires 0 < k < |s| { s[k - 1].at - s[k].at > gap }

  /** How many elements come before the first wide link. */
  function RunLength<T>(s: seq<Timed<T>>, gap: int): (n: nat)
    ensures n <= |s| && (s != [] ==> n > 0)
  {
    if |s| <= 1 then |s|
    else if Wide(s, 1, gap) then 1
    else 1 + RunLength(s[1..], gap)
  }

  /** The groups: cut at every wide link. */
  function Split<T>(s: seq<Timed<T>>, gap: int): (groups: seq<seq<Timed<T>>>)
    ensures s != [] ==> groups != [] && groups[0] == s[..RunLength(s, gap)]
  {
    if s == [] then [] else [s[..RunLength(s, gap)]] + Split(s[RunLength(s, gap)..], gap)
  }

  lemma {:induction false} RunIsLongest<T>(s: seq<Timed<T>>, gap: int)
    ensures forall k :: 0 < k < RunLength(s, gap) ==> !Wide(s, k, gap)
    ensures 0 < RunLength(s, gap) < |s| ==> Wide(s, RunLength(s, gap), gap)
  {
    if |s| > 1 && !Wide(s, 1, gap) {
      RunIsLongest(s[1..], gap);
      forall k | 0 < k < RunLength(s, gap) ensures !Wide(s, k, gap) {
        assert k > 1 ==> !Wide(s[1..], k - 1, gap);
      }
    }
  }

  lemma RunIsUnique<T>(s: seq<Timed<T>>, gap: int, n: nat)
    requires 0 < n <= |s| && forall k :: 0 < k < n ==> !Wide(s, k, gap)
    requires n < |s| ==> Wide(s, n, gap)
    ensures RunLength(s, gap) == n
  {
    RunIsLongest(s, gap);
  }

  // ---------- the loop that builds the groups ----------

  function Put<T>(groups: seq<seq<Timed<T>>>, e: Timed<T>, wide: bool): seq<seq<Timed<T>>>
    requires groups != []
  {
    if wide then groups + [[e]] else groups[|groups| - 1 := groups[|groups| - 1] + [e]]
  }

  lemma SplitOne<T>(e: Timed<T>, gap: int)
    ensures Split([e], gap) == [[e]]
  {
    assert [e][..1] == [e] && [e][1..] == [];
  }

  lemma RunAfterPut<T>(s: seq<Timed<T>>, e: Timed<T>, gap: int)
    requires s != []
    ensures RunLength(s + [e], gap) == if RunLength(s, gap) < |s| || s[|s| - 1].at - e.at > gap then RunLength(s, gap) else |s| + 1
  {
    RunIsLongest(s, gap);
    var n, t := RunLength(s, gap), s + [e];
    forall k | 0 < k < n ensures !Wide(t, k, gap) {
      assert !Wide(s, k, gap);
    }
    if n < |s| {
      assert Wide(s, n, gap) && Wide(t, n, gap);
      RunIsUnique(t, gap, n);
    } else if s[|s| - 1].at - e.at > gap {
      RunIsUnique(t, gap, n);
    } else {
      RunIsUnique(t, gap, |s| + 1);
    }
  }

  lemma PutAfterOneGroup<T>(s: seq<Timed<T>>, e: Timed<T>, gap: int)
    requires s != [] && RunLength(s, gap) == |s|
    ensures Split(s, gap) == [s]
    ensures Split(s + [e], gap) == if s[|s| - 1].at - e.at > gap then [s, [e]] else [s + [e]]
  {
    var n, t := |s|, s + [e];
    RunAfterPut(s, e, gap);
    assert s[..n] == s && s[n..] == [];
    if s[n - 1].at - e.at > gap {
      assert t[..n] == s && t[n..] == [e];
      SplitOne(e, gap);
    } else {
      assert t[..n + 1] == t && t[n + 1..] == [];
    }
  }

  lemma {:induction false} SplitAfterPut<T>(s: seq<Timed<T>>, e: Timed<T>, gap: int)
    requires s != []
    ensures Split(s + [e], gap) == Put(Split(s, gap), e, s[|s| - 1].at - e.at > gap)
    decreases |s|
  {
    var n, t := RunLength(s, gap), s + [e];
    if n < |s| {
      RunAfterPut(s, e, gap);
      assert t[..n] == s[..n] && t[n..] == s[n..] + [e];
      SplitAfterPut(s[n..], e, gap);
      PutDeeper(s[..n], Split(s[n..], gap), e, s[|s| - 1].at - e.at > gap);
    } else {
      PutAfterOneGroup(s, e, gap);
    }
  }

  lemma PutDeeper<T>(first: seq<Timed<T>>, groups: seq<seq<Timed<T>>>, e: Timed<T>, wide: bool)
    requires groups != []
    ensures Put([first] + groups, e, wide) == [first] + Put(groups, e, wide)
  { }

  lemma OneMore<T>(ordered: seq<Timed<T>>, gap: int, i: nat)
    requires 0 < i < |ordered|
    ensures Split(ordered[..i], gap) != []
    ensures Split(ordered[..i + 1], gap) == Put(Split(ordered[..i], gap), ordered[i], Wide(ordered, i, gap))
  {
    assert ordered[..i + 1] == ordered[..i] + [ordered[i]];
    SplitAfterPut(ordered[..i], ordered[i], gap);
  }

  /** The loop shared by `group_version_times` and `group_items_by_date`. */
  method SplitAtGaps<T>(ordered: seq<Timed<T>>, gap: int) returns (groups: seq<seq<Timed<T>>>)
    requires ordered != []
    ensures groups == Split(ordered, gap)
  {
    groups := [[ordered[0]]];
    var last := ordered[0].at;
    assert ordered[..1] == [ordered[0]];
    SplitOne(ordered[0], gap);
    for i := 1 to |ordered|
      invariant groups == Split(ordered[..i], gap) && last == ordered[i - 1].at
    {
      var e := ordered[i];
      OneMore(ordered, gap, i);
      if last - e.at > gap {
        groups := groups + [[e]];
      } else {
        groups := groups[|groups| - 1 := groups[|groups| - 1] + [e]];
      }
      last := e.at;
    }
    assert ordered[..|ordered|] == ordered;
  }

  // ---------- what the groups mean ----------

  /** The group an element of the ordered list is in. */
  function GroupOf<T>(s: seq<Timed<T>>, gap: int, i: nat): nat
    requires i < |s|
  {
    var n := RunLength(s, gap);
    if i < n then 0 else 1 + GroupOf(s[n..], gap, i - n)
  }

  /** The groups, one after the other, are the ordered list; element by element. */
  lemma {:induction false} GroupsAreTheList<T>(s: seq<Timed<T>>, gap: int)
    ensures Flatten(Split(s, gap)) == s && [] !in Split(s, gap)
  {
    if s != [] {
      var n := RunLength(s, gap);
      var groups := Split(s, gap);
      GroupsAreTheList(s[n..], gap);
      assert groups == [s[..n]] + Split(s[n..], gap);
      assert groups[1..] == Split(s[n..], gap);
      assert Flatten(groups) == s[..n] + s[n..];
    }
  }

  function Flatten<T>(groups: seq<seq<T>>): seq<T> {
    if groups == [] then [] else groups[0] + Flatten(groups[1..])
  }

  lemma {:induction false} GroupOfIsItsGroup<T>(s: seq<Timed<T>>, gap: int, i: nat)
    requires i < |s|
    ensures GroupOf(s, gap, i) < |Split(s, gap)| && s[i] in Split(s, gap)[GroupOf(s, gap, i)]
    decreases |s|
  {
    var n := RunLength(s, gap);
    if i >= n {
      GroupOfIsItsGroup(s[n..], gap, i - n);
      assert s[n..][i - n] == s[i];
    } else {
      assert s[..n][i] == s[i];
    }
  }

  lemma {:induction false} SameGroupMeansNarrow<T>(s: seq<Timed<T>>, gap: int, i: nat, j: nat)
    requires i <= j < |s|
    ensures GroupOf(s, gap, i) == GroupOf(s, gap, j) <==> forall k :: i < k <= j ==> !Wide(s, k, gap)
    ensures GroupOf(s, gap, i) <= GroupOf(s, gap, j)
    decreases |s|
  {
    var n := RunLength(s, gap);
    RunIsLongest(s, gap);
    if i >= n {
      SameGroupMeansNarrow(s[n..], gap, i - n, j - n);
      assert forall k :: i < k <= j ==> Wide(s, k, gap) == Wide(s[n..], k - n, gap);
      assert forall k :: i - n < k <= j - n ==> Wide(s[n..], k, gap) == Wide(s, k + n, gap);
    } else if j >= n {
      assert Wide(s, n, gap);
    }
  }

  /** A walk over the list in steps of at most the gap, in either direction. */
  ghost predicate Walk<T>(s: seq<Timed<T>>, gap: int, path: seq<nat>) {
    && path != [] && (forall p :: p in path ==> p < |s|)
    && (forall k :: 0 < k < |path| ==> Near(s, gap, path[k - 1], path[k]))
  }

  ghost predicate Near<T>(s: seq<Timed<T>>, gap: int, i: nat, j: nat) {
    i < |s| && j < |s| && -gap <= s[i].at - s[j].at <= gap
  }

  ghost predicate Connected<T>(s: seq<Timed<T>>, gap: int, i: nat, j: nat) {
    exists path :: Walk(s, gap, path) && path[0] == i && path[|path| - 1] == j
  }

  /** A walk never crosses a wide link. */
  lemma {:induction false} WalkStaysOnItsSide<T>(s: seq<Timed<T>>, gap: int, path: seq<nat>, k: nat)
    requires Descending(s, At()) && Walk(s, gap, path) && 0 < k < |s| && Wide(s, k, gap)
    ensures path[0] < k <==> path[|path| - 1] < k
    decreases |path|
  {
    if |path| > 1 {
      var rest := path[1..];
      forall m | 0 < m < |rest| ensures Near(s, gap, rest[m - 1], rest[m]) {
        assert Near(s, gap, path[m], path[m + 1]);
      }
      assert forall p :: p in rest ==> p in path;
      WalkStaysOnItsSide(s, gap, rest, k);
      var i, j := path[0], path[1];
      assert Near(s, gap, path[0], path[1]);
      DescendingPair(s, Lower(i, k - 1), Higher(i, k - 1));
      DescendingPair(s, Lower(j, k - 1), Higher(j, k - 1));
      DescendingPair(s, Lower(i, k), Higher(i, k));
      DescendingPair(s, Lower(j, k), Higher(j, k));
    }
  }

  function Lower(i: nat, j: nat): nat { if i <= j then i else j }

  function Higher(i: nat, j: nat): nat { if i <= j then j else i }

  lemma DescendingPair<T>(s: seq<Timed<T>>, i: nat, j: nat)
    requires Descending(s, At()) && i <= j < |s|
    ensures s[i].at >= s[j].at
  {
    if i < j {
      assert At()(s[i]) >= At()(s[j]);
    }
  }

  lemma {:induction false} NarrowIsWalked<T>(s: seq<Timed<T>>, gap: int, i: nat, j: nat)
    requires Descending(s, At()) && i <= j < |s| && forall k :: i < k <= j ==> !Wide(s, k, gap)
    ensures Connected(s, gap, i, j) && Connected(s, gap, j, i)
    decreases j
  {
    if i == j {
      assert Walk(s, gap, [i]);
    } else {
      NarrowIsWalked(s, gap, i, j - 1);
      DescendingPair(s, j - 1, j);
      assert !Wide(s, j, gap);
      var there :| Walk(s, gap, there) && there[0] == i && there[|there| - 1] == j - 1;
      var back :| Walk(s, gap, back) && back[0] == j - 1 && back[|back| - 1] == i;
      assert Near(s, gap, j - 1, j) && Near(s, gap, j, j - 1);
      WalkOn(s, gap, there, j);
      WalkFrom(s, gap, j, back);
    }
  }

  lemma WalkOn<T>(s: seq<Timed<T>>, gap: int, path: seq<nat>, j: nat)
    requires Walk(s, gap, path) && Near(s, gap, path[|path| - 1], j)
    ensures Connected(s, gap, path[0], j)
  {
    var longer := path + [j];
    forall k | 0 < k < |longer| ensures Near(s, gap, longer[k - 1], longer[k]) {
      assert k < |path| ==> Near(s, gap, path[k - 1], path[k]);
    }
    assert Walk(s, gap, longer);
  }

  lemma WalkFrom<T>(s: seq<Timed<T>>, gap: int, j: nat, path: seq<nat>)
    requires Walk(s, gap, path) && Near(s, gap, j, path[0])
    ensures Connected(s, gap, j, path[|path| - 1])
  {
    var longer := [j] + path;
    forall k | 0 < k < |longer| ensures Near(s, gap, longer[k - 1], longer[k]) {
      assert k > 1 ==> Near(s, gap, path[k - 2], path[k - 1]);
    }
    assert Walk(s, gap, longer);
  }

  /** The groups are exactly the components connected by steps of at most the gap. */
  lemma GroupsAreComponents<T>(list: seq<Timed<T>>, gap: int, i: nat, j: nat)
    requires i < |list| && j < |list|
    ensures |NewestFirst(list)| == |list|
    ensures
      var s := NewestFirst(list);
      && GroupOf(s, gap, i) < |Split(s, gap)| && s[i] in Split(s, gap)[GroupOf(s, gap, i)]
      && (Connected(s, gap, i, j) <==> GroupOf(s, gap, i) == GroupOf(s, gap, j))
  {
    var s := NewestFirst(list);
    NewestFirstOrder(list);
    GroupOfIsItsGroup(s, gap, i);
    SameGroupMeansNarrow(s, gap, Lower(i, j), Higher(i, j));
    if GroupOf(s, gap, i) == GroupOf(s, gap, j) {
      NarrowIsWalked(s, gap, Lower(i, j), Higher(i, j));
    } else {
      var k :| Lower(i, j) < k <= Higher(i, j) && Wide(s, k, gap);
      if path :| Walk(s, gap, path) && path[0] == i && path[|path| - 1] == j {
        WalkStaysOnItsSide(s, gap, path, k);
      }
    }
  }
}
