/** References to Trakt lists: the canonical form, reading one and printing one. */
module TraktReferences {

  import opened Common
  import opened ProviderUrls
  import opened Text

  predicate IsSafe(c: char) { IsLetter(c) || IsDigit(c) || c == '_' || c == '-' }

  predicate SafeToken(s: string) { 0 < |s| <= 128 && forall i :: 0 <= i < |s| ==> IsSafe(s[i]) }

  // ---------- the query ----------

  datatype Query = NoQuery | Sort(order: string) | By(pairs: seq<(string, string)>)

  predicate IsWord(c: char) { IsLetter(c) || IsDigit(c) || c == '_' }

  predicate AllWord(s: string) { s != "" && forall i :: 0 <= i < |s| ==> IsWord(s[i]) }

  /** [A-Za-z0-9_] as it matches when case is ignored. */
  predicate IsAnyCaseWord(c: char) {
    IsWord(c) || c == DOTTED_CAPITAL_I || c == DOTLESS_I || c == LONG_S || c == KELVIN
  }

  function FoldOne(c: char): char {
    if IsUpper(c) then (c as int + 32) as char else if c == LONG_S then 's' else c
  }

  function Fold(s: string): (r: string)
    ensures |r| == |s| && forall i :: 0 <= i < |s| ==> r[i] == FoldOne(s[i])
  {
    seq(|s|, i requires 0 <= i < |s| => FoldOne(s[i]))
  }

  predicate Direction(s: string) { Fold(s) == "asc" || Fold(s) == "desc" }

  /** Word characters, then perhaps a comma and a direction; `dots` also lets the
      combining dot through. */
  predicate SortShape(s: string, dots: bool) {
    var comma := Find(s, ',');
    && comma > 0
    && (forall i :: 0 <= i < comma ==> IsAnyCaseWord(s[i]) || (dots && s[i] == COMBINING_DOT))
    && (comma < |s| ==> Direction(s[comma + 1..]))
  }

  function PlusToSpace(s: string): (r: string)
    ensures |r| == |s| && forall i :: 0 <= i < |s| ==> r[i] == if s[i] == '+' then ' ' else s[i]
  {
    seq(|s|, i requires 0 <= i < |s| => if s[i] == '+' then ' ' else s[i])
  }

  /** One name=value; None without an equals sign. */
  function Pair(text: string): Option<(string, string)> {
    var e := Find(text, '=');
    if e == |text| then None
    else Some((Unquote(PlusToSpace(text[..e])), Unquote(PlusToSpace(text[e + 1..]))))
  }

  function Pairs(texts: seq<string>): Option<seq<(string, string)>> {
    if texts == [] then Some([])
    else
      var first, rest := Pair(texts[0]), Pairs(texts[1..]);
      if first.None? || rest.None? then None else Some([first.value] + rest.value)
  }

  /** A sort_by or sort_how pair whose value is accepted, lowered. */
  function Ordering(pair: (string, string)): Option<(string, string)> {
    if pair.0 == "sort_by" then (if AllWord(pair.1) then Some((pair.0, Lower(pair.1))) else None)
    else if pair.0 == "sort_how" then (if Lower(pair.1) == "asc" || Lower(pair.1) == "desc" then Some((pair.0, Lower(pair.1))) else None)
    else None
  }

  /** `_normalize_trakt_query`, before it is printed again. */
  function ParseQuery(query: string): Option<Query> {
    if query == "" then Some(NoQuery)
    else
      var parsed := Pairs(SplitOn(query, '&'));
      if parsed.None? then None else QueryOf(parsed.value)
  }

  function QueryOf(pairs: seq<(string, string)>): Option<Query> {
    if |pairs| == 1 then
      if pairs[0].0 == "sort" then (if SortShape(pairs[0].1, false) then Some(Sort(Lower(pairs[0].1))) else None)
      else if Ordering(pairs[0]).Some? then Some(By([Ordering(pairs[0]).value]))
      else None
    else if |pairs| == 2 && pairs[0].0 != pairs[1].0 && Ordering(pairs[0]).Some? && Ordering(pairs[1]).Some?
    then Some(By([Ordering(pairs[0]).value, Ordering(pairs[1]).value]))
    else None
  }

  function PairText(pair: (string, string)): string { pair.0 + "=" + pair.1 }

  function QueryText(q: Query): string {
    match q
    case NoQuery => ""
    case Sort(order) => PairText(("sort", order))
    case By(pairs) =>
      if |pairs| == 1 then PairText(pairs[0])
      else if |pairs| == 2 then PairText(pairs[0]) + "&" + PairText(pairs[1])
      else ""
  }

  // ---------- the reference ----------

  datatype TraktRef = TraktRef(parts: seq<string>, query: Query)

  /** Base and query of a reference, once they are told apart. */
  function RefOf(base: string, query: string): Option<TraktRef> {
    var parts := SplitOn(base, '/');
    var q := ParseQuery(query);
    if |parts| > 2 || (exists i :: 0 <= i < |parts| && !SafeToken(parts[i])) || q.None? then None
    else Some(TraktRef(if |parts| == 2 then [Lower(parts[0]), parts[1]] else parts, q.value))
  }

  /** The non-empty parts of a path, unquoted. */
  function PathParts(texts: seq<string>): seq<string> {
    if texts == [] then []
    else (if texts[0] == "" then [] else [Unquote(texts[0])]) + PathParts(texts[1..])
  }

  const TRAKT_HOSTS: set<string> := {"trakt.tv", "www.trakt.tv"}

  function BaseOfPath(parts: seq<string>): Option<string> {
    if |parts| == 2 && Lower(parts[0]) == "lists" then Some(parts[1])
    else if |parts| == 4 && Lower(parts[0]) == "users" && Lower(parts[2]) == "lists" then Some(Lower(parts[1]) + "/" + parts[3])
    else None
  }

  function ParseTrakt(value: string): Option<TraktRef> {
    if LooksLikeUrl(value) then
      var at := ParseProviderUrl(value, TRAKT_HOSTS);
      if at.None? then None
      else
        var base := BaseOfPath(PathParts(SplitOn(at.value.path, '/')));
        if base.None? then None else RefOf(base.value, at.value.query)
    else
      var mark := Find(value, '?');
      RefOf(value[..mark], if mark < |value| then value[mark + 1..] else "")
  }

  function BaseText(parts: seq<string>): string
    requires 1 <= |parts| <= 2
  {
    if |parts| == 1 then parts[0] else parts[0] + "/" + parts[1]
  }

  function TraktText(ref: TraktRef): string
    requires 1 <= |ref.parts| <= 2
  {
    Target(BaseText(ref.parts), QueryText(ref.query))
  }

  function LinkPath(parts: seq<string>): string
    requires 1 <= |parts| <= 2
  {
    if |parts| == 1 then "/lists/" + parts[0] else "/users/" + parts[0] + "/lists/" + parts[1]
  }

  /** The link of a reference. */
  function TraktLink(ref: TraktRef): string
    requires 1 <= |ref.parts| <= 2
  {
    PrintUrl("trakt.tv", LinkPath(ref.parts), QueryText(ref.query))
  }

  /** The Trakt branch of `build_source_link`, which takes the canonical text apart
      again. */
  function TraktUrl(value: string): string {
    var mark := Find(value, '?');
    Target(BaseUrl(value[..mark]), if mark < |value| then value[mark + 1..] else "")
  }

  function BaseUrl(base: string): string {
    var slash := Find(base, '/');
    if slash == |base| then "https://trakt.tv/lists/" + Quote(base)
    else "https://trakt.tv/users/" + Quote(Lower(Strip(base[..slash]))) + "/lists/" + Quote(base[slash + 1..])
  }

  // ---------- what reading produces ----------

  predicate GoodPair(pair: (string, string)) {
    && AllWord(pair.1) && AllLow(pair.1)
    && (pair.0 == "sort_by" || (pair.0 == "sort_how" && (pair.1 == "asc" || pair.1 == "desc")))
  }

  predicate GoodQuery(q: Query) {
    match q
    case NoQuery => true
    case Sort(order) => SortShape(order, true) && AllLow(order)
    case By(pairs) =>
      && 1 <= |pairs| <= 2 && (|pairs| == 2 ==> pairs[0].0 != pairs[1].0)
      && forall i :: 0 <= i < |pairs| ==> GoodPair(pairs[i])
  }

  predicate Good(ref: TraktRef) {
    && 1 <= |ref.parts| <= 2
    && (forall i :: 0 <= i < |ref.parts| ==> SafeToken(ref.parts[i]))
    && (|ref.parts| == 2 ==> AllLow(ref.parts[0]))
    && GoodQuery(ref.query)
  }

  lemma {:induction false} LowerOfWord(s: string)
    requires forall i :: 0 <= i < |s| ==> IsAnyCaseWord(s[i])
    ensures |Lower(s)| >= |s|
    ensures forall i :: 0 <= i < |Lower(s)| ==> IsAnyCaseWord(Lower(s)[i]) || Lower(s)[i] == COMBINING_DOT
    ensures (forall i :: 0 <= i < |s| ==> IsWord(s[i])) ==> |Lower(s)| == |s| && forall i :: 0 <= i < |Lower(s)| ==> IsWord(Lower(s)[i])
  {
    if s != "" {
      LowerOfWord(s[1..]);
      assert IsAnyCaseWord(s[0]);
    }
  }

  lemma {:induction false} LowerOfSafe(s: string)
    requires forall i :: 0 <= i < |s| ==> IsSafe(s[i])
    ensures |Lower(s)| == |s| && forall i :: 0 <= i < |s| ==> IsSafe(Lower(s)[i])
  {
    if s != "" {
      LowerOfSafe(s[1..]);
      assert IsSafe(s[0]);
    }
  }

  lemma LowerOfDirection(s: string)
    requires Direction(s)
    ensures Direction(Lower(s))
  {
    forall i | 0 <= i < |s| ensures LowerOne(s[i]) == [LowerOne(s[i])[0]] && FoldOne(LowerOne(s[i])[0]) == FoldOne(s[i]) {
      assert Fold(s)[i] == FoldOne(s[i]);
    }
    FoldOfLower(s);
  }

  lemma {:induction false} FoldOfLower(s: string)
    requires forall i :: 0 <= i < |s| ==> LowerOne(s[i]) == [LowerOne(s[i])[0]] && FoldOne(LowerOne(s[i])[0]) == FoldOne(s[i])
    ensures |Lower(s)| == |s| && Fold(Lower(s)) == Fold(s)
  {
    if s != "" {
      FoldOfLower(s[1..]);
      forall i | 0 <= i < |s| ensures FoldOne(Lower(s)[i]) == FoldOne(s[i]) {
        if i > 0 {
          assert Fold(Lower(s[1..]))[i - 1] == Fold(s[1..])[i - 1];
        }
      }
    }
  }

  lemma ShapeFromParts(head: string, tail: string, dots: bool)
    requires head != "" && forall i :: 0 <= i < |head| ==> IsAnyCaseWord(head[i]) || (dots && head[i] == COMBINING_DOT)
    requires tail == "" || (tail[0] == ',' && Direction(tail[1..]))
    ensures SortShape(head + tail, dots)
  {
    var s := head + tail;
    FindIs(s, ',', |head|);
    if tail != "" {
      assert s[|head| + 1..] == tail[1..];
    }
  }

  /** Lowering an accepted sort order keeps its shape, but for combining dots. */
  lemma LowerOfSort(s: string)
    requires SortShape(s, false)
    ensures SortShape(Lower(s), true) && AllLow(Lower(s))
  {
    LowerIsLow(s);
    var comma := Find(s, ',');
    var head, tail := s[..comma], s[comma..];
    LowerOfWord(head);
    LowerOfConcat(head, tail);
    assert s == head + tail;
    LowerOfTail(tail);
    ShapeFromParts(Lower(head), Lower(tail), true);
  }

  lemma LowerOfTail(tail: string)
    requires tail == "" || (tail[0] == ',' && Direction(tail[1..]))
    ensures Lower(tail) == "" || (Lower(tail)[0] == ',' && Direction(Lower(tail)[1..]))
  {
    if tail != "" {
      LowerOfDirection(tail[1..]);
      assert Lower(tail) == "," + Lower(tail[1..]);
    }
  }

  lemma OrderingIsGood(pair: (string, string))
    requires Ordering(pair).Some?
    ensures GoodPair(Ordering(pair).value) && Ordering(pair).value.0 == pair.0
  {
    LowerIsLow(pair.1);
    if pair.0 == "sort_by" {
      LowerOfWord(pair.1);
    }
  }

  lemma QueryOfIsGood(pairs: seq<(string, string)>)
    requires QueryOf(pairs).Some?
    ensures GoodQuery(QueryOf(pairs).value)
  {
    if |pairs| == 1 && pairs[0].0 == "sort" {
      LowerOfSort(pairs[0].1);
    } else {
      OrderingIsGood(pairs[0]);
      if |pairs| == 2 {
        OrderingIsGood(pairs[1]);
      }
    }
  }

  lemma RefOfIsGood(base: string, query: string)
    requires RefOf(base, query).Some?
    ensures Good(RefOf(base, query).value)
  {
    var parts := SplitOn(base, '/');
    if query != "" {
      QueryOfIsGood(Pairs(SplitOn(query, '&')).value);
    }
    if |parts| == 2 {
      assert SafeToken(parts[0]);
      LowerOfSafe(parts[0]);
      LowerIsLow(parts[0]);
    }
  }

  // ---------- reading what was printed ----------

  /** The sort order holds the dot that no second reading accepts. */
  predicate Dotted(q: Query) { q.Sort? && COMBINING_DOT in q.order }

  predicate QueryChar(c: char) {
    c > ' ' && c != '\U{7F}' && c != '&' && c != '=' && c != '+' && c != '%' && c != '?' && c != '#' && c != ':' && c != '/'
  }

  predicate QueryChars(s: string) { forall i :: 0 <= i < |s| ==> QueryChar(s[i]) }

  lemma SortChars(order: string)
    requires SortShape(order, true)
    ensures QueryChars(order)
  {
    var comma := Find(order, ',');
    forall i | 0 <= i < |order| ensures QueryChar(order[i]) {
      if i > comma {
        assert Fold(order[comma + 1..])[i - comma - 1] == FoldOne(order[i]);
      }
    }
  }

  lemma PairReads(name: string, value: string)
    requires QueryChars(name) && QueryChars(value)
    ensures Pair(PairText((name, value))) == Some((name, value))
    ensures '&' !in PairText((name, value))
  {
    var text := PairText((name, value));
    FindIs(text, '=', |name|);
    assert text[..|name|] == name && text[|name| + 1..] == value;
    NothingToUnquote(name);
    NothingToUnquote(value);
  }

  lemma NothingToUnquote(s: string)
    requires QueryChars(s)
    ensures Unquote(PlusToSpace(s)) == s
  {
    assert PlusToSpace(s) == s;
    assert '%' !in s;
    PlainIsUnquoted(s);
  }

  lemma SortReadAgain(order: string)
    requires SortShape(order, true) && AllLow(order)
    ensures SortShape(order, false) <==> COMBINING_DOT !in order
  {
    var comma := Find(order, ',');
    if COMBINING_DOT in order {
      var i :| 0 <= i < |order| && order[i] == COMBINING_DOT;
      if i > comma {
        assert Fold(order[comma + 1..])[i - comma - 1] == COMBINING_DOT;
      }
    }
  }

  lemma OrderingReadAgain(pair: (string, string))
    requires GoodPair(pair)
    ensures Ordering(pair) == Some(pair) && QueryChars(pair.0) && QueryChars(pair.1)
  {
    LowIsLower(pair.1);
  }

  lemma OnePair(text: string)
    requires '&' !in text
    ensures Pairs(SplitOn(text, '&')) == if Pair(text).Some? then Some([Pair(text).value]) else None
  {
    SplitWhole(text, '&');
    PairsOfOne(text);
  }

  lemma PairsOfOne(text: string)
    ensures Pairs([text]) == if Pair(text).Some? then Some([Pair(text).value]) else None
  {
    assert [text][1..] == [];
    var none: seq<(string, string)> := [];
    assert Pairs([text][1..]) == Some(none);
    if Pair(text).Some? {
      assert [Pair(text).value] + none == [Pair(text).value];
    }
  }

  lemma TwoPairs(a: string, b: string)
    requires '&' !in a && '&' !in b && Pair(a).Some? && Pair(b).Some?
    ensures Pairs(SplitOn(a + "&" + b, '&')) == Some([Pair(a).value, Pair(b).value])
  {
    SplitFirst(a, '&', b);
    SplitWhole(b, '&');
    assert a + "&" + b == a + ['&'] + b;
    PairsOfTwo(a, b);
  }

  lemma PairsOfTwo(a: string, b: string)
    requires Pair(a).Some? && Pair(b).Some?
    ensures Pairs([a] + [b]) == Some([Pair(a).value, Pair(b).value])
  {
    PairsOfOne(b);
    assert ([a] + [b])[0] == a && ([a] + [b])[1..] == [b];
    assert [Pair(a).value] + [Pair(b).value] == [Pair(a).value, Pair(b).value];
  }

  lemma SortQueryReadAgain(order: string)
    requires SortShape(order, true) && AllLow(order)
    ensures ParseQuery(PairText(("sort", order))) == if COMBINING_DOT in order then None else Some(Sort(order))
  {
    SortChars(order);
    PairReads("sort", order);
    OnePair(PairText(("sort", order)));
    SortReadAgain(order);
    LowIsLower(order);
  }

  lemma OneReadAgain(a: (string, string))
    requires GoodPair(a)
    ensures ParseQuery(PairText(a)) == Some(By([a]))
  {
    OrderingReadAgain(a);
    PairReads(a.0, a.1);
    OnePair(PairText(a));
  }

  lemma TwoReadAgain(a: (string, string), b: (string, string))
    requires GoodPair(a) && GoodPair(b) && a.0 != b.0
    ensures ParseQuery(PairText(a) + "&" + PairText(b)) == Some(By([a, b]))
  {
    OrderingReadAgain(a);
    OrderingReadAgain(b);
    PairReads(a.0, a.1);
    PairReads(b.0, b.1);
    TwoPairs(PairText(a), PairText(b));
    OrderedPair(a, b);
  }

  lemma OrderedPair(a: (string, string), b: (string, string))
    requires a.0 != b.0 && Ordering(a) == Some(a) && Ordering(b) == Some(b)
    ensures QueryOf([a, b]) == Some(By([a, b]))
  { }

  /** A printed query is read as itself, or refused when it holds the dot. */
  lemma QueryReadAgain(q: Query)
    requires GoodQuery(q)
    ensures ParseQuery(QueryText(q)) == if Dotted(q) then None else Some(q)
  {
    match q
    case NoQuery =>
    case Sort(order) => SortQueryReadAgain(order);
    case By(pairs) =>
      if |pairs| == 1 {
        OneReadAgain(pairs[0]);
        assert pairs == [pairs[0]];
      } else {
        TwoReadAgain(pairs[0], pairs[1]);
        assert pairs == [pairs[0], pairs[1]];
      }
  }

  lemma SafeHasNoSlash(s: string)
    requires SafeToken(s)
    ensures '/' !in s && '?' !in s && '%' !in s && '#' !in s && ':' !in s
  { }

  lemma BaseSplits(parts: seq<string>)
    requires 1 <= |parts| <= 2 && forall i :: 0 <= i < |parts| ==> SafeToken(parts[i])
    ensures SplitOn(BaseText(parts), '/') == parts
  {
    SafeHasNoSlash(parts[0]);
    if |parts| == 1 {
      SplitWhole(parts[0], '/');
    } else {
      SafeHasNoSlash(parts[1]);
      SplitFirst(parts[0], '/', parts[1]);
      SplitWhole(parts[1], '/');
    }
  }

  lemma RefReadAgain(ref: TraktRef)
    requires Good(ref)
    ensures RefOf(BaseText(ref.parts), QueryText(ref.query)) == if Dotted(ref.query) then None else Some(ref)
  {
    BaseSplits(ref.parts);
    QueryReadAgain(ref.query);
    if |ref.parts| == 2 {
      LowIsLower(ref.parts[0]);
      assert ref.parts == [ref.parts[0], ref.parts[1]];
    }
  }
}
