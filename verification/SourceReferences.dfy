/** Canonical references to collection sources, and the links printed for them. */
module SourceReferences {

  import opened Common
  import opened ProviderUrls
  import opened Text
  import opened TraktReferences

  datatype SourceType = TraktList | TmdbList | TmdbCollection | Mdblist

  /** The hosts links are printed with. */
  const TRAKT := "trakt.tv"
  const TMDB := "www.themoviedb.org"
  const MDBLIST := "mdblist.com"

  // ---------- TMDB ----------

  const TMDB_HOSTS: set<string> := {"themoviedb.org", "www.themoviedb.org"}

  function Segment(t: SourceType): string { if t == TmdbList then "list" else "collection" }

  /** /segment/digits with an optional slash behind, letters in any case. */
  function TmdbId(segment: string, path: string): Option<string> {
    var body := if path != "" && path[|path| - 1] == '/' then path[..|path| - 1] else path;
    var k := |segment| + 2;
    if |body| > k && Lower(body[..k]) == "/" + segment + "/" && AllDigits(body[k..]) then Some(body[k..]) else None
  }

  /** `_normalize_tmdb` */
  function NormalizeTmdb(t: SourceType, value: string): Option<string> {
    if LooksLikeUrl(value) then
      var at := ParseProviderUrl(value, TMDB_HOSTS);
      if at.None? || at.value.query != "" then None else TmdbId(Segment(t), at.value.path)
    else if AllDigits(value) then Some(value)
    else None
  }

  // ---------- MDBList ----------

  const MDBLIST_HOSTS: set<string> := {"mdblist.com", "www.mdblist.com", "api.mdblist.com"}

  const EXTERNAL := "external:"

  function NonEmpty(texts: seq<string>): seq<string> {
    if texts == [] then [] else (if texts[0] == "" then [] else [texts[0]]) + NonEmpty(texts[1..])
  }

  /** The two path patterns, on the parts between slashes. */
  function MdblistId(parts: seq<string>): Option<string> {
    var s := if parts != [] && Lower(parts[|parts| - 1]) == "items" then parts[..|parts| - 1] else parts;
    if |s| == 3 && Lower(s[0]) == "external" && Lower(s[1]) == "lists" && AllDigits(s[2]) then Some(EXTERNAL + s[2])
    else if |s| == 4 && Lower(s[0]) == "lists" && Lower(s[2]) == "external" && AllDigits(s[3]) then Some(EXTERNAL + s[3])
    else if |s| == 2 && (Lower(s[0]) == "list" || Lower(s[0]) == "lists") && AllDigits(s[1]) then Some(s[1])
    else None
  }

  predicate IsExternal(value: string) { |value| > 9 && Lower(value[..9]) == EXTERNAL && AllDigits(value[9..]) }

  /** `_normalize_mdblist` */
  function NormalizeMdblist(value: string): Option<string> {
    if IsExternal(value) then Some(EXTERNAL + value[9..])
    else if SafeToken(value) then Some(value)
    else
      var at := ParseProviderUrl(value, MDBLIST_HOSTS);
      if at.None? || at.value.query != "" then None else MdblistId(NonEmpty(SplitOn(at.value.path, '/')))
  }

  // ---------- the common entry points ----------

  predicate HasControl(s: string) { exists i :: 0 <= i < |s| && (s[i] < ' ' || s[i] == '\U{7F}') }

  function NormalizeTrakt(value: string): Option<string> {
    var ref := ParseTrakt(value);
    if ref.None? then None
    else
      ParseTraktIsGood(value);
      Some(TraktText(ref.value))
  }

  /** `normalize_source_reference` */
  function Normalize(t: SourceType, source: string): Option<string> {
    var value := Strip(source);
    if value == "" || HasControl(value) then None
    else
      match t
      case TraktList => NormalizeTrakt(value)
      case Mdblist => NormalizeMdblist(value)
      case _ => NormalizeTmdb(t, value)
  }

  /** `build_source_link`, from an accepted value; the empty text stands for no link. */
  function BuildLink(t: SourceType, source: string): string {
    var r := Normalize(t, source);
    if r.None? then ""
    else
      match t
      case TraktList => TraktUrl(r.value)
      case TmdbList => PrintUrl(TMDB, "/list/" + r.value, "")
      case TmdbCollection => PrintUrl(TMDB, "/collection/" + r.value, "")
      case Mdblist => MdblistUrl(r.value)
  }

  /** Its MDBList branch. */
  function MdblistUrl(value: string): string {
    if StartsWith(Lower(value), EXTERNAL) then
      var colon := Find(value, ':');
      PrintUrl(MDBLIST, "/external/lists/" + Quote(if colon < |value| then value[colon + 1..] else ""), "")
    else PrintUrl(MDBLIST, "/list/" + value, "")
  }

  /** `detect_source_type` */
  function Detect(source: string): Option<SourceType> {
    var value := Strip(source);
    if !LooksLikeUrl(value) then None
    else if Normalize(TraktList, value).Some? then Some(TraktList)
    else if Normalize(TmdbList, value).Some? then Some(TmdbList)
    else if Normalize(TmdbCollection, value).Some? then Some(TmdbCollection)
    else if Normalize(Mdblist, value).Some? then Some(Mdblist)
    else None
  }

  lemma ParseTraktIsGood(value: string)
    requires ParseTrakt(value).Some?
    ensures Good(ParseTrakt(value).value)
  {
    if LooksLikeUrl(value) {
      var at := ParseProviderUrl(value, TRAKT_HOSTS).value;
      RefOfIsGood(BaseOfPath(PathParts(SplitOn(at.path, '/'))).value, at.query);
    } else {
      var mark := Find(value, '?');
      RefOfIsGood(value[..mark], if mark < |value| then value[mark + 1..] else "");
    }
  }

  // ---------- the links, from the parts of a reference ----------

  lemma SafeIsUnreserved(s: string)
    requires SafeToken(s)
    ensures Quote(s) == s
  {
    UnreservedIsQuoted(s);
  }

  lemma SafeIsStripped(s: string)
    requires SafeToken(s)
    ensures Strip(s) == s
  {
    assert IsSafe(s[0]) && IsSafe(s[|s| - 1]);
    StripStripped(s);
  }

  lemma ListUrl(list: string)
    requires SafeToken(list)
    ensures BaseUrl(list) == "https://trakt.tv/lists/" + list
  {
    SafeHasNoSlash(list);
    FindIs(list, '/', |list|);
    SafeIsUnreserved(list);
  }

  lemma UserUrl(user: string, list: string)
    requires SafeToken(user) && AllLow(user) && SafeToken(list)
    ensures BaseUrl(user + "/" + list) == "https://trakt.tv/users/" + user + "/lists/" + list
  {
    var base := user + "/" + list;
    SafeHasNoSlash(user);
    FindIs(base, '/', |user|);
    assert base[..|user|] == user && base[|user| + 1..] == list;
    SafeIsStripped(user);
    LowIsLower(user);
    SafeIsUnreserved(user);
    SafeIsUnreserved(list);
  }

  lemma BaseUrlIs(parts: seq<string>)
    requires 1 <= |parts| <= 2 && (forall i :: 0 <= i < |parts| ==> SafeToken(parts[i])) && (|parts| == 2 ==> AllLow(parts[0]))
    ensures BaseUrl(BaseText(parts)) == PrintUrl(TRAKT, LinkPath(parts), "")
  {
    if |parts| == 1 {
      ListUrl(parts[0]);
    } else {
      UserUrl(parts[0], parts[1]);
      SameUserUrl(parts[0], parts[1]);
    }
  }

  lemma SameUserUrl(user: string, list: string)
    ensures "https://trakt.tv/users/" + user + "/lists/" + list == PrintUrl(TRAKT, "/users/" + user + "/lists/" + list, "")
  { }

  lemma UrlOfTarget(base: string, query: string)
    requires '?' !in base
    ensures TraktUrl(Target(base, query)) == Target(BaseUrl(base), query)
  {
    FindIs(Target(base, query), '?', |base|);
    TargetTaken(base, query);
    assert query != "" ==> Target(base, query)[|base| + 1..] == query;
  }

  lemma PrintedWithQuery(host: string, path: string, query: string)
    ensures Target(PrintUrl(host, path, ""), query) == PrintUrl(host, path, query)
  { }

  /** What is printed from the canonical text is the link of the reference. */
  lemma TraktUrlIsLink(ref: TraktRef)
    requires Good(ref)
    ensures TraktUrl(TraktText(ref)) == TraktLink(ref)
  {
    BaseIsPlain(ref.parts);
    BaseUrlIs(ref.parts);
    UrlOfTarget(BaseText(ref.parts), QueryText(ref.query));
    PrintedWithQuery(TRAKT, LinkPath(ref.parts), QueryText(ref.query));
  }

  lemma ExternalStaysExternal(r: string)
    requires StartsWith(r, EXTERNAL)
    ensures StartsWith(Lower(r), EXTERNAL)
  {
    LowIsLower(EXTERNAL);
    LowerOfConcat(EXTERNAL, r[|EXTERNAL|..]);
    assert r == EXTERNAL + r[|EXTERNAL|..];
  }

  lemma ExternalUrl(r: string)
    requires StartsWith(r, EXTERNAL) && AllDigits(r[9..])
    ensures MdblistUrl(r) == PrintUrl(MDBLIST, "/external/lists/" + r[9..], "")
  {
    ExternalStaysExternal(r);
    FindIs(r, ':', 8);
    UnreservedIsQuoted(r[9..]);
  }

  lemma NumberUrl(r: string)
    requires ':' !in r
    ensures MdblistUrl(r) == PrintUrl(MDBLIST, "/list/" + r, "")
  {
    LowerAddsNoColon(r);
    PrefixHas(EXTERNAL, Lower(r), ':');
  }

  lemma MdblistUrlIs(r: string)
    requires SafeToken(r) || AllDigits(r) || (StartsWith(r, EXTERNAL) && AllDigits(r[9..]))
    ensures MdblistUrl(r) ==
      if StartsWith(r, EXTERNAL) then PrintUrl(MDBLIST, "/external/lists/" + r[9..], "") else PrintUrl(MDBLIST, "/list/" + r, "")
  {
    ExternalOrNot(r);
    if StartsWith(r, EXTERNAL) {
      ExternalUrl(r);
    } else {
      TokenOrDigits(r);
      NumberUrl(r);
    }
  }

  // ---------- plain text passes the entry ----------

  predicate Plain(s: string) { forall i :: 0 <= i < |s| ==> s[i] > ' ' && s[i] != '\U{7F}' }

  lemma PlainPasses(s: string)
    requires Plain(s) && s != ""
    ensures Strip(s) == s && !HasControl(s)
  {
    StripStripped(s);
  }

  lemma PlainUrl(host: string, path: string, query: string)
    requires PlainHost(host) && Plain(path) && Plain(query)
    ensures Plain(PrintUrl(host, path, query)) && PrintUrl(host, path, query) != ""
  { }

  lemma NoColonNoUrl(s: string)
    requires ':' !in s
    ensures !LooksLikeUrl(s)
  {
    LowerAddsNoColon(s);
    PrefixHas("http://", Lower(s), ':');
    PrefixHas("https://", Lower(s), ':');
  }

  lemma PrefixHas(prefix: string, s: string, c: char)
    ensures prefix <= s && c in prefix ==> c in s
  { }

  lemma {:induction false} LowerAddsNoColon(s: string)
    requires ':' !in s
    ensures ':' !in Lower(s)
  {
    if s != "" {
      assert s[0] in s && forall c :: c in s[1..] ==> c in s;
      LowerAddsNoColon(s[1..]);
    }
  }

  // ---------- Trakt, read again ----------

  predicate QueryTextChars(s: string) { forall i :: 0 <= i < |s| ==> QueryChar(s[i]) || s[i] == '=' || s[i] == '&' }

  lemma PairTextChars(name: string, value: string)
    requires QueryChars(name) && QueryChars(value)
    ensures QueryTextChars(PairText((name, value)))
  { }

  lemma QueryTextCharsArePlain(s: string)
    requires QueryTextChars(s)
    ensures Plain(s) && '#' !in s && ':' !in s
  { }

  lemma OrderingTextChars(a: (string, string))
    requires GoodPair(a)
    ensures QueryTextChars(PairText(a))
  {
    OrderingReadAgain(a);
    PairTextChars(a.0, a.1);
  }

  lemma JoinedTextChars(a: string, b: string)
    requires QueryTextChars(a) && QueryTextChars(b)
    ensures QueryTextChars(a + "&" + b)
  { }

  lemma QueryTextHasItsChars(q: Query)
    requires GoodQuery(q)
    ensures QueryTextChars(QueryText(q))
  {
    match q
    case NoQuery =>
    case Sort(order) =>
      SortChars(order);
      PairTextChars("sort", order);
    case By(pairs) =>
      OrderingTextChars(pairs[0]);
      if |pairs| == 2 {
        OrderingTextChars(pairs[1]);
        JoinedTextChars(PairText(pairs[0]), PairText(pairs[1]));
      }
  }

  lemma QueryTextIsPlain(q: Query)
    requires GoodQuery(q)
    ensures Plain(QueryText(q)) && '#' !in QueryText(q) && ':' !in QueryText(q)
  {
    QueryTextHasItsChars(q);
    QueryTextCharsArePlain(QueryText(q));
  }

  predicate PathChars(s: string) { forall i :: 0 <= i < |s| ==> IsSafe(s[i]) || s[i] == '/' }

  lemma PathCharsArePlain(s: string)
    requires PathChars(s)
    ensures Plain(s) && ':' !in s && '?' !in s && '#' !in s
  { }

  lemma BaseIsPlain(parts: seq<string>)
    requires 1 <= |parts| <= 2 && forall i :: 0 <= i < |parts| ==> SafeToken(parts[i])
    ensures BaseText(parts) != "" && Plain(BaseText(parts)) && ':' !in BaseText(parts) && '?' !in BaseText(parts)
    ensures LinkPath(parts)[0] == '/' && Plain(LinkPath(parts)) && '?' !in LinkPath(parts) && '#' !in LinkPath(parts)
  {
    assert SafeToken(parts[0]) && SafeToken(parts[|parts| - 1]);
    assert PathChars(BaseText(parts));
    PathCharsArePlain(BaseText(parts));
    LinkPathChars(parts);
    PathCharsArePlain(LinkPath(parts));
  }

  lemma LinkPathChars(parts: seq<string>)
    requires 1 <= |parts| <= 2 && forall i :: 0 <= i < |parts| ==> SafeToken(parts[i])
    ensures PathChars(LinkPath(parts)) && LinkPath(parts)[0] == '/'
  {
    assert SafeToken(parts[0]) && SafeToken(parts[|parts| - 1]);
    assert PathChars("/lists/") && PathChars("/users/");
    JoinChars("/lists/", parts[|parts| - 1]);
    if |parts| == 2 {
      JoinChars("/users/", parts[0]);
      JoinChars("/users/" + parts[0], "/lists/" + parts[1]);
      assert LinkPath(parts) == ("/users/" + parts[0]) + ("/lists/" + parts[1]);
    }
  }

  lemma JoinChars(a: string, b: string)
    requires PathChars(a) && PathChars(b)
    ensures PathChars(a + b)
  { }

  /** Text that is no URL is taken apart at the question mark. */
  lemma TextTakenApart(base: string, query: string)
    requires Plain(base) && base != "" && ':' !in base && '?' !in base && Plain(query) && ':' !in query
    ensures ParseTrakt(Target(base, query)) == RefOf(base, query)
    ensures Plain(Target(base, query)) && Target(base, query) != ""
  {
    var text := Target(base, query);
    NoColonInTarget(base, query);
    NoColonNoUrl(text);
    FindIs(text, '?', |base|);
    TargetTaken(base, query);
    assert query != "" ==> text[|base| + 1..] == query;
  }

  lemma NoColonInTarget(base: string, query: string)
    requires Plain(base) && ':' !in base && Plain(query) && ':' !in query
    ensures Plain(Target(base, query)) && ':' !in Target(base, query)
  { }

  /** The canonical text is read as the same reference, or refused for its dot. */
  lemma TraktTextReadAgain(ref: TraktRef)
    requires Good(ref)
    ensures ParseTrakt(TraktText(ref)) == if Dotted(ref.query) then None else Some(ref)
    ensures Plain(TraktText(ref)) && TraktText(ref) != ""
  {
    BaseIsPlain(ref.parts);
    QueryTextIsPlain(ref.query);
    TextTakenApart(BaseText(ref.parts), QueryText(ref.query));
    RefReadAgain(ref);
  }

  /** What is left of a link path after each slash. */
  function ListTail(list: string): string { "lists" + ['/'] + list }

  function UserTail(user: string, list: string): string { "users" + ['/'] + (user + ['/'] + ListTail(list)) }

  lemma LinkPathTail(parts: seq<string>)
    requires 1 <= |parts| <= 2
    ensures LinkPath(parts) == "" + ['/'] + (if |parts| == 1 then ListTail(parts[0]) else UserTail(parts[0], parts[1]))
  { }

  lemma ListPathSplits(list: string)
    requires '/' !in list
    ensures SplitOn(ListTail(list), '/') == ["lists"] + [list]
  {
    SplitWhole(list, '/');
    SplitFirst("lists", '/', list);
  }

  lemma UserPathSplits(user: string, list: string)
    requires '/' !in user && '/' !in list
    ensures SplitOn(UserTail(user, list), '/') == ["users"] + ([user] + (["lists"] + [list]))
  {
    ListPathSplits(list);
    var tail := ListTail(list);
    SplitFirst(user, '/', tail);
    SplitFirst("users", '/', user + ['/'] + tail);
  }

  lemma LinkPathSplits(parts: seq<string>)
    requires 1 <= |parts| <= 2 && forall i :: 0 <= i < |parts| ==> SafeToken(parts[i])
    ensures SplitOn(LinkPath(parts), '/') == [""] + LinkTexts(parts)
  {
    SafeHasNoSlash(parts[0]);
    SafeHasNoSlash(parts[|parts| - 1]);
    LinkPathTail(parts);
    if |parts| == 1 {
      ListPathSplits(parts[0]);
      SplitFirst("", '/', ListTail(parts[0]));
    } else {
      UserPathSplits(parts[0], parts[1]);
      SplitFirst("", '/', UserTail(parts[0], parts[1]));
    }
  }

  function LinkTexts(parts: seq<string>): seq<string>
    requires 1 <= |parts| <= 2
  {
    if |parts| == 1 then ["lists"] + [parts[0]] else ["users"] + ([parts[0]] + (["lists"] + [parts[1]]))
  }

  lemma {:induction false} PathPartsOfPlain(texts: seq<string>)
    requires forall i :: 0 <= i < |texts| ==> '%' !in texts[i]
    ensures PathParts(texts) == NonEmpty(texts)
  {
    if texts != [] {
      PlainIsUnquoted(texts[0]);
      PathPartsOfPlain(texts[1..]);
    }
  }

  lemma LinkBase(parts: seq<string>)
    requires 1 <= |parts| <= 2 && (forall i :: 0 <= i < |parts| ==> SafeToken(parts[i])) && (|parts| == 2 ==> AllLow(parts[0]))
    ensures BaseOfPath(PathParts(SplitOn(LinkPath(parts), '/'))) == Some(BaseText(parts))
  {
    LinkPathSplits(parts);
    LinkTextsArePlain(parts);
    PathPartsOfPlain([""] + LinkTexts(parts));
    FirstIsEmpty(LinkTexts(parts));
    NonEmptyStay(LinkTexts(parts));
    BaseOfLink(parts);
  }

  lemma LinkTextsArePlain(parts: seq<string>)
    requires 1 <= |parts| <= 2 && forall i :: 0 <= i < |parts| ==> SafeToken(parts[i])
    ensures forall i :: 0 <= i < |LinkTexts(parts)| ==> '%' !in LinkTexts(parts)[i] && LinkTexts(parts)[i] != ""
  {
    SafeHasNoSlash(parts[0]);
    SafeHasNoSlash(parts[|parts| - 1]);
  }

  lemma BaseOfLink(parts: seq<string>)
    requires 1 <= |parts| <= 2 && (|parts| == 2 ==> AllLow(parts[0]))
    ensures BaseOfPath(LinkTexts(parts)) == Some(BaseText(parts))
  {
    LowIsLower("lists");
    LowIsLower("users");
    LowIsLower(LinkTexts(parts)[0]);
    if |parts| == 2 {
      LowIsLower(parts[0]);
    }
  }

  lemma {:induction false} NonEmptyStay(texts: seq<string>)
    requires forall i :: 0 <= i < |texts| ==> texts[i] != ""
    ensures NonEmpty(texts) == texts
  {
    if texts != [] {
      NonEmptyStay(texts[1..]);
    }
  }

  lemma FirstIsEmpty(texts: seq<string>)
    ensures NonEmpty([""] + texts) == NonEmpty(texts)
  {
    assert ([""] + texts)[1..] == texts;
  }

  /** So is the printed link. */
  lemma TraktLinkReadAgain(ref: TraktRef)
    requires Good(ref)
    ensures ParseTrakt(TraktLink(ref)) == if Dotted(ref.query) then None else Some(ref)
    ensures Plain(TraktLink(ref)) && TraktLink(ref) != "" && LooksLikeUrl(TraktLink(ref))
  {
    BaseIsPlain(ref.parts);
    QueryTextIsPlain(ref.query);
    PlainUrl("trakt.tv", LinkPath(ref.parts), QueryText(ref.query));
    PrintedUrlParses("trakt.tv", LinkPath(ref.parts), QueryText(ref.query), TRAKT_HOSTS);
    LinkBase(ref.parts);
    RefReadAgain(ref);
  }

  // ---------- TMDB and MDBList, read again ----------

  lemma DigitsArePlain(s: string)
    requires AllDigits(s)
    ensures Plain(s) && ':' !in s && '/' !in s && '?' !in s && '#' !in s && AllLow(s)
  { }

  lemma TmdbResult(t: SourceType, value: string)
    requires NormalizeTmdb(t, value).Some?
    ensures AllDigits(NormalizeTmdb(t, value).value)
  { }

  lemma TmdbNumberReadAgain(t: SourceType, id: string)
    requires AllDigits(id)
    ensures NormalizeTmdb(t, id) == Some(id)
  {
    DigitsArePlain(id);
    NoColonNoUrl(id);
  }

  function TmdbPath(t: SourceType, id: string): string { "/" + Segment(t) + "/" + id }

  lemma TmdbPathReads(t: SourceType, id: string)
    requires AllDigits(id)
    ensures TmdbId(Segment(t), TmdbPath(t, id)) == Some(id)
  {
    var path, k := TmdbPath(t, id), |Segment(t)| + 2;
    assert path[..k] == "/" + Segment(t) + "/" && path[k..] == id;
    assert path[|path| - 1] == id[|id| - 1];
    LowIsLower("/" + Segment(t) + "/");
  }

  lemma LowerSecond(s: string)
    requires |s| >= 2 && IsLow(s[0]) && IsLow(s[1])
    ensures |Lower(s)| >= 2 && Lower(s)[1] == s[1]
  {
    assert Lower(s) == [s[0]] + ([s[1]] + Lower(s[1..][1..]));
  }

  /** A collection link is not taken for a list. */
  lemma CollectionIsNoList(id: string)
    requires AllDigits(id)
    ensures TmdbId("list", TmdbPath(TmdbCollection, id)) == None
  {
    var path := TmdbPath(TmdbCollection, id);
    assert path[|path| - 1] == id[|id| - 1] != '/';
    assert path[0] == '/' && path[1] == 'c';
    LowerSecond(path[..6]);
    assert ("/" + "list" + "/")[1] == 'l';
  }

  lemma SegmentPathIsPlain(prefix: string, id: string)
    requires Plain(prefix) && Plain(id) && '?' !in prefix && '#' !in prefix && '?' !in id && '#' !in id
    ensures Plain(prefix + id) && '?' !in prefix + id && '#' !in prefix + id
  { }

  /** The shapes of an accepted MDBList reference. */
  lemma MdblistResult(value: string)
    requires NormalizeMdblist(value).Some?
    ensures
      var r := NormalizeMdblist(value).value;
      SafeToken(r) || AllDigits(r) || (StartsWith(r, EXTERNAL) && AllDigits(r[9..]))
  {
    var r := NormalizeMdblist(value).value;
    if IsExternal(value) {
      assert r[9..] == value[9..];
    } else if !SafeToken(value) {
      var parts := NonEmpty(SplitOn(ParseProviderUrl(value, MDBLIST_HOSTS).value.path, '/'));
      MdblistIdShape(parts);
    }
  }

  lemma MdblistIdShape(parts: seq<string>)
    requires MdblistId(parts).Some?
    ensures AllDigits(MdblistId(parts).value) || (StartsWith(MdblistId(parts).value, EXTERNAL) && AllDigits(MdblistId(parts).value[9..]))
  {
    var r := MdblistId(parts).value;
    if StartsWith(r, EXTERNAL) && |r| > 9 {
      assert r == EXTERNAL + r[9..];
    }
    var s := if parts != [] && Lower(parts[|parts| - 1]) == "items" then parts[..|parts| - 1] else parts;
    if |s| == 3 {
      assert (EXTERNAL + s[2])[9..] == s[2];
    } else if |s| == 4 {
      assert (EXTERNAL + s[3])[9..] == s[3];
    }
  }

  lemma ExternalReadAgain(id: string)
    requires AllDigits(id)
    ensures NormalizeMdblist(EXTERNAL + id) == Some(EXTERNAL + id)
  {
    var r := EXTERNAL + id;
    assert r[..9] == EXTERNAL && r[9..] == id;
    LowIsLower(EXTERNAL);
  }

  lemma NotExternal(s: string)
    requires ':' !in s
    ensures !IsExternal(s)
  {
    if |s| > 9 {
      assert forall c :: c in s[..9] ==> c in s;
      LowerAddsNoColon(s[..9]);
      PrefixHas(EXTERNAL, Lower(s[..9]), ':');
    }
  }

  /** A number is read again only while it is short enough for a token. */
  lemma MdblistNumberReadAgain(id: string)
    requires AllDigits(id)
    ensures NormalizeMdblist(id) == if |id| <= 128 then Some(id) else None
  {
    DigitsArePlain(id);
    NotExternal(id);
    NoColonNoUrl(id);
    NotHttps(id);
  }

  lemma NotHttps(s: string)
    requires ':' !in s
    ensures forall hosts :: ParseProviderUrl(s, hosts) == None
  {
    if |s| >= 8 {
      assert forall c :: c in s[..8] ==> c in s;
      LowerAddsNoColon(s[..8]);
      PrefixHas("https://", Lower(s[..8]), ':');
    }
  }

  /** Slugs and short numbers are kept as they are. */
  lemma TokenReadAgain(r: string)
    requires SafeToken(r)
    ensures NormalizeMdblist(r) == Some(r)
  {
    SafeHasNoSlash(r);
    NotExternal(r);
  }

  function NumberTail(id: string): string { "list" + ['/'] + id }

  function ExternalTail(id: string): string { "external" + ['/'] + ListTail(id) }

  lemma MdblistPathTails(id: string)
    ensures "/list/" + id == "" + ['/'] + NumberTail(id)
    ensures "/external/lists/" + id == "" + ['/'] + ExternalTail(id)
  { }

  lemma AfterFirstSlash(texts: seq<string>)
    requires forall i :: 0 <= i < |texts| ==> texts[i] != ""
    ensures NonEmpty([""] + texts) == texts
  {
    FirstIsEmpty(texts);
    NonEmptyStay(texts);
  }

  lemma SplitTwo(a: string, b: string)
    requires '/' !in a && '/' !in b
    ensures SplitOn("" + ['/'] + (a + ['/'] + b), '/') == [""] + ([a] + [b])
  {
    SplitWhole(b, '/');
    SplitFirst(a, '/', b);
    SplitFirst("", '/', a + ['/'] + b);
  }

  lemma SplitThree(a: string, b: string, c: string)
    requires '/' !in a && '/' !in b && '/' !in c
    ensures SplitOn("" + ['/'] + (a + ['/'] + (b + ['/'] + c)), '/') == [""] + ([a] + ([b] + [c]))
  {
    SplitWhole(c, '/');
    SplitFirst(b, '/', c);
    SplitFirst(a, '/', b + ['/'] + c);
    SplitFirst("", '/', a + ['/'] + (b + ['/'] + c));
  }

  lemma TwoAfterSlash(a: string, b: string)
    requires '/' !in a && '/' !in b && a != "" && b != ""
    ensures NonEmpty(SplitOn("" + ['/'] + (a + ['/'] + b), '/')) == [a] + [b]
  {
    SplitTwo(a, b);
    AfterFirstSlash([a] + [b]);
  }

  lemma ThreeTexts(a: string, b: string, c: string)
    requires a != "" && b != "" && c != ""
    ensures NonEmpty([""] + ([a] + ([b] + [c]))) == [a] + ([b] + [c])
  {
    var texts := [a] + ([b] + [c]);
    assert texts[0] == a && texts[1] == b && texts[2] == c;
    AfterFirstSlash(texts);
  }

  lemma ThreeAfterSlash(a: string, b: string, c: string)
    requires '/' !in a && '/' !in b && '/' !in c && a != "" && b != "" && c != ""
    ensures NonEmpty(SplitOn("" + ['/'] + (a + ['/'] + (b + ['/'] + c)), '/')) == [a] + ([b] + [c])
  {
    SplitThree(a, b, c);
    ThreeTexts(a, b, c);
  }

  lemma NumberPathSplits(id: string)
    requires id != "" && '/' !in id
    ensures NonEmpty(SplitOn("/list/" + id, '/')) == ["list"] + [id]
  {
    MdblistPathTails(id);
    TwoAfterSlash("list", id);
  }

  lemma ExternalPathSplits(id: string)
    requires id != "" && '/' !in id
    ensures NonEmpty(SplitOn("/external/lists/" + id, '/')) == ["external"] + (["lists"] + [id])
  {
    MdblistPathTails(id);
    ThreeAfterSlash("external", "lists", id);
  }

  lemma KnownWords()
    ensures Lower("list") == "list" && Lower("lists") == "lists" && Lower("external") == "external"
  {
    LowIsLower("list");
    LowIsLower("lists");
    LowIsLower("external");
  }

  lemma NumberIsNoWord(id: string)
    requires AllDigits(id)
    ensures Lower(id) == id && id != "items" && id != "list" && id != "lists"
  {
    DigitsArePlain(id);
    LowIsLower(id);
    assert IsDigit(id[0]);
  }

  lemma NumberIdReads(id: string)
    requires id != ""
    ensures MdblistId(["list"] + [id]) == if AllDigits(id) then Some(id) else None
  {
    KnownWords();
    if AllDigits(id) {
      NumberIsNoWord(id);
    }
    TwoParts("list", id);
  }

  lemma TwoParts(a: string, id: string)
    requires Lower(a) == "list" && (AllDigits(id) ==> Lower(id) != "items")
    ensures MdblistId([a] + [id]) == if AllDigits(id) then Some(id) else None
  { }

  lemma ExternalIdReads(id: string)
    requires AllDigits(id)
    ensures MdblistId(["external"] + (["lists"] + [id])) == Some(EXTERNAL + id)
  {
    KnownWords();
    NumberIsNoWord(id);
    ThreeParts("external", "lists", id);
  }

  lemma ThreeParts(a: string, b: string, id: string)
    requires Lower(a) == "external" && Lower(b) == "lists" && AllDigits(id) && Lower(id) != "items"
    ensures MdblistId([a] + ([b] + [id])) == Some(EXTERNAL + id)
  {
    var s := [a] + ([b] + [id]);
    assert s[0] == a && s[1] == b && s[2] == id;
  }

  lemma LongTextIsNoReference(s: string)
    requires |s| > 5 && s[0] == 'h' && s[5] == ':'
    ensures !IsExternal(s) && !SafeToken(s)
  {
    if |s| > 9 {
      assert s[..9][0] == 'h';
      assert Lower(s[..9])[0] == 'h';
    }
    if SafeToken(s) {
      SafeHasNoSlash(s);
    }
  }

  /** The link printed for an MDBList reference. */
  lemma MdblistLinkReadAgain(path: string)
    requires Plain(path) && path != "" && path[0] == '/' && '?' !in path && '#' !in path
    ensures NormalizeMdblist(PrintUrl(MDBLIST, path, "")) == MdblistId(NonEmpty(SplitOn(path, '/')))
  {
    LinkIsNoReference(MDBLIST, path, "");
    Hosts();
    PrintedUrlParses(MDBLIST, path, "", MDBLIST_HOSTS);
    MdblistUrlReads(PrintUrl(MDBLIST, path, ""), path);
  }

  lemma MdblistUrlReads(link: string, path: string)
    requires !IsExternal(link) && !SafeToken(link) && ParseProviderUrl(link, MDBLIST_HOSTS) == Some(Location(path, ""))
    ensures NormalizeMdblist(link) == MdblistId(NonEmpty(SplitOn(path, '/')))
  { }

  lemma LinkIsNoReference(host: string, path: string, query: string)
    ensures !IsExternal(PrintUrl(host, path, query)) && !SafeToken(PrintUrl(host, path, query))
  {
    LongTextIsNoReference(PrintUrl(host, path, query));
  }

  // ---------- the guarantees ----------

  /** A reference the parser accepts a second time. */
  predicate Stable(t: SourceType, r: string) {
    match t
    case TraktList => COMBINING_DOT !in r
    case Mdblist => StartsWith(r, EXTERNAL) || |r| <= 128
    case _ => true
  }

  /** A reference whose printed link stands for it. */
  predicate Linkable(t: SourceType, r: string) {
    match t
    case TraktList => COMBINING_DOT !in r
    case Mdblist => StartsWith(r, EXTERNAL) || AllDigits(r)
    case _ => true
  }

  lemma DotInText(ref: TraktRef)
    requires Good(ref)
    ensures COMBINING_DOT in TraktText(ref) <==> Dotted(ref.query)
  {
    var base, query := BaseText(ref.parts), QueryText(ref.query);
    assert SafeToken(ref.parts[0]) && SafeToken(ref.parts[|ref.parts| - 1]);
    assert PathChars(base);
    assert COMBINING_DOT !in base;
    DotInQuery(ref.query);
    TargetHas(base, query, COMBINING_DOT);
  }

  lemma TargetHas(path: string, query: string, c: char)
    requires c != '?'
    ensures c in Target(path, query) <==> c in path || c in query
  {
    if c in path {
      var i :| 0 <= i < |path| && path[i] == c;
      assert Target(path, query)[i] == c;
    }
    if c in query {
      var i :| 0 <= i < |query| && query[i] == c;
      assert Target(path, query)[|path| + 1 + i] == c;
    }
  }

  lemma DotInQuery(q: Query)
    requires GoodQuery(q)
    ensures COMBINING_DOT in QueryText(q) <==> Dotted(q)
  {
    match q
    case NoQuery =>
    case Sort(order) =>
      var text := QueryText(q);
      assert text[|"sort="|..] == order && text == "sort=" + order;
    case By(pairs) =>
      NoDotInPair(pairs[0]);
      if |pairs| == 2 {
        NoDotInPair(pairs[1]);
      }
  }

  lemma NoDotInPair(pair: (string, string))
    requires GoodPair(pair)
    ensures COMBINING_DOT !in PairText(pair)
  {
    assert COMBINING_DOT !in pair.0 && COMBINING_DOT !in pair.1;
  }

  lemma TraktAgain(value: string)
    requires NormalizeTrakt(value).Some?
    ensures
      var r := NormalizeTrakt(value).value;
      && Normalize(TraktList, r) == (if COMBINING_DOT in r then None else Some(r))
      && var ref := ParseTrakt(value).value;
         Normalize(TraktList, TraktLink(ref)) == (if COMBINING_DOT in r then None else Some(r))
  {
    ParseTraktIsGood(value);
    var ref := ParseTrakt(value).value;
    DotInText(ref);
    TraktTextReadAgain(ref);
    PlainPasses(TraktText(ref));
    TraktLinkReadAgain(ref);
    PlainPasses(TraktLink(ref));
  }

  lemma MdblistAgain(r: string)
    requires SafeToken(r) || AllDigits(r) || (StartsWith(r, EXTERNAL) && AllDigits(r[9..]))
    ensures Normalize(Mdblist, r) == if Stable(Mdblist, r) then Some(r) else None
  {
    if StartsWith(r, EXTERNAL) && AllDigits(r[9..]) {
      DigitsArePlain(r[9..]);
      assert r == EXTERNAL + r[9..];
      PlainPasses(r);
      ExternalReadAgain(r[9..]);
    } else if SafeToken(r) {
      PlainPasses(r);
      TokenReadAgain(r);
    } else {
      DigitsArePlain(r);
      PlainPasses(r);
      MdblistNumberReadAgain(r);
      assert r[0] != 'e';
    }
  }

  /** An accepted value is accepted again, unchanged, exactly when it is stable; the
      others are refused the second time. */
  lemma NormalizeIsIdempotentExactly(t: SourceType, source: string)
    ensures
      var r := Normalize(t, source);
      r.Some? ==> Normalize(t, r.value) == if Stable(t, r.value) then r else None
  {
    var value := Strip(source);
    if Normalize(t, source).Some? {
      var r := Normalize(t, source).value;
      match t
      case TraktList => TraktAgain(value);
      case Mdblist =>
        MdblistResult(value);
        MdblistAgain(r);
      case _ =>
        TmdbResult(t, value);
        DigitsArePlain(r);
        PlainPasses(r);
        TmdbNumberReadAgain(t, r);
    }
  }

  lemma Hosts()
    ensures PlainHost(TRAKT) && PlainHost(TMDB) && PlainHost(MDBLIST)
    ensures TRAKT in TRAKT_HOSTS && TRAKT !in TMDB_HOSTS && TRAKT !in MDBLIST_HOSTS
    ensures TMDB !in TRAKT_HOSTS && TMDB in TMDB_HOSTS && MDBLIST !in TRAKT_HOSTS && MDBLIST !in TMDB_HOSTS && MDBLIST in MDBLIST_HOSTS
  { }

  /** What each reading of a plain URL comes to. */
  lemma Reading(t: SourceType, link: string)
    requires Plain(link) && link != ""
    ensures Normalize(t, link) ==
      match t
      case TraktList => NormalizeTrakt(link)
      case Mdblist => NormalizeMdblist(link)
      case _ => NormalizeTmdb(t, link)
  {
    PlainPasses(link);
  }

  /** Detection takes the first type that accepts. */
  lemma FirstAccepting(link: string)
    requires Plain(link) && link != "" && LooksLikeUrl(link)
    ensures Detect(link) ==
      if Normalize(TraktList, link).Some? then Some(TraktList)
      else if Normalize(TmdbList, link).Some? then Some(TmdbList)
      else if Normalize(TmdbCollection, link).Some? then Some(TmdbCollection)
      else if Normalize(Mdblist, link).Some? then Some(Mdblist)
      else None
  {
    PlainPasses(link);
  }

  lemma RefusedByTrakt(host: string, path: string, query: string)
    requires PlainHost(host) && host !in TRAKT_HOSTS && path != "" && path[0] == '/' && Plain(PrintUrl(host, path, query))
    ensures Normalize(TraktList, PrintUrl(host, path, query)) == None
  {
    PrintedUrlSplits(host, path, query);
    OtherHostsRefuse(host, path, query, TRAKT_HOSTS);
    Reading(TraktList, PrintUrl(host, path, query));
  }

  lemma RefusedByTmdb(t: SourceType, host: string, path: string, query: string)
    requires t == TmdbList || t == TmdbCollection
    requires PlainHost(host) && host !in TMDB_HOSTS && path != "" && path[0] == '/' && Plain(PrintUrl(host, path, query))
    ensures Normalize(t, PrintUrl(host, path, query)) == None
  {
    PrintedUrlSplits(host, path, query);
    OtherHostsRefuse(host, path, query, TMDB_HOSTS);
    Reading(t, PrintUrl(host, path, query));
  }

  lemma RefusedByMdblist(host: string, path: string, query: string)
    requires PlainHost(host) && host !in MDBLIST_HOSTS && path != "" && path[0] == '/' && Plain(PrintUrl(host, path, query))
    ensures Normalize(Mdblist, PrintUrl(host, path, query)) == None
  {
    OtherHostsRefuse(host, path, query, MDBLIST_HOSTS);
    LinkIsNoReference(host, path, query);
    NoMdblist(PrintUrl(host, path, query));
    Reading(Mdblist, PrintUrl(host, path, query));
  }

  lemma NoMdblist(link: string)
    requires !IsExternal(link) && !SafeToken(link) && ParseProviderUrl(link, MDBLIST_HOSTS) == None
    ensures NormalizeMdblist(link) == None
  { }

  lemma TmdbReads(t: SourceType, path: string)
    requires t == TmdbList || t == TmdbCollection
    requires path != "" && path[0] == '/' && '?' !in path && '#' !in path && Plain(PrintUrl(TMDB, path, ""))
    ensures Normalize(t, PrintUrl(TMDB, path, "")) == TmdbId(Segment(t), path)
  {
    Hosts();
    PrintedUrlParses(TMDB, path, "", TMDB_HOSTS);
    Reading(t, PrintUrl(TMDB, path, ""));
  }

  lemma TmdbPathIsPlain(t: SourceType, id: string)
    requires AllDigits(id)
    ensures var path := TmdbPath(t, id); Plain(path) && path != "" && path[0] == '/' && '?' !in path && '#' !in path
  {
    DigitsArePlain(id);
    SegmentPathIsPlain("/" + Segment(t) + "/", id);
  }

  lemma PlainLink(host: string, path: string, query: string)
    requires PlainHost(host) && Plain(path) && Plain(query) && path != "" && path[0] == '/'
    ensures var link := PrintUrl(host, path, query); Plain(link) && link != "" && LooksLikeUrl(link)
  {
    PlainUrl(host, path, query);
    PrintedUrlSplits(host, path, query);
  }

  lemma TmdbReadings(path: string, link: string)
    requires Plain(path) && path != "" && path[0] == '/' && '?' !in path && '#' !in path && link == PrintUrl(TMDB, path, "")
    ensures Normalize(TmdbList, link) == TmdbId("list", path) && Normalize(TmdbCollection, link) == TmdbId("collection", path)
    ensures Detect(link) ==
      if TmdbId("list", path).Some? then Some(TmdbList)
      else if TmdbId("collection", path).Some? then Some(TmdbCollection)
      else Detect(link)
  {
    Hosts();
    PlainLink(TMDB, path, "");
    RefusedByTrakt(TMDB, path, "");
    TmdbReads(TmdbList, path);
    TmdbReads(TmdbCollection, path);
    FirstAccepting(link);
  }

  lemma TmdbLink(t: SourceType, id: string)
    requires (t == TmdbList || t == TmdbCollection) && AllDigits(id)
    ensures
      var link := PrintUrl(TMDB, TmdbPath(t, id), "");
      Normalize(t, link) == Some(id) && Detect(link) == Some(t)
  {
    TmdbPathIsPlain(t, id);
    TmdbReadings(TmdbPath(t, id), PrintUrl(TMDB, TmdbPath(t, id), ""));
    TmdbPathReads(t, id);
    if t == TmdbCollection {
      CollectionIsNoList(id);
    }
  }

  lemma MdblistReadings(path: string, link: string)
    requires Plain(path) && path != "" && path[0] == '/' && '?' !in path && '#' !in path && link == PrintUrl(MDBLIST, path, "")
    ensures Normalize(Mdblist, link) == NormalizeMdblist(link)
    ensures Detect(link) == if Normalize(Mdblist, link).Some? then Some(Mdblist) else None
  {
    Hosts();
    PlainLink(MDBLIST, path, "");
    RefusedByTrakt(MDBLIST, path, "");
    RefusedByTmdb(TmdbList, MDBLIST, path, "");
    RefusedByTmdb(TmdbCollection, MDBLIST, path, "");
    FirstAccepting(link);
    Reading(Mdblist, link);
  }

  lemma MdblistLink(path: string)
    requires Plain(path) && path != "" && path[0] == '/' && '?' !in path && '#' !in path
    ensures
      var link := PrintUrl(MDBLIST, path, "");
      var id := MdblistId(NonEmpty(SplitOn(path, '/')));
      Normalize(Mdblist, link) == id && Detect(link) == if id.Some? then Some(Mdblist) else None
  {
    MdblistReadings(path, PrintUrl(MDBLIST, path, ""));
    MdblistLinkReadAgain(path);
  }

  lemma ExternalLink(id: string)
    requires AllDigits(id)
    ensures
      var link := PrintUrl(MDBLIST, "/external/lists/" + id, "");
      Normalize(Mdblist, link) == Some(EXTERNAL + id) && Detect(link) == Some(Mdblist)
  {
    DigitsArePlain(id);
    SegmentPathIsPlain("/external/lists/", id);
    MdblistLink("/external/lists/" + id);
    ExternalPathSplits(id);
    ExternalIdReads(id);
  }

  lemma NumberLink(r: string)
    requires SafeToken(r) || AllDigits(r)
    ensures
      var link := PrintUrl(MDBLIST, "/list/" + r, "");
      && Normalize(Mdblist, link) == (if AllDigits(r) then Some(r) else None)
      && Detect(link) == (if AllDigits(r) then Some(Mdblist) else None)
  {
    TokenOrDigits(r);
    SegmentPathIsPlain("/list/", r);
    MdblistLink("/list/" + r);
    NumberPathSplits(r);
    NumberIdReads(r);
  }

  lemma MdblistLinks(r: string)
    requires SafeToken(r) || AllDigits(r) || (StartsWith(r, EXTERNAL) && AllDigits(r[9..]))
    ensures
      var link := if StartsWith(r, EXTERNAL) then PrintUrl(MDBLIST, "/external/lists/" + r[9..], "")
                  else PrintUrl(MDBLIST, "/list/" + r, "");
      && Normalize(Mdblist, link) == (if Linkable(Mdblist, r) then Some(r) else None)
      && Detect(link) == (if Linkable(Mdblist, r) then Some(Mdblist) else None)
  {
    ExternalOrNot(r);
    if StartsWith(r, EXTERNAL) {
      ExternalLink(r[9..]);
    } else {
      NumberLink(r);
    }
  }

  lemma ExternalOrNot(r: string)
    requires SafeToken(r) || AllDigits(r) || (StartsWith(r, EXTERNAL) && AllDigits(r[9..]))
    ensures if StartsWith(r, EXTERNAL) then AllDigits(r[9..]) && r == EXTERNAL + r[9..] else SafeToken(r) || AllDigits(r)
  {
    PrefixHas(EXTERNAL, r, ':');
    if SafeToken(r) {
      SafeHasNoSlash(r);
    } else if AllDigits(r) {
      DigitsArePlain(r);
    }
  }

  lemma TokenOrDigits(r: string)
    requires SafeToken(r) || AllDigits(r)
    ensures Plain(r) && r != "" && '/' !in r && '?' !in r && '#' !in r && ':' !in r
  { }

  lemma TraktDetected(ref: TraktRef)
    requires Good(ref)
    ensures Detect(TraktLink(ref)) == if Dotted(ref.query) then None else Some(TraktList)
  {
    BaseIsPlain(ref.parts);
    TraktLinkReadAgain(ref);
    TraktReadings(LinkPath(ref.parts), QueryText(ref.query), TraktLink(ref));
    Reading(TraktList, TraktLink(ref));
  }

  lemma TraktReadings(path: string, query: string, link: string)
    requires path != "" && path[0] == '/' && link == PrintUrl(TRAKT, path, query) && Plain(link) && link != "" && LooksLikeUrl(link)
    ensures Detect(link) == if Normalize(TraktList, link).Some? then Some(TraktList) else None
  {
    Hosts();
    RefusedByTmdb(TmdbList, TRAKT, path, query);
    RefusedByTmdb(TmdbCollection, TRAKT, path, query);
    RefusedByMdblist(TRAKT, path, query);
    FirstAccepting(link);
  }

  /** The printed link leads back to the reference, and to its own provider, exactly for
      the linkable ones: every TMDB id, every external or numeric MDBList id, every Trakt
      list whose sort order holds no combining dot. */
  lemma LinkRoundTripsExactly(t: SourceType, source: string)
    ensures
      var r := Normalize(t, source);
      r.Some? ==>
        && Normalize(t, BuildLink(t, source)) == (if Linkable(t, r.value) then r else None)
        && Detect(BuildLink(t, source)) == (if Linkable(t, r.value) then Some(t) else None)
  {
    var value := Strip(source);
    if Normalize(t, source).Some? {
      var r := Normalize(t, source).value;
      match t
      case TraktList => TraktRoundTrip(source);
      case Mdblist =>
        MdblistResult(value);
        MdblistUrlIs(r);
        MdblistLinks(r);
      case _ =>
        TmdbResult(t, value);
        TmdbLink(t, r);
        TmdbPathIs(r);
    }
  }

  lemma TmdbPathIs(id: string)
    ensures TmdbPath(TmdbList, id) == "/list/" + id && TmdbPath(TmdbCollection, id) == "/collection/" + id
  { }

  lemma TraktRoundTrip(source: string)
    ensures
      var r := Normalize(TraktList, source);
      r.Some? ==>
        && Normalize(TraktList, BuildLink(TraktList, source)) == (if COMBINING_DOT in r.value then None else r)
        && Detect(BuildLink(TraktList, source)) == (if COMBINING_DOT in r.value then None else Some(TraktList))
  {
    var value := Strip(source);
    if Normalize(TraktList, source).Some? {
      TraktAgain(value);
      ParseTraktIsGood(value);
      DotInText(ParseTrakt(value).value);
      TraktUrlIsLink(ParseTrakt(value).value);
      TraktDetected(ParseTrakt(value).value);
    }
  }

  const DOTTED_QUERY := "sort=%C4%B0"

  /** A list with a query is accepted as the query is. */
  lemma EntryTakesQuery(list: string, q: string)
    requires SafeToken(list) && Plain(q) && q != "" && ':' !in q
    ensures Strip(list + "?" + q) == list + "?" + q && !HasControl(list + "?" + q)
    ensures ParseTrakt(list + "?" + q) == if ParseQuery(q).Some? then Some(TraktRef([list], ParseQuery(q).value)) else None
  {
    SafeHasNoSlash(list);
    TokenOrDigits(list);
    TextTakenApart(list, q);
    PlainPasses(Target(list, q));
    SplitWhole(list, '/');
  }

  /** The query is one the entry lets through. */
  lemma DottedIsPlain(q: string)
    requires q == DOTTED_QUERY
    ensures Plain(q) && q != "" && ':' !in q
  { }

  /** The text a list with this query is normalized to is refused. */
  lemma DottedListIsRefused(list: string, q: string)
    requires SafeToken(list) && q == DOTTED_QUERY
    ensures
      var r := TraktText(TraktRef([list], Sort(['i', COMBINING_DOT])));
      Normalize(TraktList, list + "?" + q) == Some(r) && Normalize(TraktList, r) == None
  {
    var ref := TraktRef([list], Sort(['i', COMBINING_DOT]));
    DottedSortIsAccepted();
    DottedIsPlain(q);
    EntryTakesQuery(list, q);
    DottedOrder();
    assert Good(ref) && Dotted(ref.query);
    TraktTextReadAgain(ref);
    PlainPasses(TraktText(ref));
  }

  /** Neither family is empty: a number too long for a token is accepted from a URL, and
      any list with a percent-encoded dotted capital I as its sort order is accepted, the
      letter being lowered to two characters; what they are normalized to is refused. */
  lemma UnstableReferences(id: string, list: string, q: string)
    requires AllDigits(id) && |id| > 128 && SafeToken(list) && q == DOTTED_QUERY
    ensures
      && Normalize(Mdblist, PrintUrl(MDBLIST, "/list/" + id, "")) == Some(id)
      && Normalize(Mdblist, id) == None
    ensures
      var r := Normalize(TraktList, list + "?" + q);
      r.Some? && COMBINING_DOT in r.value && Normalize(TraktList, r.value) == None
  {
    MdblistLinks(id);
    MdblistAgain(id);
    DottedListIsRefused(list, q);
    DotInText(TraktRef([list], Sort(['i', COMBINING_DOT])));
  }

  lemma DottedSortIsAccepted()
    ensures ParseQuery("sort=%C4%B0") == Some(Sort(['i', COMBINING_DOT]))
    ensures ParseQuery(QueryText(Sort(['i', COMBINING_DOT]))) == None
  {
    DottedPair();
    OnePair("sort=%C4%B0");
    DottedOrder();
    QueryReadAgain(Sort(['i', COMBINING_DOT]));
  }

  lemma DottedEscape()
    ensures Unquote("%C4%B0") == [DOTTED_CAPITAL_I]
  {
    var escaped := "%C4%B0";
    assert EscapedByte(escaped) == Some(0xC4);
    assert escaped[3..] == "%B0" && EscapedByte("%B0") == Some(0xB0);
    assert [0xC4, 0xB0][1..] == [0xB0] && [0xB0][1..] == [];
    assert Escapes("%B0", [0xB0]);
    assert Escapes(escaped, [0xC4, 0xB0]);
    assert escaped[6..] == "";
  }

  lemma DottedPair()
    ensures Pair("sort=%C4%B0") == Some(("sort", [DOTTED_CAPITAL_I]))
    ensures '&' !in "sort=%C4%B0"
  {
    DottedText();
    NothingToUnquote("sort");
    DottedValue();
    PairFromParts("sort", "%C4%B0", "sort", [DOTTED_CAPITAL_I]);
  }

  lemma DottedText()
    ensures "sort=%C4%B0" == "sort" + "=" + "%C4%B0" && '&' !in "sort=%C4%B0"
  { }

  lemma PairFromParts(name: string, value: string, n: string, v: string)
    requires '=' !in name && Unquote(PlusToSpace(name)) == n && Unquote(PlusToSpace(value)) == v
    ensures Pair(name + "=" + value) == Some((n, v))
  {
    PairOfText(name, value);
  }

  lemma DottedValue()
    ensures Unquote(PlusToSpace("%C4%B0")) == [DOTTED_CAPITAL_I]
  {
    assert PlusToSpace("%C4%B0") == "%C4%B0";
    DottedEscape();
  }

  lemma PairOfText(name: string, value: string)
    requires '=' !in name
    ensures Pair(name + "=" + value) == Some((Unquote(PlusToSpace(name)), Unquote(PlusToSpace(value))))
  {
    var text := name + "=" + value;
    FindIs(text, '=', |name|);
    assert text[..|name|] == name && text[|name| + 1..] == value;
  }

  lemma DottedOrder()
    ensures SortShape([DOTTED_CAPITAL_I], false) && Lower([DOTTED_CAPITAL_I]) == ['i', COMBINING_DOT]
    ensures SortShape(['i', COMBINING_DOT], true) && AllLow(['i', COMBINING_DOT])
  {
    var order := [DOTTED_CAPITAL_I];
    FindIs(order, ',', 1);
    assert order[1..] == "";
    FindIs(['i', COMBINING_DOT], ',', 2);
  }
}
