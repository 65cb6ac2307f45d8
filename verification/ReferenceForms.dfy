/** Which references are accepted and what they stand for, form by form, from the text a
    user pastes. */
module ReferenceForms {

  import opened Common
  import opened ProviderUrls
  import opened SourceReferences
  import opened Text
  import opened TraktReferences

  // ---------- paths ----------

  /** A path without empty parts: /first/second and so on. */
  function PathOf(parts: seq<string>): string
    requires parts != []
  {
    "" + ['/'] + JoinOn(parts, '/')
  }

  /** What may stand between two slashes of a pasted link. */
  predicate PathPart(s: string) { s != "" && Plain(s) && '/' !in s && '?' !in s && '#' !in s && '%' !in s }

  lemma {:induction false} JoinedIsPlain(parts: seq<string>)
    requires parts != [] && forall i :: 0 <= i < |parts| ==> PathPart(parts[i])
    ensures NoMark(JoinOn(parts, '/'))
  {
    assert PathPart(parts[0]);
    if |parts| > 1 {
      JoinedIsPlain(parts[1..]);
      JoinIsPlain(parts[0], JoinOn(parts[1..], '/'));
    }
  }

  predicate NoMark(s: string) { Plain(s) && '?' !in s && '#' !in s }

  lemma JoinIsPlain(a: string, b: string)
    requires NoMark(a) && NoMark(b)
    ensures NoMark(a + ['/'] + b)
  { }

  lemma PathSplits(parts: seq<string>)
    requires parts != [] && forall i :: 0 <= i < |parts| ==> PathPart(parts[i])
    ensures NonEmpty(SplitOn(PathOf(parts), '/')) == parts
    ensures PathOf(parts)[0] == '/' && Plain(PathOf(parts)) && '?' !in PathOf(parts) && '#' !in PathOf(parts)
  {
    JoinedSplits(parts, '/');
    JoinedIsPlain(parts);
    SplitFirst("", '/', JoinOn(parts, '/'));
    FirstIsEmpty(parts);
    NonEmptyStay(parts);
  }

  // ---------- MDBList ----------

  /** The path patterns: # is a number, * any user. */
  const EXTERNAL_FORMS: seq<seq<string>> := [["external", "lists", "#"], ["lists", "*", "external", "#"]]
  const LIST_FORMS: seq<seq<string>> := [["list", "#"], ["lists", "#"]]

  predicate Matches(form: seq<string>, parts: seq<string>) {
    |form| == |parts| && forall i :: 0 <= i < |form| ==>
      (form[i] == "#" ==> AllDigits(parts[i])) && (form[i] != "#" && form[i] != "*" ==> Lower(parts[i]) == form[i])
  }

  /** With "items" behind it or not. */
  predicate Fits(form: seq<string>, parts: seq<string>) {
    Matches(form, parts) || (|parts| == |form| + 1 && Matches(form, parts[..|form|]) && Lower(parts[|form|]) == "items")
  }

  lemma DigitsAreNoItems(s: string)
    requires AllDigits(s)
    ensures Lower(s) != "items" && Lower(s) == s
  {
    DigitsArePlain(s);
    LowIsLower(s);
  }

  lemma Wildcards()
    ensures forall w :: w in ["external", "lists", "list"] ==> w != "#" && w != "*"
    ensures "#" != "*"
  { }

  /** A pattern spelled out, */
  lemma MatchesNumber(word: string, form: seq<string>, parts: seq<string>)
    requires form == [word, "#"] && word != "#" && word != "*"
    ensures Matches(form, parts) <==> |parts| == 2 && Lower(parts[0]) == word && AllDigits(parts[1])
  {
    assert form[0] == word && form[1] == "#";
  }

  lemma MatchesExternal(form: seq<string>, parts: seq<string>)
    requires form == ["external", "lists", "#"]
    ensures Matches(form, parts) <==> |parts| == 3 && Lower(parts[0]) == "external" && Lower(parts[1]) == "lists" && AllDigits(parts[2])
  {
    Wildcards();
    assert form[0] == "external" && form[1] == "lists" && form[2] == "#";
  }

  lemma MatchesUser(form: seq<string>, parts: seq<string>)
    requires form == ["lists", "*", "external", "#"]
    ensures Matches(form, parts) <==> |parts| == 4 && Lower(parts[0]) == "lists" && Lower(parts[2]) == "external" && AllDigits(parts[3])
  {
    Wildcards();
    assert form[0] == "lists" && form[1] == "*" && form[2] == "external" && form[3] == "#";
  }

  predicate MdblistForm(form: seq<string>) { form in EXTERNAL_FORMS || form in LIST_FORMS }

  lemma FormEndsInNumber(form: seq<string>, parts: seq<string>)
    requires MdblistForm(form) && Matches(form, parts)
    ensures parts != [] && AllDigits(parts[|parts| - 1])
  {
    assert form[|form| - 1] == "#";
  }

  /** One of the two kinds of lists, behind any of its patterns, without "items". */
  lemma MdblistIdOfForm(parts: seq<string>)
    requires parts != [] && Lower(parts[|parts| - 1]) != "items"
    ensures (exists form :: form in EXTERNAL_FORMS && Matches(form, parts)) ==> MdblistId(parts) == Some("external:" + parts[|parts| - 1])
    ensures (exists form :: form in LIST_FORMS && Matches(form, parts)) ==> MdblistId(parts) == Some(parts[|parts| - 1])
    ensures (forall form :: MdblistForm(form) ==> !Matches(form, parts)) ==> MdblistId(parts) == None
  {
    var a, b, c, d := EXTERNAL_FORMS[0], EXTERNAL_FORMS[1], LIST_FORMS[0], LIST_FORMS[1];
    MatchesExternal(a, parts);
    MatchesUser(b, parts);
    MatchesNumber("list", c, parts);
    MatchesNumber("lists", d, parts);
    assert MdblistForm(a) && MdblistForm(b) && MdblistForm(c) && MdblistForm(d);
    assert forall form :: form in EXTERNAL_FORMS ==> form == a || form == b;
    assert forall form :: form in LIST_FORMS ==> form == c || form == d;
  }

  lemma ItemsAreDropped(parts: seq<string>)
    requires parts != [] && Lower(parts[|parts| - 1]) == "items"
    requires |parts| > 1 && Lower(parts[|parts| - 2]) != "items"
    ensures MdblistId(parts) == MdblistId(parts[..|parts| - 1])
  { }

  lemma FittingIsRead(form: seq<string>, parts: seq<string>)
    requires MdblistForm(form) && Fits(form, parts)
    ensures form in EXTERNAL_FORMS ==> MdblistId(parts) == Some("external:" + parts[|form| - 1])
    ensures form in LIST_FORMS ==> MdblistId(parts) == Some(parts[|form| - 1])
  {
    if Matches(form, parts) {
      FormEndsInNumber(form, parts);
      DigitsAreNoItems(parts[|parts| - 1]);
      MdblistIdOfForm(parts);
    } else {
      var s := parts[..|form|];
      FormEndsInNumber(form, s);
      DigitsAreNoItems(s[|s| - 1]);
      ItemsAreDropped(parts);
      MdblistIdOfForm(s);
    }
  }

  lemma UnfittingIsRefused(parts: seq<string>)
    requires forall form :: MdblistForm(form) ==> !Fits(form, parts)
    ensures MdblistId(parts) == None
  {
    if parts != [] && Lower(parts[|parts| - 1]) == "items" {
      var s := parts[..|parts| - 1];
      if s != [] && Lower(s[|s| - 1]) != "items" {
        ItemsAreDropped(parts);
        forall form | MdblistForm(form) ensures !Matches(form, s) {
          assert !Fits(form, parts);
          assert |form| == |s| ==> parts[..|form|] == s;
        }
        MdblistIdOfForm(s);
      } else if s != [] {
        if AllDigits(s[|s| - 1]) { DigitsAreNoItems(s[|s| - 1]); }
      }
    } else if parts != [] {
      forall form | MdblistForm(form) ensures !Matches(form, parts) {
        assert !Fits(form, parts);
      }
      MdblistIdOfForm(parts);
    }
  }

  predicate PathParted(parts: seq<string>) { parts != [] && forall i :: 0 <= i < |parts| ==> PathPart(parts[i]) }

  lemma MdblistUrlIsItsParts(host: string, parts: seq<string>)
    requires PlainHost(host) && host in MDBLIST_HOSTS && PathParted(parts)
    ensures Normalize(Mdblist, PrintUrl(host, PathOf(parts), "")) == MdblistId(parts)
  {
    PathSplits(parts);
    MdblistUrlIsItsPath(host, PathOf(parts));
  }

  lemma MdblistUrlIsItsPath(host: string, path: string)
    requires PlainHost(host) && host in MDBLIST_HOSTS
    requires path != "" && path[0] == '/' && Plain(path) && '?' !in path && '#' !in path
    ensures Normalize(Mdblist, PrintUrl(host, path, "")) == MdblistId(NonEmpty(SplitOn(path, '/')))
  {
    PlainLink(host, path, "");
    LinkIsNoReference(host, path, "");
    PrintedUrlParses(host, path, "", MDBLIST_HOSTS);
    MdblistUrlReads(PrintUrl(host, path, ""), path);
    Reading(Mdblist, PrintUrl(host, path, ""));
  }

  /** A link to MDBList stands for an external list or a list by its number, exactly when
      its path has one of the patterns. */
  lemma MdblistLinkExactly(host: string, parts: seq<string>)
    requires PlainHost(host) && host in MDBLIST_HOSTS && PathParted(parts)
    ensures
      var id := Normalize(Mdblist, PrintUrl(host, PathOf(parts), ""));
      && (forall form :: form in EXTERNAL_FORMS && Fits(form, parts) ==> id == Some("external:" + parts[|form| - 1]))
      && (forall form :: form in LIST_FORMS && Fits(form, parts) ==> id == Some(parts[|form| - 1]))
      && ((forall form :: MdblistForm(form) ==> !Fits(form, parts)) ==> id == None)
  {
    MdblistUrlIsItsParts(host, parts);
    forall form | MdblistForm(form) && Fits(form, parts)
      ensures form in EXTERNAL_FORMS ==> MdblistId(parts) == Some("external:" + parts[|form| - 1])
      ensures form in LIST_FORMS ==> MdblistId(parts) == Some(parts[|form| - 1])
    {
      FittingIsRead(form, parts);
    }
    if forall form :: MdblistForm(form) ==> !Fits(form, parts) {
      UnfittingIsRefused(parts);
    }
  }

  /** The links people paste: the external list of a user, and a list by its number. */
  lemma MdblistLinks(user: string, id: string)
    requires PathPart(user) && AllDigits(id)
    ensures Normalize(Mdblist, PrintUrl(MDBLIST, "/lists/" + user + "/external/" + id, "")) == Some("external:" + id)
    ensures Normalize(Mdblist, PrintUrl(MDBLIST, "/lists/" + user + "/external/" + id + "/items", "")) == Some("external:" + id)
    ensures Normalize(Mdblist, PrintUrl(MDBLIST, "/lists/" + id, "")) == Some(id)
    ensures Normalize(Mdblist, PrintUrl(MDBLIST, "/lists/" + id + "/items", "")) == Some(id)
  {
    UserLink("lists", user, "external", id);
    UserPath(user, id);
    NumberLinks("lists", id);
    NumberPath(id);
  }

  lemma IdIsPart(id: string)
    requires AllDigits(id)
    ensures PathPart(id)
  {
    DigitsArePlain(id);
  }

  predicate Letters(w: string) { w != "" && forall i :: 0 <= i < |w| ==> 'a' <= w[i] <= 'z' }

  lemma WordIsPart(w: string)
    requires Letters(w)
    ensures PathPart(w) && Lower(w) == w
  {
    LowIsLower(w);
  }

  lemma PathWords()
    ensures Letters("lists") && Letters("external") && Letters("items")
  { }

  lemma UserLink(lists: string, user: string, external: string, id: string)
    requires lists == "lists" && external == "external" && PathPart(user) && AllDigits(id)
    ensures Normalize(Mdblist, PrintUrl(MDBLIST, PathOf([lists, user, external, id]), "")) == Some(EXTERNAL + id)
    ensures Normalize(Mdblist, PrintUrl(MDBLIST, PathOf([lists, user, external, id, "items"]), "")) == Some(EXTERNAL + id)
  {
    var parts := [lists, user, external, id];
    UserFits(lists, user, external, id);
    assert parts + ["items"] == [lists, user, external, id, "items"];
    WithAndWithoutItems(EXTERNAL_FORMS[1], parts);
  }

  lemma UserFits(lists: string, user: string, external: string, id: string)
    requires lists == "lists" && external == "external" && PathPart(user) && AllDigits(id)
    ensures Matches(EXTERNAL_FORMS[1], [lists, user, external, id]) && PathParted([lists, user, external, id])
  {
    PathWords();
    WordIsPart(lists);
    WordIsPart(external);
    IdIsPart(id);
    FourAreParts(lists, user, external, id);
    MatchesUser(EXTERNAL_FORMS[1], [lists, user, external, id]);
  }

  lemma FourAreParts(a: string, b: string, c: string, d: string)
    requires PathPart(a) && PathPart(b) && PathPart(c) && PathPart(d)
    ensures PathParted([a, b, c, d])
  { }

  lemma NumberLinks(lists: string, id: string)
    requires lists == "lists" && AllDigits(id)
    ensures Normalize(Mdblist, PrintUrl(MDBLIST, PathOf([lists, id]), "")) == Some(id)
    ensures Normalize(Mdblist, PrintUrl(MDBLIST, PathOf([lists, id, "items"]), "")) == Some(id)
  {
    PathWords();
    WordIsPart(lists);
    IdIsPart(id);
    Wildcards();
    MatchesNumber(lists, LIST_FORMS[1], [lists, id]);
    assert [lists, id] + ["items"] == [lists, id, "items"];
    WithAndWithoutItems(LIST_FORMS[1], [lists, id]);
  }

  lemma WithAndWithoutItems(form: seq<string>, parts: seq<string>)
    requires MdblistForm(form) && Matches(form, parts) && PathParted(parts)
    ensures
      var a, b, id := PrintUrl(MDBLIST, PathOf(parts), ""), PrintUrl(MDBLIST, PathOf(parts + ["items"]), ""), parts[|form| - 1];
      && (form in EXTERNAL_FORMS ==> Normalize(Mdblist, a) == Normalize(Mdblist, b) == Some(EXTERNAL + id))
      && (form in LIST_FORMS ==> Normalize(Mdblist, a) == Normalize(Mdblist, b) == Some(id))
  {
    PathWords();
    WordIsPart("items");
    Hosts();
    assert (parts + ["items"])[..|form|] == parts;
    FormIsRead(form, parts);
    FormIsRead(form, parts + ["items"]);
  }

  lemma FormIsRead(form: seq<string>, parts: seq<string>)
    requires MdblistForm(form) && Fits(form, parts) && PathParted(parts) && PlainHost(MDBLIST)
    ensures form in EXTERNAL_FORMS ==> Normalize(Mdblist, PrintUrl(MDBLIST, PathOf(parts), "")) == Some(EXTERNAL + parts[|form| - 1])
    ensures form in LIST_FORMS ==> Normalize(Mdblist, PrintUrl(MDBLIST, PathOf(parts), "")) == Some(parts[|form| - 1])
  {
    MdblistUrlIsItsParts(MDBLIST, parts);
    FittingIsRead(form, parts);
  }

  lemma UserPath(user: string, id: string)
    ensures PathOf(["lists", user, "external", id]) == "/lists/" + user + "/external/" + id
    ensures PathOf(["lists", user, "external", id, "items"]) == "/lists/" + user + "/external/" + id + "/items"
  {
    FourParts("lists", user, "external", id);
    FiveParts("lists", user, "external", id, "items");
    assert "/" + ("lists" + ("/" + (user + ("/" + ("external" + ("/" + id)))))) == "/lists/" + user + "/external/" + id;
    assert "/" + ("lists" + ("/" + (user + ("/" + ("external" + ("/" + (id + ("/" + "items")))))))) == "/lists/" + user + "/external/" + id + "/items";
  }

  lemma NumberPath(id: string)
    ensures PathOf(["lists", id]) == "/lists/" + id
    ensures PathOf(["lists", id, "items"]) == "/lists/" + id + "/items"
  {
    TwoJoined("lists", id);
    ThreeJoined("lists", id, "items");
    assert "/" + ("lists" + ("/" + id)) == "/lists/" + id;
    assert "/" + ("lists" + ("/" + (id + ("/" + "items")))) == "/lists/" + id + "/items";
  }

  lemma TwoJoined(a: string, b: string)
    ensures JoinOn([a, b], '/') == a + ("/" + b)
  {
    assert [a, b][1..] == [b] && JoinOn([b], '/') == b;
    Reassociated(a, b);
  }

  lemma Reassociated(a: string, b: string)
    ensures a + ['/'] + b == a + ("/" + b)
  { }

  lemma ThreeJoined(a: string, b: string, c: string)
    ensures JoinOn([a, b, c], '/') == a + ("/" + (b + ("/" + c)))
  {
    assert [a, b, c][1..] == [b, c];
    TwoJoined(b, c);
    Reassociated(a, JoinOn([b, c], '/'));
  }

  lemma FourParts(a: string, b: string, c: string, d: string)
    ensures JoinOn([a, b, c, d], '/') == a + ("/" + (b + ("/" + (c + ("/" + d)))))
  {
    assert [a, b, c, d][1..] == [b, c, d];
    ThreeJoined(b, c, d);
    Reassociated(a, JoinOn([b, c, d], '/'));
  }

  lemma FiveParts(a: string, b: string, c: string, d: string, e: string)
    ensures JoinOn([a, b, c, d, e], '/') == a + ("/" + (b + ("/" + (c + ("/" + (d + ("/" + e)))))))
  {
    assert [a, b, c, d, e][1..] == [b, c, d, e];
    FourParts(b, c, d, e);
    Reassociated(a, JoinOn([b, c, d, e], '/'));
  }

  lemma {:induction false} EmptyIsDropped(a: seq<string>, b: seq<string>)
    ensures NonEmpty(a + [""] + b) == NonEmpty(a + b)
  {
    if a == [] {
      assert [] + [""] + b == [""] + b && [] + b == b;
      FirstIsEmpty(b);
    } else {
      EmptyIsDropped(a[1..], b);
      assert (a + [""] + b)[1..] == a[1..] + [""] + b && (a + b)[1..] == a[1..] + b;
    }
  }

  lemma SlashesAreDropped(path: string, more: string)
    ensures NonEmpty(SplitOn(path + ['/'] + ("" + ['/'] + more), '/')) == NonEmpty(SplitOn(path + ['/'] + more, '/'))
    ensures NonEmpty(SplitOn(path + ['/'] + "", '/')) == NonEmpty(SplitOn(path, '/'))
  {
    SplitAtSeparator(path, '/', more);
    SplitAtSeparator(path, '/', "" + ['/'] + more);
    SplitFirst("", '/', more);
    SplitAtSeparator(path, '/', "");
    SplitWhole("", '/');
    DropBetween(SplitOn(path, '/'), SplitOn(more, '/'));
  }

  lemma DropBetween(a: seq<string>, b: seq<string>)
    ensures NonEmpty(a + ([""] + b)) == NonEmpty(a + b) && NonEmpty(a + [""]) == NonEmpty(a)
  {
    EmptyIsDropped(a, b);
    EmptyIsDropped(a, []);
    assert a + ([""] + b) == a + [""] + b && a + [""] + [] == a + [""] && a + [] == a;
  }

  predicate Rooted(path: string) { path != "" && path[0] == '/' && NoMark(path) }

  lemma RootedJoin(path: string, more: string)
    requires Rooted(path) && NoMark(more)
    ensures Rooted(path + ['/'] + more)
  {
    JoinIsPlain(path, more);
  }

  lemma SlashTexts(path: string, more: string)
    ensures path + "/" + more == path + ['/'] + more && path + "/" == path + ['/'] + ""
    ensures path + "//" + more == path + ['/'] + ("" + ['/'] + more)
  { }

  /** A doubled slash changes nothing, and neither does one at the end. */
  lemma SlashesDoNotMatter(host: string, path: string, more: string)
    requires PlainHost(host) && host in MDBLIST_HOSTS && Rooted(path) && NoMark(more)
    ensures Normalize(Mdblist, PrintUrl(host, path + "//" + more, "")) == Normalize(Mdblist, PrintUrl(host, path + "/" + more, ""))
    ensures Normalize(Mdblist, PrintUrl(host, path + "/", "")) == Normalize(Mdblist, PrintUrl(host, path, ""))
  {
    SlashTexts(path, more);
    SlashesAreDropped(path, more);
    JoinIsPlain("", more);
    SameNonEmptyParts(host, path + ['/'] + more, path + ['/'] + ("" + ['/'] + more)) by {
      RootedJoin(path, more);
      RootedJoin(path, "" + ['/'] + more);
    }
    SameNonEmptyParts(host, path, path + ['/'] + "") by {
      RootedJoin(path, "");
    }
  }

  lemma SameNonEmptyParts(host: string, a: string, b: string)
    requires PlainHost(host) && host in MDBLIST_HOSTS && Rooted(a) && Rooted(b)
    requires NonEmpty(SplitOn(a, '/')) == NonEmpty(SplitOn(b, '/'))
    ensures Normalize(Mdblist, PrintUrl(host, a, "")) == Normalize(Mdblist, PrintUrl(host, b, ""))
  {
    MdblistUrlIsItsPath(host, a);
    MdblistUrlIsItsPath(host, b);
  }

  // ---------- TMDB ----------

  /** A list or collection link, its word in any case, with a slash behind it or not; a
      query is refused. */
  lemma TmdbForms(t: SourceType, host: string, word: string, id: string, query: string)
    requires t == TmdbList || t == TmdbCollection
    requires PlainHost(host) && host in TMDB_HOSTS && AllDigits(id) && Plain(query) && '#' !in query
    requires SafeToken(word) && Lower(word) == if t == TmdbList then "list" else "collection"
    ensures Normalize(t, PrintUrl(host, "/" + word + "/" + id, query)) == if query == "" then Some(id) else None
    ensures Normalize(t, PrintUrl(host, "/" + word + "/" + id + "/", query)) == if query == "" then Some(id) else None
  {
    TmdbFormIsRooted(word, id);
    TmdbIdReads(Segment(t), word, id);
    TmdbUrlReads(t, host, "/" + word + "/" + id, query);
    TmdbUrlReads(t, host, "/" + word + "/" + id + "/", query);
  }

  lemma TmdbFormIsRooted(word: string, id: string)
    requires SafeToken(word) && AllDigits(id)
    ensures Rooted("/" + word + "/" + id) && Rooted("/" + word + "/" + id + "/")
  { }

  lemma TmdbIdReads(segment: string, word: string, id: string)
    requires SafeToken(word) && Lower(word) == segment && AllDigits(id)
    ensures TmdbId(segment, "/" + word + "/" + id) == Some(id) && TmdbId(segment, "/" + word + "/" + id + "/") == Some(id)
  {
    SegmentInFront(segment, word);
    ReadsFront(segment, "/" + word + "/", id);
  }

  lemma SegmentInFront(segment: string, word: string)
    requires SafeToken(word) && Lower(word) == segment
    ensures Lower("/" + word + "/") == "/" + segment + "/" && |word| == |segment|
  {
    LowerOfSafe(word);
    LowerOfConcat("/" + word, "/");
    LowerOfConcat("/", word);
    assert Lower("/") == "/";
  }

  lemma ReadsFront(segment: string, front: string, id: string)
    requires Lower(front) == "/" + segment + "/" && |front| == |segment| + 2 && AllDigits(id)
    ensures TmdbId(segment, front + id) == Some(id) && TmdbId(segment, front + id + "/") == Some(id)
  {
    ReadsBody(segment, front + id, front, id);
    ReadsBody(segment, front + id + "/", front, id);
  }

  lemma ReadsBody(segment: string, path: string, front: string, id: string)
    requires Lower(front) == "/" + segment + "/" && |front| == |segment| + 2 && AllDigits(id)
    requires path == front + id || path == front + id + "/"
    ensures TmdbId(segment, path) == Some(id)
  {
    var body := if path[|path| - 1] == '/' then path[..|path| - 1] else path;
    BodyOf(path, front, id);
    assert body[..|front|] == front && body[|front|..] == id;
  }

  lemma BodyOf(path: string, front: string, id: string)
    requires AllDigits(id) && (path == front + id || path == front + id + "/")
    ensures path != "" && (if path[|path| - 1] == '/' then path[..|path| - 1] else path) == front + id
  {
    assert IsDigit(id[|id| - 1]);
  }

  lemma TmdbUrlReads(t: SourceType, host: string, path: string, query: string)
    requires t == TmdbList || t == TmdbCollection
    requires PlainHost(host) && host in TMDB_HOSTS && Rooted(path) && Plain(query) && '#' !in query
    ensures Normalize(t, PrintUrl(host, path, query)) == if query == "" then TmdbId(Segment(t), path) else None
  {
    PlainLink(host, path, query);
    PrintedUrlParses(host, path, query, TMDB_HOSTS);
    Reading(t, PrintUrl(host, path, query));
  }

  // ---------- Trakt ----------

  /** The user is lowered, the list is not, in the short form and in a link. */
  lemma TraktForms(host: string, user: string, list: string)
    requires PlainHost(host) && host in TRAKT_HOSTS && SafeToken(user) && SafeToken(list)
    ensures Normalize(TraktList, list) == Some(list)
    ensures Normalize(TraktList, user + "/" + list) == Some(Lower(user) + "/" + list)
    ensures Normalize(TraktList, PrintUrl(host, PathOf(["lists", list]), "")) == Some(list)
    ensures Normalize(TraktList, PrintUrl(host, PathOf(["users", user, "lists", list]), "")) == Some(Lower(user) + "/" + list)
  {
    ShortTrakt([list], "");
    ShortTrakt([user, list], "");
    ListLink(host, "lists", list);
    UserListLink(host, "users", user, "lists", list);
  }

  lemma ListLink(host: string, lists: string, list: string)
    requires PlainHost(host) && host in TRAKT_HOSTS && SafeToken(list) && lists == "lists"
    ensures Normalize(TraktList, PrintUrl(host, PathOf([lists, list]), "")) == Some(list)
  {
    SafeIsPart(list);
    PathWords();
    WordIsPart(lists);
    TraktUrlIsItsParts(host, [lists, list], "");
    BaseIsRead(PrintUrl(host, PathOf([lists, list]), ""), [list]);
  }

  lemma UserListLink(host: string, users: string, user: string, lists: string, list: string)
    requires PlainHost(host) && host in TRAKT_HOSTS && SafeToken(user) && SafeToken(list) && users == "users" && lists == "lists"
    ensures Normalize(TraktList, PrintUrl(host, PathOf([users, user, lists, list]), "")) == Some(Lower(user) + "/" + list)
  {
    UserParts(users, user, lists, list);
    TraktUrlIsItsParts(host, [users, user, lists, list], "");
    UserBase(users, user, lists, list);
    LoweredTwice(user);
    BaseIsRead(PrintUrl(host, PathOf([users, user, lists, list]), ""), [Lower(user), list]);
  }

  lemma BaseIsRead(value: string, parts: seq<string>)
    requires SafeParts(parts) && ParseTrakt(value) == RefOf(BaseText(parts), "")
    ensures NormalizeTrakt(value) == Some(Canonical(parts, NoQuery))
  {
    RefOfParts(parts, "");
  }

  lemma UserParts(users: string, user: string, lists: string, list: string)
    requires SafeToken(user) && SafeToken(list) && users == "users" && lists == "lists"
    ensures PathParted([users, user, lists, list]) && Lower(users) == "users" && Lower(lists) == "lists"
  {
    SafeIsPart(user);
    SafeIsPart(list);
    PathWords();
    WordIsPart(lists);
    UsersIsPart();
    FourAreParts(users, user, lists, list);
  }

  lemma UserBase(users: string, user: string, lists: string, list: string)
    requires Lower(users) == "users" && Lower(lists) == "lists"
    ensures BaseOfPath([users, user, lists, list]) == Some(BaseText([Lower(user), list]))
  { }

  lemma UsersIsPart()
    ensures PathPart("users") && Lower("users") == "users"
  {
    assert Letters("users");
    WordIsPart("users");
  }

  lemma SafeIsPart(s: string)
    requires SafeToken(s)
    ensures PathPart(s)
  {
    SafeHasNoSlash(s);
  }

  lemma LoweredTwice(user: string)
    requires SafeToken(user)
    ensures SafeToken(Lower(user)) && Lower(Lower(user)) == Lower(user)
  {
    LowerOfSafe(user);
    LowerIsLow(user);
    LowIsLower(Lower(user));
  }

  /** The canonical text of an accepted base and query. */
  function Canonical(parts: seq<string>, q: Query): string
    requires 1 <= |parts| <= 2
  {
    Target(if |parts| == 1 then parts[0] else Lower(parts[0]) + "/" + parts[1], QueryText(q))
  }

  predicate SafeParts(parts: seq<string>) { 1 <= |parts| <= 2 && forall i :: 0 <= i < |parts| ==> SafeToken(parts[i]) }

  lemma RefOfParts(parts: seq<string>, query: string)
    requires SafeParts(parts)
    ensures RefOf(BaseText(parts), query).Some? <==> ParseQuery(query).Some?
    ensures ParseQuery(query).Some? ==>
      var ref := RefOf(BaseText(parts), query).value;
      1 <= |ref.parts| <= 2 && TraktText(ref) == Canonical(parts, ParseQuery(query).value)
  {
    BaseSplits(parts);
  }

  lemma ShortTrakt(parts: seq<string>, query: string)
    requires SafeParts(parts) && Plain(query) && ':' !in query
    ensures Normalize(TraktList, Target(BaseText(parts), query)) ==
      if ParseQuery(query).Some? then Some(Canonical(parts, ParseQuery(query).value)) else None
  {
    BaseIsPlain(parts);
    TextTakenApart(BaseText(parts), query);
    Reading(TraktList, Target(BaseText(parts), query));
    RefOfParts(parts, query);
  }

  lemma TraktUrlIsItsParts(host: string, parts: seq<string>, query: string)
    requires PlainHost(host) && host in TRAKT_HOSTS && PathParted(parts) && Plain(query) && '#' !in query
    ensures
      var base := BaseOfPath(parts);
      ParseTrakt(PrintUrl(host, PathOf(parts), query)) == (if base.None? then None else RefOf(base.value, query))
    ensures Normalize(TraktList, PrintUrl(host, PathOf(parts), query)) == NormalizeTrakt(PrintUrl(host, PathOf(parts), query))
  {
    var path := PathOf(parts);
    JoinedSplits(parts, '/');
    PathSplits(parts);
    SplitFirst("", '/', JoinOn(parts, '/'));
    PathPartsOfPlain([""] + parts);
    PlainLink(host, path, query);
    PrintedUrlParses(host, path, query, TRAKT_HOSTS);
    Reading(TraktList, PrintUrl(host, path, query));
  }

  /** The query behind a list: the value of a sort order is lowered, and so are those of
      sort_by and sort_how, in the order given. */
  lemma TraktQueries(list: string, word: string, how: string)
    requires SafeToken(list) && AllWord(word) && AllWord(how) && (Lower(how) == "asc" || Lower(how) == "desc")
    ensures Normalize(TraktList, Target(list, PairText(("sort", word)))) == Some(Target(list, PairText(("sort", Lower(word)))))
    ensures Normalize(TraktList, Target(list, PairText(("sort_by", word)))) == Some(Target(list, PairText(("sort_by", Lower(word)))))
    ensures Normalize(TraktList, Target(list, PairText(("sort_how", how)))) == Some(Target(list, PairText(("sort_how", Lower(how)))))
    ensures Normalize(TraktList, Target(list, PairText(("sort_by", word)) + "&" + PairText(("sort_how", how)))) ==
              Some(Target(list, PairText(("sort_by", Lower(word))) + "&" + PairText(("sort_how", Lower(how)))))
  {
    SortIsRead("sort", word);
    OrderingIsRead("sort_by", word);
    OrderingIsRead("sort_how", how);
    BothAreRead(("sort_by", word), ("sort_how", how));
    QueryAtList(list, PairText(("sort", word)));
    QueryAtList(list, PairText(("sort_by", word)));
    QueryAtList(list, PairText(("sort_how", how)));
    QueryAtList(list, PairText(("sort_by", word)) + "&" + PairText(("sort_how", how)));
  }

  predicate QueryPlain(q: string) { Plain(q) && ':' !in q }

  lemma QueryAtList(list: string, query: string)
    requires SafeToken(list) && QueryPlain(query) && ParseQuery(query).Some?
    ensures Normalize(TraktList, Target(list, query)) == Some(Target(list, QueryText(ParseQuery(query).value)))
  {
    ShortTrakt([list], query);
  }

  lemma WordChars(word: string)
    requires AllWord(word)
    ensures QueryChars(word)
  { }

  lemma SortIsRead(sort: string, word: string)
    requires sort == "sort" && AllWord(word)
    ensures ParseQuery(PairText((sort, word))) == Some(Sort(Lower(word))) && QueryPlain(PairText((sort, word)))
  {
    WordChars(word);
    PairReads(sort, word);
    PairTextChars(sort, word);
    QueryTextCharsArePlain(PairText((sort, word)));
    OnePair(PairText((sort, word)));
    FindIs(word, ',', |word|);
  }

  lemma OrderingIsRead(name: string, value: string)
    requires (name == "sort_by" || (name == "sort_how" && Lower(value) in ["asc", "desc"])) && AllWord(value)
    ensures ParseQuery(PairText((name, value))) == Some(By([(name, Lower(value))])) && QueryPlain(PairText((name, value)))
  {
    NamedPair(name, value);
    QueryTextCharsArePlain(PairText((name, value)));
    OnePair(PairText((name, value)));
  }

  lemma BothAreRead(a: (string, string), b: (string, string))
    requires a.0 == "sort_by" && b.0 == "sort_how" && AllWord(a.1) && AllWord(b.1) && Lower(b.1) in ["asc", "desc"]
    ensures ParseQuery(PairText(a) + "&" + PairText(b)) == Some(By([(a.0, Lower(a.1)), (b.0, Lower(b.1))]))
    ensures QueryPlain(PairText(a) + "&" + PairText(b))
  {
    NamedPair(a.0, a.1);
    NamedPair(b.0, b.1);
    JoinedTextChars(PairText(a), PairText(b));
    QueryTextCharsArePlain(PairText(a) + "&" + PairText(b));
    TwoPairs(PairText(a), PairText(b));
    BothOrdered(a, b);
  }

  lemma NamedPair(name: string, value: string)
    requires (name == "sort_by" || name == "sort_how") && AllWord(value)
    ensures Pair(PairText((name, value))) == Some((name, value)) && '&' !in PairText((name, value))
    ensures QueryTextChars(PairText((name, value)))
  {
    WordChars(value);
    assert AllWord(name);
    WordChars(name);
    PairReads(name, value);
    PairTextChars(name, value);
  }

  lemma BothOrdered(a: (string, string), b: (string, string))
    requires a.0 == "sort_by" && b.0 == "sort_how" && AllWord(a.1) && Lower(b.1) in ["asc", "desc"]
    ensures QueryOf([a, b]) == Some(By([(a.0, Lower(a.1)), (b.0, Lower(b.1))]))
  {
    assert a.0 != b.0;
  }

  // ---------- printing ----------

  /** The links that are printed. */
  lemma PrintedLinks(id: string, user: string, list: string)
    requires AllDigits(id) && SafeToken(user) && AllLow(user) && SafeToken(list)
    ensures BuildLink(TmdbList, id) == PrintUrl("www.themoviedb.org", "/list/" + id, "")
    ensures BuildLink(TmdbCollection, id) == PrintUrl("www.themoviedb.org", "/collection/" + id, "")
    ensures BuildLink(Mdblist, "external:" + id) == PrintUrl("mdblist.com", "/external/lists/" + id, "")
    ensures BuildLink(TraktList, list) == PrintUrl("trakt.tv", "/lists/" + list, "")
    ensures BuildLink(TraktList, user + "/" + list) == PrintUrl("trakt.tv", "/users/" + user + "/lists/" + list, "")
  {
    NumberIsItself(TmdbList, id);
    NumberIsItself(TmdbCollection, id);
    ExternalPrinted(id);
    TraktPrinted([list]);
    TraktPrinted([user, list]);
  }

  lemma ExternalPrinted(id: string)
    requires AllDigits(id)
    ensures BuildLink(Mdblist, "external:" + id) == PrintUrl("mdblist.com", "/external/lists/" + id, "")
  {
    ExternalIsItself(id);
    MdblistUrlIs("external:" + id);
  }

  lemma TraktPrinted(parts: seq<string>)
    requires SafeParts(parts) && (|parts| == 2 ==> AllLow(parts[0]))
    ensures BuildLink(TraktList, BaseText(parts)) == PrintUrl("trakt.tv", LinkPath(parts), "")
  {
    var base := BaseText(parts);
    BaseIsItself(parts);
    BaseIsPlain(parts);
    assert Target(base, "") == base && Target(BaseUrl(base), "") == BaseUrl(base);
    UrlOfTarget(base, "");
    BaseUrlIs(parts);
    assert BuildLink(TraktList, base) == TraktUrl(base);
  }

  lemma BaseIsItself(parts: seq<string>)
    requires SafeParts(parts) && (|parts| == 2 ==> AllLow(parts[0]))
    ensures Normalize(TraktList, BaseText(parts)) == Some(BaseText(parts))
  {
    ShortTrakt(parts, "");
    if |parts| == 2 {
      LowIsLower(parts[0]);
    }
  }

  lemma NumberIsItself(t: SourceType, id: string)
    requires (t == TmdbList || t == TmdbCollection) && AllDigits(id)
    ensures Normalize(t, id) == Some(id)
  {
    DigitsArePlain(id);
    Reading(t, id);
    TmdbNumberReadAgain(t, id);
  }

  lemma ExternalIsItself(id: string)
    requires AllDigits(id)
    ensures Normalize(Mdblist, "external:" + id) == Some("external:" + id)
    ensures StartsWith("external:" + id, EXTERNAL) && ("external:" + id)[9..] == id
  {
    MdblistAgain("external:" + id);
  }
}
