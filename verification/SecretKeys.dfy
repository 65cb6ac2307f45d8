/** Which keys of a settings document name a secret. Keys are ASCII. */
module SecretKeys {

  import opened Text

  predicate IsLowerOrDigit(c: char) { 'a' <= c <= 'z' || IsDigit(c) }

  function UpperChar(c: char): char { if 'a' <= c <= 'z' then (c as int - 32) as char else c }

  function Upper(s: string): (r: string) ensures |r| == |s| { seq(|s|, i requires 0 <= i < |s| => UpperChar(s[i])) }

  /** An underscore between a lower-case letter or digit and the capital after it. */
  function Snake(s: string): string {
    if |s| < 2 then s
    else [s[0]] + (if IsLowerOrDigit(s[0]) && IsUpper(s[1]) then "_" else "") + Snake(s[1..])
  }

  /** Every run of other characters becomes one underscore. */
  function Squeeze(s: string): string {
    if s == "" then ""
    else if IsLowerOrDigit(s[0]) then [s[0]] + Squeeze(s[1..])
    else
      var rest := Squeeze(s[1..]);
      if rest != "" && rest[0] == '_' then rest else "_" + rest
  }

  function TrimUnderscores(s: string): string {
    if s != "" && s[0] == '_' then TrimUnderscores(s[1..])
    else if s != "" && s[|s| - 1] == '_' then TrimUnderscores(s[..|s| - 1])
    else s
  }

  /** `_normalized_key` */
  function Normalized(key: string): string { TrimUnderscores(Squeeze(Lower(Snake(key)))) }

  function Compact(s: string): string {
    if s == "" then "" else (if s[0] == '_' then "" else [s[0]]) + Compact(s[1..])
  }

  predicate EndsWith(s: string, suffix: string) { |suffix| <= |s| && s[|s| - |suffix|..] == suffix }

  const NAMES := ["api_key", "api_keys", "credential", "password", "passwd", "private_key", "secret", "token"]

  const COMPACT_NAMES := ["accesstoken", "apikey", "clientsecret", "privatekey", "refreshtoken", "sslpassword"]

  predicate EndsInName(normalized: string) {
    normalized in NAMES || exists i :: 0 <= i < |NAMES| && EndsWith(normalized, "_" + NAMES[i])
  }

  /** `_is_sensitive_key` */
  predicate Sensitive(key: string) {
    var normalized := Normalized(key);
    && Upper(key) != "EVENT_BRIDGE_CREDENTIALS"
    && !EndsWith(normalized, "_configured")
    && (EndsInName(normalized) || Compact(normalized) in COMPACT_NAMES)
  }

  // ---------- every spelling of a key ----------

  /** A word: lower-case letters and digits. */
  predicate IsWordText(w: string) { w != "" && forall i :: 0 <= i < |w| ==> IsLowerOrDigit(w[i]) }

  predicate Boundary(a: char, b: char) { IsLowerOrDigit(a) && IsUpper(b) }

  /** A word as it may be written, "key", "Key" or "KEY": no capital behind a small letter. */
  predicate Writes(t: string) {
    t != "" && (forall i :: 0 <= i < |t| ==> IsLowerOrDigit(t[i]) || IsUpper(t[i]))
    && forall i :: 0 < i < |t| ==> !Boundary(t[i - 1], t[i])
  }

  /** What else may stand between two words. */
  predicate Separator(s: string) { forall i :: 0 <= i < |s| ==> !IsLowerOrDigit(s[i]) && IsLow(s[i]) }

  datatype Piece = Piece(gap: string, text: string)

  /** The pieces behind a text: a separator, or none where a capital follows a small letter. */
  predicate Follows(before: string, pieces: seq<Piece>)
    requires before != ""
    decreases |pieces|
  {
    pieces != [] ==>
      && Writes(pieces[0].text) && Separator(pieces[0].gap)
      && (pieces[0].gap == "" ==> Boundary(before[|before| - 1], pieces[0].text[0]))
      && Follows(pieces[0].text, pieces[1..])
  }

  function Spell(pieces: seq<Piece>): string { if pieces == [] then "" else pieces[0].gap + (pieces[0].text + Spell(pieces[1..])) }

  function Words(pieces: seq<Piece>): seq<string> { if pieces == [] then [] else [Lower(pieces[0].text)] + Words(pieces[1..]) }

  lemma {:induction false} SnakeJoin(a: string, b: string)
    requires a != "" && b != ""
    ensures Snake(a + b) == Snake(a) + (if Boundary(a[|a| - 1], b[0]) then "_" else "") + Snake(b)
  {
    if |a| > 1 {
      var end, front := if Boundary(a[|a| - 1], b[0]) then "_" else "", [a[0]] + if Boundary(a[0], a[1]) then "_" else "";
      SnakeJoin(a[1..], b);
      assert a == [a[0]] + a[1..] && a + b == [a[0]] + (a[1..] + b);
      SnakeStep(a[0], a[1..]);
      SnakeStep(a[0], a[1..] + b);
      Regrouped4(front, Snake(a[1..]), end, Snake(b));
    } else {
      assert a == [a[0]] && Snake(a) == a;
      SnakeStep(a[0], b);
    }
  }

  lemma SnakeStep(c: char, s: string)
    requires s != ""
    ensures Snake([c] + s) == [c] + (if Boundary(c, s[0]) then "_" else "") + Snake(s)
  {
    assert ([c] + s)[1..] == s;
  }

  lemma Regrouped4(a: string, b: string, c: string, d: string)
    ensures a + (b + c + d) == a + b + c + d
  { }

  lemma {:induction false} SnakeSame(t: string)
    requires forall i :: 0 < i < |t| ==> !Boundary(t[i - 1], t[i])
    ensures Snake(t) == t
  {
    if |t| >= 2 {
      assert !Boundary(t[0], t[1]);
      forall i | 0 < i < |t[1..]| ensures !Boundary(t[1..][i - 1], t[1..][i]) {
        assert !Boundary(t[i], t[i + 1]);
      }
      SnakeSame(t[1..]);
    }
  }

  lemma {:induction false} SqueezeWord(w: string, rest: string)
    requires forall i :: 0 <= i < |w| ==> IsLowerOrDigit(w[i])
    ensures Squeeze(w + rest) == w + Squeeze(rest)
  {
    if w == "" {
      assert w + rest == rest;
    } else {
      SqueezeWord(w[1..], rest);
      assert (w + rest)[1..] == w[1..] + rest;
    }
  }

  lemma {:induction false} SqueezeGap(gap: string, rest: string)
    requires gap != "" && (forall i :: 0 <= i < |gap| ==> !IsLowerOrDigit(gap[i])) && (rest == "" || IsLowerOrDigit(rest[0]))
    ensures Squeeze(gap + rest) == "_" + Squeeze(rest)
  {
    assert (gap + rest)[1..] == gap[1..] + rest;
    if |gap| > 1 {
      SqueezeGap(gap[1..], rest);
    } else {
      assert gap[1..] + rest == rest;
      assert rest != "" ==> Squeeze(rest)[0] == rest[0];
    }
  }

  lemma {:induction false} LowerOfWritten(t: string)
    requires forall i :: 0 <= i < |t| ==> IsLowerOrDigit(t[i]) || IsUpper(t[i])
    ensures |Lower(t)| == |t| && forall i :: 0 <= i < |t| ==> IsLowerOrDigit(Lower(t)[i])
  {
    if t != "" {
      LowerOfWritten(t[1..]);
      assert IsLowerOrDigit(t[0]) || IsUpper(t[0]);
    }
  }

  function Behind(words: seq<string>): string { if words == [] then "" else "_" + (words[0] + Behind(words[1..])) }

  function Flat(key: string): string { Squeeze(Lower(Snake(key))) }

  /** A written word in front of the rest of a key. */
  lemma FlatOfWord(t: string, rest: string)
    requires Writes(t) && (rest != "" ==> !Boundary(t[|t| - 1], rest[0]))
    ensures Flat(t + rest) == Lower(t) + Flat(rest)
  {
    SnakeSame(t);
    LowerOfWritten(t);
    if rest != "" {
      SnakeJoin(t, rest);
      assert t + "" == t;
    } else {
      assert t + rest == t;
      SqueezeWord(Lower(t), "");
      assert Lower(t) + "" == Lower(t);
    }
    LowerOfConcat(t, Snake(rest));
    SqueezeWord(Lower(t), Lower(Snake(rest)));
  }

  /** The same with a capital behind it, */
  lemma FlatAtBoundary(t: string, rest: string)
    requires Writes(t) && rest != "" && Boundary(t[|t| - 1], rest[0]) && Flat(rest) != "" && Lower(Snake(rest)) != "" && IsLowerOrDigit(Lower(Snake(rest))[0])
    ensures Flat(t + rest) == Lower(t) + ("_" + Flat(rest))
  {
    SnakeSame(t);
    LowerOfWritten(t);
    SnakeJoin(t, rest);
    LowerWithUnderscore(t, Snake(rest));
    SqueezeWord(Lower(t), "_" + Lower(Snake(rest)));
    SqueezeGap("_", Lower(Snake(rest)));
  }

  lemma LowerWithUnderscore(a: string, b: string)
    ensures Lower(a + "_" + b) == Lower(a) + ("_" + Lower(b))
  {
    LowerOfConcat(a + "_", b);
    LowerOfConcat(a, "_");
    assert Lower("_") == "_";
    Appended(Lower(a), "_", "", Lower(b));
    assert "_" + "" == "_" && "" + Lower(b) == Lower(b);
  }

  /** and with separators. */
  lemma FlatOfGap(gap: string, rest: string)
    requires gap != "" && Separator(gap) && (rest == "" || (Lower(Snake(rest)) != "" && IsLowerOrDigit(Lower(Snake(rest))[0])))
    ensures Flat(gap + rest) == "_" + Flat(rest)
  {
    SnakeSame(gap);
    LowIsLower(gap);
    if rest != "" {
      SnakeJoin(gap, rest);
      assert gap + "" == gap;
    } else {
      assert gap + rest == gap && gap + "" == gap;
    }
    LowerOfConcat(gap, Snake(rest));
    SqueezeGap(gap, Lower(Snake(rest)));
  }

  lemma StartsLow(t: string, rest: string)
    requires Writes(t)
    ensures Lower(Snake(t + rest)) != "" && IsLowerOrDigit(Lower(Snake(t + rest))[0])
  {
    assert (t + rest)[0] == t[0];
    SnakeFirst(t + rest);
    LowerFirst(Snake(t + rest));
  }

  lemma SnakeFirst(key: string)
    requires key != ""
    ensures Snake(key) != "" && Snake(key)[0] == key[0]
  { }

  lemma LowerFirst(s: string)
    requires s != ""
    ensures Lower(s) != "" && Lower(s)[0] == LowerOne(s[0])[0]
  { }

  lemma {:induction false} FlatOfPieces(before: string, pieces: seq<Piece>, tail: string)
    requires Writes(before) && Follows(before, pieces) && Separator(tail)
    ensures Flat(before + (Spell(pieces) + tail)) == Lower(before) + (Behind(Words(pieces)) + if tail == "" then "" else "_")
    decreases |pieces|
  {
    if pieces == [] {
      assert Spell(pieces) + tail == tail && Words(pieces) == [];
      FlatOfEnd(before, tail);
    } else {
      FlatOfPieces(pieces[0].text, pieces[1..], tail);
      LowerOfWritten(pieces[0].text);
      var end := if tail == "" then "" else "_";
      Unfolded(pieces, tail, end);
      PieceInFront(before, pieces[0].gap, pieces[0].text, Spell(pieces[1..]) + tail, Behind(Words(pieces[1..])) + end);
    }
  }

  lemma FlatOfEnd(before: string, tail: string)
    requires Writes(before) && Separator(tail)
    ensures Flat(before + tail) == Lower(before) + (Behind([]) + if tail == "" then "" else "_")
  {
    FlatOfWord(before, tail);
    if tail != "" {
      FlatOfGap(tail, "");
      assert tail + "" == tail;
    }
  }

  lemma Unfolded(pieces: seq<Piece>, tail: string, end: string)
    requires pieces != []
    ensures Spell(pieces) + tail == pieces[0].gap + (pieces[0].text + (Spell(pieces[1..]) + tail))
    ensures Behind(Words(pieces)) + end == "_" + (Lower(pieces[0].text) + (Behind(Words(pieces[1..])) + end))
  {
    assert Words(pieces)[1..] == Words(pieces[1..]) && Words(pieces)[0] == Lower(pieces[0].text);
    Appended(pieces[0].gap, pieces[0].text, Spell(pieces[1..]), tail);
    Appended("_", Lower(pieces[0].text), Behind(Words(pieces[1..])), end);
  }

  lemma Appended(a: string, b: string, c: string, d: string)
    ensures (a + (b + c)) + d == a + (b + (c + d))
  { }

  lemma PieceInFront(before: string, gap: string, text: string, rest: string, done: string)
    requires Writes(before) && Writes(text) && Separator(gap) && (gap == "" ==> Boundary(before[|before| - 1], text[0]))
    requires Flat(text + rest) == Lower(text) + done && |Lower(text)| == |text|
    ensures Flat(before + (gap + (text + rest))) == Lower(before) + ("_" + (Lower(text) + done))
  {
    StartsLow(text, rest);
    if gap == "" {
      assert gap + (text + rest) == text + rest;
      FlatAtBoundary(before, text + rest);
    } else {
      FlatOfWord(before, gap + (text + rest));
      FlatOfGap(gap, text + rest);
    }
  }

  /** However a key is spelled, separators at its ends included, it is normalised to its
      words in lower case with an underscore between them. */
  lemma NormalizedIsItsWords(lead: string, first: string, pieces: seq<Piece>, tail: string)
    requires Separator(lead) && Writes(first) && Follows(first, pieces) && Separator(tail)
    ensures Normalized(lead + (first + (Spell(pieces) + tail))) == JoinOn([Lower(first)] + Words(pieces), '_')
  {
    var words := [Lower(first)] + Words(pieces);
    FlatOfKey(lead, first, pieces, tail);
    LowerOfWritten(first);
    LowerWords(first, pieces);
    JoinedEnds(words);
    Trimmed(JoinOn(words, '_'));
  }

  lemma FlatOfKey(lead: string, first: string, pieces: seq<Piece>, tail: string)
    requires Separator(lead) && Writes(first) && Follows(first, pieces) && Separator(tail)
    ensures
      var flat, joined := Flat(lead + (first + (Spell(pieces) + tail))), JoinOn([Lower(first)] + Words(pieces), '_');
      flat == joined || flat == "_" + joined || flat == joined + "_" || flat == "_" + (joined + "_")
  {
    var rest := first + (Spell(pieces) + tail);
    FlatOfPieces(first, pieces, tail);
    JoinedBehind(Lower(first), Words(pieces));
    Assembled(Lower(first), Behind(Words(pieces)));
    StartsLow(first, Spell(pieces) + tail);
    if lead != "" {
      FlatOfGap(lead, rest);
    } else {
      assert lead + rest == rest;
    }
  }

  lemma Assembled(a: string, b: string)
    ensures a + (b + "") == a + b && a + (b + "_") == (a + b) + "_"
  { }

  lemma {:induction false} JoinedEnds(words: seq<string>)
    requires words != [] && forall i :: 0 <= i < |words| ==> IsWordText(words[i])
    ensures var j := JoinOn(words, '_'); j != "" && IsLowerOrDigit(j[0]) && IsLowerOrDigit(j[|j| - 1])
  {
    assert IsWordText(words[0]);
    if |words| > 1 {
      JoinedEnds(words[1..]);
    }
  }

  lemma Trimmed(x: string)
    requires x != "" && x[0] != '_' && x[|x| - 1] != '_'
    ensures TrimUnderscores(x) == x && TrimUnderscores("_" + x) == x
    ensures TrimUnderscores(x + "_") == x && TrimUnderscores("_" + (x + "_")) == x
  {
    assert ("_" + x)[1..] == x && (x + "_")[..|x|] == x && ("_" + (x + "_"))[1..] == x + "_";
  }

  lemma {:induction false} JoinedBehind(first: string, words: seq<string>)
    ensures JoinOn([first] + words, '_') == first + Behind(words)
    decreases |words|
  {
    assert ([first] + words)[1..] == words;
    if words != [] {
      assert words == [words[0]] + words[1..];
      JoinedBehind(words[0], words[1..]);
    }
  }

  lemma {:induction false} LowerWords(before: string, pieces: seq<Piece>)
    requires before != "" && Follows(before, pieces)
    ensures |Words(pieces)| == |pieces| && forall i :: 0 <= i < |pieces| ==> IsWordText(Words(pieces)[i])
    decreases |pieces|
  {
    if pieces != [] {
      LowerWords(pieces[0].text, pieces[1..]);
      LowerOfWritten(pieces[0].text);
    }
  }

  // ---------- which words make a key sensitive ----------

  predicate CanonicalWords(words: seq<string>) { words != [] && forall i :: 0 <= i < |words| ==> IsWordText(words[i]) }

  function Concatenated(words: seq<string>): string { if words == [] then "" else words[0] + Concatenated(words[1..]) }

  predicate LastWordNames(words: seq<string>)
    requires words != []
  {
    words[|words| - 1] in ["credential", "password", "passwd", "secret", "token"]
  }

  predicate LastTwoName(words: seq<string>) {
    |words| > 1 && (words[|words| - 2], words[|words| - 1]) in [("api", "key"), ("api", "keys"), ("private", "key")]
  }

  predicate NamesInOne(words: seq<string>) {
    Concatenated(words) in ["accesstoken", "apikey", "clientsecret", "privatekey", "refreshtoken", "sslpassword"]
  }

  /** By its last word or its last two, or as a compound that can be written in one word;
      a note that something is configured is none. */
  predicate SensitiveWords(words: seq<string>)
    requires words != []
  {
    && !(|words| > 1 && words[|words| - 1] == "configured")
    && (LastWordNames(words) || LastTwoName(words) || NamesInOne(words))
  }

  lemma WordsAreSplit(words: seq<string>)
    requires CanonicalWords(words)
    ensures SplitOn(JoinOn(words, '_'), '_') == words
  {
    forall i | 0 <= i < |words| ensures '_' !in words[i] {
      assert IsWordText(words[i]);
    }
    JoinedSplits(words, '_');
  }

  /** A name behind an underscore is the last words. */
  lemma EndsInWords(words: seq<string>, name: seq<string>)
    requires CanonicalWords(words) && CanonicalWords(name)
    ensures EndsWith(JoinOn(words, '_'), "_" + JoinOn(name, '_')) <==> |words| > |name| && words[|words| - |name|..] == name
    ensures JoinOn(words, '_') == JoinOn(name, '_') <==> words == name
  {
    WordsAreSplit(words);
    WordsAreSplit(name);
    var key, suffix := JoinOn(words, '_'), "_" + JoinOn(name, '_');
    if EndsWith(key, suffix) {
      SuffixIsWords(key, words, suffix, JoinOn(name, '_'), name);
    }
    if |words| > |name| && words[|words| - |name|..] == name {
      LastWordsAreSuffix(words[..|words| - |name|], name);
      assert words == words[..|words| - |name|] + name;
    }
  }

  lemma SuffixIsWords(key: string, words: seq<string>, suffix: string, joined: string, name: seq<string>)
    requires SplitOn(key, '_') == words && suffix == "_" + joined && SplitOn(joined, '_') == name && EndsWith(key, suffix)
    ensures |words| > |name| && words[|words| - |name|..] == name
  {
    var front := key[..|key| - |suffix|];
    assert key == front + suffix;
    assert front + suffix == front + ['_'] + joined;
    SplitAtSeparator(front, '_', joined);
  }

  lemma LastWordsAreSuffix(front: seq<string>, name: seq<string>)
    requires front != [] && name != []
    ensures EndsWith(JoinOn(front + name, '_'), "_" + JoinOn(name, '_'))
  {
    JoinedConcat(front, name, '_');
    SuffixOfJoin(JoinOn(front, '_'), JoinOn(name, '_'));
  }

  lemma SuffixOfJoin(a: string, b: string)
    ensures EndsWith(a + ['_'] + b, "_" + b)
  {
    var s := a + ['_'] + b;
    assert s[|s| - |"_" + b|..] == "_" + b;
  }

  lemma SingleName(words: seq<string>, name: string)
    requires CanonicalWords(words) && IsWordText(name)
    ensures var n := JoinOn(words, '_'); n == name || EndsWith(n, "_" + name) <==> words[|words| - 1] == name
    ensures EndsWith(JoinOn(words, '_'), "_" + name) <==> |words| > 1 && words[|words| - 1] == name
  {
    EndsInWords(words, [name]);
  }

  lemma DoubleName(words: seq<string>, a: string, b: string, name: string)
    requires CanonicalWords(words) && IsWordText(a) && IsWordText(b) && name == a + "_" + b
    ensures
      var n := JoinOn(words, '_');
      n == name || EndsWith(n, "_" + name) <==> |words| > 1 && (words[|words| - 2], words[|words| - 1]) == (a, b)
  {
    EndsInWords(words, [a, b]);
    assert [a, b][1..] == [b];
    assert JoinOn([a, b], '_') == name;
  }

  lemma {:induction false} CompactIsConcatenated(words: seq<string>)
    requires CanonicalWords(words)
    ensures Compact(JoinOn(words, '_')) == Concatenated(words)
  {
    assert IsWordText(words[0]);
    assert Concatenated(words) == words[0] + Concatenated(words[1..]);
    if |words| == 1 {
      CompactWord(words[0], "");
      assert words[0] + "" == words[0];
    } else {
      CompactIsConcatenated(words[1..]);
      Underscored(words[0], JoinOn(words[1..], '_'));
      CompactWord(words[0], "_" + JoinOn(words[1..], '_'));
      CompactWord("", JoinOn(words[1..], '_'));
    }
  }

  lemma Underscored(a: string, b: string)
    ensures a + ['_'] + b == a + ("_" + b)
  { }

  lemma {:induction false} CompactWord(w: string, rest: string)
    requires forall i :: 0 <= i < |w| ==> IsLowerOrDigit(w[i])
    ensures Compact(w + rest) == w + Compact(rest)
    ensures Compact("_" + rest) == Compact(rest)
  {
    assert ("_" + rest)[1..] == rest;
    if w == "" {
      assert w + rest == rest;
    } else {
      CompactWord(w[1..], rest);
      assert (w + rest)[1..] == w[1..] + rest;
    }
  }

  predicate Named(n: string, name: string) { n == name || EndsWith(n, "_" + name) }

  lemma NamedSingly(words: seq<string>)
    requires CanonicalWords(words)
    ensures
      var n := JoinOn(words, '_');
      Named(n, "credential") || Named(n, "password") || Named(n, "passwd") || Named(n, "secret") || Named(n, "token") <==> LastWordNames(words)
  {
    SingleName(words, "credential");
    SingleName(words, "password");
    SingleName(words, "passwd");
    SingleName(words, "secret");
    SingleName(words, "token");
  }

  lemma NamedDoubly(words: seq<string>)
    requires CanonicalWords(words)
    ensures
      var n := JoinOn(words, '_');
      Named(n, "api_key") || Named(n, "api_keys") || Named(n, "private_key") <==> LastTwoName(words)
  {
    DoubleName(words, "api", "key", "api_key");
    DoubleName(words, "api", "keys", "api_keys");
    DoubleName(words, "private", "key", "private_key");
  }

  lemma NamesAreNamed(n: string)
    ensures EndsInName(n) <==>
      || Named(n, "api_key") || Named(n, "api_keys") || Named(n, "credential") || Named(n, "password")
      || Named(n, "passwd") || Named(n, "private_key") || Named(n, "secret") || Named(n, "token")
  {
    var names := NAMES;
    assert names[0] == "api_key" && names[1] == "api_keys" && names[2] == "credential" && names[3] == "password"
        && names[4] == "passwd" && names[5] == "private_key" && names[6] == "secret" && names[7] == "token";
  }

  /** A key is sensitive by its words, however it is spelled; only the digests of the event
      bridge are let through by their name. */
  lemma SensitiveExactly(lead: string, first: string, pieces: seq<Piece>, tail: string)
    requires Separator(lead) && Writes(first) && Follows(first, pieces) && Separator(tail)
    ensures
      var key := lead + (first + (Spell(pieces) + tail));
      Sensitive(key) <==> Upper(key) != "EVENT_BRIDGE_CREDENTIALS" && SensitiveWords([Lower(first)] + Words(pieces))
  {
    var words := [Lower(first)] + Words(pieces);
    NormalizedIsItsWords(lead, first, pieces, tail);
    LowerOfWritten(first);
    LowerWords(first, pieces);
    ConfiguredExactly(words);
    EndsInNameExactly(words);
    InOneWordExactly(words);
  }

  lemma ConfiguredExactly(words: seq<string>)
    requires CanonicalWords(words)
    ensures EndsWith(JoinOn(words, '_'), "_configured") <==> |words| > 1 && words[|words| - 1] == "configured"
  {
    Configured("_configured", "configured");
    SuffixName(words, "configured", "_configured");
  }

  lemma Configured(suffix: string, name: string)
    requires suffix == "_configured" && name == "configured"
    ensures suffix == "_" + name && IsWordText(name)
  { }

  lemma SuffixName(words: seq<string>, name: string, suffix: string)
    requires CanonicalWords(words) && IsWordText(name) && suffix == "_" + name
    ensures EndsWith(JoinOn(words, '_'), suffix) <==> |words| > 1 && words[|words| - 1] == name
  {
    SingleName(words, name);
  }

  lemma InOneWordExactly(words: seq<string>)
    requires CanonicalWords(words)
    ensures Compact(JoinOn(words, '_')) in COMPACT_NAMES <==> NamesInOne(words)
  {
    CompactIsConcatenated(words);
    InOneWord(Concatenated(words));
  }

  lemma EndsInNameExactly(words: seq<string>)
    requires CanonicalWords(words)
    ensures EndsInName(JoinOn(words, '_')) <==> LastWordNames(words) || LastTwoName(words)
  {
    NamesAreNamed(JoinOn(words, '_'));
    NamedSingly(words);
    NamedDoubly(words);
  }

  lemma InOneWord(c: string)
    ensures c in COMPACT_NAMES <==> c in ["accesstoken", "apikey", "clientsecret", "privatekey", "refreshtoken", "sslpassword"]
  { }
}
