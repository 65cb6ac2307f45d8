/** Encrypting the secrets of a settings document in place, and reading it back. */
module SettingsEnvelope {

  import opened Common
  import opened SecretKeys
  import opened Text

  /** String-keyed JSON. */
  datatype Json = Null | Bool(b: bool) | Number(n: real) | Str(s: string) | Arr(items: seq<Json>) | Obj(fields: map<string, Json>)

  datatype Step = Key(key: string) | Index(index: nat)

  type Path = seq<Step>

  datatype Decrypted = Undecryptable | NotJson | Plain(value: Json, rotate: bool)

  /** The cipher, including the JSON text it is given, and the two readings of text
      values that can hold credentials. Every encryption happens at its own path. */
  datatype Env = Env(
    encrypt: (Path, Json) -> string,
    decrypt: string -> Decrypted,
    urlHasCredentials: string -> bool,
    parameters: string -> Option<seq<(string, string)>>)

  /** Decryption inverts encryption, and what the current key encrypted needs no rotation. */
  ghost predicate CipherInverts(env: Env) {
    forall p, v :: env.encrypt(p, v) != "" && env.decrypt(env.encrypt(p, v)) == Plain(v, false)
  }

  const ENVELOPE_KEY := "__octohubs_secret_envelope__"

  predicate IsEnvelope(v: Json) { v.Obj? && ENVELOPE_KEY in v.fields }

  function Envelope(ciphertext: string): Json {
    Obj(map[ENVELOPE_KEY := Obj(map["version" := Number(1.0), "ciphertext" := Str(ciphertext)])])
  }

  /** `_decrypt_envelope`; Python counts True as version 1. */
  function Opened(env: Env, v: Json): Option<(Json, bool)>
    requires IsEnvelope(v)
  {
    var inner := v.fields[ENVELOPE_KEY];
    if !inner.Obj? || "version" !in inner.fields || (inner.fields["version"] != Number(1.0) && inner.fields["version"] != Bool(true)) then None
    else if "ciphertext" !in inner.fields || !inner.fields["ciphertext"].Str? || inner.fields["ciphertext"].s == "" then None
    else
      var d := env.decrypt(inner.fields["ciphertext"].s);
      if d.Plain? then Some((d.value, d.rotate)) else None
  }

  predicate NonEmpty(v: Json) { v != Null && v != Str("") && v != Arr([]) && v != Obj(map[]) }

  /** `_value_contains_embedded_secret` */
  predicate Embedded(env: Env, key: string, v: Json) {
    v.Str? && v.s != "" &&
    if EndsWith(Normalized(key), "url") then env.urlHasCredentials(v.s)
    else EndsWith(Normalized(key), "params") && HasSecretParameter(env.parameters(TrimQuestion(v.s)))
  }

  function TrimQuestion(s: string): string { if s != "" && s[0] == '?' then TrimQuestion(s[1..]) else s }

  predicate HasSecretParameter(pairs: Option<seq<(string, string)>>) {
    pairs.Some? && exists i :: 0 <= i < |pairs.value| && Sensitive(pairs.value[i].0) && pairs.value[i].1 != ""
  }

  predicate Secret(env: Env, key: string, v: Json) { NonEmpty(v) && (Sensitive(key) || Embedded(env, key, v)) }

  // ---------- encode and decode ----------

  /** `encode`; None is an envelope that cannot be opened. List items have no key. */
  function Encode(env: Env, v: Json, key: string, path: Path): Option<Json>
    decreases v
  {
    if IsEnvelope(v) then (if Opened(env, v).Some? then Some(v) else None)
    else if Secret(env, key, v) then Some(Envelope(env.encrypt(path, v)))
    else
      match v
      case Obj(m) =>
        if forall k :: k in m ==> Encode(env, m[k], k, path + [Key(k)]).Some?
        then Some(Obj(map k | k in m :: Encode(env, m[k], k, path + [Key(k)]).value))
        else None
      case Arr(items) =>
        if forall i :: 0 <= i < |items| ==> Encode(env, items[i], "", path + [Index(i)]).Some?
        then Some(Arr(seq(|items|, i requires 0 <= i < |items| => Encode(env, items[i], "", path + [Index(i)]).value)))
        else None
      case _ => Some(v)
  }

  /** `decode`, with whether the stored document has to be rewritten. */
  function Decode(env: Env, v: Json, key: string): Option<(Json, bool)>
    decreases v
  {
    if IsEnvelope(v) then Opened(env, v)
    else if Secret(env, key, v) then Some((v, true))
    else
      match v
      case Obj(m) =>
        if forall k :: k in m ==> Decode(env, m[k], k).Some?
        then Some((Obj(map k | k in m :: Decode(env, m[k], k).value.0), exists k :: k in m && Decode(env, m[k], k).value.1))
        else None
      case Arr(items) =>
        if forall i :: 0 <= i < |items| ==> Decode(env, items[i], "").Some?
        then Some((Arr(seq(|items|, i requires 0 <= i < |items| => Decode(env, items[i], "").value.0)),
                   exists i :: 0 <= i < |items| && Decode(env, items[i], "").value.1))
        else None
      case _ => Some((v, false))
  }

  // ---------- the properties ----------

  /** No object anywhere carries the envelope key. */
  predicate EnvelopeFree(v: Json) {
    match v
    case Obj(m) => ENVELOPE_KEY !in m && forall k :: k in m ==> EnvelopeFree(m[k])
    case Arr(items) => forall i :: 0 <= i < |items| ==> EnvelopeFree(items[i])
    case _ => true
  }

  lemma EnvelopeOpens(env: Env, path: Path, v: Json)
    requires CipherInverts(env)
    ensures IsEnvelope(Envelope(env.encrypt(path, v)))
    ensures Opened(env, Envelope(env.encrypt(path, v))) == Some((v, false))
  { }

  /** What encoding does at one level keeps the node what it was. */
  lemma EncodedShape(env: Env, v: Json, key: string, path: Path)
    requires !IsEnvelope(v) && !Secret(env, key, v) && Encode(env, v, key, path).Some?
    ensures
      var e := Encode(env, v, key, path).value;
      && !IsEnvelope(e) && !Secret(env, key, e) && (v.Obj? <==> e.Obj?) && (v.Arr? <==> e.Arr?)
      && (v.Obj? ==> e.fields.Keys == v.fields.Keys) && (v.Arr? ==> |e.items| == |v.items|)
      && (!v.Obj? && !v.Arr? ==> e == v)
  {
    var e := Encode(env, v, key, path).value;
    if v.Obj? {
      assert e.fields.Keys == v.fields.Keys;
    }
  }

  lemma FieldsDecode(env: Env, m: map<string, Json>, e: Json, key: string)
    requires e.Obj? && e.fields.Keys == m.Keys && !IsEnvelope(e) && !Secret(env, key, e)
    requires forall k :: k in m ==> Decode(env, e.fields[k], k) == Some((m[k], false))
    ensures Decode(env, e, key) == Some((Obj(m), false))
  {
    assert Decode(env, e, key).value.0.fields == m;
  }

  lemma ItemsDecode(env: Env, items: seq<Json>, e: Json, key: string)
    requires e.Arr? && |e.items| == |items| && !IsEnvelope(e) && !Secret(env, key, e)
    requires forall i :: 0 <= i < |items| ==> Decode(env, e.items[i], "") == Some((items[i], false))
    ensures Decode(env, e, key) == Some((Arr(items), false))
  {
    assert Decode(env, e, key).value.0.items == items;
  }

  /** A document without envelopes can always be encoded, and decoding gives it back
      with nothing left to rewrite. */
  lemma {:induction false} RoundTrip(env: Env, v: Json, key: string, path: Path)
    requires CipherInverts(env) && EnvelopeFree(v)
    ensures Encode(env, v, key, path).Some?
    ensures Decode(env, Encode(env, v, key, path).value, key) == Some((v, false))
    decreases v
  {
    if Secret(env, key, v) {
      EnvelopeOpens(env, path, v);
    } else {
      match v
      case Obj(m) =>
        forall k | k in m ensures Encode(env, m[k], k, path + [Key(k)]).Some?
                               && Decode(env, Encode(env, m[k], k, path + [Key(k)]).value, k) == Some((m[k], false)) {
          RoundTrip(env, m[k], k, path + [Key(k)]);
        }
        EncodedShape(env, v, key, path);
        FieldsDecode(env, m, Encode(env, v, key, path).value, key);
      case Arr(items) =>
        forall i | 0 <= i < |items| ensures Encode(env, items[i], "", path + [Index(i)]).Some?
                                         && Decode(env, Encode(env, items[i], "", path + [Index(i)]).value, "") == Some((items[i], false)) {
          RoundTrip(env, items[i], "", path + [Index(i)]);
        }
        EncodedShape(env, v, key, path);
        ItemsDecode(env, items, Encode(env, v, key, path).value, key);
      case _ =>
    }
  }

  /** Encoding an encoded document changes nothing, whatever the cipher would answer. */
  lemma {:induction false} EncodeIsIdempotent(env: Env, v: Json, key: string, path: Path, path': Path)
    requires CipherInverts(env) && Encode(env, v, key, path).Some?
    ensures Encode(env, Encode(env, v, key, path).value, key, path') == Encode(env, v, key, path)
    decreases v
  {
    if IsEnvelope(v) {
    } else if Secret(env, key, v) {
      EnvelopeOpens(env, path, v);
    } else {
      EncodedShape(env, v, key, path);
      var e := Encode(env, v, key, path).value;
      match v
      case Obj(m) =>
        forall k | k in m ensures Encode(env, e.fields[k], k, path' + [Key(k)]) == Some(e.fields[k]) {
          EncodeIsIdempotent(env, m[k], k, path + [Key(k)], path' + [Key(k)]);
        }
        assert Encode(env, e, key, path').value.fields == e.fields;
      case Arr(items) =>
        forall i | 0 <= i < |items| ensures Encode(env, e.items[i], "", path' + [Index(i)]) == Some(e.items[i]) {
          EncodeIsIdempotent(env, items[i], "", path + [Index(i)], path' + [Index(i)]);
        }
        assert Encode(env, e, key, path').value.items == e.items;
      case _ =>
    }
  }

  /** Following the path from here meets no envelope and ends at a secret value. */
  predicate ExposedAt(env: Env, v: Json, key: string, path: Path)
    decreases |path|
  {
    if IsEnvelope(v) then false
    else if path == [] then Secret(env, key, v)
    else
      match path[0]
      case Key(k) => v.Obj? && k in v.fields && ExposedAt(env, v.fields[k], k, path[1..])
      case Index(i) => v.Arr? && i < |v.items| && ExposedAt(env, v.items[i], "", path[1..])
  }

  /** Following the path meets its first envelope at the end, one that asks for rotation. */
  predicate StaleAt(env: Env, v: Json, path: Path)
    decreases |path|
  {
    if IsEnvelope(v) then path == [] && Opened(env, v).Some? && Opened(env, v).value.1
    else if path == [] then false
    else
      match path[0]
      case Key(k) => v.Obj? && k in v.fields && StaleAt(env, v.fields[k], path[1..])
      case Index(i) => v.Arr? && i < |v.items| && StaleAt(env, v.items[i], path[1..])
  }

  /** After encoding no secret lies outside an envelope. */
  lemma {:induction false} NothingExposed(env: Env, v: Json, key: string, at: Path, path: Path)
    requires Encode(env, v, key, at).Some?
    ensures !ExposedAt(env, Encode(env, v, key, at).value, key, path)
    decreases |path|
  {
    if !IsEnvelope(v) && !Secret(env, key, v) {
      EncodedShape(env, v, key, at);
      if path != [] {
        match path[0]
        case Key(k) =>
          if v.Obj? && k in v.fields {
            NothingExposed(env, v.fields[k], k, at + [Key(k)], path[1..]);
          }
        case Index(i) =>
          if v.Arr? && i < |v.items| {
            NothingExposed(env, v.items[i], "", at + [Index(i)], path[1..]);
          }
      }
    }
  }

  /** Decoding asks for a rewrite only for a secret in the clear or a stale envelope. */
  lemma {:induction false} RewriteHasAReason(env: Env, v: Json, key: string) returns (path: Path)
    requires Decode(env, v, key).Some? && Decode(env, v, key).value.1
    ensures ExposedAt(env, v, key, path) || StaleAt(env, v, path)
    decreases v
  {
    path := [];
    if !IsEnvelope(v) && !Secret(env, key, v) {
      match v
      case Obj(m) =>
        var k :| k in m && Decode(env, m[k], k).value.1;
        var rest := RewriteHasAReason(env, m[k], k);
        path := [Key(k)] + rest;
      case Arr(items) =>
        var i :| 0 <= i < |items| && Decode(env, items[i], "").value.1;
        var rest := RewriteHasAReason(env, items[i], "");
        path := [Index(i)] + rest;
      case _ =>
    }
  }

  /** And it asks for one whenever there is such a secret or, outside the secrets in
      the clear, such an envelope. */
  lemma {:induction false} ReasonMeansRewrite(env: Env, v: Json, key: string, path: Path)
    requires Decode(env, v, key).Some? && (ExposedAt(env, v, key, path) || StaleAt(env, v, path))
    ensures Decode(env, v, key).value.1
    decreases |path|
  {
    if !IsEnvelope(v) && !Secret(env, key, v) {
      match path[0]
      case Key(k) => ReasonMeansRewrite(env, v.fields[k], k, path[1..]);
      case Index(i) => ReasonMeansRewrite(env, v.items[i], "", path[1..]);
    }
  }

  /** One rewrite is enough: whatever mixture of plain text, current and stale envelopes
      was read, what is written back decodes to the same settings, asks for no further
      rewrite and exposes nothing. */
  lemma RewriteConverges(env: Env, v: Json, path: Path)
    requires CipherInverts(env) && Decode(env, v, "").Some? && EnvelopeFree(Decode(env, v, "").value.0)
    ensures
      var plain := Decode(env, v, "").value.0;
      && Encode(env, plain, "", []).Some?
      && Decode(env, Encode(env, plain, "", []).value, "") == Some((plain, false))
      && !ExposedAt(env, Encode(env, plain, "", []).value, "", path)
  {
    var plain := Decode(env, v, "").value.0;
    RoundTrip(env, plain, "", []);
    NothingExposed(env, plain, "", [], path);
  }

  /** Reading a document without envelopes gives it back as it is. */
  lemma {:induction false} PlainDocumentIsRead(env: Env, v: Json, key: string)
    requires EnvelopeFree(v)
    ensures Decode(env, v, key).Some? && Decode(env, v, key).value.0 == v
    decreases v
  {
    if !Secret(env, key, v) {
      match v
      case Obj(m) =>
        forall k | k in m ensures Decode(env, m[k], k).Some? && Decode(env, m[k], k).value.0 == m[k] {
          PlainDocumentIsRead(env, m[k], k);
        }
        assert Decode(env, v, key).value.0.fields == m;
      case Arr(items) =>
        forall i | 0 <= i < |items| ensures Decode(env, items[i], "").Some? && Decode(env, items[i], "").value.0 == items[i] {
          PlainDocumentIsRead(env, items[i], "");
        }
        assert Decode(env, v, key).value.0.items == items;
      case _ =>
    }
  }

  // ---------- the loops of decode ----------

  method DecodeValue(env: Env, v: Json, key: string) returns (r: Option<(Json, bool)>)
    ensures r == Decode(env, v, key)
    decreases v, 1
  {
    if IsEnvelope(v) {
      r := Opened(env, v);
    } else if Secret(env, key, v) {
      r := Some((v, true));
    } else if v.Obj? {
      r := DecodeFields(env, v);
    } else if v.Arr? {
      r := DecodeItems(env, v);
    } else {
      r := Some((v, false));
    }
  }

  /** Decode of an object that is neither an envelope nor a secret. */
  function FieldsDecoded(env: Env, m: map<string, Json>): Option<(Json, bool)> {
    if forall k :: k in m ==> Decode(env, m[k], k).Some?
    then Some((Obj(map k | k in m :: Decode(env, m[k], k).value.0), exists k :: k in m && Decode(env, m[k], k).value.1))
    else None
  }

  function ItemsDecoded(env: Env, items: seq<Json>): Option<(Json, bool)> {
    if forall i :: 0 <= i < |items| ==> Decode(env, items[i], "").Some?
    then Some((Arr(seq(|items|, i requires 0 <= i < |items| => Decode(env, items[i], "").value.0)),
               exists i :: 0 <= i < |items| && Decode(env, items[i], "").value.1))
    else None
  }

  method DecodeFields(env: Env, v: Json) returns (r: Option<(Json, bool)>)
    requires v.Obj?
    ensures r == FieldsDecoded(env, v.fields)
    decreases v, 0
  {
    var m := v.fields;
    var decoded: map<string, Json> := map[];
    var rewrite := false;
    var todo := m.Keys;
    while todo != {}
      invariant todo <= m.Keys && decoded.Keys == m.Keys - todo
      invariant DecodedSoFar(env, m, decoded, rewrite)
      decreases |todo|
    {
      var k :| k in todo;
      var item := DecodeValue(env, m[k], k);
      if item.None? {
        return None;
      }
      OneMoreField(env, m, decoded, rewrite, k);
      todo := todo - {k};
      decoded := decoded[k := item.value.0];
      rewrite := rewrite || item.value.1;
    }
    AllFields(env, m, decoded, rewrite);
    r := Some((Obj(decoded), rewrite));
  }

  ghost predicate DecodedSoFar(env: Env, m: map<string, Json>, decoded: map<string, Json>, rewrite: bool) {
    && (forall k :: k in decoded ==> k in m && Decode(env, m[k], k).Some? && decoded[k] == Decode(env, m[k], k).value.0)
    && (rewrite <==> exists k :: k in decoded && Decode(env, m[k], k).value.1)
  }

  lemma OneMoreField(env: Env, m: map<string, Json>, decoded: map<string, Json>, rewrite: bool, k: string)
    requires DecodedSoFar(env, m, decoded, rewrite) && k in m && k !in decoded && Decode(env, m[k], k).Some?
    ensures DecodedSoFar(env, m, decoded[k := Decode(env, m[k], k).value.0], rewrite || Decode(env, m[k], k).value.1)
  {
    var decoded' := decoded[k := Decode(env, m[k], k).value.0];
    if rewrite {
      var j :| j in decoded && Decode(env, m[j], j).value.1;
      assert j in decoded';
    }
    if Decode(env, m[k], k).value.1 {
      assert k in decoded';
    }
  }

  lemma AllFields(env: Env, m: map<string, Json>, decoded: map<string, Json>, rewrite: bool)
    requires DecodedSoFar(env, m, decoded, rewrite) && decoded.Keys == m.Keys
    ensures FieldsDecoded(env, m) == Some((Obj(decoded), rewrite))
  {
    assert forall k :: k in m ==> k in decoded && Decode(env, m[k], k).Some?;
    var r := FieldsDecoded(env, m);
    assert r.Some?;
    assert r.value.0.fields == decoded;
    if rewrite {
      var k :| k in decoded && Decode(env, m[k], k).value.1;
      assert k in m && r.value.1;
    } else {
      assert forall k :: k in m ==> !Decode(env, m[k], k).value.1;
    }
  }

  method DecodeItems(env: Env, v: Json) returns (r: Option<(Json, bool)>)
    requires v.Arr?
    ensures r == ItemsDecoded(env, v.items)
    decreases v, 0
  {
    var items := v.items;
    var decoded: seq<Json> := [];
    var rewrite := false;
    for i := 0 to |items|
      invariant |decoded| == i
      invariant forall j :: 0 <= j < i ==> Decode(env, items[j], "").Some? && decoded[j] == Decode(env, items[j], "").value.0
      invariant rewrite <==> exists j :: 0 <= j < i && Decode(env, items[j], "").value.1
    {
      var item := DecodeValue(env, items[i], "");
      if item.None? {
        return None;
      }
      decoded := decoded + [item.value.0];
      rewrite := rewrite || item.value.1;
    }
    assert decoded == seq(|items|, i requires 0 <= i < |items| => Decode(env, items[i], "").value.0);
    r := Some((Arr(decoded), rewrite));
  }

  /** `decode_app_settings_document`: an envelope at the top must hold an object. */
  method DecodeDocument(env: Env, document: Json) returns (r: Option<(Json, bool)>)
    requires document.Obj?
    ensures r == if Decode(env, document, "").Some? && Decode(env, document, "").value.0.Obj? then Decode(env, document, "") else None
  {
    r := DecodeValue(env, document, "");
    if r.Some? && !r.value.0.Obj? {
      r := None;
    }
  }

  // ---------- what is encrypted, and what opens ----------

  /** A key that names a secret by its words. */
  predicate NamesSecret(lead: string, first: string, pieces: seq<Piece>, tail: string) {
    Upper(KeyOf(lead, first, pieces, tail)) != "EVENT_BRIDGE_CREDENTIALS" && SensitiveWords(WordsOf(first, pieces))
  }

  function KeyOf(lead: string, first: string, pieces: seq<Piece>, tail: string): string { lead + (first + (Spell(pieces) + tail)) }

  function WordsOf(first: string, pieces: seq<Piece>): seq<string> { [Lower(first)] + Words(pieces) }

  predicate Spelled(lead: string, first: string, pieces: seq<Piece>, tail: string) {
    Separator(lead) && Writes(first) && Follows(first, pieces) && Separator(tail)
  }

  /** The parameters could be read and one of them, by its name a secret, is not empty. */
  ghost predicate NamesSecretIn(parameters: Option<seq<(string, string)>>) {
    match parameters
    case None => false
    case Some(pairs) => exists name, value :: (name, value) in pairs && Sensitive(name) && |value| > 0
  }

  lemma SecretParameterExactly(parameters: Option<seq<(string, string)>>)
    ensures HasSecretParameter(parameters) <==> NamesSecretIn(parameters)
  {
    if HasSecretParameter(parameters) {
      var i :| 0 <= i < |parameters.value| && Sensitive(parameters.value[i].0) && parameters.value[i].1 != "";
      assert (parameters.value[i].0, parameters.value[i].1) in parameters.value;
    }
  }

  /** Any value of such a key is encrypted as a whole, but for the four empty ones. */
  lemma SecretIsEncrypted(env: Env, lead: string, first: string, pieces: seq<Piece>, tail: string, v: Json, path: Path)
    requires Spelled(lead, first, pieces, tail) && NamesSecret(lead, first, pieces, tail)
    requires !IsEnvelope(v) && v != Null && v != Str("") && v != Arr([]) && v != Obj(map[])
    ensures Encode(env, v, KeyOf(lead, first, pieces, tail), path) == Some(Envelope(env.encrypt(path, v)))
    ensures Decode(env, v, KeyOf(lead, first, pieces, tail)) == Some((v, true))
  {
    SensitiveExactly(lead, first, pieces, tail);
  }

  /** A text is encrypted exactly when its key names a secret, or its key ends in "url" and
      it holds credentials, or its key ends in "params" and one of its parameters is a
      secret that is not empty. */
  lemma TextIsEncryptedExactly(env: Env, lead: string, first: string, pieces: seq<Piece>, tail: string, text: string, path: Path)
    requires Spelled(lead, first, pieces, tail) && text != ""
    ensures
      var key, words := KeyOf(lead, first, pieces, tail), WordsOf(first, pieces);
      var last := words[|words| - 1];
      var secret :=
        || NamesSecret(lead, first, pieces, tail)
        || (EndsWith(last, "url") && env.urlHasCredentials(text))
        || (EndsWith(last, "params") && NamesSecretIn(env.parameters(TrimQuestion(text))));
      && Encode(env, Str(text), key, path) == Some(if secret then Envelope(env.encrypt(path, Str(text))) else Str(text))
      && Decode(env, Str(text), key) == Some((Str(text), secret))
  {
    var words := WordsOf(first, pieces);
    SensitiveExactly(lead, first, pieces, tail);
    NormalizedIsItsWords(lead, first, pieces, tail);
    LowerOfWritten(first);
    LowerWords(first, pieces);
    UrlOrParams(words);
    TextByKey(env, KeyOf(lead, first, pieces, tail), JoinOn(words, '_'), text, path);
  }

  lemma TextByKey(env: Env, key: string, normalized: string, text: string, path: Path)
    requires normalized == Normalized(key) && text != "" && !(EndsWith(normalized, "url") && EndsWith(normalized, "params"))
    ensures
      var secret :=
        || Sensitive(key)
        || (EndsWith(normalized, "url") && env.urlHasCredentials(text))
        || (EndsWith(normalized, "params") && NamesSecretIn(env.parameters(TrimQuestion(text))));
      && Encode(env, Str(text), key, path) == Some(if secret then Envelope(env.encrypt(path, Str(text))) else Str(text))
      && Decode(env, Str(text), key) == Some((Str(text), secret))
  {
    SecretParameterExactly(env.parameters(TrimQuestion(text)));
  }

  lemma UrlOrParams(words: seq<string>)
    requires CanonicalWords(words)
    ensures EndsWith(JoinOn(words, '_'), "url") <==> EndsWith(words[|words| - 1], "url")
    ensures EndsWith(JoinOn(words, '_'), "params") <==> EndsWith(words[|words| - 1], "params")
    ensures !(EndsWith(words[|words| - 1], "url") && EndsWith(words[|words| - 1], "params"))
  {
    EndOfLastWord(words, "url");
    EndOfLastWord(words, "params");
    NotBoth(words[|words| - 1]);
  }

  lemma NotBoth(w: string)
    ensures !(EndsWith(w, "url") && EndsWith(w, "params"))
  {
    LastOf(w, "url");
    LastOf(w, "params");
  }

  lemma LastOf(w: string, suffix: string)
    requires suffix != ""
    ensures EndsWith(w, suffix) ==> w != "" && w[|w| - 1] == suffix[|suffix| - 1]
  {
    if EndsWith(w, suffix) {
      assert w[|w| - |suffix|..][|suffix| - 1] == w[|w| - 1];
    }
  }

  lemma EndOfLastWord(words: seq<string>, suffix: string)
    requires CanonicalWords(words) && '_' !in suffix
    ensures EndsWith(JoinOn(words, '_'), suffix) <==> EndsWith(words[|words| - 1], suffix)
  {
    if |words| > 1 {
      LastWordApart(words);
      EndAfter(JoinOn(words[..|words| - 1], '_'), words[|words| - 1], suffix);
    }
  }

  lemma LastWordApart(words: seq<string>)
    requires |words| > 1
    ensures JoinOn(words, '_') == JoinOn(words[..|words| - 1], '_') + ['_'] + words[|words| - 1]
  {
    var front, last := words[..|words| - 1], words[|words| - 1];
    assert words == front + [last];
    JoinedConcat(front, [last], '_');
    assert JoinOn([last], '_') == last;
  }

  lemma EndAfter(a: string, b: string, suffix: string)
    requires '_' !in suffix
    ensures EndsWith(a + ['_'] + b, suffix) <==> EndsWith(b, suffix)
  {
    var s := a + ['_'] + b;
    assert s[|a|] == '_';
    if |suffix| <= |b| {
      assert s[|s| - |suffix|..] == b[|b| - |suffix|..];
    } else {
      CharOfEnd(s, suffix, |suffix| - |b| - 1);
    }
  }

  lemma CharOfEnd(s: string, suffix: string, k: nat)
    requires k < |suffix|
    ensures suffix[k] in suffix
    ensures EndsWith(s, suffix) ==> |suffix| <= |s| && s[|s| - |suffix| + k] == suffix[k]
  {
    if EndsWith(s, suffix) {
      assert s[|s| - |suffix|..][k] == s[|s| - |suffix| + k];
    }
  }

  lemma {:induction false} TrimQuestionTakesAll(s: string)
    ensures TrimQuestion(s) == "" || TrimQuestion(s)[0] != '?'
    ensures |TrimQuestion(s)| <= |s| && s[|s| - |TrimQuestion(s)|..] == TrimQuestion(s)
    ensures forall i :: 0 <= i < |s| - |TrimQuestion(s)| ==> s[i] == '?'
  {
    if s != "" && s[0] == '?' {
      TrimQuestionTakesAll(s[1..]);
      forall i | 0 <= i < |s| - |TrimQuestion(s)| ensures s[i] == '?' {
        if i > 0 { assert s[1..][i - 1] == '?'; }
      }
    }
  }

  /** A version 1 envelope opens to what its non-empty ciphertext decrypts to, and nothing
      else opens. */
  lemma OpenedExactly(env: Env, v: Json, plain: Json, rotate: bool)
    requires IsEnvelope(v)
    ensures Opened(env, v) == Some((plain, rotate)) <==>
      exists m: map<string, Json>, c: string ::
        && v.fields["__octohubs_secret_envelope__"] == Obj(m)
        && "version" in m && m["version"] in [Number(1.0), Bool(true)]
        && "ciphertext" in m && m["ciphertext"] == Str(c) && c != "" && env.decrypt(c) == Plain(plain, rotate)
  {
    var inner := v.fields[ENVELOPE_KEY];
    if Opened(env, v) == Some((plain, rotate)) {
      var m, c := inner.fields, inner.fields["ciphertext"].s;
      assert inner == Obj(m) && m["ciphertext"] == Str(c);
    }
  }
}
