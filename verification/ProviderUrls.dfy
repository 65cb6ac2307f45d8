/** Provider URLs: the parts of Python's urllib.parse and of regular expressions that the
    source references depend on. Inputs are ASCII; percent-encoded text may still stand
    for the four letters outside ASCII that a case-insensitive [a-z] also matches. */
module ProviderUrls {

  import opened Common
  import opened Text

  const DOTLESS_I := '\U{0131}'
  const LONG_S := '\U{017F}'
  const REPLACEMENT := '\U{FFFD}'

  predicate IsLetter(c: char) { IsUpper(c) || 'a' <= c <= 'z' }

  predicate AllDigits(s: string) { s != "" && forall i :: 0 <= i < |s| ==> IsDigit(s[i]) }

  // ---------- unquote ----------

  predicate IsHex(c: char) { IsDigit(c) || 'a' <= c <= 'f' || 'A' <= c <= 'F' }

  function HexValue(c: char): (n: nat)
    requires IsHex(c)
    ensures n < 16
  {
    if IsDigit(c) then c as int - '0' as int
    else if 'a' <= c <= 'f' then c as int - 'a' as int + 10
    else c as int - 'A' as int + 10
  }

  /** The byte of a percent escape at the front. */
  function EscapedByte(s: string): (b: Option<nat>)
    ensures b.Some? ==> |s| >= 3 && s[0] == '%' && b.value < 256
  {
    if |s| >= 3 && s[0] == '%' && IsHex(s[1]) && IsHex(s[2]) then Some(16 * HexValue(s[1]) + HexValue(s[2])) else None
  }

  predicate Escapes(s: string, bytes: seq<nat>)
    decreases bytes
  {
    bytes == [] || (EscapedByte(s) == Some(bytes[0]) && Escapes(s[3..], bytes[1..]))
  }

  /** unquote(): the four letters are decoded from UTF-8, any other byte outside ASCII
      becomes something that matches nothing. */
  function Unquote(s: string): string
    decreases |s|
  {
    var b := EscapedByte(s);
    if s == "" then ""
    else if b.None? then [s[0]] + Unquote(s[1..])
    else if b.value < 128 then [b.value as char] + Unquote(s[3..])
    else if |s| >= 6 && Escapes(s, [0xC4, 0xB0]) then [DOTTED_CAPITAL_I] + Unquote(s[6..])
    else if |s| >= 6 && Escapes(s, [0xC4, 0xB1]) then [DOTLESS_I] + Unquote(s[6..])
    else if |s| >= 6 && Escapes(s, [0xC5, 0xBF]) then [LONG_S] + Unquote(s[6..])
    else if |s| >= 9 && Escapes(s, [0xE2, 0x84, 0xAA]) then [KELVIN] + Unquote(s[9..])
    else [REPLACEMENT] + Unquote(s[3..])
  }

  lemma {:induction false} PlainIsUnquoted(s: string)
    requires '%' !in s
    ensures Unquote(s) == s
  {
    if s != "" {
      assert s[0] in s;
      assert forall c :: c in s[1..] ==> c in s;
      PlainIsUnquoted(s[1..]);
    }
  }

  // ---------- quote ----------

  /** The bytes of a character in UTF-8. */
  function Utf8(c: char): seq<nat> {
    var n := c as nat;
    if n < 0x80 then [n]
    else if n < 0x800 then [0xC0 + n / 64, 0x80 + n % 64]
    else if n < 0x1_0000 then [0xE0 + n / 4096, 0x80 + n / 64 % 64, 0x80 + n % 64]
    else [0xF0 + n / 262144, 0x80 + n / 4096 % 64, 0x80 + n / 64 % 64, 0x80 + n % 64]
  }

  const HEX_DIGITS := "0123456789ABCDEF"

  function PercentBytes(bytes: seq<nat>): string {
    if bytes == [] then ""
    else ['%', HEX_DIGITS[bytes[0] / 16 % 16], HEX_DIGITS[bytes[0] % 16]] + PercentBytes(bytes[1..])
  }

  /** Never quoted, the slash included. */
  predicate IsUnreserved(c: char) {
    IsLetter(c) || IsDigit(c) || c == '_' || c == '.' || c == '-' || c == '~' || c == '/'
  }

  /** quote() */
  function Quote(s: string): string {
    if s == "" then "" else (if IsUnreserved(s[0]) then [s[0]] else PercentBytes(Utf8(s[0]))) + Quote(s[1..])
  }

  lemma {:induction false} UnreservedIsQuoted(s: string)
    requires forall i :: 0 <= i < |s| ==> IsUnreserved(s[i])
    ensures Quote(s) == s
  {
    if s != "" {
      assert IsUnreserved(s[0]);
      UnreservedIsQuoted(s[1..]);
    }
  }

  // ---------- urlsplit, for https provider URLs ----------

  datatype Location = Location(path: string, query: string)

  predicate LooksLikeUrl(value: string) {
    StartsWith(Lower(value), "http://") || StartsWith(Lower(value), "https://")
  }

  function EndOfHost(s: string): (i: nat)
    ensures i <= |s|
  {
    if s == "" || s[0] == '/' || s[0] == '?' || s[0] == '#' then 0 else 1 + EndOfHost(s[1..])
  }

  /** One past the last @, 0 when there is none. */
  function AfterAt(s: string): (i: nat)
    ensures i <= |s| && (i > 0 ==> s[i - 1] == '@')
  {
    if s == "" then 0 else if s[|s| - 1] == '@' then |s| else AfterAt(s[..|s| - 1])
  }

  function TrimDots(s: string): string { if s != "" && s[|s| - 1] == '.' then TrimDots(s[..|s| - 1]) else s }

  function TrimZeros(s: string): string { if s != "" && s[0] == '0' then TrimZeros(s[1..]) else s }

  predicate PortAllowed(port: string) { port == "" || (AllDigits(port) && TrimZeros(port) == "443") }

  /** No user, no password, no brackets, one of the hosts, port 443 if any. */
  predicate HostAllowed(netloc: string, hosts: set<string>) {
    var at := AfterAt(netloc);
    var hostinfo := netloc[at..];
    var colon := Find(hostinfo, ':');
    && '[' !in netloc && ']' !in netloc
    && (at == 0 || netloc[..at - 1] == "" || netloc[..at - 1] == ":")
    && Lower(TrimDots(hostinfo[..colon])) in hosts
    && PortAllowed(if colon < |hostinfo| then hostinfo[colon + 1..] else "")
  }

  /** `_parse_https_provider_url`, reduced to what its callers use. */
  function ParseProviderUrl(value: string, hosts: set<string>): Option<Location> {
    if |value| < 8 || Lower(value[..8]) != "https://" then None
    else
      var rest := value[8..];
      var end := EndOfHost(rest);
      var tail := rest[end..];
      var hash := Find(tail, '#');
      var target := tail[..hash];
      var mark := Find(target, '?');
      if !HostAllowed(rest[..end], hosts) || hash + 1 < |tail| then None
      else Some(Location(target[..mark], if mark < |target| then target[mark + 1..] else ""))
  }

  // ---------- the URLs this program prints ----------

  /** A host name as it is written into a link. */
  predicate PlainHost(host: string) {
    host != "" && host[|host| - 1] != '.' && forall i :: 0 <= i < |host| ==> 'a' <= host[i] <= 'z' || host[i] == '.'
  }

  lemma {:induction false} PlainHostParts(host: string)
    requires forall i :: 0 <= i < |host| ==> 'a' <= host[i] <= 'z' || host[i] == '.'
    ensures AfterAt(host) == 0 && Find(host, ':') == |host| && Lower(host) == host
  {
    FindIs(host, ':', |host|);
    LowIsLower(host);
    if host != "" {
      PlainHostParts(host[..|host| - 1]);
    }
  }

  lemma {:induction false} HostEndsAtPath(host: string, tail: string)
    requires forall i :: 0 <= i < |host| ==> 'a' <= host[i] <= 'z' || host[i] == '.'
    requires tail == "" || tail[0] == '/'
    ensures EndOfHost(host + tail) == |host|
  {
    if host == "" {
      assert host + tail == tail;
    } else {
      HostEndsAtPath(host[1..], tail);
      assert (host + tail)[0] == host[0] && (host + tail)[1..] == host[1..] + tail;
    }
  }

  function Target(path: string, query: string): string { if query == "" then path else path + "?" + query }

  function PrintUrl(host: string, path: string, query: string): string { "https://" + host + Target(path, query) }

  lemma HttpsIsLower(rest: string)
    ensures ("https://" + rest)[..8] == "https://" && Lower("https://") == "https://"
    ensures ("https://" + rest)[8..] == rest
    ensures LooksLikeUrl("https://" + rest)
  {
    LowIsLower("https://");
    LowerOfConcat("https://", rest);
  }

  lemma TargetParts(path: string, query: string)
    requires '?' !in path && '#' !in path && '#' !in query
    ensures Find(Target(path, query), '#') == |Target(path, query)|
    ensures Find(Target(path, query), '?') == |path|
    ensures query != "" ==> Target(path, query)[|path| + 1..] == query
  {
    var t := Target(path, query);
    FindIs(t, '#', |t|);
    FindIs(t, '?', |path|);
  }

  lemma PlainHostAllowed(host: string, hosts: set<string>)
    requires PlainHost(host)
    ensures HostAllowed(host, hosts) <==> host in hosts
  {
    PlainHostParts(host);
    assert host[0..] == host && host[..|host|] == host;
    assert TrimDots(host) == host;
    forall c | c in host ensures c != '[' && c != ']' {
      var i :| 0 <= i < |host| && host[i] == c;
    }
  }

  /** Where the host of a printed URL ends. */
  lemma PrintedUrlSplits(host: string, path: string, query: string)
    requires PlainHost(host) && path != "" && path[0] == '/'
    ensures
      var value := PrintUrl(host, path, query);
      && |value| >= 8 && Lower(value[..8]) == "https://" && LooksLikeUrl(value)
      && EndOfHost(value[8..]) == |host| && value[8..][..|host|] == host && value[8..][|host|..] == Target(path, query)
  {
    var target := Target(path, query);
    HttpsIsLower(host + target);
    assert PrintUrl(host, path, query) == "https://" + (host + target);
    HostEndsAtPath(host, target);
  }

  /** A printed URL is taken apart into what it was made of. */
  lemma PrintedUrlParses(host: string, path: string, query: string, hosts: set<string>)
    requires PlainHost(host) && host in hosts
    requires path != "" && path[0] == '/' && '?' !in path && '#' !in path && '#' !in query
    ensures ParseProviderUrl(PrintUrl(host, path, query), hosts) == Some(Location(path, query))
    ensures LooksLikeUrl(PrintUrl(host, path, query))
  {
    PrintedUrlSplits(host, path, query);
    PlainHostAllowed(host, hosts);
    TargetParts(path, query);
    TargetTaken(path, query);
  }

  lemma TargetTaken(path: string, query: string)
    ensures Target(path, query)[..|Target(path, query)|] == Target(path, query)
    ensures Target(path, query)[..|path|] == path
  { }

  /** It is not taken for a URL of another provider. */
  lemma OtherHostsRefuse(host: string, path: string, query: string, hosts: set<string>)
    requires PlainHost(host) && host !in hosts && path != "" && path[0] == '/'
    ensures ParseProviderUrl(PrintUrl(host, path, query), hosts) == None
  {
    PrintedUrlSplits(host, path, query);
    PlainHostAllowed(host, hosts);
  }
}
