/** Which URLs a provider accepts: scheme, host, port, credentials, fragment. */
module HostForms {

  import opened Common
  import opened ProviderUrls
  import opened Text

  function DigitOf(c: char): nat requires IsDigit(c) { c as int - '0' as int }

  /** The number a text of digits stands for. */
  function Number(s: string): nat
    requires forall i :: 0 <= i < |s| ==> IsDigit(s[i])
  {
    if s == "" then 0 else 10 * Number(s[..|s| - 1]) + DigitOf(s[|s| - 1])
  }

  lemma {:induction false} ZerosCountNothing(s: string)
    requires forall i :: 0 <= i < |s| ==> IsDigit(s[i])
    ensures |TrimZeros(s)| <= |s| && (TrimZeros(s) != "" ==> TrimZeros(s)[0] != '0')
    ensures forall i :: 0 <= i < |TrimZeros(s)| ==> IsDigit(TrimZeros(s)[i])
    ensures Number(TrimZeros(s)) == Number(s)
  {
    if s != "" && s[0] == '0' {
      ZerosCountNothing(s[1..]);
      FrontZero(s);
    }
  }

  lemma {:induction false} FrontZero(s: string)
    requires s != "" && s[0] == '0' && forall i :: 0 <= i < |s| ==> IsDigit(s[i])
    ensures Number(s[1..]) == Number(s)
  {
    if |s| > 1 {
      FrontZero(s[..|s| - 1]);
      assert s[1..][..|s| - 2] == s[..|s| - 1][1..];
    }
  }

  /** Without zeros in front, a number has one text. */
  lemma {:induction false} FrontIsPositive(s: string)
    requires s != "" && s[0] != '0' && forall i :: 0 <= i < |s| ==> IsDigit(s[i])
    ensures Number(s) > 0
  {
    if |s| > 1 {
      FrontIsPositive(s[..|s| - 1]);
    }
  }

  lemma {:induction false} OneText(a: string, b: string)
    requires forall i :: 0 <= i < |a| ==> IsDigit(a[i])
    requires forall i :: 0 <= i < |b| ==> IsDigit(b[i])
    requires (a != "" ==> a[0] != '0') && (b != "" ==> b[0] != '0') && Number(a) == Number(b)
    ensures a == b
    decreases |a| + |b|
  {
    if a == "" {
      if b != "" { FrontIsPositive(b); }
    } else if b == "" {
      FrontIsPositive(a);
    } else {
      LastDigit(10 * Number(a[..|a| - 1]), 10 * Number(b[..|b| - 1]), DigitOf(a[|a| - 1]), DigitOf(b[|b| - 1]));
      OneText(a[..|a| - 1], b[..|b| - 1]);
      assert a == a[..|a| - 1] + [a[|a| - 1]] && b == b[..|b| - 1] + [b[|b| - 1]];
    }
  }

  lemma LastDigit(x: nat, y: nat, d: nat, e: nat)
    requires x % 10 == 0 && y % 10 == 0 && d < 10 && e < 10 && x + d == y + e
    ensures x == y && d == e
  { }

  /** A port is allowed when it is missing, empty, or the number 443. */
  lemma PortIsNumber(port: string)
    ensures PortAllowed(port) <==> port == "" || (AllDigits(port) && Number(port) == 443)
  {
    if AllDigits(port) {
      ZerosCountNothing(port);
      assert Number("4") == 4 && "44"[..1] == "4" && "443"[..2] == "44";
      assert Number("443") == 443;
      if Number(port) == 443 { OneText(TrimZeros(port), "443"); }
    }
  }

  /** A host name in any case. */
  predicate HostChars(s: string) { forall i :: 0 <= i < |s| ==> IsLetter(s[i]) || s[i] == '.' }

  predicate Dots(s: string) { forall i :: 0 <= i < |s| ==> s[i] == '.' }

  lemma {:induction false} NoAt(s: string)
    requires '@' !in s
    ensures AfterAt(s) == 0
  {
    if s != "" {
      NoAt(s[..|s| - 1]);
    }
  }

  lemma {:induction false} DotsAreTrimmed(host: string, dots: string)
    requires Dots(dots) && (host != "" ==> host[|host| - 1] != '.')
    ensures TrimDots(host + dots) == host
  {
    if dots == "" {
      assert host + dots == host;
    } else {
      DotsAreTrimmed(host, dots[..|dots| - 1]);
      assert (host + dots)[..|host + dots| - 1] == host + dots[..|dots| - 1];
    }
  }

  /** The host is taken in any case and with dots behind it, the port as a number. */
  lemma HostAllowedExactly(host: string, dots: string, port: string, hosts: set<string>)
    requires HostChars(host) && host != "" && host[|host| - 1] != '.' && Dots(dots) && AllDigits(port)
    ensures HostAllowed(host + dots, hosts) <==> Lower(host) in hosts
    ensures HostAllowed(host + dots + ":" + port, hosts) <==> Lower(host) in hosts && Number(port) == 443
  {
    var name := host + dots;
    var netloc := name + ":" + port;
    DotsAreTrimmed(host, dots);
    PortIsNumber(port);
    NamePlain(host, dots);
    NoAt(name);
    NoAt(netloc);
    FindIs(name, ':', |name|);
    FindIs(netloc, ':', |name|);
    assert name[0..] == name && name[..|name|] == name;
    assert netloc[0..] == netloc && netloc[..|name|] == name && netloc[|name| + 1..] == port;
  }

  lemma NamePlain(host: string, dots: string)
    requires HostChars(host) && Dots(dots)
    ensures HostChars(host + dots)
    ensures '@' !in host + dots && ':' !in host + dots && '[' !in host + dots && ']' !in host + dots
  { }

  lemma {:induction false} LastAt(user: string, rest: string)
    requires '@' !in rest
    ensures AfterAt(user + "@" + rest) == |user| + 1
  {
    var s := user + "@" + rest;
    if rest != "" {
      LastAt(user, rest[..|rest| - 1]);
      assert s[..|s| - 1] == user + "@" + rest[..|rest| - 1];
    }
  }

  /** A user name or a password is refused; empty ones count as none. */
  lemma CredentialsAreRefused(user: string, rest: string, hosts: set<string>)
    requires '@' !in rest && user != "" && user != ":"
    ensures !HostAllowed(user + "@" + rest, hosts)
  {
    LastAt(user, rest);
    assert (user + "@" + rest)[..|user|] == user;
  }

  /** Only https, in any case. */
  lemma OnlyHttps(value: string, hosts: set<string>)
    requires ParseProviderUrl(value, hosts).Some?
    ensures StartsWith(Lower(value), "https://")
  {
    LowerOfConcat(value[..8], value[8..]);
    assert value == value[..8] + value[8..];
  }

  /** A fragment is refused, an empty one is not. */
  lemma FragmentIsRefused(host: string, path: string, query: string, fragment: string, hosts: set<string>)
    requires PlainHost(host) && host in hosts
    requires path != "" && path[0] == '/' && '?' !in path && '#' !in path && '#' !in query
    ensures ParseProviderUrl(PrintUrl(host, path, query) + "#" + fragment, hosts) == if fragment == "" then Some(Location(path, query)) else None
  {
    var target, value := Target(path, query), PrintUrl(host, path, query) + "#" + fragment;
    var tail := target + ("#" + fragment);
    SameUrl("https://", host, target, "#", fragment);
    UrlWithTail(host, tail, value);
    PlainHostAllowed(host, hosts);
    TargetParts(path, query);
    TargetTaken(path, query);
    FindIs(tail, '#', |target|);
    assert tail[..|target|] == target;
    ReadTarget(value, hosts, host, tail, target);
  }

  lemma SameUrl(scheme: string, host: string, target: string, hash: string, fragment: string)
    ensures scheme + host + target + hash + fragment == scheme + (host + (target + (hash + fragment)))
  { }

  lemma UrlWithTail(host: string, tail: string, value: string)
    requires PlainHost(host) && tail != "" && tail[0] == '/' && value == "https://" + (host + tail)
    ensures |value| >= 8 && Lower(value[..8]) == "https://" && value[8..] == host + tail
    ensures EndOfHost(host + tail) == |host| && (host + tail)[..|host|] == host && (host + tail)[|host|..] == tail
  {
    HttpsIsLower(host + tail);
    HostEndsAtPath(host, tail);
  }

  lemma ReadTarget(value: string, hosts: set<string>, host: string, tail: string, target: string)
    requires |value| >= 8 && Lower(value[..8]) == "https://" && value[8..] == host + tail
    requires EndOfHost(host + tail) == |host| && (host + tail)[..|host|] == host && (host + tail)[|host|..] == tail
    requires HostAllowed(host, hosts) && Find(tail, '#') == |target| && |target| < |tail| && tail[..|target|] == target
    ensures ParseProviderUrl(value, hosts) ==
      if |target| + 1 < |tail| then None
      else Some(Location(target[..Find(target, '?')], if Find(target, '?') < |target| then target[Find(target, '?') + 1..] else ""))
  {
    var rest := value[8..];
    var end := EndOfHost(rest);
    assert end == |host| && rest[..end] == host && rest[end..] == tail;
    assert HostAllowed(rest[..end], hosts);
    if |target| + 1 < |tail| {
      assert Find(rest[end..], '#') + 1 < |rest[end..]|;
    } else {
      assert tail[..Find(tail, '#')] == target;
    }
  }
}
