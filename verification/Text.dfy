/** The few string operations of Python the models need. */
module Text {

  predicate IsDigit(c: char) { '0' <= c <= '9' }

  predicate IsUpper(c: char) { 'A' <= c <= 'Z' }

  predicate IsSpace(c: char) {
    c == ' ' || '\t' <= c <= '\r' || '\U{1C}' <= c <= '\U{1F}'
  }

  function LStrip(s: string): string {
    if s != "" && IsSpace(s[0]) then LStrip(s[1..]) else s
  }

  function RStrip(s: string): string {
    if s != "" && IsSpace(s[|s| - 1]) then RStrip(s[..|s| - 1]) else s
  }

  /** str.strip() */
  function Strip(s: string): string { RStrip(LStrip(s)) }

  predicate Stripped(s: string) { s != "" ==> !IsSpace(s[0]) && !IsSpace(s[|s| - 1]) }

  lemma StripStripped(s: string)
    requires Stripped(s)
    ensures Strip(s) == s
  { }

  lemma {:induction false} LStripResult(s: string)
    ensures |LStrip(s)| <= |s| && LStrip(s) == s[|s| - |LStrip(s)|..]
    ensures forall k :: 0 <= k < |s| - |LStrip(s)| ==> IsSpace(s[k])
    ensures LStrip(s) != "" ==> !IsSpace(LStrip(s)[0])
  {
    if s != "" && IsSpace(s[0]) {
      LStripResult(s[1..]);
      forall k | 0 <= k < |s| - |LStrip(s)| ensures IsSpace(s[k]) {
        if k > 0 { assert IsSpace(s[1..][k - 1]); }
      }
    }
  }

  lemma {:induction false} RStripResult(s: string)
    ensures RStrip(s) <= s && forall k :: |RStrip(s)| <= k < |s| ==> IsSpace(s[k])
    ensures RStrip(s) != "" ==> !IsSpace(RStrip(s)[|RStrip(s)| - 1])
  {
    if s != "" && IsSpace(s[|s| - 1]) {
      RStripResult(s[..|s| - 1]);
    }
  }

  predicate OnlySpace(s: string) { forall k :: 0 <= k < |s| ==> IsSpace(s[k]) }

  /** Stripping takes white space, and nothing else, from both ends, and leaves none there. */
  lemma StripResult(s: string)
    ensures Stripped(Strip(s))
    ensures exists i, j :: 0 <= i <= j <= |s| && Strip(s) == s[i..j] && OnlySpace(s[..i]) && OnlySpace(s[j..])
  {
    LStripResult(s);
    RStripResult(LStrip(s));
    var i := |s| - |LStrip(s)|;
    assert Strip(s) == s[i..i + |Strip(s)|];
  }

  lemma StripTwice(s: string)
    ensures Strip(Strip(s)) == Strip(s)
  {
    StripResult(s);
    StripStripped(Strip(s));
  }

  predicate StartsWith(s: string, prefix: string) { prefix <= s }

  /** The first place of a character, the length when there is none. */
  function Find(s: string, c: char): (i: nat)
    ensures i <= |s| && (i < |s| ==> s[i] == c) && forall k :: 0 <= k < i ==> s[k] != c
  {
    if s == "" || s[0] == c then 0 else 1 + Find(s[1..], c)
  }

  lemma FindIs(s: string, c: char, i: nat)
    requires i <= |s| && (i < |s| ==> s[i] == c) && forall k :: 0 <= k < i ==> s[k] != c
    ensures Find(s, c) == i
  { }

  /** str.split(c) */
  function SplitOn(s: string, c: char): (parts: seq<string>)
    ensures parts != []
  {
    var i := Find(s, c);
    if i == |s| then [s] else [s[..i]] + SplitOn(s[i + 1..], c)
  }

  lemma SplitWhole(s: string, c: char)
    requires c !in s
    ensures SplitOn(s, c) == [s]
  {
    FindIs(s, c, |s|);
  }

  lemma SplitFirst(a: string, c: char, b: string)
    requires c !in a
    ensures SplitOn(a + [c] + b, c) == [a] + SplitOn(b, c)
  {
    var s := a + [c] + b;
    FindIs(s, c, |a|);
    assert s[..|a|] == a && s[|a| + 1..] == b;
  }

  /** c.join(parts) */
  function JoinOn(parts: seq<string>, c: char): string
    requires parts != []
  {
    if |parts| == 1 then parts[0] else parts[0] + [c] + JoinOn(parts[1..], c)
  }

  lemma {:induction false} JoinedSplits(parts: seq<string>, c: char)
    requires parts != [] && forall i :: 0 <= i < |parts| ==> c !in parts[i]
    ensures SplitOn(JoinOn(parts, c), c) == parts
  {
    if |parts| == 1 {
      SplitWhole(parts[0], c);
    } else {
      JoinedSplits(parts[1..], c);
      SplitFirst(parts[0], c, JoinOn(parts[1..], c));
    }
  }

  /** Splitting a text at one of its separators splits both sides. */
  lemma {:induction false} SplitAtSeparator(a: string, c: char, b: string)
    ensures SplitOn(a + [c] + b, c) == SplitOn(a, c) + SplitOn(b, c)
    decreases |a|
  {
    var i := Find(a, c);
    if i == |a| {
      SplitFirst(a, c, b);
    } else {
      var first, rest := a[..i], a[i + 1..];
      SplitAtSeparator(rest, c, b);
      assert a == first + [c] + rest;
      SplitFirst(first, c, rest);
      FirstSplitOff(first, c, rest + [c] + b, a + [c] + b) by {
        AppendedTwice(first, c, rest + [c] + b, rest, b);
      }
      Regrouped([first], SplitOn(rest, c), SplitOn(b, c));
    }
  }

  lemma FirstSplitOff(first: string, c: char, rest: string, whole: string)
    requires c !in first && whole == first + [c] + rest
    ensures SplitOn(whole, c) == [first] + SplitOn(rest, c)
  {
    SplitFirst(first, c, rest);
  }

  lemma Regrouped(a: seq<string>, b: seq<string>, c: seq<string>)
    ensures a + (b + c) == a + b + c
  { }

  lemma AppendedTwice(first: string, c: char, all: string, rest: string, b: string)
    requires all == rest + [c] + b
    ensures first + [c] + all == first + [c] + rest + [c] + b
  { }

  lemma {:induction false} JoinedConcat(a: seq<string>, b: seq<string>, c: char)
    requires a != [] && b != []
    ensures JoinOn(a + b, c) == JoinOn(a, c) + [c] + JoinOn(b, c)
  {
    if |a| == 1 {
      assert (a + b)[1..] == b;
    } else {
      JoinedConcat(a[1..], b, c);
      assert (a + b)[1..] == a[1..] + b;
      AppendedTwice(a[0], c, JoinOn(a[1..] + b, c), JoinOn(a[1..], c), JoinOn(b, c));
    }
  }

  // ---------- str.lower(), on ASCII and the two letters that become ASCII ----------

  const DOTTED_CAPITAL_I := '\U{0130}'
  const KELVIN := '\U{212A}'
  const COMBINING_DOT := '\U{0307}'

  /** The dotted capital I becomes two characters. */
  function LowerOne(c: char): string {
    if IsUpper(c) then [(c as int + 32) as char]
    else if c == DOTTED_CAPITAL_I then ['i', COMBINING_DOT]
    else if c == KELVIN then "k"
    else [c]
  }

  function Lower(s: string): string { if s == "" then "" else LowerOne(s[0]) + Lower(s[1..]) }

  predicate IsLow(c: char) { !IsUpper(c) && c != DOTTED_CAPITAL_I && c != KELVIN }

  predicate AllLow(s: string) { forall i :: 0 <= i < |s| ==> IsLow(s[i]) }

  lemma {:induction false} LowIsLower(s: string)
    requires AllLow(s)
    ensures Lower(s) == s
  {
    if s != "" {
      assert IsLow(s[0]) && forall i :: 0 <= i < |s[1..]| ==> IsLow(s[1..][i]) by {
        forall i | 0 <= i < |s[1..]| ensures IsLow(s[1..][i]) {
          assert IsLow(s[i + 1]);
        }
      }
      LowIsLower(s[1..]);
      assert LowerOne(s[0]) == [s[0]] && s == [s[0]] + s[1..];
    }
  }

  lemma {:induction false} LowerIsLow(s: string)
    ensures AllLow(Lower(s))
  {
    if s != "" {
      LowerIsLow(s[1..]);
    }
  }

  lemma {:induction false} LowerOfConcat(a: string, b: string)
    ensures Lower(a + b) == Lower(a) + Lower(b)
  {
    if a == "" {
      assert a + b == b;
    } else {
      LowerOfConcat(a[1..], b);
      assert (a + b)[0] == a[0] && (a + b)[1..] == a[1..] + b;
    }
  }
}
