/** The clock times of a schedule and the next run they lead to. Instants are naive
    local times, in microseconds since some midnight. */
module ScheduleTimes {

  import opened Common
  import opened Text

  const MINUTE := 60_000_000
  const DAY := 86_400_000_000

  // ---------- numbers and clock times as text ----------

  function Digit(c: char): nat requires IsDigit(c) { c as nat - '0' as nat }

  /** Digits, single underscores between them allowed. */
  function Digits(s: string): Option<nat> {
    if s == "" || !IsDigit(s[|s| - 1]) then None
    else if |s| == 1 then Some(Digit(s[0]))
    else
      var before := if s[|s| - 2] == '_' then s[..|s| - 2] else s[..|s| - 1];
      var high := Digits(before);
      if high.None? then None else Some(10 * high.value + Digit(s[|s| - 1]))
  }

  function Negative(n: int): int { -n }

  /** Python's int() of a text. */
  function ParseInt(text: string): Option<int> {
    var s := Strip(text);
    if s != "" && s[0] == '-' then
      var n := Digits(s[1..]);
      if n.None? then None else Some(Negative(n.value))
    else
      var n := Digits(if s != "" && s[0] == '+' then s[1..] else s);
      if n.None? then None else Some(n.value)
  }

  function Clamp(lo: int, hi: int, n: int): (r: int)
    requires lo <= hi
    ensures lo <= r <= hi && (lo <= n <= hi ==> r == n)
  {
    Max(lo, Min(hi, n))
  }

  /** Minutes since midnight; below 1440. */
  type Clock = c: nat | c < 1440

  /** `_normalize_time_token`, as the clock time it stands for. */
  function NormalizedToken(token: string): Option<Clock> {
    var stripped := Strip(token);
    if stripped == "" then None
    else
      var text := if ':' in stripped then stripped else stripped + ":00";
      var at := Find(text, ':');
      if at == |text| then None
      else
        var hour, minute := ParseInt(text[..at]), ParseInt(text[at + 1..]);
        if hour.None? || minute.None? then None
        else Some(60 * Clamp(0, 23, hour.value) + Clamp(0, 59, minute.value))
  }

  function TwoDigits(n: nat): string requires n < 100 { [('0' as int + n / 10) as char, ('0' as int + n % 10) as char] }

  /** HH:MM */
  function Print(c: Clock): string { TwoDigits(c / 60) + ":" + TwoDigits(c % 60) }

  datatype Reading = NotATime | OutOfRange | Reads(clock: Clock)

  /** What `_calculate_next_run` reads in a token: the first two fields. */
  function Read(token: string): Reading {
    var at := Find(token, ':');
    if at == |token| then NotATime
    else
      var rest := token[at + 1..];
      var hour, minute := ParseInt(token[..at]), ParseInt(rest[..Find(rest, ':')]);
      if hour.None? || minute.None? then NotATime
      else if 0 <= hour.value < 24 && 0 <= minute.value < 60 then Reads(60 * hour.value + minute.value)
      else OutOfRange
  }

  lemma TwoDigitsRead(n: nat)
    requires n < 100
    ensures ParseInt(TwoDigits(n)) == Some(n) && ':' !in TwoDigits(n)
  {
    var s := TwoDigits(n);
    StripStripped(s);
    assert s[..1] == [s[0]];
    assert Digits(s[..1]) == Some(n / 10);
  }

  /** What normalisation prints is HH:MM, and read back as the same clock time. */
  lemma PrintedClockIsRead(c: Clock)
    ensures Read(Print(c)) == Reads(c)
    ensures |Print(c)| == 5 && Print(c)[2] == ':' && forall i :: 0 <= i < 5 && i != 2 ==> IsDigit(Print(c)[i])
    ensures 60 * (10 * Digit(Print(c)[0]) + Digit(Print(c)[1])) + (10 * Digit(Print(c)[3]) + Digit(Print(c)[4])) == c
    ensures 10 * Digit(Print(c)[0]) + Digit(Print(c)[1]) < 24 && 10 * Digit(Print(c)[3]) + Digit(Print(c)[4]) < 60
  {
    var h, m := TwoDigits(c / 60), TwoDigits(c % 60);
    TwoDigitsRead(c / 60);
    TwoDigitsRead(c % 60);
    FindIs(Print(c), ':', 2);
    assert Print(c)[..2] == h && Print(c)[3..] == m;
    FindIs(m, ':', 2);
    assert m[..2] == m;
  }

  predicate InRange(n: int, value: int, last: int) {
    && (0 <= value <= last ==> n == value) && (value < 0 ==> n == 0) && (value > last ==> n == last)
  }

  /** A token as normalisation reads it: the number before the first colon is the hour and
      what follows the minute, each moved into its range; a text that is no number makes
      the token invalid. */
  lemma TokenIsHourAndMinute(hour: string, minute: string)
    requires ':' !in hour && Strip(hour + ":" + minute) == hour + ":" + minute
    ensures
      var h, m, c := ParseInt(hour), ParseInt(minute), NormalizedToken(hour + ":" + minute);
      && (c.Some? <==> h.Some? && m.Some?)
      && (c.Some? ==> InRange(c.value / 60, h.value, 23) && InRange(c.value % 60, m.value, 59))
  {
    var text := hour + ":" + minute;
    FindIs(text, ':', |hour|);
    assert text[..|hour|] == hour && text[|hour| + 1..] == minute;
  }

  /** A sign in front of a number. */
  lemma SignedNumber(digits: string, n: int)
    requires digits != "" && IsDigit(digits[0]) && Stripped(digits) && ParseInt(digits) == Some(n)
    ensures ParseInt("-" + digits) == Some(-n) && ParseInt("+" + digits) == Some(n)
  {
    StripStripped(digits);
    StripStripped("-" + digits);
    StripStripped("+" + digits);
    assert ("-" + digits)[1..] == digits && ("+" + digits)[1..] == digits;
  }

  /** The calculation reads the first two fields, and does not move them into their range. */
  lemma ReadsTwoFields(hour: string, minute: string, more: string)
    requires ':' !in hour && ':' !in minute && (more == "" || more[0] == ':')
    ensures
      var h, m, r := ParseInt(hour), ParseInt(minute), Read(hour + (":" + (minute + more)));
      && (r.NotATime? <==> h.None? || m.None?)
      && (r.Reads? ==> r.clock / 60 == h.value && r.clock % 60 == m.value)
      && (r.OutOfRange? ==> !(0 <= h.value <= 23 && 0 <= m.value <= 59))
  {
    var rest := minute + more;
    var token := hour + (":" + rest);
    FindIs(token, ':', |hour|);
    assert token[..|hour|] == hour && token[|hour| + 1..] == rest;
    FindIs(rest, ':', |minute|);
    assert rest[..|minute|] == minute;
  }

  /** What is printed is such a token, and a number alone a full hour. */
  lemma PrintedClockIsNormal(c: Clock, hour: nat)
    requires hour < 24
    ensures NormalizedToken(Print(c)) == Some(c)
    ensures NormalizedToken(TwoDigits(hour)) == Some(60 * hour)
  {
    var h, m := TwoDigits(c / 60), TwoDigits(c % 60);
    TwoDigitsRead(c / 60);
    TwoDigitsRead(c % 60);
    StripStripped(Print(c));
    TokenIsHourAndMinute(h, m);
    SameHourAndMinute(NormalizedToken(Print(c)).value, c);
    FullHour(hour);
  }

  lemma SameHourAndMinute(a: nat, b: nat)
    requires a / 60 == b / 60 && a % 60 == b % 60
    ensures a == b
  { }

  lemma FullHour(hour: nat)
    requires hour < 24
    ensures NormalizedToken(TwoDigits(hour)) == Some(60 * hour)
  {
    var text := TwoDigits(hour);
    TwoDigitsRead(hour);
    StripStripped(text);
    FindIs(text + ":00", ':', 2);
    assert (text + ":00")[..2] == text && (text + ":00")[3..] == TwoDigits(0);
    TwoDigitsRead(0);
  }

  // ---------- sorted(set(...)) ----------

  predicate Increasing(s: seq<Clock>) { forall i, j :: 0 <= i < j < |s| ==> s[i] < s[j] }

  function Insert(c: Clock, s: seq<Clock>): seq<Clock> {
    if s == [] || c < s[0] then [c] + s
    else if c == s[0] then s
    else [s[0]] + Insert(c, s[1..])
  }

  lemma {:induction false} InsertKeepsIncreasing(c: Clock, s: seq<Clock>)
    requires Increasing(s)
    ensures Increasing(Insert(c, s))
    ensures forall x :: x in Insert(c, s) <==> x == c || x in s
  {
    if s != [] && c > s[0] {
      var rest := Insert(c, s[1..]);
      InsertKeepsIncreasing(c, s[1..]);
      assert s == [s[0]] + s[1..];
      forall j | 0 <= j < |rest| ensures s[0] < rest[j] {
        assert rest[j] in rest;
      }
    }
  }

  /** One of the tokens stands for this clock time. */
  predicate Given(values: seq<string>, c: Clock) {
    values != [] && (NormalizedToken(values[|values| - 1]) == Some(c) || Given(values[..|values| - 1], c))
  }

  lemma OneMoreGiven(values: seq<string>, i: nat)
    requires i < |values|
    ensures forall c: Clock :: Given(values[..i + 1], c) <==> NormalizedToken(values[i]) == Some(c) || Given(values[..i], c)
  {
    assert values[..i + 1][..i] == values[..i];
  }

  function Printed(clocks: seq<Clock>): (times: seq<string>)
    ensures |times| == |clocks| && forall i :: 0 <= i < |clocks| ==> times[i] == Print(clocks[i])
  {
    seq(|clocks|, i requires 0 <= i < |clocks| => Print(clocks[i]))
  }

  /** `_normalize_time_list`: the valid tokens, each clock time once, in order. */
  method NormalizeTimeList(values: seq<string>) returns (times: seq<string>)
    ensures exists clocks :: Increasing(clocks) && times == Printed(clocks) && forall c: Clock :: c in clocks <==> Given(values, c)
  {
    var sorted: seq<Clock> := [];
    for i := 0 to |values|
      invariant Increasing(sorted)
      invariant forall c: Clock :: c in sorted <==> Given(values[..i], c)
    {
      var parsed := NormalizedToken(values[i]);
      OneMoreGiven(values, i);
      if parsed.Some? {
        InsertKeepsIncreasing(parsed.value, sorted);
        sorted := Insert(parsed.value, sorted);
      }
    }
    assert values[..|values|] == values;
    times := Printed(sorted);
  }

  // ---------- the next run ----------

  datatype Entry = Entry(enabled: bool, fixed: bool, times: seq<string>, intervalMinutes: Option<int>)

  datatype NextRun = At(instant: int) | Never | InvalidTime

  /** Today at that time, or tomorrow when that is not after the reference. */
  function Candidate(c: Clock, reference: int): int {
    var today := reference - reference % DAY + c * MINUTE;
    if today <= reference then today + DAY else today
  }

  function Interval(entry: Entry): int {
    if entry.intervalMinutes.Some? then Max(1, entry.intervalMinutes.value) else 60
  }

  function Earlier(a: NextRun, b: int): NextRun { if a.At? && a.instant <= b then a else At(b) }

  /** The least candidate of the first tokens. */
  function Least(times: seq<string>, reference: int): NextRun {
    if times == [] then Never
    else
      var before, last := Least(times[..|times| - 1], reference), Read(times[|times| - 1]);
      if before.InvalidTime? || last.NotATime? then before
      else if last.OutOfRange? then InvalidTime
      else Earlier(before, Candidate(last.clock, reference))
  }

  function NextRunOf(entry: Entry, reference: int): NextRun {
    if entry.fixed && entry.times != [] then Least(entry.times, reference)
    else At(reference + Interval(entry) * MINUTE)
  }

  /** `_calculate_next_run` */
  method CalculateNextRun(entry: Entry, reference: int) returns (r: NextRun)
    ensures r == NextRunOf(entry, reference)
  {
    if !entry.fixed || entry.times == [] {
      return At(reference + Interval(entry) * MINUTE);
    }
    r := Never;
    for i := 0 to |entry.times|
      invariant r == Least(entry.times[..i], reference) && !r.InvalidTime?
    {
      assert entry.times[..i + 1][..i] == entry.times[..i];
      var reading := Read(entry.times[i]);
      match reading
      case NotATime =>
      case OutOfRange =>
        InvalidStays(entry.times, reference, i + 1);
        return InvalidTime;
      case Reads(clock) =>
        var candidate := Candidate(clock, reference);
        if !r.At? || candidate < r.instant {
          r := At(candidate);
        }
    }
    assert entry.times[..|entry.times|] == entry.times;
  }

  lemma {:induction false} InvalidStays(times: seq<string>, reference: int, i: nat)
    requires i <= |times| && Least(times[..i], reference).InvalidTime?
    ensures Least(times, reference).InvalidTime?
    decreases |times| - i
  {
    if i == |times| {
      assert times[..i] == times;
    } else {
      assert times[..i + 1][..i] == times[..i];
      InvalidStays(times, reference, i + 1);
    }
  }

  /** The instant shows, to the microsecond, one of the listed clock times. */
  predicate Listed(times: seq<string>, instant: int) {
    exists i :: 0 <= i < |times| && ShowsClock(times[i], instant)
  }

  predicate ShowsClock(token: string, instant: int) {
    Read(token).Reads? && instant % DAY == Read(token).clock * MINUTE
  }

  lemma CandidateIsNext(c: Clock, reference: int)
    ensures reference < Candidate(c, reference) <= reference + DAY
    ensures Candidate(c, reference) % DAY == c * MINUTE
    ensures forall x :: x > reference && x % DAY == c * MINUTE ==> Candidate(c, reference) <= x
  {
    var q := reference / DAY;
    assert reference == q * DAY + reference % DAY;
    forall x | x > reference && x % DAY == c * MINUTE ensures Candidate(c, reference) <= x {
      assert x == x / DAY * DAY + c * MINUTE;
    }
  }

  /** Whatever the tokens are: one out of range fails the calculation, unreadable ones are
      passed over, and otherwise the result is the least instant strictly after the
      reference that shows one of the times, at most a day later. */
  lemma {:induction false} FixedRunIsLeast(times: seq<string>, reference: int)
    ensures Least(times, reference).InvalidTime? <==> exists i :: 0 <= i < |times| && Read(times[i]).OutOfRange?
    ensures Least(times, reference).Never? <==> forall i :: 0 <= i < |times| ==> Read(times[i]).NotATime?
    ensures Least(times, reference).At? ==> IsNextRun(times, reference, Least(times, reference))
  {
    if times != [] {
      var init, last := times[..|times| - 1], times[|times| - 1];
      assert times == init + [last];
      FixedRunIsLeast(init, reference);
      if !Least(init, reference).InvalidTime? && Read(last).Reads? {
        var candidate := CandidateShows(last, reference);
        OneMoreTime(init, last, reference, Least(init, reference), candidate);
      } else if Least(init, reference).At? && Read(last).NotATime? {
        PassedOver(init, last, reference, Least(init, reference));
      }
    }
  }

  lemma PassedOver(init: seq<string>, last: string, reference: int, before: NextRun)
    requires IsNextRun(init, reference, before) && Read(last).NotATime?
    ensures IsNextRun(init + [last], reference, before)
  {
    var times := init + [last];
    var k :| 0 <= k < |init| && ShowsClock(init[k], before.instant);
    assert ShowsClock(times[k], before.instant);
    forall x | x > reference && Listed(times, x) ensures before.instant <= x {
      var i :| 0 <= i < |times| && ShowsClock(times[i], x);
      assert ShowsClock(init[i], x);
      assert Listed(init, x);
    }
  }

  lemma CandidateShows(token: string, reference: int) returns (candidate: int)
    requires Read(token).Reads?
    ensures candidate == Candidate(Read(token).clock, reference)
    ensures reference < candidate <= reference + DAY && ShowsClock(token, candidate)
    ensures forall x :: x > reference && ShowsClock(token, x) ==> candidate <= x
  {
    candidate := Candidate(Read(token).clock, reference);
    CandidateIsNext(Read(token).clock, reference);
  }

  /** The least instant after the reference that shows a listed time, within a day. */
  ghost predicate IsNextRun(times: seq<string>, reference: int, r: NextRun) {
    && r.At? && reference < r.instant <= reference + DAY && Listed(times, r.instant)
    && forall x :: x > reference && Listed(times, x) ==> r.instant <= x
  }

  lemma OneMoreTime(init: seq<string>, last: string, reference: int, before: NextRun, candidate: int)
    requires before.Never? || IsNextRun(init, reference, before)
    requires before.Never? ==> forall i :: 0 <= i < |init| ==> Read(init[i]).NotATime?
    requires reference < candidate <= reference + DAY && ShowsClock(last, candidate)
    requires forall x :: x > reference && ShowsClock(last, x) ==> candidate <= x
    ensures IsNextRun(init + [last], reference, Earlier(before, candidate))
  {
    var times := init + [last];
    assert ShowsClock(times[|init|], candidate);
    if before.At? {
      var k :| 0 <= k < |init| && ShowsClock(init[k], before.instant);
      assert ShowsClock(times[k], before.instant);
    }
    forall x | x > reference && Listed(times, x) ensures Earlier(before, candidate).instant <= x {
      var i :| 0 <= i < |times| && ShowsClock(times[i], x);
      if i < |init| {
        assert ShowsClock(init[i], x);
        assert Listed(init, x);
      }
    }
  }

  predicate ShowsOneOf(clocks: seq<Clock>, instant: int) { exists c :: c in clocks && instant % DAY == c * MINUTE }

  /** The next run of a schedule with these clock times: in fixed mode the first instant
      later than `now` at which one of them shows, otherwise so many minutes later, an hour
      when the number is missing and a minute when it is too small. */
  ghost predicate NextFor(entry: Entry, clocks: seq<Clock>, now: int, t: int) {
    && now < t
    && (entry.fixed && clocks != [] ==>
          t <= now + DAY && ShowsOneOf(clocks, t) && forall x :: x > now && ShowsOneOf(clocks, x) ==> t <= x)
    && (!entry.fixed || clocks == [] ==>
          && (entry.intervalMinutes.None? ==> t - now == 60 * MINUTE)
          && (entry.intervalMinutes.Some? && entry.intervalMinutes.value > 0 ==> t - now == entry.intervalMinutes.value * MINUTE)
          && (entry.intervalMinutes.Some? && entry.intervalMinutes.value <= 0 ==> t - now == MINUTE))
  }

  lemma ListedIsShown(clocks: seq<Clock>, x: int)
    ensures Listed(Printed(clocks), x) <==> ShowsOneOf(clocks, x)
  {
    forall i | 0 <= i < |clocks| ensures ShowsClock(Printed(clocks)[i], x) <==> x % DAY == clocks[i] * MINUTE {
      PrintedClockIsRead(clocks[i]);
    }
    if Listed(Printed(clocks), x) {
      var i :| 0 <= i < |clocks| && ShowsClock(Printed(clocks)[i], x);
      assert clocks[i] in clocks;
    }
    if ShowsOneOf(clocks, x) {
      var c :| c in clocks && x % DAY == c * MINUTE;
      var i :| 0 <= i < |clocks| && clocks[i] == c;
      assert ShowsClock(Printed(clocks)[i], x);
    }
  }

  /** What normalisation produces always has a next run. */
  lemma NextRunAfterReference(entry: Entry, clocks: seq<Clock>, reference: int)
    requires entry.times == Printed(clocks)
    ensures NextRunOf(entry, reference).At? && NextFor(entry, clocks, reference, NextRunOf(entry, reference).instant)
  {
    if entry.fixed && clocks != [] {
      FixedRunIsLeast(entry.times, reference);
      forall i | 0 <= i < |entry.times| ensures Read(entry.times[i]).Reads? {
        PrintedClockIsRead(clocks[i]);
      }
      assert Read(entry.times[0]).Reads?;
      forall x ensures Listed(entry.times, x) <==> ShowsOneOf(clocks, x) { ListedIsShown(clocks, x); }
    }
  }
}
