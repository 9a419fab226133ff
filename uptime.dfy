/** The bot's uptime formatter: a whole number of seconds split into hours,
    minutes and seconds and rendered as `"<h>h <m>m <s>s"`. */
module Uptime {
  import opened Wrappers
  import opened Decimal

  datatype Uptime = Uptime(hours: int, minutes: int, seconds: int)

  /** Two `divmod` steps, by 3600 and then by 60. Python's `divmod` floors;
      with a positive divisor that agrees with Dafny's Euclidean `/` and `%`,
      negative counts included. */
  function Split(total: int): (u: Uptime)
    ensures u.hours * 3600 + u.minutes * 60 + u.seconds == total
    ensures 0 <= u.minutes < 60 && 0 <= u.seconds < 60
    ensures u.hours >= 0 <==> total >= 0
  {
    var hrs, rem := total / 3600, total % 3600;
    Uptime(hrs, rem / 60, rem % 60)
  }

  /** `Split` is the only decomposition with minutes and seconds in 0..59. */
  lemma SplitUnique(total: int, h: int, m: int, s: int)
    requires h * 3600 + m * 60 + s == total
    requires 0 <= m < 60 && 0 <= s < 60
    ensures Split(total) == Uptime(h, m, s)
  {
  }

  /** Hours are not reduced modulo 24: a count of a day or more shows 24h or more. */
  lemma HoursNotCapped(total: int)
    requires total >= 0
    ensures Split(total).hours * 3600 <= total < (Split(total).hours + 1) * 3600
    ensures total >= 86400 ==> Split(total).hours >= 24
  {
  }

  /** The text `f"{hrs}h {mins}m {secs}s"`; it reads back as exactly the
      components it was made from. */
  function Format(total: int): (t: string)
    ensures Parse(t) == Some(Split(total))
  {
    ParseRender(Split(total));
    Render(Split(total))
  }

  /** The first position of `c` in `s`, if any. */
  function IndexOf(s: string, c: char): (r: Option<nat>)
    ensures r.Some? ==> r.value < |s| && s[r.value] == c && c !in s[..r.value]
    ensures r.None? ==> c !in s
  {
    if s == [] then None
    else if s[0] == c then Some(0)
    else match IndexOf(s[1..], c)
      case None => None
      case Some(k) => Some(k + 1)
  }

  /** Reads a numeral terminated by `unit`, returning its value and what follows the unit. */
  function ReadField(t: string, unit: char): (r: Option<(int, string)>)
    ensures r.Some? ==> t == IntToDecimal(r.value.0) + [unit] + r.value.1
  {
    match IndexOf(t, unit)
    case None => None
    case Some(i) =>
      match ParseInt(t[..i])
      case None => None
      case Some(n) =>
        assert t == t[..i] + [unit] + t[i + 1..];
        Some((n, t[i + 1..]))
  }

  /** Reads an uptime text back into its three components. Only the exact
      text `Render` writes is accepted. */
  function Parse(t: string): (r: Option<Uptime>)
    ensures r.Some? ==> t == Render(r.value)
  {
    match ReadField(t, 'h')
    case None => None
    case Some((h, rest)) =>
      ParseAfterHours(h, rest)
  }

  function ParseAfterHours(h: int, t: string): (r: Option<Uptime>)
    ensures r.Some? ==> r.value.hours == h
    ensures r.Some? ==> t == MinutesPart(r.value.minutes, r.value.seconds)
  {
    if |t| == 0 || t[0] != ' ' then None
    else match ReadField(t[1..], 'm')
      case None => None
      case Some((m, rest)) =>
        var r := ParseAfterMinutes(h, m, rest);
        if r.Some? then
          var d := IntToDecimal(m);
          assert t == [' '] + t[1..];
          Regroup([' '], d, ['m'], rest);
          r
        else r
  }

  function ParseAfterMinutes(h: int, m: int, t: string): (r: Option<Uptime>)
    ensures r.Some? ==> r.value.hours == h && r.value.minutes == m
    ensures r.Some? ==> t == SecondsPart(r.value.seconds)
  {
    if |t| == 0 || t[0] != ' ' then None
    else match ReadField(t[1..], 's')
      case None => None
      case Some((s, rest)) =>
        assert t == [' '] + t[1..];
        if rest == [] then Some(Uptime(h, m, s)) else None
  }

  lemma ReadFieldOf(n: int, unit: char, rest: string)
    requires !IsDigit(unit) && unit != '-'
    ensures ReadField(IntToDecimal(n) + [unit] + rest, unit) == Some((n, rest))
  {
    var d := IntToDecimal(n);
    var t := d + [unit] + rest;
    assert unit !in d;
    var i := IndexOf(t, unit);
    assert t[|d|] == unit;
    assert i == Some(|d|);
    assert t[..|d|] == d;
    assert t[|d| + 1..] == rest;
    IntRoundTrip(n);
  }

  /** The text of `Format` for given components, `"<h>h <m>m <s>s"`, built
      from its last field backwards. */
  function Render(u: Uptime): string {
    IntToDecimal(u.hours) + ['h'] + MinutesPart(u.minutes, u.seconds)
  }

  /** The `" <m>m <s>s"` rest of the text after the hours. */
  function MinutesPart(m: int, s: int): string {
    [' '] + IntToDecimal(m) + ['m'] + SecondsPart(s)
  }

  /** The `" <s>s"` end of the text. */
  function SecondsPart(s: int): string {
    [' '] + IntToDecimal(s) + ['s']
  }

  lemma Regroup(a: string, b: string, c: string, e: string)
    ensures a + (b + c + e) == a + b + c + e
  {
  }

  lemma ParseSecondsPart(h: int, m: int, s: int)
    ensures ParseAfterMinutes(h, m, SecondsPart(s)) == Some(Uptime(h, m, s))
  {
    ReadFieldOf(s, 's', []);
    assert SecondsPart(s)[1..] == IntToDecimal(s) + ['s'] + [];
  }

  lemma ParseMinutesPart(h: int, m: int, s: int)
    ensures ParseAfterHours(h, MinutesPart(m, s)) == Some(Uptime(h, m, s))
  {
    ReadFieldOf(m, 'm', SecondsPart(s));
    assert MinutesPart(m, s)[1..] == IntToDecimal(m) + ['m'] + SecondsPart(s);
    ParseSecondsPart(h, m, s);
  }

  lemma ParseRender(u: Uptime)
    ensures Parse(Render(u)) == Some(u)
  {
    ReadFieldOf(u.hours, 'h', MinutesPart(u.minutes, u.seconds));
    ParseMinutesPart(u.hours, u.minutes, u.seconds);
  }

  /** Only the text `Format` writes passes as the rendering of a count:
      zero-padded or otherwise re-spelled numerals are rejected by `Parse`. */
  lemma FormatDetermined(total: int, t: string)
    requires Parse(t) == Some(Split(total))
    ensures t == Format(total)
  {
  }

  /** Different second counts never render as the same text. */
  lemma FormatInjective(a: int, b: int)
    requires Format(a) == Format(b)
    ensures a == b
  {
  }

  /** One day, one hour, one minute and one second is shown as 25 hours. */
  lemma FormatExample()
    ensures Format(90061) == "25h 1m 1s"
  {
    SplitUnique(90061, 25, 1, 1);
    assert IntToDecimal(25) == "25" && IntToDecimal(1) == "1";
    assert Render(Uptime(25, 1, 1)) == "25h 1m 1s";
  }
}
