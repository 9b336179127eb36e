/**
 * The human uptime form of the system block: a second count decomposed by
 * floor division into days, hours and minutes and rendered as
 * `<d>d <h>h <m>m` (_fmt_uptime). Python's divmod floors; Dafny's `/` and `%`
 * on int are Euclidean, which agrees with flooring for the positive divisors
 * used here, so negative counts behave as in the source.
 */
module Uptime {
  import opened Wrappers

  /** A second count broken into whole days, hours and minutes; leftover seconds are dropped. */
  datatype Duration = Duration(days: int, hours: int, minutes: int)

  /** The decomposition done by the three divmod steps. */
  function Decompose(seconds: int): (r: Duration)
    ensures 0 <= r.hours < 24 && 0 <= r.minutes < 60
    ensures seconds - 60 < r.days * 86400 + r.hours * 3600 + r.minutes * 60 <= seconds
    ensures r.days * 1440 + r.hours * 60 + r.minutes == seconds / 60
    ensures seconds >= 0 ==> r.days >= 0
  {
    var days, rem := seconds / 86400, seconds % 86400;
    var hours, rem2 := rem / 3600, rem % 3600;
    var minutes := rem2 / 60;
    Duration(days, hours, minutes)
  }

  // ---- decimal text, as Python's str() prints an int ----

  predicate IsDigit(c: char) { '0' <= c <= '9' }

  predicate AllDigits(s: string) { forall i :: 0 <= i < |s| ==> IsDigit(s[i]) }

  function DigitChar(d: nat): (c: char)
    requires d < 10
    ensures IsDigit(c)
  {
    ('0' as int + d) as char
  }

  function DigitValue(c: char): (d: nat)
    requires IsDigit(c)
    ensures d < 10
  {
    c as int - '0' as int
  }

  /** The value of a string of decimal digits, most significant first. */
  function DigitsValue(ds: string): nat
    requires AllDigits(ds)
  {
    if ds == [] then 0 else DigitsValue(ds[..|ds| - 1]) * 10 + DigitValue(ds[|ds| - 1])
  }

  /** The decimal digits of `n`, without leading zeros. */
  function NatToString(n: nat): (s: string)
    ensures |s| >= 1 && AllDigits(s)
  {
    if n < 10 then [DigitChar(n)] else NatToString(n / 10) + [DigitChar(n % 10)]
  }

  /** Python's str() of an int: a minus sign before the digits of a negative number. */
  function IntToString(n: int): string
  {
    if n < 0 then "-" + NatToString(-n) else NatToString(n)
  }

  lemma {:induction false} NatToStringValue(n: nat)
    ensures DigitsValue(NatToString(n)) == n
  {
    if n >= 10 {
      var s := NatToString(n);
      NatToStringValue(n / 10);
      assert s[..|s| - 1] == NatToString(n / 10);
    }
  }

  // ---- reading the uptime text back ----

  /** The length of the run of digits at the start of `s`. */
  function DigitRun(s: string): (k: nat)
    ensures k <= |s| && AllDigits(s[..k]) && (k < |s| ==> !IsDigit(s[k]))
  {
    if s == [] || !IsDigit(s[0]) then 0
    else
      var k := 1 + DigitRun(s[1..]);
      assert s[..k] == [s[0]] + s[1..][..k - 1];
      k
  }

  /** A non-empty run of digits at the start of `s`, its value and what follows it. */
  function ParseNat(s: string): Option<(nat, string)>
  {
    var k := DigitRun(s);
    if k == 0 then None else Some((DigitsValue(s[..k]), s[k..]))
  }

  /** An optionally signed decimal number at the start of `s`. */
  function ParseInt(s: string): Option<(int, string)>
  {
    if |s| > 0 && s[0] == '-' then
      match ParseNat(s[1..])
      case None => None
      case Some((v, rest)) => Some((-(v as int), rest))
    else
      match ParseNat(s)
      case None => None
      case Some((v, rest)) => Some((v as int, rest))
  }

  /** What follows the literal `p` at the start of `s`. */
  function Expect(p: string, s: string): Option<string>
  {
    if |p| <= |s| && s[..|p|] == p then Some(s[|p|..]) else None
  }

  /** Reads `<d>d <h>h <m>m` back into its three numbers. */
  function ParseUptime(s: string): Option<Duration>
  {
    match ParseInt(s)
    case None => None
    case Some((d, r1)) =>
      match Expect("d ", r1)
      case None => None
      case Some(r2) =>
        match ParseNat(r2)
        case None => None
        case Some((h, r3)) =>
          match Expect("h ", r3)
          case None => None
          case Some(r4) =>
            match ParseNat(r4)
            case None => None
            case Some((m, r5)) =>
              if r5 == "m" then Some(Duration(d, h, m)) else None
  }

  lemma {:induction false} DigitRunOfDigits(ds: string, rest: string)
    requires AllDigits(ds)
    requires rest == [] || !IsDigit(rest[0])
    ensures DigitRun(ds + rest) == |ds|
  {
    if ds != [] {
      assert (ds + rest)[1..] == ds[1..] + rest;
      DigitRunOfDigits(ds[1..], rest);
    }
  }

  lemma ParseNatToString(n: nat, rest: string)
    requires rest == [] || !IsDigit(rest[0])
    ensures ParseNat(NatToString(n) + rest) == Some((n, rest))
  {
    var ds := NatToString(n);
    DigitRunOfDigits(ds, rest);
    assert (ds + rest)[..|ds|] == ds && (ds + rest)[|ds|..] == rest;
    NatToStringValue(n);
  }

  lemma ParseIntSigned(digits: string, v: nat, rest: string)
    requires ParseNat(digits + rest) == Some((v, rest))
    ensures ParseInt("-" + digits + rest) == Some((-(v as int), rest))
  {
    var s := "-" + digits + rest;
    assert s[0] == '-' && s[1..] == digits + rest;
  }

  lemma ParseIntUnsigned(digits: string, v: nat, rest: string)
    requires digits != [] && IsDigit(digits[0])
    requires ParseNat(digits + rest) == Some((v, rest))
    ensures ParseInt(digits + rest) == Some((v as int, rest))
  {
    assert (digits + rest)[0] == digits[0];
  }

  lemma ParseIntToString(n: int, rest: string)
    requires rest == [] || !IsDigit(rest[0])
    ensures ParseInt(IntToString(n) + rest) == Some((n, rest))
  {
    if n < 0 {
      ParseNatToString(-n, rest);
      ParseIntSigned(NatToString(-n), -n, rest);
    } else {
      ParseNatToString(n, rest);
      ParseIntUnsigned(NatToString(n), n, rest);
    }
  }

  lemma ExpectPrefix(p: string, rest: string)
    ensures Expect(p, p + rest) == Some(rest)
  {
  }

  /** _fmt_uptime: the days, hours and minutes of `seconds` as `<d>d <h>h <m>m`. */
  function FmtUptime(seconds: int): string
  {
    var u := Decompose(seconds);
    IntToString(u.days) + "d " + NatToString(u.hours) + "h " + NatToString(u.minutes) + "m"
  }

  /** The rendering reads back as the days, hours and minutes of the count. */
  lemma FmtUptimeRoundTrip(seconds: int)
    ensures ParseUptime(FmtUptime(seconds)) == Some(Decompose(seconds))
  {
    var u := Decompose(seconds);
    var dText, hText, mText := IntToString(u.days), NatToString(u.hours), NatToString(u.minutes);
    assert FmtUptime(seconds) == dText + ("d " + (hText + ("h " + (mText + "m"))));
    ParseIntToString(u.days, "d " + (hText + ("h " + (mText + "m"))));
    ExpectPrefix("d ", hText + ("h " + (mText + "m")));
    ParseNatToString(u.hours, "h " + (mText + "m"));
    ExpectPrefix("h ", mText + "m");
    ParseNatToString(u.minutes, "m");
  }

  /** Two second counts render alike exactly when they fall in the same minute. */
  lemma FmtUptimeSameMinute(a: int, b: int)
    ensures FmtUptime(a) == FmtUptime(b) <==> a / 60 == b / 60
  {
    var u, v := Decompose(a), Decompose(b);
    if FmtUptime(a) == FmtUptime(b) {
      FmtUptimeRoundTrip(a);
      FmtUptimeRoundTrip(b);
      assert Some(u) == Some(v);
    }
    if a / 60 == b / 60 {
      DurationUnique(u, v);
    }
  }

  lemma DurationUnique(u: Duration, v: Duration)
    requires 0 <= u.hours < 24 && 0 <= u.minutes < 60
    requires 0 <= v.hours < 24 && 0 <= v.minutes < 60
    requires u.days * 1440 + u.hours * 60 + u.minutes == v.days * 1440 + v.hours * 60 + v.minutes
    ensures u == v
  {
  }

  /** The renderings pinned down as examples. */
  lemma FmtUptimeZero()
    ensures FmtUptime(0) == "0d 0h 0m"
  {
  }

  lemma FmtUptimeOneHour()
    ensures FmtUptime(3600) == "0d 1h 0m"
  {
  }

  lemma FmtUptimeOneDay()
    ensures FmtUptime(86400) == "1d 0h 0m"
  {
  }

  lemma FmtUptimeMixed()
    ensures FmtUptime(86400 + 7200 + 1800) == "1d 2h 30m"
  {
  }
}
