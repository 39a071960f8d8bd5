/**
 * Clock text: the `formatTime` rule shared by the players (`H:MM:SS` from one
 * hour on, `M:SS` below) and the target-duration parser that splits the text
 * on ':' and reads each part with `parseInt(part, 10)`.
 */
module TimeText {
  import opened Wrappers
  import opened Decimal

  // ---------------------------------------------------------------- formatting

  /** The fields of a template literal such as `${h}:${m}:${s}`, with a colon between each two. */
  function Join(fields: seq<string>): string
    requires |fields| >= 1
    decreases |fields|
  {
    if |fields| == 1 then fields[0] else fields[0] + ":" + Join(fields[1..])
  }

  /** `h:mm:ss` when hours > 0, otherwise `m:ss`; minutes and seconds padded to two digits. */
  function Render(hours: nat, mins: nat, secs: nat): string {
    if hours > 0 then
      Join([NatToString(hours), Pad2(mins), Pad2(secs)])
    else
      Join([NatToString(mins), Pad2(secs)])
  }

  /** The clock text of a whole number of seconds. */
  function FormatClock(n: nat): string {
    Render(n / 3600, (n % 3600) / 60, n % 60)
  }

  /** JavaScript's `s % k` for s >= 0 and k > 0 (truncating, hence flooring here). */
  function JsMod(s: real, k: real): (r: real)
    requires s >= 0.0 && k > 0.0
    ensures 0.0 <= r
  {
    s - k * (s / k).Floor as real
  }

  /**
   * `formatTime(seconds)` as the players write it, on real seconds:
   * `Math.floor(s / 3600)`, `Math.floor((s % 3600) / 60)`, `Math.floor(s % 60)`.
   */
  function FormatTime(seconds: real): string
    requires seconds >= 0.0
  {
    var hours := (seconds / 3600.0).Floor;
    var mins := (JsMod(seconds, 3600.0) / 60.0).Floor;
    var secs := JsMod(seconds, 60.0).Floor;
    Render(hours, mins, secs)
  }

  lemma FloorDiv(s: real, k: nat)
    requires s >= 0.0 && k > 0
    ensures (s / k as real).Floor == s.Floor / k
  {
    var n := s.Floor;
    var q, r := n / k, n % k;
    var kr := k as real;
    assert n == q * k + r && 0 <= r < k;
    assert n + 1 <= (q + 1) * k;
    assert (q * k) as real == q as real * kr;
    assert ((q + 1) * k) as real == (q + 1) as real * kr;
    assert q as real * kr <= s < (q + 1) as real * kr;
    DivBounds(s, kr, q as real, (q + 1) as real);
  }

  lemma DivBounds(s: real, k: real, lo: real, hi: real)
    requires k > 0.0 && lo * k <= s < hi * k
    ensures lo <= s / k < hi
  {
    assert s / k * k == s;
  }

  lemma JsModFloor(s: real, k: nat)
    requires s >= 0.0 && k > 0
    ensures JsMod(s, k as real) == (s.Floor % k) as real + (s - s.Floor as real)
    ensures JsMod(s, k as real).Floor == s.Floor % k
  {
    FloorDiv(s, k);
    var n := s.Floor;
    assert n == (n / k) * k + n % k;
    assert ((n / k) * k) as real == k as real * (n / k) as real;
  }

  /** `formatTime` of real seconds is the clock text of the seconds rounded down. */
  lemma {:induction false} FormatTimeIsClockOfFloor(seconds: real)
    requires seconds >= 0.0
    ensures FormatTime(seconds) == FormatClock(seconds.Floor)
  {
    var n := seconds.Floor;
    FloorDiv(seconds, 3600);
    JsModFloor(seconds, 3600);
    JsModFloor(seconds, 60);
    var t := JsMod(seconds, 3600.0);
    FloorDiv(t, 60);
    var hours := (seconds / 3600.0).Floor;
    var mins := (t / 60.0).Floor;
    var secs := JsMod(seconds, 60.0).Floor;
    assert hours == n / 3600;
    assert mins == (n % 3600) / 60;
    assert secs == n % 60;
    assert FormatTime(seconds) == Render(hours, mins, secs);
  }

  // ---------------------------------------------------------------- parsing

  /** `text.split(":")`. */
  function Split(s: string): (parts: seq<string>)
    ensures |parts| >= 1
    decreases |s|
  {
    var i := IndexOf(s, ':');
    if i == |s| then [s] else [s[..i]] + Split(s[i + 1..])
  }

  lemma SplitNoColon(a: string)
    requires ':' !in a
    ensures Split(a) == [a]
  {
    forall j | 0 <= j < |a|
      ensures a[j] != ':'
    {
      assert a[j] in a;
    }
    assert a[..|a|] == a;
  }

  lemma SplitCons(a: string, b: string)
    requires ':' !in a
    ensures Split(a + ":" + b) == [a] + Split(b)
  {
    var s := a + ":" + b;
    assert s == a + [':'] + b;
    IndexOfAfter(a, ':', b);
    assert s[..|a|] == a;
    assert s[|a| + 1..] == b;
  }

  /** `parseInt(part, 10)`, for a part that is an optional sign and digits; `None` stands for NaN. */
  function ParseInt(s: string): Option<int> {
    if |s| > 0 && (s[0] == '-' || s[0] == '+') then
      var d := s[1..];
      if |d| > 0 && AllDigits(d) then
        var v: int := ParseDigits(d);
        Some(if s[0] == '-' then -v else v)
      else
        None
    else if |s| > 0 && AllDigits(s) then
      Some(ParseDigits(s))
    else
      None
  }

  /**
   * The `totalSeconds` that `handleDurationInputChange` computes from the text
   * split on ':'.
   */
  function TotalSeconds(text: string): Option<int> {
    PartsSeconds(Split(text))
  }

  /**
   * `m*60 + s` for two parts, `h*3600 + m*60 + s` for three, `None` (NaN) if
   * such a part is not a number, and 0 for any other number of parts.
   */
  function PartsSeconds(parts: seq<string>): Option<int> {
    if |parts| == 2 then
      match (ParseInt(parts[0]), ParseInt(parts[1]))
      case (Some(m), Some(s)) => Some(m * 60 + s)
      case _ => None
    else if |parts| == 3 then
      match (ParseInt(parts[0]), ParseInt(parts[1]), ParseInt(parts[2]))
      case (Some(h), Some(m), Some(s)) => Some(h * 3600 + m * 60 + s)
      case _ => None
    else
      Some(0)
  }

  lemma ParseIntDigits(s: string)
    requires |s| > 0 && AllDigits(s)
    ensures ParseInt(s) == Some(ParseDigits(s) as int)
  {
    assert IsDigit(s[0]);
  }

  /** Colon-free fields joined by colons split back into exactly those fields. */
  lemma {:induction false} SplitJoin(fields: seq<string>)
    requires |fields| >= 1
    requires forall i :: 0 <= i < |fields| ==> ':' !in fields[i]
    ensures Split(Join(fields)) == fields
    decreases |fields|
  {
    if |fields| == 1 {
      SplitNoColon(fields[0]);
    } else {
      SplitJoin(fields[1..]);
      SplitCons(fields[0], Join(fields[1..]));
      assert [fields[0]] + fields[1..] == fields;
    }
  }

  lemma ClockFields(n: nat)
    ensures n == (n / 3600) * 3600 + ((n % 3600) / 60) * 60 + n % 60
    ensures n / 3600 == 0 <==> n < 3600
  {
    var h, r := n / 3600, n % 3600;
    assert n == h * 3600 + r;
    var m, s := r / 60, r % 60;
    assert r == m * 60 + s;
    assert n % 60 == s by {
      assert n == (h * 60 + m) * 60 + s;
    }
  }

  /** Reading back a clock text gives the seconds it was made from. */
  lemma {:induction false} TotalSecondsOfClock(n: nat)
    ensures TotalSeconds(FormatClock(n)) == Some(n)
    ensures |Split(FormatClock(n))| == if n >= 3600 then 3 else 2
  {
    ClockFields(n);
    RenderReadsBack(n / 3600, (n % 3600) / 60, n % 60);
  }

  /** A rendered clock reads back as the seconds its fields stand for, from three parts iff there are hours. */
  lemma RenderReadsBack(hours: nat, mins: nat, secs: nat)
    ensures TotalSeconds(Render(hours, mins, secs)) == Some(hours * 3600 + mins * 60 + secs)
    ensures |Split(Render(hours, mins, secs))| == if hours > 0 then 3 else 2
  {
    if hours > 0 {
      HoursReadBack(hours, mins, secs);
    } else {
      MinutesReadBack(mins, secs);
    }
  }

  lemma HoursReadBack(hours: nat, mins: nat, secs: nat)
    ensures TotalSeconds(Join([NatToString(hours), Pad2(mins), Pad2(secs)])) == Some(hours * 3600 + mins * 60 + secs)
    ensures |Split(Join([NatToString(hours), Pad2(mins), Pad2(secs)]))| == 3
  {
    var a, b, c := NatToString(hours), Pad2(mins), Pad2(secs);
    assert |a| > 0 && AllDigits(a) && ParseDigits(a) == hours by {
      NatToStringReadsBack(hours);
    }
    assert |b| > 0 && AllDigits(b) && ParseDigits(b) == mins by {
      Pad2ReadsBack(mins);
    }
    assert |c| > 0 && AllDigits(c) && ParseDigits(c) == secs by {
      Pad2ReadsBack(secs);
    }
    JoinThreeReadsBack(a, b, c, hours, mins, secs);
  }

  lemma MinutesReadBack(mins: nat, secs: nat)
    ensures TotalSeconds(Join([NatToString(mins), Pad2(secs)])) == Some(mins * 60 + secs)
    ensures |Split(Join([NatToString(mins), Pad2(secs)]))| == 2
  {
    var a, b := NatToString(mins), Pad2(secs);
    assert |a| > 0 && AllDigits(a) && ParseDigits(a) == mins by {
      NatToStringReadsBack(mins);
    }
    assert |b| > 0 && AllDigits(b) && ParseDigits(b) == secs by {
      Pad2ReadsBack(secs);
    }
    JoinTwoReadsBack(a, b, mins, secs);
  }

  /** Three whole-number fields joined by colons read back as hours, minutes and seconds. */
  lemma JoinThreeReadsBack(a: string, b: string, c: string, hours: nat, mins: nat, secs: nat)
    requires |a| > 0 && AllDigits(a) && |b| > 0 && AllDigits(b) && |c| > 0 && AllDigits(c)
    requires ParseDigits(a) == hours && ParseDigits(b) == mins && ParseDigits(c) == secs
    ensures TotalSeconds(Join([a, b, c])) == Some(hours * 3600 + mins * 60 + secs)
    ensures |Split(Join([a, b, c]))| == 3
  {
    SplitJoinThree(a, b, c);
    PartsSecondsThree(a, b, c);
  }

  lemma SplitJoinThree(a: string, b: string, c: string)
    requires AllDigits(a) && AllDigits(b) && AllDigits(c)
    ensures Split(Join([a, b, c])) == [a, b, c]
  {
    DigitsHaveNo(a, ':');
    DigitsHaveNo(b, ':');
    DigitsHaveNo(c, ':');
    SplitJoin([a, b, c]);
  }

  lemma PartsSecondsThree(a: string, b: string, c: string)
    requires |a| > 0 && AllDigits(a) && |b| > 0 && AllDigits(b) && |c| > 0 && AllDigits(c)
    ensures PartsSeconds([a, b, c]) == Some(ParseDigits(a) * 3600 + ParseDigits(b) * 60 + ParseDigits(c))
  {
    ParseIntDigits(a);
    ParseIntDigits(b);
    ParseIntDigits(c);
  }

  /** Two whole-number fields joined by a colon read back as minutes and seconds. */
  lemma JoinTwoReadsBack(a: string, b: string, mins: nat, secs: nat)
    requires |a| > 0 && AllDigits(a) && |b| > 0 && AllDigits(b)
    requires ParseDigits(a) == mins && ParseDigits(b) == secs
    ensures TotalSeconds(Join([a, b])) == Some(mins * 60 + secs)
    ensures |Split(Join([a, b]))| == 2
  {
    SplitJoinTwo(a, b);
    PartsSecondsTwo(a, b);
  }

  lemma SplitJoinTwo(a: string, b: string)
    requires AllDigits(a) && AllDigits(b)
    ensures Split(Join([a, b])) == [a, b]
  {
    DigitsHaveNo(a, ':');
    DigitsHaveNo(b, ':');
    SplitJoin([a, b]);
  }

  lemma PartsSecondsTwo(a: string, b: string)
    requires |a| > 0 && AllDigits(a) && |b| > 0 && AllDigits(b)
    ensures PartsSeconds([a, b]) == Some(ParseDigits(a) * 60 + ParseDigits(b))
  {
    ParseIntDigits(a);
    ParseIntDigits(b);
  }

  /** Reading back the text of real seconds gives the seconds rounded down: within one second. */
  lemma FormatTimeReadsBack(seconds: real)
    requires seconds >= 0.0
    ensures TotalSeconds(FormatTime(seconds)) == Some(seconds.Floor)
    ensures 0.0 <= seconds - seconds.Floor as real < 1.0
  {
    FloorBounds(seconds);
    var n: nat := seconds.Floor;
    calc {
      TotalSeconds(FormatTime(seconds));
      { FormatTimeIsClockOfFloor(seconds); }
      TotalSeconds(FormatClock(n));
      { TotalSecondsOfClock(n); }
      Some(n);
    }
  }

  lemma FloorBounds(x: real)
    requires x >= 0.0
    ensures x.Floor >= 0 && 0.0 <= x - x.Floor as real < 1.0
  {
  }
}
