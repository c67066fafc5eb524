/**
 * The music player's position readout: millisecond readings become whole seconds by
 * Python's `int()` truncation, seconds become `mm:ss` through `QTime(0, m, s)` with
 * `m = (s // 60) % 60` and the seconds `s % 60` (Python's `//` and `%` agree with
 * Dafny's `/` and `%` for the positive divisor 60), and the progress percentage is the
 * truncated quotient of elapsed by total seconds times 100.
 */
module PlaybackText {
  import opened Optional

  /** `int(a / b)` for `b > 0`: the quotient truncated toward zero. */
  function TruncDiv(a: int, b: int): (q: int)
    requires b > 0
    ensures 0 <= a ==> 0 <= q && q * b <= a < q * b + b
    ensures a < 0 ==> q <= 0 && q * b - b < a <= q * b
  {
    if a >= 0 then a / b else -((-a) / b)
  }

  /** `int(ms / 1000)`: whole seconds of a millisecond reading, truncated toward zero. */
  function Seconds(ms: int): (s: int)
    ensures 0 <= ms ==> 0 <= s && s * 1000 <= ms < s * 1000 + 1000
    ensures ms < 0 ==> s <= 0 && s * 1000 - 1000 < ms <= s * 1000
  {
    TruncDiv(ms, 1000)
  }

  predicate IsDigit(c: char) { '0' <= c <= '9' }

  function DigitValue(c: char): int { c as int - '0' as int }

  function Digit(n: int): (c: char)
    requires 0 <= n <= 9
    ensures IsDigit(c) && DigitValue(c) == n
  {
    (n + '0' as int) as char
  }

  /** A number below 100 written with two digits, zero-padded. */
  function TwoDigits(n: int): (r: string)
    requires 0 <= n < 100
    ensures |r| == 2 && IsDigit(r[0]) && IsDigit(r[1]) && 10 * DigitValue(r[0]) + DigitValue(r[1]) == n
  {
    [Digit(n / 10), Digit(n % 10)]
  }

  /** `QTime(0, (s // 60) % 60, s % 60).toString('mm:ss')`. */
  function ClockText(s: int): (r: string)
    ensures |r| == 5 && r[2] == ':'
  {
    TwoDigits((s / 60) % 60) + ":" + TwoDigits(s % 60)
  }

  function ParseTwoDigits(t: string): (r: Option<int>)
    requires |t| == 2
    ensures r.Some? ==> 0 <= r.value < 100
  {
    if IsDigit(t[0]) && IsDigit(t[1]) then Some(10 * DigitValue(t[0]) + DigitValue(t[1])) else None
  }

  /** Reads an `mm:ss` text back as a number of seconds below one hour. */
  function ParseClock(t: string): (r: Option<int>)
    ensures r.Some? ==> 0 <= r.value < 3600
  {
    if |t| != 5 || t[2] != ':' then None
    else
      match (ParseTwoDigits(t[..2]), ParseTwoDigits(t[3..]))
      case (Some(m), Some(s)) => if m < 60 && s < 60 then Some(60 * m + s) else None
      case _ => None
  }

  /** The minutes and seconds the readout shows are those of `s % 3600`. */
  lemma HourSplit(s: int)
    ensures (s / 60) % 60 == (s % 3600) / 60
    ensures s % 60 == (s % 3600) % 60
  {
    var q, r := s / 60, s % 60;
    var k, m := q / 60, q % 60;
    assert s == 3600 * k + (60 * m + r);
    assert 0 <= 60 * m + r < 3600;
    assert s % 3600 == 60 * m + r;
  }

  /** The readout of `s` reads back as `s` modulo one hour: minutes wrap at 60. */
  lemma ClockTextReadsBack(s: int)
    ensures ParseClock(ClockText(s)) == Some(s % 3600)
  {
    var t := ClockText(s);
    assert t[..2] == TwoDigits((s / 60) % 60);
    assert t[3..] == TwoDigits(s % 60);
    HourSplit(s);
  }

  /** Two readings show the same text exactly when they agree modulo one hour. */
  lemma ClockTextSameIff(a: int, b: int)
    ensures ClockText(a) == ClockText(b) <==> a % 3600 == b % 3600
  {
    ClockTextReadsBack(a);
    ClockTextReadsBack(b);
    HourSplit(a);
    HourSplit(b);
  }

  /** A position of an hour or more wraps: `s + 3600` shows the same text as `s`. */
  lemma ClockTextWrapsHour(s: int)
    ensures ClockText(s + 3600) == ClockText(s)
  {
    var q := s / 60;
    assert (s + 3600) / 60 == q + 60;
    assert (q + 60) % 60 == q % 60;
    assert (s + 3600) % 60 == s % 60;
  }

  /** A reading between -999 and 999 ms truncates to 0 s and shows `00:00`. */
  lemma SubSecondReadingsShowZero(ms: int)
    requires -1000 < ms < 1000
    ensures Seconds(ms) == 0 && ClockText(Seconds(ms)) == "00:00"
  {
  }

  const ZeroDuration := "00:00 / 00:00"

  /** The duration label: `elapsed / total`, each as `mm:ss`. */
  function DurationText(cur: int, total: int): (r: string)
    ensures |r| == 13 && r[..5] == ClockText(cur) && r[5..8] == " / " && r[8..] == ClockText(total)
  {
    ClockText(cur) + " / " + ClockText(total)
  }

  /** Reads a duration label back as its two second counts. */
  function ParseDuration(t: string): Option<(int, int)> {
    if |t| != 13 || t[5..8] != " / " then None
    else
      match (ParseClock(t[..5]), ParseClock(t[8..]))
      case (Some(c), Some(d)) => Some((c, d))
      case _ => None
  }

  /** The duration label reads back as elapsed and total seconds modulo one hour. */
  lemma DurationTextReadsBack(cur: int, total: int)
    ensures ParseDuration(DurationText(cur, total)) == Some((cur % 3600, total % 3600))
  {
    ClockTextReadsBack(cur);
    ClockTextReadsBack(total);
  }

  /** The reset label is the label of a zero reading, and it is well formed. */
  lemma ZeroDurationIsZeroReading()
    ensures DurationText(0, 0) == ZeroDuration
    ensures ParseDuration(ZeroDuration) == Some((0, 0))
  {
    DurationTextReadsBack(0, 0);
  }

  /** Multiplying by a non-negative factor keeps the order. */
  lemma {:induction false} MulMonotone(a: int, b: int, c: nat)
    requires a <= b
    ensures a * c <= b * c
    decreases c
  {
    if c > 0 {
      MulMonotone(a, b, c - 1);
      assert a * c == a * (c - 1) + a && b * c == b * (c - 1) + b;
    }
  }

  /** For a positive factor, the products are ordered exactly as the factors. */
  lemma MulOrder(a: int, b: int, c: int)
    requires c > 0
    ensures a * c <= b * c <==> a <= b
  {
    if a <= b {
      MulMonotone(a, b, c);
    } else {
      MulMonotone(b + 1, a, c);
      assert (b + 1) * c == b * c + c;
    }
  }

  /** `int((cur / total) * 100)` in integer arithmetic. */
  function Percent(cur: int, total: int): (p: int)
    requires total > 0
    ensures 0 <= cur ==> 0 <= p && p * total <= 100 * cur < p * total + total
    ensures cur < 0 ==> p <= 0 && p * total - total < 100 * cur <= p * total
    ensures 0 <= cur <= total ==> 0 <= p <= 100
    ensures cur == total ==> p == 100
  {
    var p := TruncDiv(cur * 100, total);
    MulOrder(p, 100, total);
    MulOrder(p + 1, 100, total);
    assert (p + 1) * total == p * total + total;
    p
  }
}
