/** The "Mega Loot Hour" countdown of the hero banner (components/Hero.tsx): the milliseconds
    left until the end of the local day, split into hours, minutes and seconds, each shown as
    a decimal string padded with '0' to two characters. */
module Hero {

  const MsPerSecond: nat := 1000
  const MsPerMinute: nat := 60 * 1000
  const MsPerHour: nat := 60 * 60 * 1000
  const MsPerDay: nat := 24 * 60 * 60 * 1000

  /** The `timeLeft` state. */
  datatype TimeLeft = TimeLeft(hours: int, minutes: int, seconds: int)

  /** `endOfDay.getTime() - now.getTime()` where `endOfDay` is today at 23:59:59.999 and
      `msOfDay` is how far into the day `now` is. */
  function MsUntilEndOfDay(msOfDay: nat): (diff: nat)
    requires msOfDay < MsPerDay
    ensures diff < MsPerDay
    ensures msOfDay + diff == MsPerDay - 1
  {
    MsPerDay - 1 - msOfDay
  }

  /** `calculateTime`: for a non-negative `diff`, the JavaScript `Math.floor((diff / k) % n)`
      is the integer `(diff / k) % n`. */
  function CalculateTime(diff: nat): (r: TimeLeft)
    ensures 0 <= r.hours < 24
    ensures 0 <= r.minutes < 60
    ensures 0 <= r.seconds < 60
  {
    TimeLeft((diff / MsPerHour) % 24, (diff / MsPerMinute) % 60, (diff / MsPerSecond) % 60)
  }

  /** The three fields recombine to the whole seconds left, with the hours taken before the
      wrap-around at 24; within one day they recombine exactly. */
  lemma CalculateTimeRecombines(diff: nat)
    ensures var t := CalculateTime(diff);
      (diff / MsPerHour) * 3600 + t.minutes * 60 + t.seconds == diff / MsPerSecond
    ensures var t := CalculateTime(diff);
      diff < MsPerDay ==> t.hours * 3600 + t.minutes * 60 + t.seconds == diff / MsPerSecond
  {
    var secs, mins, hours := diff / 1000, diff / 60000, diff / 3600000;
    assert mins == secs / 60 by {
      assert 60000 * (secs / 60) <= diff < 60000 * (secs / 60) + 60000;
    }
    assert hours == mins / 60 by {
      assert 3600000 * (mins / 60) <= diff < 3600000 * (mins / 60) + 3600000;
    }
  }

  /** The character of one decimal digit. */
  function DigitChar(d: nat): (c: char)
    requires d < 10
    ensures '0' <= c <= '9'
    ensures c as int - '0' as int == d
  {
    (d + '0' as int) as char
  }

  /** `String(n)` for a non-negative integer: its decimal digits, most significant first,
      without leading zeros. */
  function DecimalString(n: nat): (s: string)
    ensures 1 <= |s|
    ensures forall i :: 0 <= i < |s| ==> '0' <= s[i] <= '9'
    ensures n < 10 <==> |s| == 1
    ensures 10 <= n < 100 ==> |s| == 2
    ensures |s| > 1 ==> s[0] != '0'
  {
    if n < 10 then [DigitChar(n)] else DecimalString(n / 10) + [DigitChar(n % 10)]
  }

  /** The number a string of decimal digits denotes (leading zeros allowed). */
  function DecimalValue(s: string): nat
    requires forall i :: 0 <= i < |s| ==> '0' <= s[i] <= '9'
  {
    if s == [] then 0
    else 10 * DecimalValue(s[..|s| - 1]) + (s[|s| - 1] as int - '0' as int)
  }

  /** Reading back the decimal string gives the number. */
  lemma {:induction false} DecimalRoundTrip(n: nat)
    ensures DecimalValue(DecimalString(n)) == n
  {
    if n >= 10 {
      DecimalRoundTrip(n / 10);
      var s := DecimalString(n);
      assert s[..|s| - 1] == DecimalString(n / 10);
    }
  }

  /** `s.padStart(width, fill)` with a one-character `fill`: `fill` repeated in front of `s`
      up to length `width`; a string already that long is returned unchanged. */
  function PadStart(s: string, width: nat, fill: char): (r: string)
    ensures |r| == if |s| >= width then |s| else width
    ensures r[|r| - |s|..] == s
    ensures forall i :: 0 <= i < |r| - |s| ==> r[i] == fill
  {
    if |s| >= width then s else seq(width - |s|, _ => fill) + s
  }

  /** Leading zeros do not change the value of a digit string. */
  lemma {:induction false} LeadingZeros(z: string, s: string)
    requires forall i :: 0 <= i < |z| ==> z[i] == '0'
    requires forall i :: 0 <= i < |s| ==> '0' <= s[i] <= '9'
    ensures forall i :: 0 <= i < |z + s| ==> '0' <= (z + s)[i] <= '9'
    ensures DecimalValue(z + s) == DecimalValue(s)
    decreases |s|
  {
    if s == [] {
      assert z + s == z;
      AllZeros(z);
    } else {
      var init := s[..|s| - 1];
      LeadingZeros(z, init);
      assert (z + s)[..|z + s| - 1] == z + init;
    }
  }

  /** A string of zeros denotes zero. */
  lemma {:induction false} AllZeros(z: string)
    requires forall i :: 0 <= i < |z| ==> z[i] == '0'
    ensures DecimalValue(z) == 0
  {
    if z != [] {
      AllZeros(z[..|z| - 1]);
    }
  }

  /** `String(n).padStart(2, '0')`: one of the three fields of the countdown. */
  function Display(n: nat): (r: string)
    ensures |r| >= 2
  {
    PadStart(DecimalString(n), 2, '0')
  }

  /** The displayed field is at least two characters long, and exactly two below 100. */
  lemma DisplayLength(n: nat)
    ensures |Display(n)| == if |DecimalString(n)| >= 2 then |DecimalString(n)| else 2
    ensures n < 100 ==> |Display(n)| == 2
  {
  }

  /** The displayed field is all digits: the padding adds only zeros. */
  lemma DisplayDigits(n: nat)
    ensures forall i :: 0 <= i < |Display(n)| ==> '0' <= Display(n)[i] <= '9'
  {
    var d := DecimalString(n);
    var s := Display(n);
    var k := |s| - |d|;
    forall i | 0 <= i < |s|
      ensures '0' <= s[i] <= '9'
    {
      if i >= k {
        assert s[i] == s[k..][i - k];
      }
    }
  }

  /** The displayed field reads back as `n`: leading zeros do not change the value. */
  lemma DisplayValue(n: nat)
    ensures forall i :: 0 <= i < |Display(n)| ==> '0' <= Display(n)[i] <= '9'
    ensures DecimalValue(Display(n)) == n
  {
    DisplayDigits(n);
    var d := DecimalString(n);
    var s := Display(n);
    var z := s[..|s| - |d|];
    assert s == z + d;
    LeadingZeros(z, d);
    DecimalRoundTrip(n);
  }
}
