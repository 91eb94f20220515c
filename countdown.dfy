/**
 * The round's countdown as shown on screen: the seconds left are split into
 * minutes and seconds, each printed with at least two digits.
 */
module Countdown {

  /** A round lasts three minutes. */
  const RoundSeconds := 180

  /** `Math.floor(t / 60)`: floor division, which is Dafny's `/` for a positive divisor. */
  function Minutes(t: int): (m: int)
    ensures m * 60 <= t < m * 60 + 60
  {
    t / 60
  }

  /** `t % 60` in JavaScript: the remainder takes the sign of `t`. */
  function Seconds(t: int): (s: int)
    ensures t >= 0 ==> 0 <= s < 60
    ensures t < 0 ==> -60 < s <= 0
  {
    if t >= 0 then t % 60 else -((-t) % 60)
  }

  /** For the times a round can show, minutes and seconds add back up to the time. */
  lemma MinutesSecondsSplit(t: int)
    requires t >= 0
    ensures Minutes(t) * 60 + Seconds(t) == t
    ensures 0 <= Seconds(t) < 60 && 0 <= Minutes(t)
    ensures t <= RoundSeconds ==> Minutes(t) <= 3
  {
  }

  function Digit(n: nat): (c: char)
    requires n < 10
    ensures '0' <= c <= '9'
  {
    ('0' as int + n) as char
  }

  /** `n.toString()` for a non-negative integer. */
  function NatToString(n: nat): (s: string)
    ensures |s| >= 1
    decreases n
  {
    if n < 10 then [Digit(n)] else NatToString(n / 10) + [Digit(n % 10)]
  }

  /** `n.toString()`. */
  function IntToString(n: int): string
  {
    if n < 0 then "-" + NatToString(-n) else NatToString(n)
  }

  /** `s.padStart(2, '0')`. */
  function PadStart2(s: string): (r: string)
    ensures |r| >= 2
    ensures |s| >= 2 ==> r == s
    ensures |s| < 2 ==> r == seq(2 - |s|, _ => '0') + s
  {
    if |s| >= 2 then s else if |s| == 1 then "0" + s else "00"
  }

  /** The timer's text: `Time: MM:SS`. */
  function TimerText(t: int): (text: string)
    ensures |text| >= 11 && text[..6] == "Time: "
  {
    "Time: " + PadStart2(IntToString(Minutes(t))) + ":" + PadStart2(IntToString(Seconds(t)))
  }

  /** Reads back a two-character decimal field. */
  function TwoDigitValue(s: string): int
    requires |s| == 2
  {
    (s[0] as int - '0' as int) * 10 + (s[1] as int - '0' as int)
  }

  /** Any number below 100 is printed as exactly two digits. */
  lemma TwoDigits(n: nat)
    requires n < 100
    ensures PadStart2(IntToString(n)) == [Digit(n / 10), Digit(n % 10)]
  {
    if n >= 10 {
      assert NatToString(n / 10) == [Digit(n / 10)];
    }
  }

  /** The clock value read back from the timer's text. */
  function ReadClock(text: string): int
    requires |text| == 11
  {
    TwoDigitValue(text[6..8]) * 60 + TwoDigitValue(text[9..11])
  }

  /** Below 100 minutes the timer's text has the fixed `Time: MM:SS` shape and reads back as the time. */
  lemma TimerTextRoundTrip(t: int)
    requires 0 <= t < 6000
    ensures |TimerText(t)| == 11
    ensures TimerText(t)[..6] == "Time: " && TimerText(t)[8] == ':'
    ensures ReadClock(TimerText(t)) == t
    ensures TimerText(t)[6..8] == [Digit(Minutes(t) / 10), Digit(Minutes(t) % 10)]
    ensures TimerText(t)[9..11] == [Digit(Seconds(t) / 10), Digit(Seconds(t) % 10)] && Seconds(t) < 60
  {
    MinutesSecondsSplit(t);
    TwoDigits(Minutes(t));
    TwoDigits(Seconds(t));
    var text := TimerText(t);
    assert text == "Time: " + [Digit(Minutes(t) / 10), Digit(Minutes(t) % 10)] + ":" +
                   [Digit(Seconds(t) / 10), Digit(Seconds(t) % 10)];
    assert text[6..8] == [Digit(Minutes(t) / 10), Digit(Minutes(t) % 10)];
    assert text[9..11] == [Digit(Seconds(t) / 10), Digit(Seconds(t) % 10)];
  }
}
