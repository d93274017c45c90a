/** The elapsed-time display (app.js:219-229): `mm:ss` from elapsed milliseconds, and its reset text. */
module Timer {
  import opened Decimal

  /** What `stopTimer` writes into the display. */
  const ResetText: string := "00:00"

  /**
   * JavaScript's `%` on integers: the remainder of the division whose quotient
   * is truncated toward zero, so it has the sign of the dividend, unlike Dafny's `%`.
   */
  function JsRem(a: int, b: int): (r: int)
    requires b > 0
    ensures a == b * (if a >= 0 then a / b else -((-a) / b)) + r
    ensures a >= 0 ==> 0 <= r < b
    ensures a < 0 ==> -b < r <= 0
  {
    if a >= 0 then a % b
    else
      assert -a == b * ((-a) / b) + (-a) % b;
      -((-a) % b)
  }

  /** `n.toString().padStart(2, '0')`. */
  function Pad2(n: int): string {
    PadStart(IntToString(n), 2, '0')
  }

  /** A non-negative field is padded to at least two digits and keeps its value; below 100 it is exactly two. */
  lemma Pad2Digits(n: int)
    requires n >= 0
    ensures var p := Pad2(n); |p| >= 2 && AllDigits(p) && Value(p) == n
    ensures n < 100 ==> |Pad2(n)| == 2
  {
    ZeroPadValue(NatToString(n), 2);
    NatToStringValue(n);
  }

  /** The display for a whole number of elapsed seconds: minutes, a colon, seconds. */
  function Display(elapsed: int): string {
    Pad2(elapsed / 60) + ":" + Pad2(JsRem(elapsed, 60))
  }

  /**
   * The text `updateTimer` shows for a difference `Date.now() - startTime` of
   * `elapsedMs` milliseconds. `Math.floor` of a quotient by a positive constant
   * is Dafny's `/` on `int`, for negative dividends too.
   */
  function TimerText(elapsedMs: int): string {
    Display(elapsedMs / 1000)
  }

  /** The minutes field of a display: everything before the colon. */
  function Minutes(t: string): string
    requires |t| >= 3
  {
    t[..|t| - 3]
  }

  /** The seconds field of a display: the two characters after the colon. */
  function Seconds(t: string): string
    requires |t| >= 3
  {
    t[|t| - 2..]
  }

  /** A display text: at least two digits of minutes, a colon, two digits of seconds. */
  predicate IsClockText(t: string) {
    |t| >= 5 && t[|t| - 3] == ':' && AllDigits(Minutes(t)) && AllDigits(Seconds(t))
  }

  /**
   * For a non-negative number of seconds the display is a clock text whose
   * fields read back as the whole minutes and the remaining seconds.
   */
  lemma DisplayReadsBack(e: int)
    requires e >= 0
    ensures IsClockText(Display(e))
    ensures Value(Minutes(Display(e))) == e / 60
    ensures Value(Seconds(Display(e))) == e % 60
  {
    var m, sec := Pad2(e / 60), Pad2(e % 60);
    assert JsRem(e, 60) == e % 60;
    Pad2Digits(e / 60);
    Pad2Digits(e % 60);
    assert Display(e) == m + ":" + sec;
    FieldsAroundColon(m, sec);
  }

  lemma FieldsAroundColon(m: string, sec: string)
    requires |sec| == 2
    ensures var t := m + ":" + sec;
      Minutes(t) == m && t[|t| - 3] == ':' && Seconds(t) == sec
  {
    var t := m + ":" + sec;
    assert t[..|t| - 3] == m;
    assert t[|t| - 2..] == sec;
  }

  /**
   * The timer text of a non-negative difference shows the elapsed whole seconds:
   * seconds below 60, and minutes times 60 plus seconds is the number of seconds.
   */
  lemma TimerTextReadsBack(elapsedMs: int)
    requires elapsedMs >= 0
    ensures IsClockText(TimerText(elapsedMs))
    ensures Value(Seconds(TimerText(elapsedMs))) < 60
    ensures Value(Minutes(TimerText(elapsedMs))) * 60 + Value(Seconds(TimerText(elapsedMs))) == elapsedMs / 1000
  {
    DisplayReadsBack(elapsedMs / 1000);
  }

  /** During the first second the display is the reset text, so a fresh start shows `00:00`. */
  lemma TimerTextFirstSecond(elapsedMs: int)
    requires 0 <= elapsedMs < 1000
    ensures TimerText(elapsedMs) == ResetText
  {
    assert elapsedMs / 1000 == 0;
  }

  /** A clock that went backwards by up to a second shows `-1:-1`: neither field is padded past its sign. */
  lemma TimerTextClockBackwards(elapsedMs: int)
    requires -1000 <= elapsedMs < 0
    ensures TimerText(elapsedMs) == "-1:-1"
  {
    assert elapsedMs / 1000 == -1;
    assert NatToString(1) == "1";
  }
}
