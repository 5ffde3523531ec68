/** The timer panel: a countdown in whole seconds driven by a one-second
    interval, a stopwatch in milliseconds read off the wall clock, their
    `MM:SS` and `MM:SS.cc` displays, and the flashing of the canvas when a
    countdown ends. Each interval callback is a method call (`CountdownTick`,
    `StopwatchTick`) and the clock reading `Date.now()` is a parameter. */
module Timers {
  import opened Strings

  /** JavaScript's `a % b` for a positive divisor: the remainder takes the
      sign of the dividend, and `a` minus it is `b` times the quotient
      truncated toward zero. */
  function JsRem(a: int, b: int): (r: int)
    requires b > 0
    ensures a >= 0 ==> 0 <= r < b && r == a % b
    ensures a < 0 ==> -b < r <= 0
    ensures a - r == b * (if a >= 0 then a / b else -((-a) / b))
  {
    if a >= 0 then a % b else -((-a) % b)
  }

  /** `n.toString().padStart(2, '0')`. */
  function Pad2(n: int): string {
    PadStart(JsIntToString(n), 2)
  }

  /** The countdown display for `t` seconds: minutes `Math.floor(t / 60)`
      and seconds `t % 60`, each padded to two digits. (Dafny's `/` by a
      positive divisor is JavaScript's `Math.floor` of the quotient.) */
  function CountdownText(t: int): string {
    Pad2(t / 60) + ":" + Pad2(JsRem(t, 60))
  }

  /** The three fields of the stopwatch display for `ms` milliseconds. */
  function StopwatchParts(ms: int): (p: (int, int, int))
    ensures ms >= 0 ==> p.0 >= 0 && 0 <= p.1 < 60 && 0 <= p.2 < 100
    ensures ms >= 0 ==> (p.0 * 60 + p.1) * 100 + p.2 == ms / 10
  {
    var totalSeconds := ms / 1000;
    (totalSeconds / 60, JsRem(totalSeconds, 60), JsRem(ms, 1000) / 10)
  }

  function StopwatchText(ms: int): string {
    var p := StopwatchParts(ms);
    Pad2(p.0) + ":" + Pad2(p.1) + "." + Pad2(p.2)
  }

  /** A number below 100 is shown as its tens digit and its units digit. */
  lemma Pad2Digits(n: nat)
    requires n < 100
    ensures Pad2(n) == [DigitChar(n / 10), DigitChar(n % 10)]
  {
    TwoDigitText(n);
  }

  /** The two digits of a number below 100 read back as that number. */
  lemma DigitPairValue(n: nat)
    requires n < 100
    ensures TwoDigitValue(DigitChar(n / 10), DigitChar(n % 10)) == n
  {
    DigitRoundTrip(n / 10);
    DigitRoundTrip(n % 10);
  }

  /** The five characters of a `MM:SS` text. */
  lemma FiveChars(a: string, b: string)
    requires |a| == 2 && |b| == 2
    ensures var s := a + ":" + b;
      |s| == 5 && s[0] == a[0] && s[1] == a[1] && s[2] == ':' && s[3] == b[0] && s[4] == b[1]
  {
  }

  /** For a non-negative time the seconds field is the ordinary remainder. */
  lemma CountdownFields(t: int)
    requires t >= 0
    ensures CountdownText(t) == Pad2(t / 60) + ":" + Pad2(t % 60)
  {
  }

  /** Below 100 minutes the countdown display is exactly `MM:SS`, and
      reading its two fields back gives the time. */
  lemma CountdownTextRoundTrip(t: int)
    requires 0 <= t < 6000
    ensures var s := CountdownText(t);
      |s| == 5 && s[2] == ':'
      && '0' <= s[0] <= '9' && '0' <= s[1] <= '9' && '0' <= s[3] <= '9' && '0' <= s[4] <= '9'
      && TwoDigitValue(s[0], s[1]) * 60 + TwoDigitValue(s[3], s[4]) == t
  {
    CountdownFields(t);
    var m, sec := t / 60, t % 60;
    Pad2Digits(m);
    Pad2Digits(sec);
    FiveChars(Pad2(m), Pad2(sec));
    DigitPairValue(m);
    DigitPairValue(sec);
  }

  /** Padding never truncates: from 100 minutes on, the minutes field is
      the full decimal number and the display is longer than `MM:SS`. */
  lemma CountdownTextLong(t: int)
    requires t >= 6000
    ensures |CountdownText(t)| > 5
    ensures CountdownText(t)[..|JsIntToString(t / 60)|] == JsIntToString(t / 60)
  {
    var m := t / 60;
    assert m >= 100;
    LongNatToString(m);
    var digits := JsIntToString(m);
    assert Pad2(m) == digits;
    var sec := Pad2(JsRem(t, 60));
    assert |sec| >= 2;
    assert CountdownText(t) == digits + (":" + sec);
    assert (digits + (":" + sec))[..|digits|] == digits;
  }

  /** For a non-negative time the stopwatch fields are ordinary quotients
      and remainders. */
  lemma StopwatchFields(ms: int)
    requires ms >= 0
    ensures StopwatchText(ms) == Pad2(ms / 1000 / 60) + ":" + Pad2(ms / 1000 % 60) + "." + Pad2(ms % 1000 / 10)
  {
  }

  /** The eight characters of a `MM:SS.cc` text. */
  lemma EightChars(a: string, b: string, c: string)
    requires |a| == 2 && |b| == 2 && |c| == 2
    ensures var s := a + ":" + b + "." + c;
      |s| == 8 && s[0] == a[0] && s[1] == a[1] && s[2] == ':' && s[3] == b[0] && s[4] == b[1]
      && s[5] == '.' && s[6] == c[0] && s[7] == c[1]
  {
  }

  /** Below 100 minutes the stopwatch display is exactly `MM:SS.cc`, and
      reading it back gives the time in hundredths of a second. */
  lemma StopwatchTextRoundTrip(ms: int)
    requires 0 <= ms < 6_000_000
    ensures var s := StopwatchText(ms);
      |s| == 8 && s[2] == ':' && s[5] == '.'
      && '0' <= s[0] <= '9' && '0' <= s[1] <= '9' && '0' <= s[3] <= '9' && '0' <= s[4] <= '9'
      && '0' <= s[6] <= '9' && '0' <= s[7] <= '9'
      && (TwoDigitValue(s[0], s[1]) * 60 + TwoDigitValue(s[3], s[4])) * 100 + TwoDigitValue(s[6], s[7]) == ms / 10
  {
    StopwatchFields(ms);
    var m, sec, cs := ms / 1000 / 60, ms / 1000 % 60, ms % 1000 / 10;
    assert m < 100 && (m * 60 + sec) * 100 + cs == ms / 10;
    Pad2Digits(m);
    Pad2Digits(sec);
    Pad2Digits(cs);
    EightChars(Pad2(m), Pad2(sec), Pad2(cs));
    DigitPairValue(m);
    DigitPairValue(sec);
    DigitPairValue(cs);
  }

  datatype Mode = Countdown | Stopwatch

  const Bright: string := "brightness(1.5)"
  const Normal: string := "brightness(1)"

  /** The values `flashCanvas` writes to the canvas's CSS filter, one per
      firing of its 200 ms interval: bright and normal alternately for six
      firings, the last of which then restores the original filter. */
  method FlashCanvas(original: string) returns (writes: seq<string>)
    ensures |writes| == 7
    ensures forall k :: 0 <= k < 6 ==> writes[k] == (if k % 2 == 0 then Bright else Normal)
    ensures writes[6] == original
  {
    writes := [];
    var flashCount := 0;
    var stopped := false;
    while !stopped
      invariant 0 <= flashCount <= 6
      invariant stopped <==> flashCount == 6
      invariant |writes| == flashCount + (if stopped then 1 else 0)
      invariant forall k :: 0 <= k < flashCount ==> writes[k] == (if k % 2 == 0 then Bright else Normal)
      invariant stopped ==> writes[6] == original
      decreases 6 - flashCount, !stopped
    {
      writes := writes + [if flashCount % 2 == 0 then Bright else Normal];
      flashCount := flashCount + 1;
      if flashCount >= 6 {
        writes := writes + [original];
        stopped := true;
      }
    }
  }

  class TimerModule {
    var isVisible: bool
    var countdownTime: int
    var isCountdownRunning: bool
    var stopwatchTime: int
    var isStopwatchRunning: bool
    var stopwatchStartTime: int
    var currentMode: Mode

    /** A running countdown always has time left. */
    ghost predicate Valid()
      reads this
    {
      isCountdownRunning ==> countdownTime > 0
    }

    constructor ()
      ensures Valid()
      ensures !isVisible && countdownTime == 0 && !isCountdownRunning
      ensures stopwatchTime == 0 && !isStopwatchRunning && stopwatchStartTime == 0
      ensures currentMode == Countdown
    {
      isVisible := false;
      countdownTime := 0;
      isCountdownRunning := false;
      stopwatchTime := 0;
      isStopwatchRunning := false;
      stopwatchStartTime := 0;
      currentMode := Countdown;
    }

    method Show()
      requires Valid()
      modifies this`isVisible
      ensures Valid() && isVisible
    {
      isVisible := true;
    }

    method Hide()
      requires Valid()
      modifies this`isVisible
      ensures Valid() && !isVisible
    {
      isVisible := false;
    }

    method Toggle()
      requires Valid()
      modifies this`isVisible
      ensures Valid() && isVisible == !old(isVisible)
    {
      if isVisible {
        Hide();
      } else {
        Show();
      }
    }

    method SwitchMode(mode: Mode)
      requires Valid()
      modifies this`currentMode
      ensures Valid() && currentMode == mode
    {
      currentMode := mode;
    }

    /** `updateCountdownFromInputs`, given the two inputs as `parseInt(...)
        || 0` reads them: sets the time unless a countdown is running. */
    method UpdateCountdownFromInputs(minutes: int, seconds: int)
      requires Valid()
      modifies this`countdownTime
      ensures Valid()
      ensures countdownTime == if isCountdownRunning then old(countdownTime) else minutes * 60 + seconds
    {
      if isCountdownRunning {
        return;
      }
      countdownTime := minutes * 60 + seconds;
    }

    /** `startCountdown`: with no time left the inputs are read again; the
        countdown runs only if there is then time left. The start button is
        disabled while a countdown runs, so it is never started twice. */
    method StartCountdown(minutes: int, seconds: int)
      requires Valid() && !isCountdownRunning
      modifies this`countdownTime, this`isCountdownRunning
      ensures Valid()
      ensures countdownTime == if old(countdownTime) <= 0 then minutes * 60 + seconds else old(countdownTime)
      ensures isCountdownRunning <==> countdownTime > 0
    {
      if countdownTime <= 0 {
        UpdateCountdownFromInputs(minutes, seconds);
      }
      if countdownTime <= 0 {
        return;
      }
      isCountdownRunning := true;
    }

    /** `pauseCountdown`: stops the interval and keeps the time. */
    method PauseCountdown()
      modifies this`isCountdownRunning
      ensures Valid() && !isCountdownRunning
    {
      isCountdownRunning := false;
    }

    /** `resetCountdown`: stops and reads the inputs again. */
    method ResetCountdown(minutes: int, seconds: int)
      requires Valid()
      modifies this`isCountdownRunning, this`countdownTime
      ensures Valid() && !isCountdownRunning && countdownTime == minutes * 60 + seconds
    {
      PauseCountdown();
      UpdateCountdownFromInputs(minutes, seconds);
    }

    /** `countdownFinished`: stops at zero and flashes the canvas, whose
        filter writes are returned. */
    method CountdownFinished(filter: string) returns (flash: seq<string>)
      modifies this`isCountdownRunning, this`countdownTime
      ensures Valid() && !isCountdownRunning && countdownTime == 0
      ensures |flash| == 7
      ensures forall k :: 0 <= k < 6 ==> flash[k] == (if k % 2 == 0 then Bright else Normal)
      ensures flash[6] == filter
    {
      PauseCountdown();
      countdownTime := 0;
      flash := FlashCanvas(filter);
    }

    /** One firing of the countdown's interval: one second less, and at
        zero the countdown finishes. `finished` tells whether it did. */
    method CountdownTick(filter: string) returns (finished: bool)
      requires Valid() && isCountdownRunning
      modifies this`isCountdownRunning, this`countdownTime
      ensures Valid()
      ensures finished <==> old(countdownTime) == 1
      ensures countdownTime == old(countdownTime) - 1
      ensures isCountdownRunning <==> !finished
    {
      countdownTime := countdownTime - 1;
      finished := countdownTime <= 0;
      if finished {
        var flash := CountdownFinished(filter);
      }
    }

    /** `startStopwatch` at clock reading `now`: the start time is moved
        back by the time already elapsed, so that the stopwatch resumes. */
    method StartStopwatch(now: int)
      requires Valid() && !isStopwatchRunning
      modifies this`isStopwatchRunning, this`stopwatchStartTime
      ensures Valid() && isStopwatchRunning
      ensures stopwatchStartTime == now - stopwatchTime
    {
      isStopwatchRunning := true;
      stopwatchStartTime := now - stopwatchTime;
    }

    /** One firing of the stopwatch's interval at clock reading `now`. */
    method StopwatchTick(now: int)
      requires Valid() && isStopwatchRunning
      modifies this`stopwatchTime
      ensures Valid()
      ensures stopwatchTime == now - stopwatchStartTime
    {
      stopwatchTime := now - stopwatchStartTime;
    }

    method PauseStopwatch()
      requires Valid()
      modifies this`isStopwatchRunning
      ensures Valid() && !isStopwatchRunning
    {
      isStopwatchRunning := false;
    }

    method ResetStopwatch()
      requires Valid()
      modifies this`isStopwatchRunning, this`stopwatchTime
      ensures Valid() && !isStopwatchRunning && stopwatchTime == 0
    {
      PauseStopwatch();
      stopwatchTime := 0;
    }

    /** The text `updateCanvasDisplay` paints for the current mode. */
    function CanvasText(): string
      reads this
    {
      if currentMode == Countdown then CountdownText(countdownTime) else StopwatchText(stopwatchTime)
    }
  }

  /** A countdown started with `t` seconds left finishes on exactly the
      `t`-th firing of its interval, and not before. */
  method RunCountdown(m: TimerModule, filter: string) returns (ticks: nat)
    requires m.Valid() && m.isCountdownRunning
    modifies m`isCountdownRunning, m`countdownTime
    ensures m.Valid() && !m.isCountdownRunning && m.countdownTime == 0
    ensures ticks == old(m.countdownTime)
  {
    ticks := 0;
    var finished := false;
    while !finished
      invariant m.Valid()
      invariant m.countdownTime == old(m.countdownTime) - ticks
      invariant finished <==> !m.isCountdownRunning
      invariant finished ==> m.countdownTime == 0
      decreases m.countdownTime, !finished
    {
      finished := m.CountdownTick(filter);
      ticks := ticks + 1;
    }
  }

  /** Start, tick, pause, start again later, tick: the stopwatch shows the
      time elapsed during the two running periods only, added to what it
      showed before. */
  method PauseAndResume(m: TimerModule, t0: int, t1: int, t2: int, t3: int)
    requires m.Valid() && !m.isStopwatchRunning
    modifies m`isStopwatchRunning, m`stopwatchStartTime, m`stopwatchTime
    ensures m.Valid() && m.isStopwatchRunning
    ensures m.stopwatchTime == old(m.stopwatchTime) + (t1 - t0) + (t3 - t2)
  {
    m.StartStopwatch(t0);
    m.StopwatchTick(t1);
    m.PauseStopwatch();
    m.StartStopwatch(t2);
    m.StopwatchTick(t3);
  }
}
