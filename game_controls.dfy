/** The play/pause button and the `mm:ss` timer of
    src/components/GameControls.jsx. */
module GameControls {
  import opened JsRuntime
  import opened Wrappers

  /** The round length after which the timer stops the game, in seconds. */
  const RoundSeconds: real := 30.0

  /** `Math.floor(currentTime / 60)`: the whole minutes in `time`. */
  function Minutes(time: real): (m: int)
    ensures m as real * 60.0 <= time < m as real * 60.0 + 60.0
  {
    (time / 60.0).Floor
  }

  /** `Math.floor(currentTime % 60)`, with the remainder of JavaScript: the
      whole seconds past the minute, negative for a negative time. */
  function Seconds(time: real): (sec: int)
    ensures time >= 0.0 ==> 0 <= sec < 60
    ensures time < 0.0 ==> -60 <= sec <= 0
  {
    Rem(time, 60.0).Floor
  }

  /** The minutes field: `toString()` then `padStart(2, '0')`, never shorter
      than two characters (FieldsInRange and MinutesNotTruncated read it
      back). */
  function MinutesField(time: real): (f: string)
    ensures |f| >= 2
  {
    PadStart(IntToString(Minutes(time)), 2, '0')
  }

  /** The seconds field: `toString()` then `padStart(2, '0')`, never shorter
      than two characters (SecondsFieldRange reads it back). */
  function SecondsField(time: real): (f: string)
    ensures |f| >= 2
  {
    PadStart(IntToString(Seconds(time)), 2, '0')
  }

  /** The timer text `${minutes}:${seconds}`. */
  function FormatTime(time: real): (s: string)
    ensures |s| >= 5
  {
    MinutesField(time) + ":" + SecondsField(time)
  }

  /** A reading of the time that does not yet end the round. */
  predicate BeforeEnd(time: real) {
    time < RoundSeconds
  }

  /** The text of the button. */
  function ButtonLabel(isGameActive: bool): (text: string)
    ensures text == "PAUSE" <==> isGameActive
    ensures text == "PLAY" <==> !isGameActive
  {
    if isGameActive then "PAUSE" else "PLAY"
  }

  /** A field written for a number in 0..99 is exactly its two digits. */
  lemma TwoDigitField(n: int)
    requires 0 <= n < 100
    ensures var f := PadStart(IntToString(n), 2, '0');
      |f| == 2 && AllDigits(f) && DigitsValue(f) == n
  {
    var s := NatToString(n);
    NatToStringLength(n);
    DigitsValueOfNatToString(n);
    if n < 10 {
      assert PadStart(s, 2, '0') == "0" + s;
      DigitsValueLeadingZero(s);
    }
  }

  /** Splitting a non-negative time into whole minutes and the seconds left
      over: the seconds lie in 0..59 and the two add back up to the whole
      seconds elapsed. */
  lemma MinutesSecondsSplit(time: real)
    requires time >= 0.0
    ensures Minutes(time) >= 0
    ensures 0 <= Seconds(time) <= 59
    ensures 60 * Minutes(time) + Seconds(time) == time.Floor
  {
    var q := Minutes(time);
    var r := Rem(time, 60.0);
    assert r == time - q as real * 60.0;
    assert 0.0 <= r < 60.0;
    var w := (q * 60) as real;
    assert r == time - w;
    assert r.Floor == time.Floor - q * 60 by {
      FloorShift(time, q * 60);
    }
  }

  /** Taking away a whole number commutes with `Math.floor`. */
  lemma FloorShift(x: real, k: int)
    ensures (x - k as real).Floor == x.Floor - k
  {
    var f := x.Floor;
    assert f as real <= x < f as real + 1.0;
    assert (f - k) as real <= x - k as real < (f - k) as real + 1.0;
  }

  /** Before 100 minutes the display is "dd:dd": five characters, a digit at
      positions 0, 1, 3 and 4 and the colon at position 2. */
  lemma FormatShape(time: real)
    requires 0.0 <= time < 6000.0
    ensures var s := FormatTime(time);
      |s| == 5 && s[2] == ':' &&
      IsDigit(s[0]) && IsDigit(s[1]) && IsDigit(s[3]) && IsDigit(s[4])
  {
    FieldsInRange(time);
    JoinFields(MinutesField(time), SecondsField(time));
  }

  /** Before 100 minutes both fields are two digits, reading the minutes and
      the seconds. */
  lemma FieldsInRange(time: real)
    requires 0.0 <= time < 6000.0
    ensures |MinutesField(time)| == 2 && AllDigits(MinutesField(time))
    ensures |SecondsField(time)| == 2 && AllDigits(SecondsField(time))
    ensures DigitsValue(MinutesField(time)) == Minutes(time)
    ensures DigitsValue(SecondsField(time)) == Seconds(time)
  {
    MinutesBelowHundred(time);
    MinutesSecondsSplit(time);
    TwoDigitField(Minutes(time));
    TwoDigitField(Seconds(time));
  }

  /** Two two-digit fields joined by a colon. */
  lemma JoinFields(m: string, sec: string)
    requires |m| == 2 && AllDigits(m) && |sec| == 2 && AllDigits(sec)
    ensures var s := m + ":" + sec;
      |s| == 5 && s[2] == ':' &&
      IsDigit(s[0]) && IsDigit(s[1]) && IsDigit(s[3]) && IsDigit(s[4]) &&
      s[0..2] == m && s[3..5] == sec
  {
  }

  /** Before 100 minutes the minutes stay below 100. */
  lemma MinutesBelowHundred(time: real)
    requires 0.0 <= time < 6000.0
    ensures 0 <= Minutes(time) < 100
  {
    assert time / 60.0 < 100.0;
  }

  /** For a non-negative time the seconds field is two digits reading 00..59. */
  lemma SecondsFieldRange(time: real)
    requires time >= 0.0
    ensures var f := SecondsField(time);
      |f| == 2 && AllDigits(f) && DigitsValue(f) <= 59 && DigitsValue(f) == Seconds(time)
  {
    MinutesSecondsSplit(time);
    TwoDigitField(Seconds(time));
  }

  /** Reading the display back: sixty times the minutes plus the seconds is
      the number of whole seconds elapsed. */
  lemma FormatRoundTrip(time: real)
    requires 0.0 <= time < 6000.0
    ensures var s := FormatTime(time);
      |s| == 5 && AllDigits(s[0..2]) && AllDigits(s[3..5]) &&
      60 * DigitsValue(s[0..2]) + DigitsValue(s[3..5]) == time.Floor
  {
    FieldsInRange(time);
    MinutesSecondsSplit(time);
    JoinFields(MinutesField(time), SecondsField(time));
  }

  /** `padStart` never cuts the minutes down: from 100 minutes on the field is
      all the digits of the minutes, three or more of them. */
  lemma MinutesNotTruncated(time: real)
    requires time >= 6000.0
    ensures var f := MinutesField(time);
      |f| >= 3 && f == NatToString(Minutes(time)) && DigitsValue(f) == Minutes(time)
  {
    var m := Minutes(time);
    assert time / 60.0 >= 100.0;
    assert m >= 100;
    NatToStringLength(m);
    DigitsValueOfNatToString(m);
  }

  /** The initial text "00:00" is what the timer shows at time 0. */
  lemma InitialDisplayIsTimeZero()
    ensures FormatTime(0.0) == "00:00"
  {
    assert Minutes(0.0) == 0;
    assert Seconds(0.0) == 0;
    assert IntToString(0) == "0";
    var f := PadStart("0", 2, '0');
    assert f[0] == '0' && f[1] == '0';
    assert f == "00";
  }

  /** The display after a run of readings, from the index of the reading it
      shows: the latest one while the game runs, the one that ended it
      otherwise. */
  lemma ShownReading(times: seq<real>, active: bool, shownAt: int, display: string)
    requires 0 <= shownAt < |times|
    requires display == FormatTime(times[shownAt])
    requires active ==> shownAt == |times| - 1
    requires !active ==> !BeforeEnd(times[shownAt])
    requires !active ==> forall k :: 0 <= k < shownAt ==> BeforeEnd(times[k])
    ensures active ==> display == FormatTime(times[|times| - 1])
    ensures !active ==> exists j ::
      && 0 <= j < |times| && !BeforeEnd(times[j])
      && (forall k :: 0 <= k < j ==> BeforeEnd(times[k]))
      && display == FormatTime(times[j])
  {
  }

  /** The component's state: `isGameActive` and `timeDisplay`. */
  class Controls {
    var isGameActive: bool
    var timeDisplay: string

    /** `useState(false)` and `useState("00:00")`. */
    constructor ()
      ensures !isGameActive && timeDisplay == "00:00"
      ensures ButtonLabel(isGameActive) == "PLAY"
    {
      isGameActive := false;
      timeDisplay := "00:00";
    }

    /** `toggleGame`: flips the flag and, when a listener is given, hands it
        the new value, once. `reported` is the value passed to
        `onGameStateChange`, or `None` when it was not called. */
    method ToggleGame(hasListener: bool) returns (reported: Option<bool>)
      modifies this
      ensures isGameActive == !old(isGameActive)
      ensures timeDisplay == old(timeDisplay)
      ensures reported == if hasListener then Some(isGameActive) else None
    {
      var newState := !isGameActive;
      isGameActive := newState;
      reported := None;
      if hasListener {
        reported := Some(newState);
      }
    }

    /** One run of the 100 ms interval, which exists only while the game is
        active: show the time read from the line, and end the game once it
        reaches the round length, reporting `false` to the listener. */
    method TimerTick(currentTime: real, hasListener: bool) returns (reported: Option<bool>)
      modifies this
      ensures !old(isGameActive) ==>
        isGameActive == old(isGameActive) && timeDisplay == old(timeDisplay)
      ensures old(isGameActive) ==> timeDisplay == FormatTime(currentTime)
      ensures old(isGameActive) ==> (isGameActive <==> currentTime < RoundSeconds)
      ensures reported == if old(isGameActive) && currentTime >= RoundSeconds && hasListener
        then Some(false) else None
    {
      reported := None;
      if isGameActive {
        timeDisplay := FormatTime(currentTime);
        if currentTime >= RoundSeconds {
          isGameActive := false;
          if hasListener {
            reported := Some(false);
          }
        }
      }
    }

    /** The interval driven over a run of readings of the time: the listener
        hears that the game is over at most once, at the first reading that
        reaches the round length, and the display then stays on that
        reading (the interval is cleared); while the game runs it shows the
        latest reading. `reports` counts the listener's calls. */
    method RunTimer(times: seq<real>, hasListener: bool) returns (reports: nat)
      requires isGameActive
      modifies this
      ensures isGameActive <==> forall i :: 0 <= i < |times| ==> BeforeEnd(times[i])
      ensures reports == if hasListener && !isGameActive then 1 else 0
      ensures |times| == 0 ==> timeDisplay == old(timeDisplay)
      ensures isGameActive && |times| > 0 ==> timeDisplay == FormatTime(times[|times| - 1])
      ensures !isGameActive ==> exists j ::
        && 0 <= j < |times| && !BeforeEnd(times[j])
        && (forall k :: 0 <= k < j ==> BeforeEnd(times[k]))
        && timeDisplay == FormatTime(times[j])
    {
      reports := 0;
      ghost var shownAt := 0;
      var i := 0;
      while i < |times|
        invariant 0 <= i <= |times|
        invariant isGameActive <==> forall j :: 0 <= j < i ==> BeforeEnd(times[j])
        invariant reports == if hasListener && !isGameActive then 1 else 0
        invariant i == 0 ==> timeDisplay == old(timeDisplay)
        invariant i > 0 ==> 0 <= shownAt < i && timeDisplay == FormatTime(times[shownAt])
        invariant isGameActive && i > 0 ==> shownAt == i - 1
        invariant !isGameActive ==>
          && 0 <= shownAt < i && !BeforeEnd(times[shownAt])
          && (forall k :: 0 <= k < shownAt ==> BeforeEnd(times[k]))
      {
        ghost var wasActive := isGameActive;
        var r := TimerTick(times[i], hasListener);
        assert isGameActive <==> wasActive && BeforeEnd(times[i]);
        if wasActive {
          shownAt := i;
        }
        if r.Some? {
          reports := reports + 1;
        }
        assert (forall j :: 0 <= j < i + 1 ==> BeforeEnd(times[j])) <==>
          (forall j :: 0 <= j < i ==> BeforeEnd(times[j])) && BeforeEnd(times[i]);
        i := i + 1;
      }
      if |times| > 0 {
        ShownReading(times, isGameActive, shownAt, timeDisplay);
      }
    }
  }
}
