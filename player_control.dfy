/** PlayerControl.cpp: the transport widget's duration formatting, position
    slider and play/stop buttons. Qt widgets are reduced to the fields the
    slots write; signals are appended to a log. */
module PlayerControl {
  import opened Wrappers
  import opened Arithmetic
  import opened Digits

  const MsPerSecond: nat := 1000
  const MsPerMinute: nat := 60000
  const MsPerHour: nat := 3600000
  /** QTime holds times of day only: 24 hours. */
  const MsPerDay: nat := 86400000

  const U64: nat := 0x1_0000_0000_0000_0000
  const I64Min: int := -0x8000_0000_0000_0000
  const I64Max: int := 0x7fff_ffff_ffff_ffff

  predicate IsInt64(x: int) { I64Min <= x <= I64Max }
  predicate IsInt32(x: int) { -0x8000_0000 <= x < 0x8000_0000 }

  /** The conversion of a wider integer to a C int: two's complement
      wrap-around to 32 bits. */
  function ToInt32(x: int): (y: int)
    ensures IsInt32(y)
    ensures IsInt32(x) ==> y == x
  {
    var u := x % 0x1_0000_0000;
    if u < 0x8000_0000 then u else u - 0x1_0000_0000
  }

  /** C++ integer division, truncating toward zero: the floor for a
      non-negative dividend, the ceiling for a negative one. */
  function Quot(a: int, b: nat): (q: int)
    requires b > 0
    ensures a >= 0 ==> q == a / b
    ensures a < 0 ==> q <= 0 && q * b - b < a <= q * b
  {
    if a >= 0 then a / b
    else
      var k := (-a) / b;
      assert -a == k * b + (-a) % b;
      -k
  }

  /** The conversion of a qint64 to quint64, and back. */
  function ToUnsigned(x: int): (u: nat)
    ensures u < U64
    ensures 0 <= x ==> x < U64 ==> u == x
    ensures x < 0 && 0 <= x + U64 ==> u == x + U64
  {
    x % U64
  }

  function ToSigned(u: nat): (x: int)
    requires u < U64
    ensures IsInt64(x) && ToUnsigned(x) == u
  {
    if u <= I64Max then u else u - U64
  }

  /** The broken-down time DurationToString builds a QTime from. */
  datatype Clock = Clock(hours: nat, minutes: nat, seconds: nat, millis: nat)

  function ClockValue(c: Clock): nat
  {
    c.hours * MsPerHour + c.minutes * MsPerMinute + c.seconds * MsPerSecond + c.millis
  }

  predicate ClockNormal(c: Clock)
  {
    c.minutes < 60 && c.seconds < 60 && c.millis < 1000
  }

  /** The decomposition steps of DurationToString, on non-negative input.
      The decomposition is exact: the parts add back up to the input, and
      minutes, seconds and milliseconds are below their carry. */
  function ClockOf(durationMs: nat): (c: Clock)
    ensures ClockNormal(c) && ClockValue(c) == durationMs
  {
    var seconds := durationMs / 1000;
    var millis := durationMs - seconds * 1000;
    var hours := seconds / 3600;
    var seconds' := seconds - hours * 3600;
    var minutes := seconds' / 60;
    var seconds'' := seconds' - minutes * 60;
    Clock(hours, minutes, seconds'', millis)
  }

  /** The decomposition is the only normal one: hours, minutes, seconds
      and milliseconds are determined by the total. */
  lemma {:induction false} ClockUnique(c: Clock)
    requires ClockNormal(c)
    ensures ClockOf(ClockValue(c)) == c
  {
    var v := ClockValue(c);
    var sub := c.minutes * 60 + c.seconds;
    assert sub < 3600;
    var totalSeconds := c.hours * 3600 + sub;
    assert v == totalSeconds * 1000 + c.millis;
    DivUnique(v, 1000, totalSeconds, c.millis);
    DivUnique(totalSeconds, 3600, c.hours, sub);
    DivUnique(sub, 60, c.minutes, c.seconds);
  }

  /** QTime(h, m, s, ms) is a valid time of day. */
  predicate QTimeValid(c: Clock)
  {
    ClockNormal(c) && c.hours < 24
  }

  /** QTime::toString("hh:mm:ss.zzz"); None for an invalid time. */
  function QTimeText(c: Clock): (text: Option<string>)
    ensures text.Some? <==> QTimeValid(c)
  {
    if QTimeValid(c) then Some(FormatClock(c)) else None
  }

  /** "hh:mm:ss.zzz" of a normal clock under 24 hours: each field zero
      padded, two digits for hours, minutes and seconds, three for
      milliseconds. */
  function FormatClock(c: Clock): (s: string)
    requires QTimeValid(c)
    ensures TimeShaped(s)
  {
    [Digit(c.hours / 10), Digit(c.hours % 10), ':',
     Digit(c.minutes / 10), Digit(c.minutes % 10), ':',
     Digit(c.seconds / 10), Digit(c.seconds % 10), '.',
     Digit(c.millis / 100), Digit(c.millis / 10 % 10), Digit(c.millis % 10)]
  }

  /** A decomposed duration is a time of day exactly when it is under 24
      hours. */
  lemma DayBound(durationMs: nat)
    ensures ClockOf(durationMs).hours < 24 <==> durationMs < MsPerDay
  {
    var c := ClockOf(durationMs);
    if c.hours >= 24 {
      assert durationMs >= c.hours * MsPerHour >= 24 * MsPerHour;
    } else {
      assert durationMs < (c.hours + 1) * MsPerHour <= MsPerDay;
    }
  }

  /** DurationToString: the time of day durationMs milliseconds after
      midnight, as "hh:mm:ss.zzz". It gives a text exactly on the durations
      of one day; a negative duration or one of 24 hours or more makes no
      valid QTime, and is None here. */
  function DurationToString(durationMs: int): (text: Option<string>)
    ensures text.Some? <==> 0 <= durationMs < MsPerDay
    ensures text.Some? ==> TimeShaped(text.value)
  {
    if durationMs < 0 then None
    else
      DayBound(durationMs);
      QTimeText(ClockOf(durationMs))
  }

  /** The shape of "hh:mm:ss.zzz": twelve characters, digits around the
      two colons and the dot. */
  predicate TimeShaped(s: string)
  {
    && |s| == 12 && s[2] == ':' && s[5] == ':' && s[8] == '.'
    && forall i :: 0 <= i < 12 && i != 2 && i != 5 && i != 8 ==> IsDigit(s[i])
  }

  /** The fields of a string of that shape, read as decimal numbers. */
  function ClockOfText(s: string): (c: Clock)
    requires TimeShaped(s)
    ensures c.hours < 100 && c.minutes < 100 && c.seconds < 100 && c.millis < 1000
  {
    Clock(10 * DigitValue(s[0]) + DigitValue(s[1]),
          10 * DigitValue(s[3]) + DigitValue(s[4]),
          10 * DigitValue(s[6]) + DigitValue(s[7]),
          100 * DigitValue(s[9]) + 10 * DigitValue(s[10]) + DigitValue(s[11]))
  }

  /** A reference reading of an "hh:mm:ss.zzz" string back into
      milliseconds, when it is one. */
  function ParseDuration(s: string): (d: Option<nat>)
    ensures d.Some? ==> d.value < MsPerDay
  {
    if TimeShaped(s) then
      var c := ClockOfText(s);
      if QTimeValid(c) then Some(ClockValue(c)) else None
    else None
  }

  /** Every duration of the day prints to a string that reads back as the
      same duration. */
  lemma {:induction false} DurationRoundTrip(durationMs: int)
    requires 0 <= durationMs < MsPerDay
    ensures DurationToString(durationMs).Some?
    ensures ParseDuration(DurationToString(durationMs).value) == Some(durationMs)
  {
    var c := ClockOf(durationMs);
    var s := FormatClock(c);
    assert DurationToString(durationMs) == Some(s);
    assert ClockOfText(s) == c by {
      FieldDigits(c.hours);
      FieldDigits(c.minutes);
      FieldDigits(c.seconds);
      MillisDigits(c.millis);
    }
  }

  /** The digits printed for a field read back as the field. */
  lemma FieldDigits(n: nat)
    requires n < 100
    ensures 10 * DigitValue(Digit(n / 10)) + DigitValue(Digit(n % 10)) == n
  {
    DigitRoundTrip(n / 10);
    DigitRoundTrip(n % 10);
  }

  lemma MillisDigits(n: nat)
    requires n < 1000
    ensures 100 * DigitValue(Digit(n / 100)) + 10 * DigitValue(Digit(n / 10 % 10)) + DigitValue(Digit(n % 10)) == n
  {
    DigitRoundTrip(n / 100);
    DigitRoundTrip(n / 10 % 10);
    DigitRoundTrip(n % 10);
  }

  /** Two digits read as a number print back as the same two digits. */
  lemma TwoDigits(x: char, y: char)
    requires IsDigit(x) && IsDigit(y)
    ensures var n := 10 * DigitValue(x) + DigitValue(y); Digit(n / 10) == x && Digit(n % 10) == y
  {
    DivUnique(10 * DigitValue(x) + DigitValue(y), 10, DigitValue(x), DigitValue(y));
  }

  lemma ThreeDigits(x: char, y: char, z: char)
    requires IsDigit(x) && IsDigit(y) && IsDigit(z)
    ensures var n := 100 * DigitValue(x) + 10 * DigitValue(y) + DigitValue(z);
            Digit(n / 100) == x && Digit(n / 10 % 10) == y && Digit(n % 10) == z
  {
    var a, b, c := DigitValue(x), DigitValue(y), DigitValue(z);
    var n := 100 * a + 10 * b + c;
    DivUnique(n, 100, a, 10 * b + c);
    DivUnique(n, 10, 10 * a + b, c);
    DivUnique(10 * a + b, 10, a, b);
  }

  /** Formatting the fields read from a time-shaped string gives the
      string back. */
  lemma FormatClockOfText(s: string)
    requires TimeShaped(s)
    requires QTimeValid(ClockOfText(s))
    ensures FormatClock(ClockOfText(s)) == s
  {
    TwoDigits(s[0], s[1]);
    TwoDigits(s[3], s[4]);
    TwoDigits(s[6], s[7]);
    ThreeDigits(s[9], s[10], s[11]);
  }

  /** Every string that reads as a duration is the one DurationToString
      prints for it: the format has a single spelling per time. */
  lemma {:induction false} ParseRoundTrip(s: string)
    requires ParseDuration(s).Some?
    ensures DurationToString(ParseDuration(s).value) == Some(s)
  {
    var c := ClockOfText(s);
    ClockUnique(c);
    FormatClockOfText(s);
    assert DurationToString(ClockValue(c)) == Some(FormatClock(c));
  }

  lemma FormatExamples()
    ensures FormatClock(Clock(0, 0, 0, 0)) == "00:00:00.000"
    ensures FormatClock(Clock(1, 2, 3, 4)) == "01:02:03.004"
    ensures FormatClock(Clock(23, 59, 59, 999)) == "23:59:59.999"
  {
  }

  /** A valid time of day is printed from exactly its own fields. */
  lemma DurationOfClock(c: Clock)
    requires QTimeValid(c)
    ensures DurationToString(ClockValue(c)) == Some(FormatClock(c))
  {
    ClockUnique(c);
  }

  /** The label text of the widget's own start. */
  lemma DurationAtZero()
    ensures DurationToString(0) == Some("00:00:00.000")
  {
    DurationOfClock(Clock(0, 0, 0, 0));
    FormatExamples();
  }

  /** An hour, two minutes, three seconds and four milliseconds. */
  lemma DurationExample()
    ensures DurationToString(3723004) == Some("01:02:03.004")
  {
    assert ClockOf(3723004) == Clock(1, 2, 3, 4);
    assert DurationToString(3723004) == Some(FormatClock(Clock(1, 2, 3, 4)));
    FormatExamples();
  }

  /** The last millisecond of a day is the last text there is; a whole day
      has none. */
  lemma DurationDayEnd()
    ensures DurationToString(MsPerDay - 1) == Some("23:59:59.999")
    ensures DurationToString(MsPerDay) == None
  {
    assert ClockOf(MsPerDay - 1) == Clock(23, 59, 59, 999);
    assert DurationToString(MsPerDay - 1) == Some(FormatClock(Clock(23, 59, 59, 999)));
    assert ClockOf(MsPerDay).hours == 24;
    FormatExamples();
  }

  /** QMediaPlayer::State. */
  datatype PlayerState = Stopped | Playing | Paused

  /** The two play-button icons. */
  datatype Icon = PlaybackStart | PlaybackPause

  datatype Signal = Seek(positionMs: int) | Play | Pause

  /** The icon setState shows for a state. */
  function IconFor(state: PlayerState): (icon: Icon)
    ensures icon == PlaybackPause <==> state == Playing
  {
    match state
    case Stopped => PlaybackStart
    case Playing => PlaybackPause
    case Paused => PlaybackStart
  }

  /** What the play button emits in a state. */
  function ClickSignal(state: PlayerState): (s: Signal)
    ensures s == Pause <==> state == Playing
    ensures s == Play <==> state != Playing
  {
    match state
    case Stopped => Play
    case Paused => Play
    case Playing => Pause
  }

  /** The play button's action matches its icon: it pauses exactly when it
      shows pause. */
  lemma ClickMatchesIcon(state: PlayerState)
    ensures ClickSignal(state) == Pause <==> IconFor(state) == PlaybackPause
    ensures ClickSignal(state) == Play <==> IconFor(state) == PlaybackStart
  {
  }

  /** The position updatePositionInfo shows as elapsed: a qint64 compared
      against the quint64 duration, so the comparison is unsigned. */
  function Elapsed(duration: nat, positionMs: int): (e: int)
    requires duration < U64 && IsInt64(positionMs)
    ensures IsInt64(e)
  {
    if ToUnsigned(positionMs) > duration then ToSigned(duration) else positionMs
  }

  /** The remaining time: the quint64 difference, passed on as a qint64. */
  function Remaining(duration: nat, positionMs: int): (r: int)
    requires duration < U64 && IsInt64(positionMs)
    ensures IsInt64(r)
  {
    ToSigned((duration - ToUnsigned(Elapsed(duration, positionMs))) % U64)
  }

  /** On durations and positions that fit in a signed 64-bit value without
      going negative, the elapsed time is the position clamped to the
      duration and the remaining time the rest: neither is negative and they
      add up to the duration. */
  lemma {:induction false} ClampedPosition(duration: nat, positionMs: int)
    requires duration <= I64Max && 0 <= positionMs <= I64Max
    ensures Elapsed(duration, positionMs) == if positionMs > duration then duration else positionMs
    ensures 0 <= Elapsed(duration, positionMs) <= duration
    ensures Remaining(duration, positionMs) == duration - Elapsed(duration, positionMs)
  {
    var e := Elapsed(duration, positionMs);
    assert ToUnsigned(e) == e;
    assert (duration - e) % U64 == duration - e;
  }

  /** Both labels of a position within a duration under a day read back:
      the elapsed and the remaining time add up to the duration. */
  lemma PositionLabels(duration: nat, positionMs: int)
    requires duration < MsPerDay && 0 <= positionMs <= I64Max
    ensures DurationToString(Elapsed(duration, positionMs)).Some?
    ensures DurationToString(Remaining(duration, positionMs)).Some?
    ensures ParseDuration(DurationToString(Elapsed(duration, positionMs)).value).value
            + ParseDuration(DurationToString(Remaining(duration, positionMs)).value).value
            == duration
  {
    ClampedPosition(duration, positionMs);
    DurationRoundTrip(Elapsed(duration, positionMs));
    DurationRoundTrip(Remaining(duration, positionMs));
  }

  /** The QString DurationToString returns: QTime::toString gives the
      empty string for an invalid time. A non-empty text reads back as the
      duration it was printed from. */
  function DurationText(durationMs: int): (s: string)
    ensures s != "" <==> 0 <= durationMs < MsPerDay
    ensures s != "" ==> ParseDuration(s) == Some(durationMs)
  {
    if 0 <= durationMs < MsPerDay then
      DurationRoundTrip(durationMs);
      DurationToString(durationMs).value
    else ""
  }

  class PlayerControl {
    /** d_duration, a quint64. */
    var duration: nat
    /** d_state. */
    var state: PlayerState
    /** positionSlider's maximum, value and held-down flag. */
    var sliderMax: int
    var sliderValue: int
    var sliderDown: bool
    var stopEnabled: bool
    var playIcon: Icon
    /** ellapsedLabel and remainingLabel, held as the durations whose text
        they show. */
    var elapsedShown: int
    var remainingShown: int
    var signals: seq<Signal>

    ghost predicate Valid()
      reads this
    {
      duration < U64 && IsInt32(sliderValue)
    }

    /** The texts of ellapsedLabel and remainingLabel. The elapsed label
        is empty outside a day; the remaining label is "-" followed by the
        remaining time, or "-" alone outside a day. */
    function ElapsedLabel(): (text: string)
      reads this
      ensures text != "" <==> 0 <= elapsedShown < MsPerDay
      ensures text != "" ==> ParseDuration(text) == Some(elapsedShown)
    {
      DurationText(elapsedShown)
    }

    function RemainingLabel(): (text: string)
      reads this
      ensures |text| >= 1 && text[0] == '-'
      ensures text == "-" <==> !(0 <= remainingShown < MsPerDay)
      ensures text != "-" ==> |text| == 13 && ParseDuration(text[1..]) == Some(remainingShown)
    {
      var t := DurationText(remainingShown);
      assert ("-" + t)[1..] == t;
      "-" + t
    }

    /** The constructor sets d_duration to 0 and calls durationChanged(0);
        the initial d_state, button state and icon come from outside this
        file and are parameters. */
    constructor Init(initialState: PlayerState, stopEnabled: bool, playIcon: Icon)
      ensures Valid() && duration == 0 && state == initialState
      ensures sliderMax == 0 && sliderValue == 0 && !sliderDown
      ensures this.stopEnabled == stopEnabled && this.playIcon == playIcon
      ensures elapsedShown == 0 && remainingShown == 0
      ensures signals == []
    {
      duration, state := 0, initialState;
      sliderMax, sliderValue, sliderDown := 0, 0, false;
      this.stopEnabled, this.playIcon := stopEnabled, playIcon;
      signals := [];
      new;
      DurationChanged(0);
      ClampedPosition(0, 0);
    }

    /** updatePositionInfo: the labels show the clamped position and what
        remains of the duration. */
    method UpdatePositionInfo(positionMs: int)
      requires Valid() && IsInt64(positionMs)
      modifies this`elapsedShown, this`remainingShown
      ensures elapsedShown == Elapsed(duration, positionMs)
      ensures remainingShown == Remaining(duration, positionMs)
    {
      var position := positionMs;
      if ToUnsigned(position) > duration {
        position := ToSigned(duration);
      }
      elapsedShown := position;
      remainingShown := ToSigned((duration - ToUnsigned(position)) % U64);
    }

    /** durationChanged: store the duration, set the slider's maximum to
        whole seconds and refresh the labels for the slider's position. */
    method DurationChanged(durationMs: int)
      requires Valid() && IsInt64(durationMs)
      modifies this`duration, this`sliderMax, this`elapsedShown, this`remainingShown
      ensures Valid()
      ensures duration == ToUnsigned(durationMs) && sliderMax == ToInt32(Quot(durationMs, 1000))
      ensures elapsedShown == Elapsed(duration, sliderValue * 1000)
      ensures remainingShown == Remaining(duration, sliderValue * 1000)
    {
      duration := ToUnsigned(durationMs);
      sliderMax := ToInt32(Quot(durationMs, 1000));
      SliderMillisFit(sliderValue);
      UpdatePositionInfo(sliderValue * 1000);
    }

    /** positionChanged: move the slider to the position in seconds unless
        it is held down, and refresh the labels. */
    method PositionChanged(positionMs: int)
      requires Valid() && IsInt64(positionMs)
      modifies this`sliderValue, this`elapsedShown, this`remainingShown
      ensures Valid()
      ensures sliderValue == if old(sliderDown) then old(sliderValue) else ToInt32(Quot(positionMs, 1000))
      ensures elapsedShown == Elapsed(duration, positionMs)
      ensures remainingShown == Remaining(duration, positionMs)
    {
      if !sliderDown {
        sliderValue := ToInt32(Quot(positionMs, 1000));
      }
      UpdatePositionInfo(positionMs);
    }

    /** on_positionSlider_sliderMoved: seek to the slider's second. */
    method SliderMoved(value: int)
      modifies this`signals
      ensures signals == old(signals) + [Seek(value * 1000)]
    {
      signals := signals + [Seek(value * 1000)];
    }

    /** setState: nothing happens for the current state; otherwise the stop
        button is enabled unless stopped and the icon follows the state. */
    method SetState(newState: PlayerState)
      modifies this`state, this`stopEnabled, this`playIcon
      ensures state == newState
      ensures newState == old(state) ==> stopEnabled == old(stopEnabled) && playIcon == old(playIcon)
      ensures newState != old(state) ==> (stopEnabled <==> newState != Stopped) && playIcon == IconFor(newState)
    {
      if newState == state {
        return;
      }
      state := newState;
      match newState {
        case Stopped =>
          stopEnabled := false;
          playIcon := PlaybackStart;
        case Playing =>
          stopEnabled := true;
          playIcon := PlaybackPause;
        case Paused =>
          stopEnabled := true;
          playIcon := PlaybackStart;
      }
    }

    /** on_playButton_clicked: play when stopped or paused, pause when
        playing. */
    method PlayButtonClicked()
      modifies this`signals
      ensures signals == old(signals) + [ClickSignal(state)]
    {
      match state {
        case Stopped =>
          signals := signals + [Play];
        case Paused =>
          signals := signals + [Play];
        case Playing =>
          signals := signals + [Pause];
      }
    }
  }

  /** A slider value, a C int, times 1000 is a qint64. */
  lemma SliderMillisFit(value: int)
    requires IsInt32(value)
    ensures IsInt64(value * 1000)
  {
  }

  /** Holding the slider down keeps it where it is while the position moves
      on, and the elapsed label still follows the position. */
  method HeldSliderStays(positionMs: int) returns (value: int, elapsed: string)
    requires 0 <= positionMs < MsPerDay
    ensures value == 0 && Some(elapsed) == DurationToString(positionMs)
  {
    var p := new PlayerControl.Init(Stopped, false, PlaybackStart);
    p.DurationChanged(MsPerDay - 1);
    assert p.duration == MsPerDay - 1 && p.sliderValue == 0;
    p.sliderDown := true;
    p.PositionChanged(positionMs);
    value, elapsed := p.sliderValue, p.ElapsedLabel();
    ClampedPosition(MsPerDay - 1, positionMs);
  }
}
