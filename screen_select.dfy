/** main.cpp's selectScreen: which of the desktop's screens the output
    window goes to, given the screens in Qt's order, the value of the
    YAMS_OUTPUT_SCREEN environment variable (None when unset) and the name
    of the primary screen. */
module ScreenSelect {
  import opened Wrappers
  import opened Digits

  datatype Screen = Screen(name: string, model: string)

  /** The screen returned, by index; dereferencing the end iterator of a
      search that found nothing is undefined behaviour, and is a value of
      its own here. */
  datatype Selection = Chosen(index: nat) | UndefinedDeref

  datatype LogRecord = Warn(message: string) | Info(message: string)

  datatype Outcome = Outcome(selection: Selection, log: seq<LogRecord>)

  /** C's isspace in the "C" locale. */
  predicate IsSpace(c: char)
  {
    c == ' ' || c == '\t' || c == '\n' || c == '\r' || c == '\U{000C}' || c == '\U{000B}'
  }

  predicate AllDigits(s: string)
  {
    forall i :: 0 <= i < |s| ==> IsDigit(s[i])
  }

  /** How many leading characters satisfy IsSpace. */
  function SpaceRun(s: string): (n: nat)
    ensures n <= |s|
    ensures forall i :: 0 <= i < n ==> IsSpace(s[i])
    ensures n < |s| ==> !IsSpace(s[n])
  {
    if s != [] && IsSpace(s[0]) then 1 + SpaceRun(s[1..]) else 0
  }

  /** How many leading characters are decimal digits. */
  function DigitRun(s: string): (n: nat)
    ensures n <= |s|
    ensures AllDigits(s[..n])
    ensures n < |s| ==> !IsDigit(s[n])
  {
    if s != [] && IsDigit(s[0]) then
      var rest := DigitRun(s[1..]);
      assert s[..1 + rest] == [s[0]] + s[1..][..rest];
      1 + rest
    else 0
  }

  /** The value of a string of decimal digits. */
  function Decimal(s: string): nat
    requires AllDigits(s)
  {
    if s == [] then 0
    else 10 * Decimal(s[..|s| - 1]) + DigitValue(s[|s| - 1])
  }

  /** std::atoi: leading white space, an optional sign, then as many digits
      as there are; zero when there are none. */
  function Atoi(s: string): (n: int)
    ensures (forall i :: 0 <= i < |s| ==> !IsDigit(s[i])) ==> n == 0
  {
    var t := s[SpaceRun(s)..];
    if t != [] && (t[0] == '-' || t[0] == '+') then
      var magnitude: int := Decimal(t[1..][..DigitRun(t[1..])]);
      if t[0] == '-' then -magnitude else magnitude
    else
      Decimal(t[..DigitRun(t)])
  }

  /** The decimal spelling of a number, with no leading zeros. */
  function DecimalString(n: nat): (s: string)
    ensures |s| > 0 && AllDigits(s)
  {
    var last := [Digit(n % 10)];
    if n < 10 then last else DecimalString(n / 10) + last
  }

  lemma {:induction false} DecimalStringValue(n: nat)
    ensures Decimal(DecimalString(n)) == n
    decreases n
  {
    var s := DecimalString(n);
    assert s[..|s| - 1] == (if n < 10 then [] else DecimalString(n / 10));
    DigitRoundTrip(n % 10);
    if n >= 10 {
      DecimalStringValue(n / 10);
    }
  }

  /** atoi reads a string of digits as its decimal value. */
  lemma AtoiDigits(s: string)
    requires s != [] && AllDigits(s)
    ensures Atoi(s) == Decimal(s)
  {
    assert SpaceRun(s) == 0;
    assert s[0..] == s;
    DigitRunAll(s);
    assert s[..|s|] == s;
  }

  lemma {:induction false} DigitRunAll(s: string)
    requires AllDigits(s)
    ensures DigitRun(s) == |s|
  {
    if s != [] {
      DigitRunAll(s[1..]);
    }
  }

  /** The decimal spelling of every index reads back as the index. */
  lemma AtoiRoundTrip(n: nat)
    ensures Atoi(DecimalString(n)) == n
  {
    AtoiDigits(DecimalString(n));
    DecimalStringValue(n);
  }

  /** A string with a minus sign in front of its digits is never a
      positive index, so it is looked up as a name. */
  lemma AtoiNegative(digits: string)
    requires AllDigits(digits)
    ensures Atoi("-" + digits) <= 0
    ensures !IsIndexRequest("-" + digits)
  {
    var s := "-" + digits;
    assert SpaceRun(s) == 0;
    assert s[0..] == s;
  }

  /** A leading zero followed by letters is zero, and is not the literal
      "0", so it is looked up as a name. */
  lemma AtoiZeroPrefix()
    ensures Atoi("0abc") == 0
    ensures !IsIndexRequest("0abc")
  {
    var s := "0abc";
    assert SpaceRun(s) == 0;
    assert s[0..] == s;
    assert DigitRun(s) == 1 by {
      assert DigitRun(s[1..]) == 0;
    }
    assert s[..1] == "0";
  }

  /** The first index at or after `from` whose element satisfies p, if
      there is one: std::find_if. */
  function FindFrom<T>(xs: seq<T>, p: T -> bool, from: nat): (r: Option<nat>)
    requires from <= |xs|
    ensures r.Some? ==> from <= r.value < |xs| && p(xs[r.value])
    ensures r.Some? ==> forall j :: from <= j < r.value ==> !p(xs[j])
    ensures r.None? ==> forall j :: from <= j < |xs| ==> !p(xs[j])
    decreases |xs| - from
  {
    if from == |xs| then None
    else if p(xs[from]) then Some(from)
    else FindFrom(xs, p, from + 1)
  }

  function FindFirst<T>(xs: seq<T>, p: T -> bool): (r: Option<nat>)
    ensures r.Some? ==> r.value < |xs| && p(xs[r.value])
    ensures r.Some? ==> forall j :: 0 <= j < r.value ==> !p(xs[j])
    ensures r.None? ==> forall j :: 0 <= j < |xs| ==> !p(xs[j])
  {
    FindFrom(xs, p, 0)
  }

  /** The value asks for a screen by index: atoi is positive, or the value
      is literally "0". */
  predicate IsIndexRequest(wanted: string)
  {
    Atoi(wanted) > 0 || wanted == "0"
  }

  predicate Matches(s: Screen, wanted: string)
  {
    s.name == wanted || s.model == wanted
  }

  /** The last step: the first screen that is not the primary one. */
  function Fallback(screens: seq<Screen>, primaryName: string): (r: Outcome)
    ensures r.selection.Chosen? ==> r.selection.index < |screens|
  {
    match FindFirst(screens, (s: Screen) => s.name != primaryName)
    case Some(i) => Outcome(Chosen(i), [Info("primary screen")])
    case None => Outcome(UndefinedDeref, [Info("primary screen")])
  }

  function SelectScreen(screens: seq<Screen>, wanted: Option<string>, primaryName: string): (r: Outcome)
    ensures r.selection.Chosen? ==> r.selection.index < |screens|
  {
    if |screens| == 1 then
      Outcome(Chosen(0), [Warn("only one screen")])
    else if wanted.None? then
      Fallback(screens, primaryName)
    else
      var w := wanted.value;
      var idx := Atoi(w);
      if IsIndexRequest(w) then
        if idx >= |screens| then
          var f := Fallback(screens, primaryName);
          Outcome(f.selection, [Warn("screen index out of range")] + f.log)
        else
          Outcome(Chosen(idx), [])
      else
        match FindFirst(screens, (s: Screen) => Matches(s, w))
        case Some(i) => Outcome(Chosen(i), [])
        case None =>
          var f := Fallback(screens, primaryName);
          Outcome(f.selection, [Warn("wanted screen not found")] + f.log)
  }

  /** With a single screen, that screen is chosen whatever is asked. */
  lemma OnlyScreen(screens: seq<Screen>, wanted: Option<string>, primaryName: string)
    requires |screens| == 1
    ensures SelectScreen(screens, wanted, primaryName) == Outcome(Chosen(0), [Warn("only one screen")])
  {
  }

  /** An index request within range selects that screen; out of range, it
      warns and the fallback decides. */
  lemma IndexRequest(screens: seq<Screen>, w: string, primaryName: string)
    requires |screens| != 1 && IsIndexRequest(w)
    ensures Atoi(w) < |screens| ==> SelectScreen(screens, Some(w), primaryName) == Outcome(Chosen(Atoi(w)), [])
    ensures Atoi(w) >= |screens| ==>
              var f := Fallback(screens, primaryName);
              SelectScreen(screens, Some(w), primaryName) == Outcome(f.selection, [Warn("screen index out of range")] + f.log)
  {
  }

  /** The decimal spelling of an index in range selects that index. */
  lemma DecimalIndexSelects(screens: seq<Screen>, n: nat, primaryName: string)
    requires |screens| != 1 && n < |screens|
    ensures SelectScreen(screens, Some(DecimalString(n)), primaryName).selection == Chosen(n)
  {
    AtoiRoundTrip(n);
    if n == 0 {
      assert DecimalString(0) == "0";
    }
  }

  /** Any other value selects the first screen whose name or model equals
      it; when there is none, it warns and the fallback decides. */
  lemma NameRequest(screens: seq<Screen>, w: string, primaryName: string)
    requires |screens| != 1 && !IsIndexRequest(w)
    ensures var r := SelectScreen(screens, Some(w), primaryName);
            && (r.selection.Chosen? && r.log == [] <==> exists i :: 0 <= i < |screens| && Matches(screens[i], w))
            && (r.log == [] ==>
                  (r.selection.Chosen? && Matches(screens[r.selection.index], w)
                   && forall j :: 0 <= j < r.selection.index ==> !Matches(screens[j], w)))
    ensures (forall i :: 0 <= i < |screens| ==> !Matches(screens[i], w)) ==>
              var f := Fallback(screens, primaryName);
              SelectScreen(screens, Some(w), primaryName) == Outcome(f.selection, [Warn("wanted screen not found")] + f.log)
  {
    var found := FindFirst(screens, (s: Screen) => Matches(s, w));
    if found.None? {
      assert forall j :: 0 <= j < |screens| ==> !Matches(screens[j], w);
    }
  }

  /** The fallback returns the first screen named differently from the
      primary, and is undefined when every screen has the primary's name. */
  lemma FallbackChoice(screens: seq<Screen>, primaryName: string)
    ensures Fallback(screens, primaryName).log == [Info("primary screen")]
    ensures var r := Fallback(screens, primaryName);
            && (r.selection.Chosen? <==> exists i :: 0 <= i < |screens| && screens[i].name != primaryName)
            && (r.selection.Chosen? ==>
                  (screens[r.selection.index].name != primaryName
                   && forall j :: 0 <= j < r.selection.index ==> screens[j].name == primaryName))
  {
    var found := FindFirst(screens, (s: Screen) => s.name != primaryName);
    if found.None? {
      assert forall j :: 0 <= j < |screens| ==> screens[j].name == primaryName;
    }
  }

  /** With two screens, the first of them primary: unset, the second one
      is chosen by the fallback; asked for by its model, it is found by
      name. */
  lemma TwoScreensByName()
    ensures var screens := [Screen("HDMI-1", "Dell"), Screen("DP-1", "LG")];
            && SelectScreen(screens, None, "HDMI-1").selection == Chosen(1)
            && SelectScreen(screens, Some("LG"), "HDMI-1").selection == Chosen(1)
  {
    var screens := [Screen("HDMI-1", "Dell"), Screen("DP-1", "LG")];
    FallbackChoice(screens, "HDMI-1");
    assert FindFirst(screens, (s: Screen) => Matches(s, "LG")) == Some(1);
  }

  /** With two screens: index 1 is chosen when asked for, and an index out
      of range falls back to the screen that is not primary. */
  lemma TwoScreensByIndex()
    ensures var screens := [Screen("HDMI-1", "Dell"), Screen("DP-1", "LG")];
            && SelectScreen(screens, Some("1"), "DP-1").selection == Chosen(1)
            && SelectScreen(screens, Some("7"), "HDMI-1").selection == Chosen(1)
  {
    var screens := [Screen("HDMI-1", "Dell"), Screen("DP-1", "LG")];
    AtoiRoundTrip(1);
    AtoiRoundTrip(7);
    assert DecimalString(1) == "1" && DecimalString(7) == "7";
    FallbackChoice(screens, "HDMI-1");
  }
}
