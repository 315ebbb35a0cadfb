/**
  scripts/brightness.py: the brightness key bindings. Each one steps the
  backlight with `brightnessctl`, reads the new level back as a percentage of
  the maximum, and shows it in a notification that replaces the previous one.
*/
module Brightness {
  import opened Wrappers
  import opened Text
  import opened Proc
  import opened Bars

  // ===========================================================================
  // get_brightness
  // ===========================================================================

  /**
    Python's `round` on the exact rational `num / den`: the nearest integer,
    and the even one of the two at a tie.
  */
  function RoundHalfEven(num: int, den: int): (r: int)
    requires den > 0
    ensures 2 * (r * den - num) <= den && 2 * (num - r * den) <= den
    ensures 2 * (r * den - num) == den || 2 * (num - r * den) == den ==> r % 2 == 0
  {
    var q := num / den;
    var rem := num % den;
    assert num == q * den + rem;
    assert (q + 1) * den == q * den + den;
    if 2 * rem < den then q
    else if 2 * rem > den then q + 1
    else if q % 2 == 0 then q
    else q + 1
  }

  /** `round((current / maximum) * 100)`, for a maximum that is not zero. */
  function Percent(current: int, maximum: int): int
    requires maximum != 0
  {
    if maximum > 0 then RoundHalfEven(100 * current, maximum)
    else RoundHalfEven(-100 * current, -maximum)
  }

  /**
    `get_brightness`: the outputs of `brightnessctl g` and `brightnessctl m`
    (None when the command failed), each parsed with `int`. A failed command,
    an unparsable answer and a zero maximum each end in the exception Python
    raises, in the order the source meets them.
  */
  function GetBrightness(currentOut: Option<string>, maximumOut: Option<string>): Result<int> {
    if currentOut.None? then Err(CalledProcessError)
    else if ParseInt(currentOut.value).None? then Err(ValueError)
    else if maximumOut.None? then Err(CalledProcessError)
    else if ParseInt(maximumOut.value).None? then Err(ValueError)
    else if ParseInt(maximumOut.value).value == 0 then Err(ZeroDivisionError)
    else Ok(Percent(ParseInt(currentOut.value).value, ParseInt(maximumOut.value).value))
  }

  /**
    A level between 0 and a positive maximum reads as a percentage in
    [0, 100]: 0 exactly at 0 and 100 exactly at the maximum, and within half
    a percent of the exact ratio.
  */
  lemma PercentBounds(current: int, maximum: int)
    requires 0 <= current <= maximum && maximum > 0
    ensures 0 <= Percent(current, maximum) <= 100
    ensures current == 0 ==> Percent(current, maximum) == 0
    ensures current == maximum ==> Percent(current, maximum) == 100
    ensures 2 * (Percent(current, maximum) * maximum - 100 * current) <= maximum
    ensures 2 * (100 * current - Percent(current, maximum) * maximum) <= maximum
  {
    var r := Percent(current, maximum);
    NearestAtLeast(r, 100 * current, 0, maximum);
    NearestAtMost(r, 100 * current, 100, maximum);
    if current == 0 {
      NearestAtMost(r, 0, 0, maximum);
    }
    if current == maximum {
      NearestAtLeast(r, 100 * maximum, 100, maximum);
    }
  }

  /** An integer within half of `x / m` is at least `k` when `x / m` is at least `k`. */
  lemma NearestAtLeast(r: int, x: int, k: int, m: int)
    requires m > 0 && x >= k * m && 2 * (x - r * m) <= m
    ensures r >= k
  {
    if r < k {
      assert (k - r) * m >= m by {
        MulAtLeastOne(k - r, m);
      }
    }
  }

  /** An integer within half of `x / m` is at most `k` when `x / m` is at most `k`. */
  lemma NearestAtMost(r: int, x: int, k: int, m: int)
    requires m > 0 && x <= k * m && 2 * (r * m - x) <= m
    ensures r <= k
  {
    if r > k {
      assert (r - k) * m >= m by {
        MulAtLeastOne(r - k, m);
      }
    }
  }

  lemma MulAtLeastOne(a: int, m: int)
    requires a >= 1 && m > 0
    ensures a * m >= m
  {
  }

  /** The brightness as `brightnessctl` reports it reads back; a zero maximum raises ZeroDivisionError. */
  lemma GetBrightnessReads(current: nat, maximum: nat)
    ensures maximum > 0 ==>
      GetBrightness(Some(NatToString(current) + "\n"), Some(NatToString(maximum) + "\n"))
        == Ok(Percent(current, maximum))
    ensures GetBrightness(Some(NatToString(current) + "\n"), Some(NatToString(maximum) + "\n")).Err?
      <==> maximum == 0
  {
    StripNewline(NatToString(current));
    StripNewline(NatToString(maximum));
    ParseIntOfNatToString(current);
    ParseIntOfNatToString(maximum);
  }

  /** `int` ignores the newline the command prints after the number. */
  lemma StripNewline(d: string)
    requires IsWord(d)
    ensures ParseInt(d + "\n") == ParseInt(d)
  {
    StripNoSpace(d);
    StripTrailingNewline(d);
    assert Strip(d + "\n") == Strip(d);
  }

  // ===========================================================================
  // The notification
  // ===========================================================================

  const DimIcon := "\U{1F505}"
  const BrightIcon := "\U{1F506}"

  function BrightnessIcon(brightness: int): string {
    if brightness < 50 then DimIcon else BrightIcon
  }

  /** The body: icon and percentage on the first line, the bar on the second. */
  function BrightnessBody(brightness: int): string {
    BrightnessIcon(brightness) + " Brightness: " + IntToString(brightness) + "%\n" + Bar(brightness)
  }

  /** `send_brightness_notification`. */
  function BrightnessNotification(brightness: int): Proc {
    Spawn(["notify-send", "--app-name=brightness-control", "--replace-id=3000", "--expire-time=1200",
           "Screen Brightness", BrightnessBody(brightness)])
  }

  /**
    Every brightness notification replaces the previous one (id 3000), expires
    after 1.2 s and is titled "Screen Brightness"; its icon is the dim one
    exactly below 50; for a level in [0, 100] its body ends with the 20-cell
    bar on its own line.
  */
  lemma BrightnessNotificationFields(brightness: int)
    ensures var n := BrightnessNotification(brightness).argv;
      |n| == 6 && n[0] == "notify-send" && n[2] == "--replace-id=3000" && n[3] == "--expire-time=1200"
      && n[4] == "Screen Brightness"
      && (n[5][..|DimIcon|] == DimIcon <==> brightness < 50)
    ensures 0 <= brightness <= 100 ==>
      var b := BrightnessBody(brightness);
      |b| > Width && b[|b| - Width - 1] == '\n' && b[|b| - Width..] == Bar(brightness) && |Bar(brightness)| == Width
  {
    var b := BrightnessBody(brightness);
    var icon := BrightnessIcon(brightness);
    var head := icon + " Brightness: " + IntToString(brightness) + "%\n";
    assert b == head + Bar(brightness);
    assert b[..|DimIcon|] == icon;
    assert DimIcon != BrightIcon by {
      assert DimIcon[0] != BrightIcon[0];
    }
    if 0 <= brightness <= 100 {
      BarShape(brightness);
    }
  }

  // ===========================================================================
  // The bindings
  // ===========================================================================

  /** The step the bindings take when called without an amount. */
  const DefaultAmount := 5

  /** `brightnessctl set <amount>%+` (up) or `<amount>%-` (down). */
  function StepArgv(amount: int, up: bool): seq<string> {
    ["brightnessctl", "set", IntToString(amount) + (if up then "%+" else "%-")]
  }

  /** The step argument names the amount, as a number `int` reads back, and the direction. */
  lemma StepArgvReads(amount: int, up: bool)
    ensures var a := StepArgv(amount, up)[2];
      |a| > 2 && ParseInt(a[..|a| - 2]) == Some(amount)
      && a[|a| - 2..] == (if up then "%+" else "%-")
    ensures StepArgv(DefaultAmount, true) == ["brightnessctl", "set", "5%+"]
    ensures StepArgv(DefaultAmount, false) == ["brightnessctl", "set", "5%-"]
  {
    var d := IntToString(amount);
    var a := StepArgv(amount, up)[2];
    assert a[..|a| - 2] == d;
    ParseIntOfIntToString(amount);
    assert DigitChar(5) == '5';
    assert IntToString(DefaultAmount) == "5";
    assert IntToString(DefaultAmount) + "%+" == "5%+";
    assert IntToString(DefaultAmount) + "%-" == "5%-";
  }

  /**
    `increase_brightness` (up) and `decrease_brightness` (down): step the
    backlight (a checked command: `stepped` is false when it failed), read the
    level back and notify.
  */
  function ChangeBrightness(amount: int, up: bool, stepped: bool,
                            currentOut: Option<string>, maximumOut: Option<string>): Run {
    var step := Spawn(StepArgv(amount, up));
    if !stepped then Run([step], Some(CalledProcessError))
    else
      match GetBrightness(currentOut, maximumOut)
      case Err(e) => Run([step], Some(e))
      case Ok(b) => Done([step, BrightnessNotification(b)])
  }

  /**
    Every binding runs the step first. A notification follows exactly when
    the step and both readings succeeded, and it shows the level read back;
    otherwise the binding ends with the exception and nothing else runs.
  */
  lemma ChangeBrightnessRuns(amount: int, up: bool, stepped: bool,
                             currentOut: Option<string>, maximumOut: Option<string>)
    ensures var r := ChangeBrightness(amount, up, stepped, currentOut, maximumOut);
      var g := GetBrightness(currentOut, maximumOut);
      1 <= |r.launched| <= 2 && r.launched[0].argv == StepArgv(amount, up)
      && (r.raised.None? <==> stepped && g.Ok?)
      && (|r.launched| == 2 <==> r.raised.None?)
      && (r.raised.None? ==> r.launched[1] == BrightnessNotification(g.value))
      && (!stepped ==> r.raised == Some(CalledProcessError))
  {
  }
}
