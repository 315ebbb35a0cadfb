/**
  scripts/performance.py: the performance-profile menu. It reads the active
  profile from `asusctl profile -p`, offers the three profiles in a rofi
  picker, and switches with `asusctl profile -P` after a confirmation picker.
*/
module Performance {
  import opened Wrappers
  import opened Text
  import opened Proc

  const PerformanceIcon := "\U{F14DE}"
  const BalancedIcon := "\U{F04C5}"
  const QuietIcon := "\U{F007B}"
  const YesIcon := "\U{F058}"
  const NoIcon := "\U{F530}"

  /** The profiles offered, in the order shown, and the icon in front of each. */
  const Profiles: seq<string> := ["Performance", "Balanced", "Quiet"]
  const Icons: seq<string> := [PerformanceIcon, BalancedIcon, QuietIcon]

  /** `config_dir`: `$XDG_CONFIG_HOME` ("" when unset) followed by "/rofi". */
  function ConfigDir(xdg: string): string {
    xdg + "/rofi"
  }

  /**
    `get_current_profile`: the last whitespace-separated word of the second
    line of `asusctl profile -p`. A missing second line, or one without a word,
    raises IndexError.
  */
  function CurrentProfile(out: string): Result<string> {
    var lines := SplitLines(out);
    if |lines| < 2 then Err(IndexError)
    else
      var words := Words(lines[1]);
      if |words| == 0 then Err(IndexError) else Ok(words[|words| - 1])
  }

  /** The menu line of profile `k`: its icon, a space, its name. */
  function MenuLine(k: nat): string
    requires k < |Profiles|
  {
    Icons[k] + " " + Profiles[k]
  }

  function MenuLines(): seq<string> {
    [MenuLine(0), MenuLine(1), MenuLine(2)]
  }

  /** The profile picker, titled with the current profile. */
  function MenuCall(xdg: string, current: string): Proc {
    Pipe(["rofi", "-dmenu", "-p", "Current Profile: " + current, "-mesg", "Current Profile: " + current,
          "-theme", ConfigDir(xdg) + "/power.rasi", "-theme-str", "listview {columns: 3; lines: 1;}"],
         Join(MenuLines(), "\n"))
  }

  /** `performance_mode_menu`'s answer: the second word of the picked line; IndexError when there is none. */
  function Selection(reply: string): Result<string> {
    var words := Words(Strip(reply));
    if |words| < 2 then Err(IndexError) else Ok(words[1])
  }

  /** The confirmation picker, naming the profile. */
  function ConfirmCall(xdg: string, mode: string): Proc {
    Pipe(["rofi", "-theme", ConfigDir(xdg) + "/power.rasi", "-theme-str", "listview {columns: 2; lines: 1;}",
          "-dmenu", "-p", "Confirmation", "-mesg", "Set to " + mode + " mode?"],
         Join([YesIcon, NoIcon], "\n"))
  }

  /** `confirm(mode)`: only the yes icon, surrounding blanks aside, confirms. */
  predicate Confirmed(reply: string) {
    Strip(reply) == YesIcon
  }

  /**
    `set_performance_profile`: the inputs are `$XDG_CONFIG_HOME`, the output
    of `asusctl profile -p` and what the two pickers print.
  */
  function SetProfile(xdg: string, profileOut: string, menuReply: string, confirmReply: string): Run {
    ProfileFlow(xdg, CurrentProfile(profileOut), Selection(menuReply), Confirmed(confirmReply))
  }

  /**
    The steps of `set_performance_profile` once its three readings are known:
    the profile read (or the error reading it), the menu's answer and whether
    the confirmation picker returned the yes icon. The menu is only asked
    after the profile was read, and the confirmation only after a line was picked.
  */
  function ProfileFlow(xdg: string, current: Result<string>, mode: Result<string>, confirmed: bool): Run {
    match current
    case Err(e) => Run([], Some(e))
    case Ok(c) =>
      var menu := MenuCall(xdg, c);
      match mode
      case Err(e) => Run([menu], Some(e))
      case Ok(m) =>
        if confirmed then Done([menu, ConfirmCall(xdg, m), Spawn(["asusctl", "profile", "-P", m])])
        else Done([menu, ConfirmCall(xdg, m)])
  }

  // ===========================================================================
  // Properties
  // ===========================================================================

  /**
    The profile is read from the second line, whatever the first line and the
    lines after say: "Active profile is Quiet" reads as "Quiet".
  */
  lemma CurrentProfileReads(first: string, profile: string, rest: string)
    requires forall k :: 0 <= k < |first| ==> first[k] != '\n'
    requires IsWord(profile) && forall k :: 0 <= k < |profile| ==> profile[k] != '\n'
    ensures CurrentProfile(first + "\n" + ("Active profile is " + profile) + "\n" + rest) == Ok(profile)
  {
    var second := "Active profile is " + profile;
    assert forall k :: 0 <= k < |second| ==> second[k] != '\n' by {
      forall k | 0 <= k < |second|
        ensures second[k] != '\n'
      {
        if k >= 18 {
          assert second[k] == profile[k - 18];
        }
      }
    }
    SecondLine(first, second, rest);
    SecondLineWords(profile);
  }

  /** The second line of `first`, a break, `second`, a break and anything after is `second`. */
  lemma SecondLine(first: string, second: string, rest: string)
    requires forall k :: 0 <= k < |first| ==> first[k] != '\n'
    requires forall k :: 0 <= k < |second| ==> second[k] != '\n'
    ensures |SplitLines(first + "\n" + second + "\n" + rest)| >= 2
    ensures SplitLines(first + "\n" + second + "\n" + rest)[1] == second
  {
    var out := first + "\n" + second + "\n" + rest;
    SplitAtBreak(first, second + "\n" + rest);
    assert out == first + "\n" + (second + "\n" + rest);
    SplitAtBreak(second, rest);
    var parts := Split(out, "\n");
    assert parts == [first, second] + Split(rest, "\n");
  }

  lemma SecondLineWords(profile: string)
    requires IsWord(profile)
    ensures Words("Active profile is " + profile) == ["Active", "profile", "is", profile]
  {
    var ws := ["Active", "profile", "is", profile];
    ActiveWords();
    WordsJoin(ws);
    ActiveProfileText(profile);
  }

  lemma ActiveWords()
    ensures IsWord("Active") && IsWord("profile") && IsWord("is")
  {
  }

  lemma ActiveProfileText(profile: string)
    ensures Join(["Active", "profile", "is", profile], " ") == "Active profile is " + profile
  {
    JoinFour("Active", "profile", "is", profile);
    var a := ("Active" + " ") + "profile";
    var b := " " + "is" + " ";
    assert a + b == "Active profile is ";
  }

  /** Output of a single line (or none) has no second line: IndexError. */
  lemma OneLineRaises(out: string)
    requires forall k :: 0 <= k < |out| ==> out[k] != '\n'
    ensures CurrentProfile(out) == Err(IndexError)
  {
    SplitNoBreak(out);
  }

  /**
    Picking any menu line, with whatever blanks rofi prints around it,
    selects that line's profile name.
  */
  lemma PickedLineSelectsProfile(k: nat, before: string, after: string)
    requires k < |Profiles|
    requires forall i :: 0 <= i < |before| ==> IsSpace(before[i])
    requires forall i :: 0 <= i < |after| ==> IsSpace(after[i])
    ensures Selection(before + MenuLine(k) + after) == Ok(Profiles[k])
  {
    var line := MenuLine(k);
    assert |Icons[k]| == 1 && !IsSpace(Icons[k][0]);
    assert IsWord(Icons[k]) && IsWord(Profiles[k]);
    assert line[0] == Icons[k][0];
    assert line[|line| - 1] == Profiles[k][|Profiles[k]| - 1];
    StripSurrounded(before, line, after);
    WordsJoin([Icons[k], Profiles[k]]);
    assert Join([Icons[k], Profiles[k]], " ") == line by {
      assert [Icons[k], Profiles[k]][1..] == [Profiles[k]];
    }
  }

  /** A cancelled picker (nothing, or blanks only) raises IndexError. */
  lemma CancelRaises(reply: string)
    requires forall i :: 0 <= i < |reply| ==> IsSpace(reply[i])
    ensures Selection(reply) == Err(IndexError)
  {
    TrimLeftSpec(reply);
    assert Strip(reply) == "";
    WordsNone();
  }

  /**
    `asusctl profile -P` runs exactly when the profile was read, a line with
    at least two words was picked and the confirmation returned the yes icon;
    it then sets the second word of the picked line, and runs last, after the
    two pickers. An unreadable profile stops the script before any picker, and
    a cancelled menu before the confirmation.
  */
lemma SetProfileRunsOnlyConfirmed(xdg: string, profileOut: string, menuReply: string, confirmReply: string)
    ensures var r := SetProfile(xdg, profileOut, menuReply, confirmReply);
      var current := CurrentProfile(profileOut);
      var mode := Selection(menuReply);
      (r.raised.Some? <==> current.Err? || mode.Err?)
      && (r.raised.Some? ==> r.raised == Some(IndexError))
      && (current.Err? ==> r.launched == [])
      && (current.Ok? && mode.Err? ==> r.launched == [MenuCall(xdg, current.value)])
      && (current.Ok? && mode.Ok? ==>
            r.launched[..2] == [MenuCall(xdg, current.value), ConfirmCall(xdg, mode.value)]
            && (Confirmed(confirmReply) ==> r.launched[2..] == [Spawn(["asusctl", "profile", "-P", mode.value])])
            && (!Confirmed(confirmReply) ==> |r.launched| == 2))
  {
    ReadingsRaiseIndexError(profileOut, menuReply);
    ProfileFlowRuns(xdg, CurrentProfile(profileOut), Selection(menuReply), Confirmed(confirmReply));
  }

  /** Both readings only ever fail with IndexError. */
  lemma ReadingsRaiseIndexError(profileOut: string, menuReply: string)
    ensures CurrentProfile(profileOut).Err? ==> CurrentProfile(profileOut).error == IndexError
    ensures Selection(menuReply).Err? ==> Selection(menuReply).error == IndexError
  {
  }

  lemma ProfileFlowRuns(xdg: string, current: Result<string>, mode: Result<string>, confirmed: bool)
    requires current.Err? ==> current.error == IndexError
    requires mode.Err? ==> mode.error == IndexError
    ensures var r := ProfileFlow(xdg, current, mode, confirmed);
      (r.raised.Some? <==> current.Err? || mode.Err?)
      && (r.raised.Some? ==> r.raised == Some(IndexError))
      && (current.Err? ==> r.launched == [])
      && (current.Ok? && mode.Err? ==> r.launched == [MenuCall(xdg, current.value)])
      && (current.Ok? && mode.Ok? ==>
            r.launched[..2] == [MenuCall(xdg, current.value), ConfirmCall(xdg, mode.value)]
            && (confirmed ==> r.launched[2..] == [Spawn(["asusctl", "profile", "-P", mode.value])])
            && (!confirmed ==> |r.launched| == 2))
  {
  }
}
