/**
  scripts/power.py: the power menu. A rofi picker shows five icons (lock,
  logout, sleep, shutdown, reboot) under the uptime; the picked icon is looked
  up in a fixed table of commands, and the command runs only after a second
  picker confirms it.
*/
module Power {
  import opened Wrappers
  import opened Text
  import opened Proc

  const ShutdownIcon := "\U{F011}"
  const RebootIcon := "\U{EAD2}"
  const SleepIcon := "\U{F0904}"
  const LockIcon := "\U{F456}"
  const LogoutIcon := "\U{F05FD}"
  const YesIcon := "\U{F058}"
  const NoIcon := "\U{F530}"

  /** The menu lines, in the order shown. */
  const Options: seq<string> := [LockIcon, LogoutIcon, SleepIcon, ShutdownIcon, RebootIcon]

  /** `LOCKSCREEN_WALLPAPER`, under the configuration directory (`$XDG_CONFIG_HOME`, "" when unset). */
  function LockscreenWallpaper(config: string): string {
    config + "/qtile/assets/wallpapers/lock_screen.png"
  }

  /** `get_uptime`: the output of `uptime -p`, stripped, with every "up " removed. */
  function Uptime(out: string): string {
    Replace(Strip(out), "up ", "")
  }

  /** The main picker: the uptime as prompt and message, the icons one per line on its input. */
  function MainMenuCall(config: string, uptime: string): Proc {
    Pipe(["rofi", "-dmenu", "-p", "Uptime: " + uptime, "-mesg", "Uptime: " + uptime,
          "-theme", config + "/rofi/common.rasi"],
         Join(Options, "\n"))
  }

  /** `main_menu`'s answer: the first line of the stripped picker output ("" when cancelled). */
  function Selection(reply: string): string {
    Split(Strip(reply), "\n")[0]
  }

  /** `action_map`: the command behind each icon. */
  function ActionMap(config: string, home: string, user: string): map<string, seq<string>> {
    map[LockIcon := ["swaylock", "-i", LockscreenWallpaper(config)],
        SleepIcon := [home + "/.config/qtile/scripts/sleep.sh"],
        ShutdownIcon := ["systemctl", "poweroff"],
        RebootIcon := ["systemctl", "reboot"],
        LogoutIcon := ["pkill", "-KILL", "-u", user]]
  }

  /** The confirmation picker. */
  function ConfirmCall(config: string): Proc {
    Pipe(["rofi", "-theme", config + "/rofi/common.rasi", "-theme-str", "listview {columns: 2; lines: 1;}",
          "-dmenu", "-p", "Confirmation", "-mesg", "Confirm?"],
         Join([YesIcon, NoIcon], "\n"))
  }

  /** `confirm()`: only the yes icon, surrounding blanks aside, confirms. */
  predicate Confirmed(reply: string) {
    Strip(reply) == YesIcon
  }

  /**
    `power()`. The inputs are the configuration directory, the home directory,
    `$USER` (None when unset), and what `uptime -p` and the two pickers print.
    The table is built after the menu has been answered, so a missing `$USER`
    raises KeyError there; a selection outside the table raises KeyError at
    the lookup, before any confirmation.
  */
  function PowerMain(config: string, home: string, user: Option<string>,
                     uptimeOut: string, menuReply: string, confirmReply: string): Run {
    var menu := MainMenuCall(config, Uptime(uptimeOut));
    var selected := Selection(menuReply);
    if user.None? then Run([menu], Some(KeyError))
    else
      var actions := ActionMap(config, home, user.value);
      if selected !in actions then Run([menu], Some(KeyError))
      else if Confirmed(confirmReply) then Done([menu, ConfirmCall(config), Spawn(actions[selected])])
      else Done([menu, ConfirmCall(config)])
  }

  // ===========================================================================
  // Properties
  // ===========================================================================

  lemma IconsDistinct()
    ensures forall i, j :: 0 <= i < j < |Options| ==> Options[i] != Options[j]
    ensures YesIcon != NoIcon
  {
    assert forall i :: 0 <= i < |Options| ==> |Options[i]| == 1;
    assert Options[0][0] != Options[1][0] && Options[0][0] != Options[2][0];
    assert Options[0][0] != Options[3][0] && Options[0][0] != Options[4][0];
    assert Options[1][0] != Options[2][0] && Options[1][0] != Options[3][0] && Options[1][0] != Options[4][0];
    assert Options[2][0] != Options[3][0] && Options[2][0] != Options[4][0] && Options[3][0] != Options[4][0];
    assert YesIcon[0] != NoIcon[0];
  }

  /**
    The table holds exactly the five menu icons, each bound to its own fixed
    command; only logout depends on `$USER` and only sleep on the home directory.
  */
  lemma ActionTable(config: string, home: string, user: string)
    ensures ActionMap(config, home, user).Keys == set o | o in Options
    ensures ActionMap(config, home, user)[LockIcon] == ["swaylock", "-i", config + "/qtile/assets/wallpapers/lock_screen.png"]
    ensures ActionMap(config, home, user)[SleepIcon] == [home + "/.config/qtile/scripts/sleep.sh"]
    ensures ActionMap(config, home, user)[ShutdownIcon] == ["systemctl", "poweroff"]
    ensures ActionMap(config, home, user)[RebootIcon] == ["systemctl", "reboot"]
    ensures ActionMap(config, home, user)[LogoutIcon] == ["pkill", "-KILL", "-u", user]
  {
    ActionKeys(config, home, user);
    ActionCommands(config, home, user);
  }

  lemma ActionKeys(config: string, home: string, user: string)
    ensures ActionMap(config, home, user).Keys == set o | o in Options
  {
    OptionsSet();
  }

  lemma ActionCommands(config: string, home: string, user: string)
    ensures ActionMap(config, home, user)[LockIcon] == ["swaylock", "-i", config + "/qtile/assets/wallpapers/lock_screen.png"]
    ensures ActionMap(config, home, user)[SleepIcon] == [home + "/.config/qtile/scripts/sleep.sh"]
    ensures ActionMap(config, home, user)[ShutdownIcon] == ["systemctl", "poweroff"]
    ensures ActionMap(config, home, user)[RebootIcon] == ["systemctl", "reboot"]
    ensures ActionMap(config, home, user)[LogoutIcon] == ["pkill", "-KILL", "-u", user]
  {
    IconsDistinct();
    assert LockIcon == Options[0] && LogoutIcon == Options[1] && SleepIcon == Options[2];
    assert ShutdownIcon == Options[3] && RebootIcon == Options[4];
  }

  lemma OptionsSet()
    ensures (set o | o in Options) == {LockIcon, LogoutIcon, SleepIcon, ShutdownIcon, RebootIcon}
  {
  }

  /**
    A command beyond the two pickers runs exactly when `$USER` is set, the
    selection is one of the menu icons and the confirmation picker returned
    the yes icon; it is then the one command the table binds to that icon, and
    it runs last. Without a selection in the table only the main menu ran and
    the script ended with KeyError.
  */
  lemma PowerRunsOnlyConfirmed(config: string, home: string, user: Option<string>,
                               uptimeOut: string, menuReply: string, confirmReply: string)
    ensures var r := PowerMain(config, home, user, uptimeOut, menuReply, confirmReply);
      var selected := Selection(menuReply);
      1 <= |r.launched| <= 3 && r.launched[0].argv[0] == "rofi"
      && (|r.launched| == 3 <==> user.Some? && selected in Options && Confirmed(confirmReply))
      && (|r.launched| == 3 ==> r.launched[2].argv == ActionMap(config, home, user.value)[selected])
      && (|r.launched| >= 2 ==> r.launched[1] == ConfirmCall(config))
      && (r.raised == Some(KeyError) <==> user.None? || selected !in Options)
      && (r.raised.Some? ==> |r.launched| == 1)
  {
    if user.Some? {
      ActionTable(config, home, user.value);
    }
  }

  /** Picking a line of the menu selects that icon, whatever else rofi prints around it. */
  lemma PickedIconSelected(k: nat, before: string, after: string)
    requires k < |Options|
    requires forall i :: 0 <= i < |before| ==> IsSpace(before[i])
    requires forall i :: 0 <= i < |after| ==> IsSpace(after[i])
    ensures Selection(before + Options[k] + after) == Options[k]
  {
    var o := Options[k];
    assert |o| == 1 && !IsSpace(o[0]);
    StripSurrounded(before, o, after);
    assert Find(o, "\n").None? by {
      assert !OccursAt(o, "\n", 0) by {
        assert o[0..1][0] == o[0];
      }
    }
  }

  /** Cancelling the menu (empty output) raises KeyError before any confirmation. */
  lemma CancelRaises(config: string, home: string, user: Option<string>, uptimeOut: string, confirmReply: string)
    ensures PowerMain(config, home, user, uptimeOut, "", confirmReply)
      == Run([MainMenuCall(config, Uptime(uptimeOut))], Some(KeyError))
  {
    assert Strip("") == "";
    assert Selection("") == "";
    if user.Some? {
      ActionTable(config, home, user.value);
      assert forall k :: 0 <= k < |Options| ==> |Options[k]| == 1;
    }
  }

  /** The uptime shown is what `uptime -p` printed after its leading "up ". */
  lemma UptimeDropsUp(rest: string)
    requires |rest| > 0 && !IsSpace(rest[0]) && !IsSpace(rest[|rest| - 1])
    requires !Contains(rest, "up ")
    ensures Uptime("up " + rest + "\n") == rest
  {
    var s := "up " + rest;
    assert !IsSpace(s[0]) && !IsSpace(s[|s| - 1]);
    StripSurrounded("", s, "\n");
    assert "" + s + "\n" == "up " + rest + "\n";
    assert OccursAt(s, "up ", 0);
    assert s[3..] == rest;
    assert Find(rest, "up ").None?;
    assert Replace(rest, "up ", "") == rest;
  }
}
