/**
  utils/audio.py: the key bindings for the microphone and the speakers. Each
  one changes the device through `pactl`, reads the new state back, and shows
  a `notify-send` notification that replaces the previous one of its kind.
*/
module Audio {
  import opened Wrappers
  import opened Text
  import opened Proc
  import opened Bars

  // ===========================================================================
  // notify
  // ===========================================================================

  /** The argument vector `notify` builds: urgency, then the replace id when there is one, then title and body. */
  function NotifyArgv(title: string, body: string, urgency: string, replacesId: string): seq<string> {
    ["notify-send", "-u", urgency] + (if replacesId != "" then ["-r", replacesId] else []) + [title, body]
  }

  /**
    `notify`, as the source builds it: start from the urgency option and
    extend the vector in place.
  */
  method Notify(title: string, body: string, urgency: string, replacesId: string) returns (cmd: seq<string>)
    ensures cmd == NotifyArgv(title, body, urgency, replacesId)
    ensures cmd[..3] == ["notify-send", "-u", urgency] && cmd[|cmd| - 2..] == [title, body]
    ensures |cmd| == (if replacesId == "" then 5 else 7)
    ensures replacesId != "" ==> cmd[3..5] == ["-r", replacesId]
  {
    cmd := ["notify-send", "-u", urgency];
    if replacesId != "" {
      cmd := cmd + ["-r", replacesId];
    }
    cmd := cmd + [title, body];
  }

  /**
    The vector always opens with `notify-send -u <urgency>` and closes with
    the title and the body; the `-r <id>` pair sits between them exactly when
    the id is not empty.
  */
  lemma NotifyArgvFields(title: string, body: string, urgency: string, replacesId: string)
    ensures var r := NotifyArgv(title, body, urgency, replacesId);
      r[..3] == ["notify-send", "-u", urgency]
      && r[|r| - 2..] == [title, body]
      && (|r| == 7 <==> replacesId != "")
      && (|r| == 5 <==> replacesId == "")
      && (replacesId != "" ==> r[3..5] == ["-r", replacesId])
  {
    var r := NotifyArgv(title, body, urgency, replacesId);
    if replacesId != "" {
      assert r == ["notify-send", "-u", urgency, "-r", replacesId, title, body];
    } else {
      assert r == ["notify-send", "-u", urgency, title, body];
    }
  }

  // ===========================================================================
  // Microphone
  // ===========================================================================

  const MicToggleArgv: seq<string> := ["pactl", "set-source-mute", "@DEFAULT_SOURCE@", "toggle"]
  const MicReplaceId := "2000"

  /**
    `get_mic_status`: the output of `pactl get-source-mute @DEFAULT_SOURCE@`,
    None when the query failed. A failed query counts as muted; otherwise the
    microphone is muted when "yes" occurs in the output, in any case.
  */
  function MicMuted(out: Option<string>): bool {
    out.None? || Contains(Lower(out.value), "yes")
  }

  /** "yes", in any mix of cases, starts at index `i` of `s`. */
  predicate YesAt(s: string, i: nat) {
    i + 3 <= |s| && Lower(s[i..i + 3]) == "yes"
  }

  /**
    A failed query counts as muted; an answer counts as muted exactly when
    "yes" occurs in it, written in any mix of cases.
  */
  lemma MicMutedIffYes(s: string)
    ensures MicMuted(None)
    ensures MicMuted(Some(s)) <==> exists i: nat :: YesAt(s, i)
  {
    var l := Lower(s);
    if MicMuted(Some(s)) {
      var i := Find(l, "yes").value;
      assert l[i..i + 3] == Lower(s[i..i + 3]);
      assert YesAt(s, i);
    }
    if i: nat :| YesAt(s, i) {
      assert l[i..i + 3] == Lower(s[i..i + 3]);
      OccursContains(l, "yes", i);
    }
  }

  /** `send_mic_notification`. */
  function MicNotification(muted: bool): Proc {
    if muted then Spawn(NotifyArgv("Microphone", "\U{1F3A4}\U{274C} Microphone Muted", "normal", MicReplaceId))
    else Spawn(NotifyArgv("Microphone", "\U{1F3A4} Microphone Live", "critical", MicReplaceId))
  }

  /** The notification that `toggle_mute_audio_input` sends when `pactl` fails. */
  function MicErrorNotification(): Proc {
    Spawn(NotifyArgv("Microphone Error", "Could not toggle mic", "critical", ""))
  }

  /**
    `toggle_mute_audio_input`: toggle the default source; when that worked,
    report the state read back afterwards (`status`), otherwise report the
    error.
  */
  function ToggleInput(toggled: bool, status: Option<string>): Run {
    if toggled then Done([Spawn(MicToggleArgv), MicNotification(MicMuted(status))])
    else Done([Spawn(MicToggleArgv), MicErrorNotification()])
  }

  /**
    Every toggle is followed by exactly one notification. It replaces the
    previous microphone notification exactly when the toggle worked, and it is
    critical exactly when the microphone is live or the toggle failed.
  */
  lemma ToggleInputNotifies(toggled: bool, status: Option<string>)
    ensures var r := ToggleInput(toggled, status);
      var n := r.launched[1].argv;
      r.raised.None? && |r.launched| == 2 && r.launched[0].argv == MicToggleArgv
      && n[0] == "notify-send"
      && (n[2] == "critical" <==> !toggled || !MicMuted(status))
      && (n[2] == "normal" <==> toggled && MicMuted(status))
      && (toggled <==> |n| == 7 && n[3..5] == ["-r", MicReplaceId])
  {
    var m := MicMuted(status);
    if toggled && m {
      NotifyArgvFields("Microphone", "\U{1F3A4}\U{274C} Microphone Muted", "normal", MicReplaceId);
    } else if toggled {
      NotifyArgvFields("Microphone", "\U{1F3A4} Microphone Live", "critical", MicReplaceId);
    } else {
      NotifyArgvFields("Microphone Error", "Could not toggle mic", "critical", "");
    }
  }

  // ===========================================================================
  // Reading the volume
  // ===========================================================================

  /** `get_default_sink`: the stripped output of `pactl get-default-sink`, None when it failed. */
  function DefaultSink(out: Option<string>): Option<string> {
    if out.None? then None else Some(Strip(out.value))
  }

  /** The bindings' `if not sink`: a failed query and an empty name both mean no sink. */
  predicate HasSink(sink: Option<string>) {
    sink.Some? && sink.value != ""
  }

  /** The end of the run of whitespace that starts at `j`. */
  function SpacesEnd(s: string, j: nat): (e: nat)
    requires j <= |s|
    ensures j <= e <= |s|
    ensures forall k :: j <= k < e ==> IsSpace(s[k])
    ensures e < |s| ==> !IsSpace(s[e])
    decreases |s| - j
  {
    if j < |s| && IsSpace(s[j]) then SpacesEnd(s, j + 1) else j
  }

  /** The end of the run of digits that starts at `j`. */
  function DigitsEnd(s: string, j: nat): (e: nat)
    requires j <= |s|
    ensures j <= e <= |s|
    ensures forall k :: j <= k < e ==> IsDigit(s[k])
    ensures e < |s| ==> !IsDigit(s[e])
    decreases |s| - j
  {
    if j < |s| && IsDigit(s[j]) then DigitsEnd(s, j + 1) else j
  }

  /**
    The value captured by `/\s*(\d+)%` when it matches at `i`. Both runs are
    greedy and no shorter run can be followed by what comes next, so the match
    at `i`, if any, is this one.
  */
  function PercentAt(s: string, i: nat): Option<nat>
    requires i < |s|
  {
    if s[i] != '/' then None
    else
      var j := SpacesEnd(s, i + 1);
      var e := DigitsEnd(s, j);
      if j < e && e < |s| && s[e] == '%' then Some(DigitsValue(s[j..e])) else None
  }

  /** `re.search`: the leftmost match from `i` on. */
  function PercentFrom(s: string, i: nat): Option<nat>
    decreases |s| - i
  {
    if i >= |s| then None
    else if PercentAt(s, i).Some? then PercentAt(s, i)
    else PercentFrom(s, i + 1)
  }

  /** The volume `get_volume` reads from `pactl get-sink-volume`: the first `/ N%`, or 0. */
  function VolumePercent(s: string): nat {
    match PercentFrom(s, 0)
    case Some(v) => v
    case None => 0
  }

  /** What `pactl` reports about the default sink after the change, query by query (None: the query failed). */
  datatype VolumeReading = VolumeReading(sink: Option<string>, volume: Option<string>, mute: Option<string>)

  /**
    `get_volume`: the volume and the mute flag, read again from the default
    sink; (0, false) when there is no sink or a query fails. Unlike the
    microphone's, the mute flag is case-sensitive.
  */
  function GetVolume(q: VolumeReading): (nat, bool) {
    if !HasSink(DefaultSink(q.sink)) || q.volume.None? || q.mute.None? then (0, false)
    else (VolumePercent(q.volume.value), Contains(q.mute.value, "yes"))
  }

  lemma PercentFromSkips(s: string, i: nat, j: nat)
    requires i <= j <= |s|
    requires forall k :: i <= k < j ==> s[k] != '/'
    ensures PercentFrom(s, i) == PercentFrom(s, j)
    decreases j - i
  {
    if i < j {
      PercentFromSkips(s, i + 1, j);
    }
  }

  lemma {:induction false} PercentNone(s: string, i: nat)
    requires forall k :: i <= k < |s| ==> s[k] != '/'
    ensures PercentFrom(s, i) == None
    decreases |s| - i
  {
    if i < |s| {
      PercentNone(s, i + 1);
    }
  }

  /** With no "/" in the output the volume reads as 0. */
  lemma NoSlashNoVolume(s: string)
    requires forall k :: 0 <= k < |s| ==> s[k] != '/'
    ensures VolumePercent(s) == 0
  {
    PercentNone(s, 0);
  }

  /**
    A percentage written as `/`, blanks, its digits and `%`, after text
    without a slash, reads back as the same number, whatever follows it.
  */
  lemma VolumeReadsBack(prefix: string, gap: string, n: nat, rest: string)
    requires forall k :: 0 <= k < |prefix| ==> prefix[k] != '/'
    requires forall k :: 0 <= k < |gap| ==> IsSpace(gap[k])
    ensures VolumePercent(prefix + "/" + gap + NatToString(n) + "%" + rest) == n
  {
    var tail := gap + NatToString(n) + "%" + rest;
    var s := prefix + "/" + gap + NatToString(n) + "%" + rest;
    var i := |prefix|;
    assert s == prefix + "/" + tail;
    assert s[i] == '/' && s[i + 1..] == tail;
    assert PercentFrom(s, 0) == PercentFrom(s, i) by {
      forall k | 0 <= k < i
        ensures s[k] != '/'
      {
        assert s[k] == prefix[k];
      }
      PercentFromSkips(s, 0, i);
    }
    SlashTail(s, i, gap, n, rest);
    PercentFromHere(s, i);
  }

  /** After a `/` at `i`: blanks, the digits of `n` and `%` make a match that captures `n`. */
  lemma SlashTail(s: string, i: nat, gap: string, n: nat, rest: string)
    requires i < |s| && s[i] == '/' && s[i + 1..] == gap + NatToString(n) + "%" + rest
    requires forall k :: 0 <= k < |gap| ==> IsSpace(gap[k])
    ensures PercentAt(s, i) == Some(n)
  {
    var d := NatToString(n);
    var t := s[i + 1..];
    var j0 := i + 1 + |gap|;
    var e0 := j0 + |d|;
    assert forall k :: i + 1 <= k < |s| ==> s[k] == t[k - i - 1];
    assert forall k :: 0 <= k < |gap| ==> t[k] == gap[k];
    assert forall k :: 0 <= k < |d| ==> t[|gap| + k] == d[k];
    assert t[|gap| + |d|] == '%';
    assert s[j0..e0] == d;
    DigitsValueOfNatToString(n);
    PercentAtDigits(s, i, j0, e0);
  }

  /** `/`, blanks, a run of digits and `%` at `i` match there, capturing the digits. */
  lemma PercentAtDigits(s: string, i: nat, j0: nat, e0: nat)
    requires i < j0 < e0 < |s| && s[i] == '/' && s[e0] == '%'
    requires forall k :: i + 1 <= k < j0 ==> IsSpace(s[k])
    requires forall k :: j0 <= k < e0 ==> IsDigit(s[k])
    ensures PercentAt(s, i) == Some(DigitsValue(s[j0..e0]))
  {
    var j := SpacesEnd(s, i + 1);
    assert !IsSpace(s[j0]);
    assert j == j0;
    var e := DigitsEnd(s, j);
    assert e == e0;
  }

  lemma PercentFromHere(s: string, i: nat)
    requires i < |s| && PercentAt(s, i).Some?
    ensures PercentFrom(s, i) == PercentAt(s, i)
  {
  }

  /**
    The volume and the mute flag as `pactl` prints them are read back: the
    first channel's percentage, and "yes" after "Mute:"; with no sink or a
    failed query the reading is (0, false).
  */
  lemma GetVolumeReads(sink: string, channel: string, n: nat, rest: string, muted: bool)
    requires HasSink(DefaultSink(Some(sink)))
    requires forall k :: 0 <= k < |channel| ==> channel[k] != '/'
    ensures GetVolume(VolumeReading(Some(sink), Some("Volume: " + channel + " /  " + NatToString(n) + "%" + rest),
                                    Some(if muted then "Mute: yes\n" else "Mute: no\n")))
      == (n, muted)
    ensures forall v, m :: GetVolume(VolumeReading(None, v, m)) == (0, false)
    ensures forall s, m :: GetVolume(VolumeReading(s, None, m)) == (0, false)
    ensures forall s, v :: GetVolume(VolumeReading(s, v, None)) == (0, false)
  {
    PactlVolumeReads(channel, n, rest);
    PactlMuteReads(muted);
  }

  lemma PactlVolumeReads(channel: string, n: nat, rest: string)
    requires forall k :: 0 <= k < |channel| ==> channel[k] != '/'
    ensures VolumePercent("Volume: " + channel + " /  " + NatToString(n) + "%" + rest) == n
  {
    var prefix := "Volume: " + channel + " ";
    forall k | 0 <= k < |prefix|
      ensures prefix[k] != '/'
    {
      if 8 <= k < 8 + |channel| {
        assert prefix[k] == channel[k - 8];
      }
    }
    var gap := "  ";
    assert IsSpace(gap[0]) && IsSpace(gap[1]);
    VolumeReadsBack(prefix, gap, n, rest);
    assert " /  " == " " + "/" + gap;
    assert "Volume: " + channel + " /  " + NatToString(n) + "%" + rest
      == prefix + "/" + gap + NatToString(n) + "%" + rest;
  }

  lemma PactlMuteReads(muted: bool)
    ensures Contains(if muted then "Mute: yes\n" else "Mute: no\n", "yes") == muted
  {
    if muted {
      ContainsInfix("Mute: ", "yes", "\n");
    } else {
      var t := "Mute: no\n";
      forall i: nat | i + 3 <= |t|
        ensures !OccursAt(t, "yes", i)
      {
        assert t[i] != 'y';
        assert t[i..i + 3][0] == t[i];
      }
    }
  }

  // ===========================================================================
  // The volume notification
  // ===========================================================================

  const MutedIcon := "\U{1F507}"
  const SilentIcon := "\U{1F508}"
  const LowIcon := "\U{1F509}"
  const LoudIcon := "\U{1F50A}"
  const VolumeReplaceId := "1000"

  function VolumeIcon(volume: int, muted: bool): string {
    if muted then MutedIcon else if volume == 0 then SilentIcon else if volume < 50 then LowIcon else LoudIcon
  }

  function VolumeUrgency(muted: bool): string {
    if muted then "normal" else "low"
  }

  function VolumeMessage(volume: int, muted: bool): string {
    if muted then "Volume Muted (" + IntToString(volume) + "%)" else "Volume: " + IntToString(volume) + "%"
  }

  /** The body of `send_volume_notification`: icon and message on the first line, the bar on the second. */
  function VolumeBody(volume: int, muted: bool): string {
    VolumeIcon(volume, muted) + " " + VolumeMessage(volume, muted) + "\n" + Bar(volume)
  }

  /** `send_volume_notification`. */
  function VolumeNotification(volume: int, muted: bool): Proc {
    Spawn(NotifyArgv("Volume", VolumeBody(volume, muted), VolumeUrgency(muted), VolumeReplaceId))
  }

  /**
    The icon tells the four states apart: muted, silent at 0, low below 50,
    loud at 50 and above.
  */
  lemma VolumeIconStates(volume: int, muted: bool)
    ensures VolumeIcon(volume, muted) == MutedIcon <==> muted
    ensures VolumeIcon(volume, muted) == SilentIcon <==> !muted && volume == 0
    ensures VolumeIcon(volume, muted) == LowIcon <==> !muted && volume != 0 && volume < 50
    ensures VolumeIcon(volume, muted) == LoudIcon <==> !muted && volume >= 50
  {
    assert MutedIcon[0] != SilentIcon[0] && MutedIcon[0] != LowIcon[0] && MutedIcon[0] != LoudIcon[0];
    assert SilentIcon[0] != LowIcon[0] && SilentIcon[0] != LoudIcon[0] && LowIcon[0] != LoudIcon[0];
  }

  /**
    Every volume notification replaces the previous one (id 1000), is titled
    "Volume", is urgent only as "normal" when muted and "low" otherwise, and
    for a volume in [0, 100] ends with the 20-cell bar on its own line.
  */
  lemma VolumeNotificationFields(volume: int, muted: bool)
    ensures var n := VolumeNotification(volume, muted).argv;
      |n| == 7 && n[0] == "notify-send" && n[3..5] == ["-r", VolumeReplaceId] && n[5] == "Volume"
      && (n[2] == "normal" <==> muted) && (n[2] == "low" <==> !muted)
    ensures 0 <= volume <= 100 ==>
      var b := VolumeBody(volume, muted);
      |b| > Width && b[|b| - Width - 1] == '\n' && b[|b| - Width..] == Bar(volume) && |Bar(volume)| == Width
  {
    NotifyArgvFields("Volume", VolumeBody(volume, muted), VolumeUrgency(muted), VolumeReplaceId);
    if 0 <= volume <= 100 {
      BarShape(volume);
      var head := VolumeIcon(volume, muted) + " " + VolumeMessage(volume, muted) + "\n";
      assert VolumeBody(volume, muted) == head + Bar(volume);
    }
  }

  // ===========================================================================
  // The volume bindings
  // ===========================================================================

  datatype Change = Up | Down | ToggleMute

  /** The `pactl` command each binding issues on the sink. */
  function SinkCommand(change: Change, sink: string): seq<string> {
    match change
    case Up => ["pactl", "set-sink-volume", sink, "+5%"]
    case Down => ["pactl", "set-sink-volume", sink, "-5%"]
    case ToggleMute => ["pactl", "set-sink-mute", sink, "toggle"]
  }

  /**
    `raise_volume`, `lower_volume` and `toggle_mute_audio_output`: with a
    default sink (`sinkOut`), change it, read the volume again and notify.
    The change is not checked, so its failure does not stop the binding.
  */
  function AdjustVolume(change: Change, sinkOut: Option<string>, after: VolumeReading): Run {
    var sink := DefaultSink(sinkOut);
    if !HasSink(sink) then Done([])
    else
      var (volume, muted) := GetVolume(after);
      Done([Spawn(SinkCommand(change, sink.value)), VolumeNotification(volume, muted)])
  }

  /**
    Without a default sink nothing runs and nothing is shown. With one, the
    binding runs exactly its `pactl` change on that sink and then one volume
    notification reporting what was read back afterwards.
  */
  lemma AdjustVolumeRuns(change: Change, sinkOut: Option<string>, after: VolumeReading)
    ensures var r := AdjustVolume(change, sinkOut, after);
      r.raised.None?
      && (r.launched == [] <==> !HasSink(DefaultSink(sinkOut)))
      && (HasSink(DefaultSink(sinkOut)) ==>
            |r.launched| == 2
            && r.launched[0].argv[..3] == ["pactl", if change == ToggleMute then "set-sink-mute" else "set-sink-volume", Strip(sinkOut.value)]
            && r.launched[0].argv[3] == (match change case Up => "+5%" case Down => "-5%" case ToggleMute => "toggle")
            && r.launched[1] == VolumeNotification(GetVolume(after).0, GetVolume(after).1))
  {
  }
}
