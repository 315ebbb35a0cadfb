/**
  scripts/recorder.py: a rofi menu that either reports the recording in
  progress (found from the command line of a running `wf-recorder` or
  `ffmpeg`) and offers to stop it, or offers five modes: screen with the
  microphone, screen with system audio, screen only, a screenshot, and audio
  only.
*/
module Recorder {
  import opened Wrappers
  import opened Text
  import opened Proc
  import opened Utils

  const MicMode := "\U{F0379} \U{F036C}"
  const SystemMode := "\U{F0379} \U{F057E}"
  const SilentMode := "\U{F0379} \U{F0581}"
  const AudioMode := "\U{F036C}"
  const StopIcon := "\U{F04DB}"
  const ScreenshotMode := "\U{F0100}"

  /** The menu lines when nothing is recording, in the order shown. */
  const Modes: seq<string> := [MicMode, SystemMode, SilentMode, ScreenshotMode, AudioMode]

  function VideoDir(home: string): string {
    home + "/Videos"
  }

  // ===========================================================================
  // Finding the recording in progress
  // ===========================================================================

  /**
    `get_cmd_for`: the stripped command line `ps` reports for the process
    `pgrep -f` found. Either command failing (no such process, or `ps`
    rejecting the pid list) gives None.
  */
  function CmdFor(pgrepOut: Option<string>, psOut: Option<string>): Option<string> {
    if pgrepOut.None? || psOut.None? then None else Some(Strip(psOut.value))
  }

  /** What `get_recording_info` reports: the kind of recording, its audio and its file. */
  datatype Recording = Recording(kind: string, audio: string, outfile: string)

  function MicAudio(mic: string): string {
    "microphone (" + mic + ")"
  }

  /** The audio of a `wf-recorder` command line, by substring. */
  function AudioOf(wf: string, mic: string): string {
    if Contains(wf, "--audio=default") then MicAudio(mic)
    else if Contains(wf, "--audio") then "system audio"
    else "silent"
  }

  /** The word after the first "-f"; "unknown" without one; IndexError when "-f" is the last word. */
  function OutfileOf(parts: seq<string>): Result<string> {
    match IndexOf(parts, "-f")
    case None => Ok("unknown")
    case Some(i) => if i + 1 < |parts| then Ok(parts[i + 1]) else Err(IndexError)
  }

  /**
    `get_recording_info`, from the command lines of `wf-recorder` and of
    `ffmpeg` (None when not running) and the input device's name.
  */
  function RecordingInfo(wf: Option<string>, ff: Option<string>, mic: string): Result<Option<Recording>> {
    if wf.Some? && wf.value != "" then
      match OutfileOf(Words(wf.value))
      case Err(e) => Err(e)
      case Ok(out) => Ok(Some(Recording("screen", AudioOf(wf.value, mic), out)))
    else if ff.Some? && ff.value != "" then
      var parts := Words(ff.value);
      if |parts| == 0 then Err(IndexError)
      else Ok(Some(Recording("audio-only", MicAudio(mic), parts[|parts| - 1])))
    else Ok(None)
  }

  // ===========================================================================
  // Starting and stopping
  // ===========================================================================

  function MicArgv(out: string): seq<string> {
    ["wf-recorder", "--audio=default", "-f", out]
  }

  function SystemArgv(out: string): seq<string> {
    ["wf-recorder", "--audio", "-f", out]
  }

  function SilentArgv(out: string): seq<string> {
    ["wf-recorder", "-f", out]
  }

  function AudioArgv(out: string): seq<string> {
    ["ffmpeg", "-f", "pulse", "-i", "default", "-c:a", "mp3", out]
  }

  function RecordingFile(home: string, t: DateTime): string
    requires ValidDateTime(t)
  {
    TimestampFile("recording", "mp4", VideoDir(home), t)
  }

  /** `start_screen_mic`. */
  function StartScreenMic(home: string, mic: string, t: DateTime): seq<Proc>
    requires ValidDateTime(t)
  {
    var out := RecordingFile(home, t);
    [Spawn(MicArgv(out)), Spawn(NotifyArgv("Recording Started", "Screen + microphone (" + mic + ")\n" + out))]
  }

  /** `start_screen_system_audio`. */
  function StartScreenSystem(home: string, t: DateTime): seq<Proc>
    requires ValidDateTime(t)
  {
    var out := RecordingFile(home, t);
    [Spawn(SystemArgv(out)), Spawn(NotifyArgv("Recording Started", "Screen + system audio\n" + out))]
  }

  /** `start_screen_silent`. */
  function StartScreenSilent(home: string, t: DateTime): seq<Proc>
    requires ValidDateTime(t)
  {
    var out := RecordingFile(home, t);
    [Spawn(SilentArgv(out)), Spawn(NotifyArgv("Recording Started", "Screen only\n" + out))]
  }

  /** `start_audio_only`. */
  function StartAudioOnly(home: string, mic: string, t: DateTime): seq<Proc>
    requires ValidDateTime(t)
  {
    var out := TimestampFile("audio", "mp3", VideoDir(home), t);
    [Spawn(AudioArgv(out)), Spawn(NotifyArgv("Audio Recording", "Mic: " + mic + "\n" + out))]
  }

  /** `stop_recording`. */
  function StopRecording(): seq<Proc> {
    [Spawn(["pkill", "-f", "wf-recorder"]), Spawn(["pkill", "-f", "ffmpeg"]),
     Spawn(NotifyArgv("Recording Stopped", "Saved to Videos"))]
  }

  // ===========================================================================
  // The menu and the script
  // ===========================================================================

  /** `menu(options, message)`; the reply is read back stripped. */
  function MenuCall(home: string, options: seq<string>, message: string): Proc {
    Pipe(["rofi", "-dmenu", "-p", "Recorder", "-mesg", message, "-theme", home + "/.config/rofi/common.rasi"],
         Join(options, "\n"))
  }

  function ActiveMessage(r: Recording): string {
    "<b>Active recording</b>\nType: " + r.kind + "\nAudio: " + r.audio + "\nFile: " + r.outfile
  }

  function IdleMessage(mic: string): string {
    "Choose mode\nMic detected: " + mic
  }

  /** What the chosen mode launches; a reply that is no mode launches nothing. */
  function Action(home: string, mic: string, selected: string, t: DateTime): seq<Proc>
    requires ValidDateTime(t)
  {
    if selected == MicMode then StartScreenMic(home, mic, t)
    else if selected == SystemMode then StartScreenSystem(home, t)
    else if selected == SilentMode then StartScreenSilent(home, t)
    else if selected == ScreenshotMode then Screenshot(home, t)
    else if selected == AudioMode then StartAudioOnly(home, mic, t)
    else []
  }

  /**
    `main()`, given the home directory, the input device's name, the command
    lines of the running recorders, the menu's reply and the clock reading.
  */
  function RecorderMain(home: string, mic: string, wf: Option<string>, ff: Option<string>,
                        reply: string, t: DateTime): Run
    requires ValidDateTime(t)
  {
    match RecordingInfo(wf, ff, mic)
    case Err(e) => Run([], Some(e))
    case Ok(Some(rec)) =>
      ActiveRunOf(MenuCall(home, [StopIcon], ActiveMessage(rec)), reply)
    case Ok(None) =>
      Done([MenuCall(home, Modes, IdleMessage(mic))] + Action(home, mic, Strip(reply), t))
  }

  // ===========================================================================
  // Properties
  // ===========================================================================

  /** A non-blank command line has a last word, so the `ffmpeg` branch never raises. */
  lemma StrippedHasWords(s: string)
    requires Strip(s) != ""
    ensures |Words(Strip(s))| > 0
  {
    var t := Strip(s);
    TrimLeftSpec(s);
    TrimRightSpec(TrimLeft(s));
    assert t[0] == TrimLeft(s)[0];
    assert TrimLeft(t) == t;
  }

  /** `get_recording_info` fails only on a `wf-recorder` command line, never on an `ffmpeg` one. */
  lemma FfmpegNeverRaises(wf: Option<string>, pgrepOut: Option<string>, psOut: Option<string>, mic: string)
    requires wf.None? || wf.value == ""
    ensures RecordingInfo(wf, CmdFor(pgrepOut, psOut), mic).Ok?
  {
    var ff := CmdFor(pgrepOut, psOut);
    if ff.Some? && ff.value != "" {
      StrippedHasWords(psOut.value);
    }
  }

  /** The recording file of a start command is one word that does not look like an audio flag. */
  predicate PlainFile(out: string) {
    IsWord(out) && !Contains(out, "--audio")
  }

  lemma ArgvWords(argv: seq<string>)
    requires forall k :: 0 <= k < |argv| ==> IsWord(argv[k])
    ensures Words(Join(argv, " ")) == argv
  {
    WordsJoin(argv);
  }

  /**
    A `wf-recorder` command line of plain words reads back as a screen
    recording into the word after the first "-f".
  */
  lemma ScreenReadBack(argv: seq<string>, fpos: nat, ff: Option<string>, mic: string)
    requires |argv| > 0 && forall k :: 0 <= k < |argv| ==> IsWord(argv[k])
    requires IndexOf(argv, "-f") == Some(fpos) && fpos + 1 < |argv|
    ensures RecordingInfo(Some(Join(argv, " ")), ff, mic)
      == Ok(Some(Recording("screen", AudioOf(Join(argv, " "), mic), argv[fpos + 1])))
  {
    var wf := Join(argv, " ");
    assert Words(wf) == argv && wf != "" by {
      ArgvWords(argv);
      WordsNone();
    }
    assert OutfileOf(argv) == Ok(argv[fpos + 1]);
    ScreenInfo(wf, ff, mic, argv[fpos + 1]);
  }

  lemma ScreenInfo(wf: string, ff: Option<string>, mic: string, out: string)
    requires wf != "" && OutfileOf(Words(wf)) == Ok(out)
    ensures RecordingInfo(Some(wf), ff, mic) == Ok(Some(Recording("screen", AudioOf(wf, mic), out)))
  {
  }

  lemma MicAudioRead(out: string, mic: string)
    ensures AudioOf(Join(MicArgv(out), " "), mic) == MicAudio(mic)
  {
    JoinFour("wf-recorder", "--audio=default", "-f", out);
    ContainsInfix("wf-recorder" + " ", "--audio=default", " " + "-f" + " " + out);
    assert Contains(Join(MicArgv(out), " "), "--audio=default");
  }

  lemma OutHasNoAudioDefault(out: string)
    requires PlainFile(out)
    ensures !Contains(out, "--audio=default")
  {
    if Contains(out, "--audio=default") {
      assert "--audio=default" == "--audio" + "=default";
      ContainsPrefix(out, "--audio", "=default");
    }
  }

  lemma SystemAudioRead(out: string, mic: string)
    requires PlainFile(out)
    ensures AudioOf(Join(SystemArgv(out), " "), mic) == "system audio"
  {
    SystemHasFlag(out);
    SystemNoDefault(out);
    SystemAudio(Join(SystemArgv(out), " "), mic);
  }

  lemma SystemHasFlag(out: string)
    ensures Contains(Join(SystemArgv(out), " "), "--audio")
  {
    JoinFour("wf-recorder", "--audio", "-f", out);
    ContainsInfix("wf-recorder" + " ", "--audio", " " + "-f" + " " + out);
  }

  lemma SystemNoDefault(out: string)
    requires PlainFile(out)
    ensures !Contains(Join(SystemArgv(out), " "), "--audio=default")
  {
    SystemWordsNoDefault(out);
    NotInJoin(SystemArgv(out), "--audio=default");
  }

  lemma SystemWordsNoDefault(out: string)
    requires PlainFile(out)
    ensures forall k :: 0 <= k < |SystemArgv(out)| ==> !Contains(SystemArgv(out)[k], "--audio=default")
  {
    var argv := SystemArgv(out);
    var p := "--audio=default";
    OutHasNoAudioDefault(out);
    forall k | 0 <= k < |argv|
      ensures !Contains(argv[k], p)
    {
      if k < 3 {
        assert |argv[k]| < |p|;
      }
    }
  }

  lemma SystemAudio(wf: string, mic: string)
    requires Contains(wf, "--audio") && !Contains(wf, "--audio=default")
    ensures AudioOf(wf, mic) == "system audio"
  {
  }

  lemma SilentAudio(wf: string, mic: string)
    requires !Contains(wf, "--audio")
    ensures AudioOf(wf, mic) == "silent"
  {
    if Contains(wf, "--audio=default") {
      assert "--audio=default" == "--audio" + "=default";
      ContainsPrefix(wf, "--audio", "=default");
    }
  }

  lemma SilentAudioRead(out: string, mic: string)
    requires PlainFile(out)
    ensures AudioOf(Join(SilentArgv(out), " "), mic) == "silent"
  {
    var argv := SilentArgv(out);
    assert !Contains(Join(argv, " "), "--audio") by {
      SilentWordsNoAudio(out);
      NotInJoin(argv, "--audio");
    }
    SilentAudio(Join(argv, " "), mic);
  }

  lemma SilentWordsNoAudio(out: string)
    requires PlainFile(out)
    ensures forall k :: 0 <= k < |SilentArgv(out)| ==> !Contains(SilentArgv(out)[k], "--audio")
  {
    var argv := SilentArgv(out);
    var p := "--audio";
    NoAudioInRecorderName();
    forall k | 0 <= k < |argv|
      ensures !Contains(argv[k], p)
    {
      if k == 1 {
        assert |argv[k]| < |p|;
      }
    }
  }

  /**
    The command line of the screen-with-microphone recording reads back as a
    screen recording with the microphone, into its own file.
  */
  lemma MicRecordingRecognised(out: string, ff: Option<string>, mic: string)
    requires PlainFile(out)
    ensures RecordingInfo(Some(Join(MicArgv(out), " ")), ff, mic)
      == Ok(Some(Recording("screen", MicAudio(mic), out)))
  {
    var argv := MicArgv(out);
    assert IsWord("--audio=default") && IsWord("wf-recorder") && IsWord("-f");
    assert IndexOf(argv, "-f") == Some(2);
    ScreenReadBack(argv, 2, ff, mic);
    MicAudioRead(out, mic);
  }

  /** The command line of the screen-with-system-audio recording reads back as such. */
  lemma SystemRecordingRecognised(out: string, ff: Option<string>, mic: string)
    requires PlainFile(out)
    ensures RecordingInfo(Some(Join(SystemArgv(out), " ")), ff, mic)
      == Ok(Some(Recording("screen", "system audio", out)))
  {
    var argv := SystemArgv(out);
    assert IsWord("--audio") && IsWord("wf-recorder") && IsWord("-f");
    assert IndexOf(argv, "-f") == Some(2);
    ScreenReadBack(argv, 2, ff, mic);
    SystemAudioRead(out, mic);
  }

  /** The command line of the silent screen recording reads back as such. */
  lemma SilentRecordingRecognised(out: string, ff: Option<string>, mic: string)
    requires PlainFile(out)
    ensures RecordingInfo(Some(Join(SilentArgv(out), " ")), ff, mic)
      == Ok(Some(Recording("screen", "silent", out)))
  {
    var argv := SilentArgv(out);
    assert IsWord("wf-recorder") && IsWord("-f");
    assert IndexOf(argv, "-f") == Some(1);
    ScreenReadBack(argv, 1, ff, mic);
    SilentAudioRead(out, mic);
  }

  lemma NoAudioInRecorderName()
    ensures !Contains("wf-recorder", "--audio")
  {
    var w := "wf-recorder";
    forall i | 0 <= i
      ensures !OccursAt(w, "--audio", i)
    {
      if i + 7 <= |w| {
        assert w[i + 1] != '-' || w[i] != '-';
        assert w[i..i + 7][0] == w[i] && w[i..i + 7][1] == w[i + 1];
      }
    }
  }

  /** The command line of the audio-only recording reads back as such. */
  lemma AudioRecordingRecognised(out: string, mic: string)
    requires IsWord(out)
    ensures RecordingInfo(None, Some(Join(AudioArgv(out), " ")), mic)
      == Ok(Some(Recording("audio-only", MicAudio(mic), out)))
  {
    var argv := AudioArgv(out);
    assert forall k :: 0 <= k < 7 ==> IsWord(argv[k]);
    ArgvWords(argv);
  }

  /**
    While a recording is in progress the menu offers only to stop it: no
    recorder and no screenshot is started, and both `wf-recorder` and
    `ffmpeg` are stopped exactly when the stop icon is picked.
  */
  lemma ActiveOnlyStops(home: string, mic: string, wf: Option<string>, ff: Option<string>,
                        reply: string, t: DateTime)
    requires ValidDateTime(t) && RecordingInfo(wf, ff, mic).Ok? && RecordingInfo(wf, ff, mic).value.Some?
    ensures var r := RecorderMain(home, mic, wf, ff, reply, t);
      r.raised.None?
      && |r.launched| >= 1
      && r.launched[0] == MenuCall(home, [StopIcon], ActiveMessage(RecordingInfo(wf, ff, mic).value.value))
      && !LaunchesProgram(r, "wf-recorder") && !LaunchesProgram(r, "ffmpeg") && !LaunchesProgram(r, "grim")
      && (Launches(r, ["pkill", "-f", "wf-recorder"]) <==> Strip(reply) == StopIcon)
      && (Launches(r, ["pkill", "-f", "ffmpeg"]) <==> Strip(reply) == StopIcon)
  {
    var rec := RecordingInfo(wf, ff, mic).value.value;
    ActiveRun(MenuCall(home, [StopIcon], ActiveMessage(rec)), reply);
  }

  /** The run after the stop menu `menu`: the menu, then `stop_recording` when the stop icon was picked. */
  function ActiveRunOf(menu: Proc, reply: string): Run {
    if Strip(reply) == StopIcon then Done([menu] + StopRecording()) else Done([menu])
  }

  lemma ActiveRun(menu: Proc, reply: string)
    requires |menu.argv| > 0 && menu.argv[0] == "rofi"
    ensures var r := ActiveRunOf(menu, reply);
      r.raised.None?
      && |r.launched| >= 1
      && r.launched[0] == menu
      && !LaunchesProgram(r, "wf-recorder") && !LaunchesProgram(r, "ffmpeg") && !LaunchesProgram(r, "grim")
      && (Launches(r, ["pkill", "-f", "wf-recorder"]) <==> Strip(reply) == StopIcon)
      && (Launches(r, ["pkill", "-f", "ffmpeg"]) <==> Strip(reply) == StopIcon)
  {
    var r := ActiveRunOf(menu, reply);
    if Strip(reply) == StopIcon {
      assert r.launched[1].argv == ["pkill", "-f", "wf-recorder"];
      assert r.launched[2].argv == ["pkill", "-f", "ffmpeg"];
    }
  }

  /**
    With nothing recording, the menu lists the five modes, and the mode picked
    alone decides what runs after it; any other reply runs nothing more.
  */
  lemma IdleRunsPickedMode(home: string, mic: string, wf: Option<string>, ff: Option<string>,
                           reply: string, t: DateTime)
    requires ValidDateTime(t) && RecordingInfo(wf, ff, mic) == Ok(None)
    ensures var r := RecorderMain(home, mic, wf, ff, reply, t);
      var sel := Strip(reply);
      r.raised.None? && r.launched[0] == MenuCall(home, Modes, IdleMessage(mic))
      && (sel == MicMode ==> r.launched[1..] == StartScreenMic(home, mic, t))
      && (sel == SystemMode ==> r.launched[1..] == StartScreenSystem(home, t))
      && (sel == SilentMode ==> r.launched[1..] == StartScreenSilent(home, t))
      && (sel == ScreenshotMode ==> r.launched[1..] == Screenshot(home, t))
      && (sel == AudioMode ==> r.launched[1..] == StartAudioOnly(home, mic, t))
      && (sel !in Modes ==> |r.launched| == 1)
  {
    var r := RecorderMain(home, mic, wf, ff, reply, t);
    assert r.launched[1..] == Action(home, mic, Strip(reply), t);
  }

  /** The five mode icons are different, so each reply picks at most one mode. */
  lemma ModesDistinct()
    ensures forall i, j :: 0 <= i < j < |Modes| ==> Modes[i] != Modes[j]
  {
  }
}
