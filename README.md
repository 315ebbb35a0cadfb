# A verified model of the qtile helper scripts

This project models the small deterministic rules inside the helper scripts of
a qtile desktop configuration, and proves properties of them in Dafny:

- **Keyboard layout cycling** (`scripts/utils.py`): an index over
  `us`, `zh`, `de`, kept in a state file, advanced modulo 3 on every press.
- **Audio device names** (`scripts/utils.py`): the readable name of the
  default sink's active port, and the description of the default source.
- **Group shifting** (`scripts/utils.py`): wrap-around window moves.
- **Time-stamped file names** (`scripts/utils.py`): for screenshots and
  recordings.
- **The microphone picker** (`scripts/microphone.py`): parsing
  `pactl list sources`, building the menu and its label-to-name dictionary,
  and the confirmed switch of the default source.
- **The screen recorder menu** (`scripts/recorder.py`): recognising the
  recording in progress from the command line of `wf-recorder` or `ffmpeg`,
  and dispatching the five modes.
- **The audio bindings** (`utils/audio.py`): the `notify-send` vector,
  microphone mute status, volume parsing, the volume notification and the
  raise, lower and mute bindings.
- **The brightness bindings** (`scripts/brightness.py`): the percentage
  read back, the notification and the step commands.
- **The power menu** (`scripts/power.py`) and **the performance-profile menu**
  (`scripts/performance.py`).

The model is cut where the scripts call external programs. Every program's
captured standard output is a parameter: `string`, or `Option<string>` where
the call can fail. A script's effect is a `Run`: the list of commands it
launches, in order, plus the Python exception that ended it early, if any. A
picker (`rofi`) is a `Pipe` carrying the menu text on its input; any other
command is a `Spawn`. Read-only queries are not listed in a run; their
outputs are the parameters. Python's `str` operations are modelled in module
`Text` on ASCII, and the scripts' integer arithmetic exactly.

Imperative parts keep their form:

- `cycle_keyboard_layout` is the class `Utils.LayoutCycler`, whose field is
  the state file.
- The loops of `get_audio_input_device`, `get_sources` and `mic_menu`, and the
  in-place building of `notify`'s vector, are methods. Each is proved equal to
  a specification function, and the properties are proved about that
  function.

Files: `wrappers.dfy` (Option, Result, the Python exceptions), `proc.dfy`
(the run of a script), `text.dfy`, `bar.dfy` (the 20-cell bar shared by the
volume and brightness notifications), and one file per script.

## Model

| member | source | states |
|---|---|---|
| Utils.NextIndex | scripts/utils.py:24 | the next index lies in [0, 3) and is congruent to current + 1 modulo 3 |
| Utils.LayoutCycler.ReadIndex | scripts/utils.py:18-21 | the index read is 0 without a state file, the integer the file holds otherwise, and ValueError when it holds no integer |
| Utils.LayoutCycler.Cycle | scripts/utils.py:9-35 | one press launches `localectl` with the next layout and then the notification, and stores the next index in the file; an unreadable file stops the press with ValueError and is left as it was |
| Utils.FirstPressSelectsZh | scripts/utils.py:14-35 | with no state file the first press selects "zh", notifies "Layout: ZH" and stores "1" |
| Utils.WrittenIndexMatchesLayout | scripts/utils.py:25-35 | after a successful press the stored index reads back, lies in [0, 3), and names the layout given to `localectl` and shown upper-cased in the notification |
| Utils.ThreePressesReturn | scripts/utils.py:24-32 | from a state file holding an index in [0, 3), three presses bring the stored index back to where it started |
| Utils.ThreePressesFromNoFile | scripts/utils.py:17-32 | from no state file, three presses leave the file holding "0", the start index |
| Utils.UnreadableStateStops | scripts/utils.py:19-21 | a state file that is no integer raises ValueError before anything is launched, and the file is unchanged |
| Utils.BlockEnd | scripts/utils.py:48 | the sink block ends at the first "\nName:" after its start, or at the end of the text |
| Utils.SinkBlock | scripts/utils.py:48-50 | there is a block exactly when "Name: <sink>\n" occurs; the block is the text right after the first such header, up to the first "\nName:" after it or the end of the listing, and holds no "Name:" that starts a line |
| Utils.ActivePort | scripts/utils.py:54-58 | a port found is a non-empty run of non-blank characters; there is none exactly when the block lacks "Active Port:" or only blanks follow its first occurrence |
| Utils.OutputDeviceUnknown | scripts/utils.py:48-59 | "Audio: Unknown" when the sink's block is missing or has no active port; otherwise the prettified port |
| Utils.SinkBlockIs | scripts/utils.py:48-52 | for any text before the first header, a block of any number of lines without "\nName:", and either the end of the listing or a "\nName:" after it, the block is exactly that text; a later sink's port is left out only when that sink's "Name:" starts a line |
| Utils.TabIndentedSinkShowsLaterPort | scripts/utils.py:48-58 | in a listing shaped as `pactl list sinks` prints it, with tab-indented "Name:" lines, the default sink's block runs to the end, so a default sink without an "Active Port:" line shows the port of the sink after it ("Speaker") |
| Utils.ActivePortIs | scripts/utils.py:54-58 | the port is the first word after the first "Active Port:", whatever blanks come between and whatever follows the word |
| Utils.PrettyAnalogPort | scripts/utils.py:59 | "analog-output-<w>" for a lower-case word w prettifies to w with its first letter capitalised |
| Utils.AnalogSinkReadsPortName | scripts/utils.py:38-61 | a listing whose default-sink block has "Active Port:" then "analog-output-<w>" for a lower-case word w reads as w capitalised ("speaker" as "Speaker"), whatever precedes the header, whatever other lines the block has and whatever follows from the next line starting with "Name:" |
| Utils.ShiftTarget | scripts/utils.py:64-68 | ValueError exactly when the current group is not in the list; otherwise the target is a valid group index |
| Utils.IndexOfDistinct | scripts/utils.py:67 | with distinct names, `index` of a group's name is that group's position |
| Utils.ShiftWraps | scripts/utils.py:67-69 | forward from the last group goes to the first, backward from the first goes to the last |
| Utils.ShiftBack | scripts/utils.py:67-69 | shifting by d and then by -d returns the window to its group |
| Utils.ModUnique | scripts/utils.py:68 | Python's `%` by a positive n gives the unique remainder in [0, n) |
| Utils.FirstDescription | scripts/utils.py:96-98 | the value is None exactly when no line holds "Description:"; otherwise it comes from the first such line, stripped |
| Utils.DescriptionOfFirst | scripts/utils.py:94-99 | the description comes from the first chunk that names the source and has a Description line; there is none exactly when no chunk does |
| Utils.FindInputDevice | scripts/utils.py:76-102 | the nested loop with early return computes `InputDevice`: "No Mic" when the default-source query fails, else the first description found, else the source name |
| Utils.InputDeviceFallback | scripts/utils.py:94-100 | with no chunk describing the source, the result is the source's own name |
| Utils.Stamp | scripts/utils.py:110 | the stamp has 15 characters, all digits except the underscore at position 8 |
| Utils.StampRoundTrip | scripts/utils.py:110 | the stamp reads back as the clock reading it was made from, so different readings give different stamps |
| Utils.TimestampFile | scripts/utils.py:109-111 | the name is the folder, "/", the prefix, "_", the stamp, ".", the extension; the stamp inside it reads back as the clock reading |
| Microphone.Group | scripts/microphone.py:33-40 | no chunk collected is empty |
| Microphone.GroupKeepsLines | scripts/microphone.py:33-40 | grouping loses and adds no line: the chunks hold exactly the stripped lines, in order |
| Microphone.ChunksKeepLines | scripts/microphone.py:31-40 | the chunks of a listing hold its stripped lines in order, none of them empty |
| Microphone.GroupNoHeader | scripts/microphone.py:33-40 | lines without a "Source #" header all join the chunk being built, so text before the first header is a chunk of its own |
| Microphone.SourceChunk | scripts/microphone.py:33-38 | a header line and the lines up to the next header form one chunk, header first |
| Microphone.GroupSplitsAtHeader | scripts/microphone.py:33-40 | the listing can be cut before any header and grouped piece by piece |
| Microphone.GroupLines | scripts/microphone.py:31-40 | the first loop of `get_sources` computes the chunks `Group` defines |
| Microphone.LastFieldIsLast | scripts/microphone.py:46-50 | a chunk's field is read from the last line holding its marker, stripped, after the marker |
| Microphone.LastFieldAbsent | scripts/microphone.py:44-50 | without a line holding the marker the field stays "" |
| Microphone.ReadChunk | scripts/microphone.py:44-50 | the inner loop yields the chunk's last Name and last Description values |
| Microphone.SourcesFrom | scripts/microphone.py:42-52 | every source reported has a non-empty name, and there are at most as many sources as chunks |
| Microphone.SourcesFromChunks | scripts/microphone.py:42-52 | each source reported is read from one chunk of the listing |
| Microphone.SourcesFromKeeps | scripts/microphone.py:42-52 | every chunk with a non-empty name is reported, in chunk order: its source comes right after the sources of the chunks before it |
| Microphone.SourcesFromPrefix | scripts/microphone.py:42-52 | the sources of a leading run of chunks are a prefix of the sources of all chunks |
| Microphone.ReadSources | scripts/microphone.py:42-54 | the second loop of `get_sources` keeps the named chunks' sources, in order |
| Microphone.GetSources | scripts/microphone.py:27-54 | `get_sources` computes `SourcesOf` of the listing |
| Microphone.Labels | scripts/microphone.py:74-78 | one label per source, in order: icon, space, description, and "  (current)" exactly for the default |
| Microphone.BuildMenu | scripts/microphone.py:71-79 | the loop of `mic_menu` builds exactly those labels and the label-to-name dictionary |
| Microphone.MappingLast | scripts/microphone.py:74-79 | the dictionary's keys are exactly the labels shown; each maps to the name of the last source with that label |
| Microphone.SelectLine | scripts/microphone.py:79-101 | with distinct labels, picking source k's line selects source k's name, provided the line strips to itself (the default source, or one with a non-empty description) |
| Microphone.UndescribedUnselectable | scripts/microphone.py:79-101 | a source other than the default with no description has the line "<icon> ", which strips to the bare icon, so picking it selects "" |
| Microphone.SelectOther | scripts/microphone.py:101 | a stripped reply that is no menu line selects "" |
| Microphone.BlankReplySelectsNothing | scripts/microphone.py:99-101 | a cancelled menu (an empty or blank reply) selects "", since no menu line strips to "" |
| Microphone.SelectedIsListed | scripts/microphone.py:74-101 | a non-empty selection is the name of a listed source |
| Microphone.MicMenu | scripts/microphone.py:67-101 | `mic_menu` makes the rofi call over the labels and returns the selected name |
| Microphone.AfterMenuChanges | scripts/microphone.py:131-139 | after the menu, the default source is set to a name exactly when that name was selected and confirmed; an empty selection runs nothing more |
| Microphone.MicMainChangesOnlyWhenConfirmed | scripts/microphone.py:131-139 | `set-default-source` runs only with the selected name, and exactly when a source was selected and the yes icon confirmed; a cancelled menu runs only the menu |
| Recorder.FfmpegNeverRaises | scripts/recorder.py:51-57 | without a `wf-recorder` command line, reading the recording never fails, since a non-blank `ffmpeg` line has a last word |
| Recorder.StrippedHasWords | scripts/recorder.py:56 | a stripped, non-blank command line has at least one word |
| Recorder.ArgvWords | scripts/recorder.py:46 | splitting a command line of words joined by spaces gives back the words |
| Recorder.ScreenReadBack | scripts/recorder.py:38-49 | a `wf-recorder` command line reads back as a screen recording into the word after the first "-f" |
| Recorder.MicRecordingRecognised | scripts/recorder.py:38-49 | the command line built at line 84 reads back as a screen recording with the microphone, into its own file |
| Recorder.SystemRecordingRecognised | scripts/recorder.py:38-49 | the command line built at line 90 reads back as a screen recording with system audio, into its own file |
| Recorder.SilentRecordingRecognised | scripts/recorder.py:38-49 | the command line built at line 96 reads back as a silent screen recording, into its own file |
| Recorder.AudioRecordingRecognised | scripts/recorder.py:51-57 | the command line built at line 103 reads back as an audio-only recording, into its own file |
| Recorder.ActiveRun | scripts/recorder.py:124-127 | after the stop menu, both recorders are killed exactly when the stop icon is picked, and nothing is started |
| Recorder.ActiveOnlyStops | scripts/recorder.py:116-127 | while a recording is in progress the menu offers only the stop icon, with the recording described in its message; nothing is started, and `wf-recorder` and `ffmpeg` are killed exactly when the stop icon is picked |
| Recorder.IdleRunsPickedMode | scripts/recorder.py:129-149 | with nothing recording, the menu lists the five modes, and the mode picked alone decides what follows; any other reply runs nothing more |
| Recorder.ModesDistinct | scripts/recorder.py:13-20 | the five mode icons differ, so a reply picks at most one mode |
| Audio.Notify | utils/audio.py:11-19 | the in-place building of the vector gives `notify-send -u <urgency>`, then `-r <id>` only for a non-empty id, then title and body |
| Audio.NotifyArgvFields | utils/audio.py:13-18 | the vector has 7 entries exactly when the id is non-empty, and 5 otherwise |
| Audio.MicMutedIffYes | utils/audio.py:27-38 | a failed query counts as muted; an answer is muted exactly when "yes" occurs in it, in any case |
| Audio.ToggleInputNotifies | utils/audio.py:41-69 | every toggle is followed by exactly one notification; it replaces id 2000 exactly when the toggle worked, and is critical exactly when the mic is live or the toggle failed |
| Audio.SpacesEnd | utils/audio.py:105 | the `\s*` after "/" ends at the first character that is no blank |
| Audio.DigitsEnd | utils/audio.py:105 | the `\d+` ends at the first character that is no digit |
| Audio.NoSlashNoVolume | utils/audio.py:105-106 | output without "/" reads as volume 0 |
| Audio.VolumeReadsBack | utils/audio.py:105-106 | "/", blanks, the digits of n and "%", after text without a slash, read back as n, whatever follows |
| Audio.PactlMuteReads | utils/audio.py:108 | "Mute: yes" reads as muted, "Mute: no" as not muted |
| Audio.GetVolumeReads | utils/audio.py:87-112 | the first channel's percentage and the mute flag are read back as printed; no sink or a failed query gives (0, False) |
| Audio.VolumeIconStates | utils/audio.py:117-124 | the icon is the muted one exactly when muted, silent exactly at 0, low below 50, loud from 50 on |
| Audio.VolumeNotificationFields | utils/audio.py:115-135 | the notification replaces id 1000 and is titled "Volume"; it is "normal" exactly when muted and "low" otherwise; for 0..100 the body ends with the 20-cell bar on its own line |
| Audio.AdjustVolumeRuns | utils/audio.py:143-176 | without a default sink nothing runs; with one, the binding's `pactl` change on that sink runs, then one notification of the volume read afterwards |
| Bars.FilledRange | utils/audio.py:126-128 | for 0..100 the filled count lies in [0, 20]; it is 0 exactly below 5 and 20 exactly at 100 |
| Bars.FilledMonotone | utils/audio.py:127 | a higher percentage never fills fewer cells |
| Bars.BarShape | utils/audio.py:126-128 | for 0..100 the bar has exactly 20 cells, full up to the filled count and empty after |
| Bars.BarPastFull | utils/audio.py:126-128 | past 100 the bar has only full cells, and from 105 on it is longer than 20 |
| Bars.BarBelowZero | utils/audio.py:126-128 | below 0 the bar has only empty cells, and from -5 down it is longer than 20 |
| Brightness.RoundHalfEven | scripts/brightness.py:19 | the result is within half of num/den, and even at a tie |
| Brightness.PercentBounds | scripts/brightness.py:7-20 | for 0 <= current <= maximum and maximum > 0, the percentage lies in [0, 100], is 0 at 0 and 100 at the maximum, and is within half a percent of the exact ratio |
| Brightness.GetBrightnessReads | scripts/brightness.py:7-20 | the numbers `brightnessctl` prints read back as their percentage; a zero maximum raises |
| Brightness.BrightnessNotificationFields | scripts/brightness.py:23-42 | the notification replaces id 3000, expires after 1200 ms and is titled "Screen Brightness"; the dim icon shows exactly below 50; for 0..100 the body ends with the 20-cell bar |
| Brightness.StepArgvReads | scripts/brightness.py:45-56 | the step argument is the amount, read back by `int`, followed by "%+" or "%-"; the default amount gives "5%+" and "5%-" |
| Brightness.ChangeBrightnessRuns | scripts/brightness.py:45-56 | the step runs first; a notification of the level read back follows exactly when the step and both readings succeeded; otherwise the binding ends with the exception |
| Power.IconsDistinct | scripts/power.py:7-13 | the five menu icons differ, and so do the yes and no icons |
| Power.ActionTable | scripts/power.py:78-84 | the table's keys are exactly the five menu icons, each bound to its fixed command |
| Power.PowerRunsOnlyConfirmed | scripts/power.py:75-88 | a command runs after the pickers exactly when `$USER` is set, the selection is a menu icon and the yes icon confirmed; it is then the table's command for that icon; otherwise KeyError after the menu alone |
| Power.PickedIconSelected | scripts/power.py:48-49 | picking a menu line selects that icon, whatever blanks surround it |
| Power.CancelRaises | scripts/power.py:86 | a cancelled menu raises KeyError before any confirmation |
| Power.UptimeDropsUp | scripts/power.py:19-21 | the uptime shown is `uptime -p`'s text after its leading "up " |
| Performance.CurrentProfileReads | scripts/performance.py:17-24 | the profile is the last word of the second line, e.g. "Active profile is Quiet" gives "Quiet" |
| Performance.SecondLine | scripts/performance.py:24 | the second line of the output is the text between its first two line breaks |
| Performance.OneLineRaises | scripts/performance.py:24 | output without a second line raises IndexError |
| Performance.PickedLineSelectsProfile | scripts/performance.py:26-51 | picking any menu line, whatever blanks surround it, selects its profile name |
| Performance.CancelRaises | scripts/performance.py:50-51 | an empty or blank reply raises IndexError |
| Performance.ProfileFlowRuns | scripts/performance.py:76-80 | given the three readings, `asusctl profile -P <mode>` runs exactly when both readings succeeded and the yes icon confirmed, and it runs last |
| Performance.SetProfileRunsOnlyConfirmed | scripts/performance.py:76-80 | the profile is set exactly when it was read, a line with two words was picked and the yes icon confirmed; an unreadable profile stops before any picker, a cancelled menu before the confirmation, both with IndexError |
| Text.JoinSplit | scripts/utils.py:94 | joining the pieces of `split(sep)` with sep gives back the text |
| Text.WordsJoin | scripts/recorder.py:46 | `split()` of words joined by single spaces gives back the words |
| Text.StripSurrounded | scripts/power.py:48 | `strip()` removes exactly the blanks around a word that starts and ends with no blank |
| Text.ReplaceChar | scripts/utils.py:59 | replacing one character by another rewrites exactly the positions that held it and keeps the length |
| Text.ParseIntOfIntToString | scripts/utils.py:21-32 | `int(str(i)) == i`: the index written to the state file reads back |

## Left out

- External programs are not run. Their output is a parameter, and their launch is an entry of the run. Left out: the difference between `Popen` (detached) and `run` (waited for), exit codes of unchecked commands, and the effects of `pkill`, `systemctl` and the rest.
- A missing program is not modelled. `FileNotFoundError` from `subprocess` is left out everywhere; only the `CalledProcessError` of checked calls is modelled.
- Utils.LayoutCycler: the state file is modelled as its content. `os.path.exists` and `open` are not modelled, nor a file that exists but cannot be read or written. Two presses racing each other are not modelled either.
- Utils.SinkBlock: the block ends only at a "Name:" that starts a line, as the lookahead in `get_audio_output_device` is written. `pactl list sinks` indents its "Name:" lines by a tab, so on its output the block runs to the end of the listing, and a default sink without an "Active Port:" line shows the port of a later sink. The model keeps this behaviour (TabIndentedSinkShowsLaterPort) and does not model a block cut at the next sink.
- Microphone.SelectLine: a source other than the default with no description cannot be picked from the menu (UndescribedUnselectable); the model keeps this behaviour of `mic_menu`.
- Utils.ShiftTarget: returns the index of the target group. `togroup` and the `lazy.screen` calls are qtile API calls and are not modelled; the lazy calls are only built and never executed.
- Utils.InputDevice: the broad `except Exception` is modelled only for what can raise there, the failing `pactl get-default-source`.
- Utils.Stamp: the clock reading is a parameter and years are limited to 1000..9999, so `%Y` always gives four digits.
- Recorder.RecorderMain: `get_audio_input_device` is called afresh in `get_recording_info`, `main`, `start_screen_mic` and `start_audio_only`; the model reads it once, as one parameter.
- Recorder.CmdFor: how `pgrep` lists several pids and how `ps` answers them is not modelled. The two outputs are parameters, and either failing gives None.
- `os.path.expanduser`, `$HOME`, `$XDG_CONFIG_HOME` and `$USER` are parameters.
- Audio.AdjustVolume: the default sink is queried again inside `get_volume`; those queries are a separate parameter (`VolumeReading`), not tied to the first one.
- Text.IsSpace: whitespace, case and digits are ASCII only. Python's `str.split()`, `strip()`, `isspace()`, `lower()`, `upper()` and `title()` also treat `\x1c`–`\x1f`, `\x85` and non-ASCII characters; regex `\s` and `\d` are taken as ASCII too.
- Text.SplitLines: breaks at "\n" only, where Python's `splitlines()` also breaks at "\r", "\r\n" and other separators.
- Text.ParseInt: accepts surrounding blanks, an optional sign and ASCII digits. Underscores between digits and non-ASCII digits, which Python's `int()` also accepts, are left out.
- Bars.Filled: computes `int(p / 100 * 20)` exactly over the integers, as p * 20 / 100 truncated toward zero. The rounding error of the floating-point division is not modelled.
- Brightness.RoundHalfEven: rounds the exact ratio 100 * current / maximum. Python rounds the floating-point value of `(current / maximum) * 100`, which can differ from the exact ratio near a tie.
- Power.PowerMain: the lookup's truthiness test `if action := ...` is not modelled separately. Every command in the table is a non-empty list, so the test always passes.
- The icon constants are the source's strings, written as code points: most are single private-use glyphs, the volume and brightness icons are ordinary emoji, and the recorder's three screen modes are two glyphs joined by a space; how they render is not modelled.
