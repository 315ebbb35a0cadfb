/**
  scripts/utils.py: the keyboard-layout cycle kept in a state file, the
  readable name of the default sink's active port, moving a window to the next
  or previous group, the description of the default source, and time-stamped
  file names for screenshots and recordings.
*/
module Utils {
  import opened Wrappers
  import opened Text
  import opened Proc

  // ===========================================================================
  // Keyboard layout cycling
  // ===========================================================================

  const Layouts: seq<string> := ["us", "zh", "de"]

  /** The index stored in the state file: 0 while there is no file, else `int()` of its text. */
  function StoredIndex(file: Option<string>): Result<int> {
    match file
    case None => Ok(0)
    case Some(text) =>
      match ParseInt(text)
      case None => Err(ValueError)
      case Some(i) => Ok(i)
  }

  /** The index of the layout after `current`, Python's `(current + 1) % len(layouts)`. */
  function NextIndex(current: int): (r: nat)
    ensures r < |Layouts|
    ensures (current + 1 - r) % |Layouts| == 0
  {
    (current + 1) % |Layouts|
  }

  /** `localectl` switching to layout `next`, then the notification naming it in capitals. */
  function LayoutCommands(next: nat): seq<Proc>
    requires next < |Layouts|
  {
    [Spawn(["localectl", "set-x11-keymap", Layouts[next]]),
     Spawn(["notify-send", "Layout: " + Upper(Layouts[next])])]
  }

  /** What one press launches, given the state file as it was. */
  function CycleRun(file: Option<string>): Run {
    match StoredIndex(file)
    case Err(e) => Run([], Some(e))
    case Ok(i) => Done(LayoutCommands(NextIndex(i)))
  }

  /** The state file after one press: the new index in decimal, or untouched when reading it failed. */
  function Cycled(file: Option<string>): Option<string> {
    match StoredIndex(file)
    case Err(_) => file
    case Ok(i) => Some(IntToString(NextIndex(i)))
  }

  /** The persisted index behind `cycle_keyboard_layout`. */
  class LayoutCycler {
    /** The text of /tmp/qtile_kb_layout_state, None while the file does not exist. */
    var stateFile: Option<string>

    constructor (file: Option<string>)
      ensures stateFile == file
    {
      stateFile := file;
    }

    /** Reading the state file: 0 while it does not exist, otherwise `int()` of its text. */
    method ReadIndex() returns (stored: Result<int>)
      ensures stored == StoredIndex(stateFile)
    {
      stored := Ok(0);
      if stateFile.Some? {
        var parsed := ParseInt(stateFile.value);
        if parsed.None? {
          return Err(ValueError);
        }
        stored := Ok(parsed.value);
      }
    }

    /** One press of the layout key. */
    method Cycle() returns (r: Run)
      modifies this
      ensures r == CycleRun(old(stateFile))
      ensures stateFile == Cycled(old(stateFile))
    {
      var stored := ReadIndex();
      if stored.Err? {
        return Run([], Some(stored.error));
      }
      var current := stored.value;
      var next := (current + 1) % |Layouts|;
      var layout := Layouts[next];
      var launched := [Spawn(["localectl", "set-x11-keymap", layout])];
      stateFile := Some(IntToString(next));
      launched := launched + [Spawn(["notify-send", "Layout: " + Upper(layout)])];
      assert launched == LayoutCommands(next);
      r := Done(launched);
    }
  }

  /** The first press, with no state file, selects "zh" and stores index 1. */
  lemma FirstPressSelectsZh()
    ensures CycleRun(None) == Done([Spawn(["localectl", "set-x11-keymap", "zh"]),
                                    Spawn(["notify-send", "Layout: ZH"])])
    ensures Cycled(None) == Some("1")
  {
    assert StoredIndex(None) == Ok(0);
    assert NextIndex(0) == 1;
    assert Layouts[1] == "zh";
    assert Upper("zh") == "ZH";
    assert IntToString(1) == "1";
    assert "Layout: " + Upper("zh") == "Layout: ZH";
    assert CycleRun(None) == Done(LayoutCommands(1));
  }

  /**
    After a press that succeeds, the file holds the index of the layout passed
    to `localectl`, and the notification names that layout in capitals.
  */
  lemma WrittenIndexMatchesLayout(file: Option<string>)
    requires StoredIndex(file).Ok?
    ensures Cycled(file).Some?
    ensures StoredIndex(Cycled(file)).Ok?
    ensures var k := StoredIndex(Cycled(file)).value;
      0 <= k < |Layouts| &&
      CycleRun(file).raised.None? &&
      CycleRun(file).launched[0].argv == ["localectl", "set-x11-keymap", Layouts[k]] &&
      CycleRun(file).launched[1].argv == ["notify-send", "Layout: " + Upper(Layouts[k])]
  {
    ParseIntOfIntToString(NextIndex(StoredIndex(file).value));
  }

  /** Three presses from a stored index bring the file back to that index. */
  lemma {:induction false} ThreePressesReturn(i: nat)
    requires i < |Layouts|
    ensures Cycled(Cycled(Cycled(Some(IntToString(i))))) == Some(IntToString(i))
  {
    var n1 := NextIndex(i);
    var n2 := NextIndex(n1);
    var n3 := NextIndex(n2);
    ParseIntOfIntToString(i);
    ParseIntOfIntToString(n1);
    ParseIntOfIntToString(n2);
    assert n3 == i;
  }

  /** Three presses from a missing state file leave it holding index 0, the layout "us". */
  lemma ThreePressesFromNoFile()
    ensures Cycled(Cycled(Cycled(None))) == Some(IntToString(0))
  {
    ParseIntOfIntToString(1);
    ParseIntOfIntToString(2);
  }

  /** A state file that does not hold an integer stops the press before anything is launched. */
  lemma UnreadableStateStops(text: string)
    requires ParseInt(text).None?
    ensures CycleRun(Some(text)) == Run([], Some(ValueError))
    ensures Cycled(Some(text)) == Some(text)
  {
  }

  // ===========================================================================
  // The default sink's active port
  // ===========================================================================

  const UnknownAudio := "Audio: Unknown"

  /** Where the lookahead of `get_audio_output_device` ends a block: a "Name:" that starts a line. */
  const NextName := "\nName:"

  const PortMarker := "Active Port:"

  function SinkHeader(sink: string): string {
    "Name: " + sink + "\n"
  }

  /** Where a block that starts at `start` ends: at the next "\nName:" or at the end of the text. */
  function BlockEnd(text: string, start: nat): (e: nat)
    requires start <= |text|
    ensures start <= e <= |text|
    ensures forall i :: start <= i < e ==> !OccursAt(text, NextName, i)
    ensures e == |text| || OccursAt(text, NextName, e)
  {
    match FindFrom(text, NextName, start)
    case None => |text|
    case Some(e) => e
  }

  /**
    The block of `sink`: the text after the first "Name: <sink>\n" up to the
    next "\nName:" or the end. It holds no "Name:" that starts a line; a
    "Name:" indented by a tab, as `pactl list sinks` prints it, does not end
    the block (see `TabIndentedSinkShowsLaterPort`).
  */
  function SinkBlock(sink: string, text: string): (r: Option<string>)
    ensures r.None? <==> !Contains(text, SinkHeader(sink))
    ensures r.Some? ==> !Contains(r.value, NextName)
    ensures r.Some? ==>
      var start := Find(text, SinkHeader(sink)).value + |SinkHeader(sink)|;
      var end := start + |r.value|;
      end <= |text| && text[start..end] == r.value
      && (forall k :: start <= k < end ==> !OccursAt(text, NextName, k))
      && (end == |text| || OccursAt(text, NextName, end))
  {
    var h := SinkHeader(sink);
    match Find(text, h)
    case None => None
    case Some(i) =>
      var start := i + |h|;
      var block := text[start..BlockEnd(text, start)];
      BlockHasNoName(text, start, block);
      Some(block)
  }

  lemma BlockHasNoName(text: string, start: nat, block: string)
    requires start <= |text| && block == text[start..BlockEnd(text, start)]
    ensures !Contains(block, NextName)
  {
    var e := BlockEnd(text, start);
    var n := |NextName|;
    forall j: nat | j + n <= |block|
      ensures !OccursAt(block, NextName, j)
    {
      assert |block| == e - start && start + j < e;
      var w := block[j..j + n];
      var v := text[start + j..start + j + n];
      forall k | 0 <= k < n
        ensures w[k] == v[k]
      {
        assert w[k] == block[j + k] == text[start + j + k] == v[k];
      }
      assert w == v;
      assert !OccursAt(text, NextName, start + j);
    }
  }

  /** The first run of non-blank characters after "Active Port:" and any blanks. */
  function ActivePort(block: string): (r: Option<string>)
    ensures r.Some? ==> IsWord(r.value)
    ensures r.None? <==>
      !Contains(block, PortMarker) || Blank(block[Find(block, PortMarker).value + |PortMarker|..])
  {
    match Find(block, PortMarker)
    case None => None
    case Some(i) =>
      var t := TrimLeft(block[i + |PortMarker|..]);
      TrimLeftSpec(block[i + |PortMarker|..]);
      TrimLeftEmpty(block[i + |PortMarker|..]);
      if |t| == 0 then None else Some(t[..WordLen(t)])
  }

  /**
    The port is the first word after the first "Active Port:", whatever
    blanks stand between them and whatever follows the word.
  */
  lemma ActivePortIs(pre: string, blanks: string, port: string, after: string)
    requires NotBefore(pre, PortMarker) && Blank(blanks) && IsWord(port)
    requires after == [] || IsSpace(after[0])
    ensures ActivePort(pre + PortMarker + blanks + port + after) == Some(port)
  {
    var block := pre + PortMarker + blanks + port + after;
    assert block == pre + PortMarker + (blanks + port + after);
    FindAfter(pre, PortMarker, blanks + port + after);
    var s := block[|pre| + |PortMarker|..];
    assert s == blanks + (port + after);
    TrimLeftBlank(blanks, port + after);
    assert TrimLeft(port + after) == port + after;
    WordLenPrefix(port, after);
    assert (port + after)[..|port|] == port;
  }

  /** Drop "analog-output-", turn '-' into ' ' and title-case the words. */
  function PrettyPort(port: string): string {
    Title(Replace(Replace(port, "analog-output-", ""), "-", " "))
  }

  /** `get_audio_output_device`, given the output of `pactl get-default-sink` and `pactl list sinks`. */
  function OutputDevice(defaultSinkOut: string, sinksOut: string): string {
    match SinkBlock(Strip(defaultSinkOut), sinksOut)
    case None => UnknownAudio
    case Some(block) =>
      match ActivePort(block)
      case None => UnknownAudio
      case Some(port) => PrettyPort(port)
  }

  /**
    The device reads as "Audio: Unknown" when the listing has no
    "Name: <sink>" line for the default sink, or when that sink's block has
    no "Active Port:" line; otherwise it is a prettified port name.
  */
  lemma OutputDeviceUnknown(defaultSinkOut: string, sinksOut: string)
    ensures !Contains(sinksOut, SinkHeader(Strip(defaultSinkOut))) ==>
      OutputDevice(defaultSinkOut, sinksOut) == UnknownAudio
    ensures var block := SinkBlock(Strip(defaultSinkOut), sinksOut);
      block.Some? && !Contains(block.value, PortMarker) ==> OutputDevice(defaultSinkOut, sinksOut) == UnknownAudio
    ensures var block := SinkBlock(Strip(defaultSinkOut), sinksOut);
      block.Some? && ActivePort(block.value).Some? ==>
        OutputDevice(defaultSinkOut, sinksOut) == PrettyPort(ActivePort(block.value).value)
  {
  }

  predicate AllLower(w: string) {
    forall k :: 0 <= k < |w| ==> IsLower(w[k])
  }

  lemma {:induction false} TitleAfterLetter(w: string)
    requires AllLower(w)
    ensures TitleFrom(w, true) == w
    decreases |w|
  {
    if |w| > 0 {
      TitleAfterLetter(w[1..]);
      assert w == [w[0]] + w[1..];
    }
  }

  lemma NoHyphenNoAnalog(w: string)
    requires AllLower(w)
    ensures !Contains(w, "analog-output-")
  {
    var pat := "analog-output-";
    forall j | 0 <= j
      ensures !OccursAt(w, pat, j)
    {
      if j + |pat| <= |w| {
        assert w[j..j + |pat|][6] == w[j + 6];
        assert IsLower(w[j + 6]);
      }
    }
  }

  /** A lower-case port name after "analog-output-" comes out capitalised. */
  lemma PrettyAnalogPort(w: string)
    requires |w| > 0 && AllLower(w)
    ensures PrettyPort("analog-output-" + w) == [UpperChar(w[0])] + w[1..]
  {
    var pat := "analog-output-";
    var port := pat + w;
    assert OccursAt(port, pat, 0);
    assert port[|pat|..] == w;
    NoHyphenNoAnalog(w);
    assert Replace(w, pat, "") == w;
    assert Replace(port, pat, "") == "" + w;
    assert "" + w == w;
    ReplaceChar(w, '-', ' ');
    assert Replace(w, "-", " ") == w;
    TitleAfterLetter(w[1..]);
  }

  /**
    The block of `sink` is the text after the first "Name: <sink>\n" up to
    the next "Name:" that starts a line, or up to the end of the listing when
    no such line follows, whatever comes before the header and however many
    lines the block has.
  */
  lemma SinkBlockIs(sink: string, pre: string, body: string, tail: string)
    requires NotBefore(pre, SinkHeader(sink))
    requires !Contains(body, NextName)
    requires tail == [] || StartsWith(tail, NextName)
    ensures SinkBlock(sink, pre + SinkHeader(sink) + body + tail) == Some(body)
  {
    var h := SinkHeader(sink);
    var text := pre + h + body + tail;
    var start := |pre| + |h|;
    assert text == pre + h + (body + tail);
    FindAfter(pre, h, body + tail);
    assert text == (pre + h) + (body + tail);
    NoNameBeforeTail(body, tail);
    forall k | start <= k < start + |body|
      ensures !OccursAt(text, NextName, k)
    {
      OccursShift(pre + h, body + tail, NextName, k - start);
    }
    OccursShift(pre + h, body + tail, NextName, |body|);
    BlockEndAt(text, start, start + |body|);
    assert text[start..start + |body|] == body;
  }

  /**
    No "\nName:" starts inside a block that holds none, even one running into
    a following "\nName:", since no proper suffix of "\nName:" is a prefix of it.
  */
  lemma NoNameBeforeTail(body: string, tail: string)
    requires !Contains(body, NextName)
    requires tail == [] || StartsWith(tail, NextName)
    ensures forall k :: 0 <= k < |body| ==> !OccursAt(body + tail, NextName, k)
    ensures |body| == |body + tail| || OccursAt(body + tail, NextName, |body|)
  {
    var s := body + tail;
    var n := |NextName|;
    forall k | 0 <= k < |body|
      ensures !OccursAt(s, NextName, k)
    {
      if k + n <= |body| {
        assert s[k..k + n] == body[k..k + n];
        assert !OccursAt(body, NextName, k);
      } else if tail != [] {
        var m := |body| - k;
        assert s[|body|] == tail[0] == '\n';
        assert s[k..k + n][m] == s[|body|];
        assert NextName[m] != '\n';
      }
    }
    if tail != [] {
      assert s[|body|..|body| + n] == tail[..n];
    }
  }

  /** `p` occurs in `a + b` at `|a| + k` exactly when it occurs in `b` at `k`. */
  lemma OccursShift(a: string, b: string, p: string, k: nat)
    ensures OccursAt(a + b, p, |a| + k) <==> OccursAt(b, p, k)
  {
    if k + |p| <= |b| {
      assert (a + b)[|a| + k..|a| + k + |p|] == b[k..k + |p|];
    }
  }

  /** The block from `start` ends at `e` when no "\nName:" starts before `e` and one starts there or the text ends. */
  lemma BlockEndAt(text: string, start: nat, e: nat)
    requires start <= e <= |text|
    requires forall k :: start <= k < e ==> !OccursAt(text, NextName, k)
    requires e == |text| || OccursAt(text, NextName, e)
    ensures BlockEnd(text, start) == e
  {
  }

  /** An analog port name over a lower-case word has no blanks. */
  lemma AnalogPortIsWord(w: string)
    requires |w| > 0 && AllLower(w)
    ensures IsWord("analog-output-" + w)
  {
    var pat := "analog-output-";
    var port := pat + w;
    forall k | 0 <= k < |port|
      ensures !IsSpace(port[k])
    {
      if k < |pat| {
        assert port[k] == pat[k];
      } else {
        assert port[k] == w[k - |pat|];
      }
    }
  }

  /**
    When the default sink's block holds "Active Port:" followed by
    "analog-output-<w>" for a lower-case word `w` (for instance "speaker"),
    the device reads as `w` capitalised ("Speaker"), whatever precedes the
    sink's header, whatever other lines its block has and whatever follows
    from the next line that starts with "Name:".
  */
  lemma AnalogSinkReadsPortName(defaultSinkOut: string, pre: string, before: string, blanks: string,
                                w: string, after: string, tail: string)
    requires |w| > 0 && AllLower(w)
    requires NotBefore(pre, SinkHeader(Strip(defaultSinkOut)))
    requires NotBefore(before, PortMarker) && Blank(blanks) && (after == [] || IsSpace(after[0]))
    requires !Contains(before + PortMarker + blanks + ("analog-output-" + w) + after, NextName)
    requires tail == [] || StartsWith(tail, NextName)
    ensures OutputDevice(defaultSinkOut,
      pre + SinkHeader(Strip(defaultSinkOut)) + (before + PortMarker + blanks + ("analog-output-" + w) + after) + tail)
      == [UpperChar(w[0])] + w[1..]
  {
    var port := "analog-output-" + w;
    AnalogPortIsWord(w);
    SinkBlockIs(Strip(defaultSinkOut), pre, before + PortMarker + blanks + port + after, tail);
    ActivePortIs(before, blanks, port, after);
    PrettyAnalogPort(w);
  }

  /**
    The lookahead ends a block only at a "Name:" that starts a line, while
    `pactl list sinks` indents every field by a tab. In the listing
    "Sink #0\n\tName: a\n\tDriver: x\n\nSink #1\n\tName: b\n\tActive Port: analog-output-speaker\n",
    cut here into `pre`, the header of sink "a", `before` and the port line,
    the block of the default sink "a" runs to the end of the listing; sink
    "a" has no "Active Port:" line of its own and shows the port of sink "b",
    "Speaker".
  */
  lemma TabIndentedSinkShowsLaterPort(sinkOut: string, pre: string, before: string, w: string)
    requires sinkOut == "a\n" && pre == "Sink #0\n\t" && w == "speaker"
    requires before == "\tDriver: x\n\nSink #1\n\tName: b\n\t"
    ensures OutputDevice(sinkOut,
      pre + SinkHeader(Strip(sinkOut)) + (before + PortMarker + " " + ("analog-output-" + w) + "\n") + "")
      == [UpperChar(w[0])] + w[1..]
  {
    TabIndentedConditions(sinkOut, pre, before, w);
    AnalogSinkReadsPortName(sinkOut, pre, before, " ", w, "\n", "");
  }

  /** The listing above meets the conditions of `AnalogSinkReadsPortName`, with the block running to the end. */
  lemma TabIndentedConditions(sinkOut: string, pre: string, before: string, w: string)
    requires sinkOut == "a\n" && pre == "Sink #0\n\t" && w == "speaker"
    requires before == "\tDriver: x\n\nSink #1\n\tName: b\n\t"
    ensures Strip(sinkOut) == "a"
    ensures NotBefore(pre, SinkHeader(Strip(sinkOut)))
    ensures NotBefore(before, PortMarker)
    ensures !Contains(before + PortMarker + " " + ("analog-output-" + w) + "\n", NextName)
    ensures |w| > 0 && AllLower(w) && Blank(" ") && IsSpace("\n"[0])
  {
    assert IsWord("a");
    StripTrailingNewline("a");
    assert "a" + "\n" == sinkOut;
    TabIndentedHeader();
    TabIndentedMarker();
    TabIndentedNoName();
  }

  /** In the listing above, "Name: a\n" first occurs after "Sink #0\n\t". */
  lemma TabIndentedHeader()
    ensures NotBefore("Sink #0\n\t", SinkHeader("a"))
  {
    var h := SinkHeader("a");
    AbsentByPair("Sink #0\n\t" + h[..|h| - 1], h, 6);
  }

  /** In the block of sink "a", the first "Active Port:" is the one of sink "b". */
  lemma TabIndentedMarker()
    ensures NotBefore("\tDriver: x\n\nSink #1\n\tName: b\n\t", PortMarker)
  {
    AbsentByPair("\tDriver: x\n\nSink #1\n\tName: b\n\t" + PortMarker[..|PortMarker| - 1], PortMarker, 10);
  }

  /** No line of the listing starts with "Name:". */
  lemma TabIndentedNoName()
    ensures !Contains("\tDriver: x\n\nSink #1\n\tName: b\n\t" + PortMarker + " " + ("analog-output-" + "speaker") + "\n", NextName)
  {
    AbsentByPair("\tDriver: x\n\nSink #1\n\tName: b\n\t" + PortMarker + " " + ("analog-output-" + "speaker") + "\n", NextName, 0);
  }

  // ===========================================================================
  // Moving the current window to a neighbouring group
  // ===========================================================================

  /**
    The index of the group `shift_group` sends the current window to:
    `(idx + direction) % len(groups)`, where `idx` is the current group's
    position; ValueError when the current group is not in the list.
  */
  function ShiftTarget(names: seq<string>, current: string, direction: int): (r: Result<nat>)
    ensures r.Err? <==> current !in names
    ensures r.Ok? ==> r.value < |names|
  {
    match IndexOf(names, current)
    case None => Err(ValueError)
    case Some(idx) => Ok((idx + direction) % |names|)
  }

  predicate Distinct(names: seq<string>) {
    forall i, j :: 0 <= i < j < |names| ==> names[i] != names[j]
  }

  /** Forward from the last group wraps to the first; backward from the first wraps to the last. */
  lemma ShiftWraps(names: seq<string>)
    requires |names| > 0 && Distinct(names)
    ensures ShiftTarget(names, names[|names| - 1], 1) == Ok(0)
    ensures ShiftTarget(names, names[0], -1) == Ok(|names| - 1)
  {
    var n := |names|;
    IndexOfDistinct(names, n - 1);
    IndexOfDistinct(names, 0);
    ModUnique(n - 1 + 1, n, 1, 0);
    ModUnique(0 + -1, n, -1, n - 1);
  }

  /** With distinct names, the position found for a group's name is that group's own position. */
  lemma IndexOfDistinct(names: seq<string>, k: nat)
    requires Distinct(names) && k < |names|
    ensures IndexOf(names, names[k]) == Some(k)
  {
  }

  /** Shifting the window on group `i` by `d` and then by `-d` brings it back to group `i`. */
  lemma ShiftBack(names: seq<string>, i: nat, d: int)
    requires Distinct(names) && i < |names|
    ensures var t := (i + d) % |names|;
      ShiftTarget(names, names[i], d) == Ok(t) && ShiftTarget(names, names[t], -d) == Ok(i)
  {
    var n := |names|;
    var t := (i + d) % n;
    IndexOfDistinct(names, i);
    IndexOfDistinct(names, t);
    ModBack(i, d, n);
  }

  lemma ModBack(i: int, d: int, n: int)
    requires 0 <= i < n
    ensures ((i + d) % n + -d) % n == i
  {
    var t := (i + d) % n;
    var q := (i + d) / n;
    assert i + d == q * n + t;
    assert t + -d == (-q) * n + i;
    ModUnique(t + -d, n, -q, i);
  }

  lemma MulAtLeast(x: int, n: int)
    requires x >= 1 && n > 0
    ensures x * n >= n
  {
  }

  /** Python's `%` by a positive `n` leaves the remainder in [0, n), whatever the quotient. */
  lemma ModUnique(a: int, n: int, q: int, m: int)
    requires n > 0 && 0 <= m < n && a == q * n + m
    ensures a % n == m
  {
    var q0 := a / n;
    var m0 := a % n;
    assert a == q0 * n + m0;
    assert (q - q0) * n == m0 - m;
    if q - q0 >= 1 {
      MulAtLeast(q - q0, n);
      assert false;
    } else if q0 - q >= 1 {
      MulAtLeast(q0 - q, n);
      assert false;
    }
  }

  // ===========================================================================
  // The default source's description
  // ===========================================================================

  const NoMic := "No Mic"
  const SourceMarker := "Source #"
  const DescriptionMarker := "Description:"

  /** The stripped text after "Description:" on the first line that holds it. */
  function FirstDescription(lines: seq<string>): (r: Option<string>)
    ensures r.None? <==> forall k :: 0 <= k < |lines| ==> !Contains(lines[k], DescriptionMarker)
    ensures r.Some? ==> exists k :: (0 <= k < |lines| && Contains(lines[k], DescriptionMarker)
      && (forall j :: 0 <= j < k ==> !Contains(lines[j], DescriptionMarker))
      && r.value == Strip(After(lines[k], DescriptionMarker)))
    decreases |lines|
  {
    if |lines| == 0 then None
    else if Contains(lines[0], DescriptionMarker) then Some(Strip(After(lines[0], DescriptionMarker)))
    else
      var r := FirstDescription(lines[1..]);
      assert forall k :: 1 <= k < |lines| ==> lines[1..][k - 1] == lines[k];
      r
  }

  /** A chunk of `pactl list sources` that names `source` and has a Description line. */
  predicate Describes(block: string, source: string) {
    Contains(block, source) && FirstDescription(SplitLines(block)).Some?
  }

  /** The description from the first chunk that names `source` and has one. */
  function DescriptionOf(blocks: seq<string>, source: string): Option<string>
    decreases |blocks|
  {
    if |blocks| == 0 then None
    else if Describes(blocks[0], source) then FirstDescription(SplitLines(blocks[0]))
    else DescriptionOf(blocks[1..], source)
  }

  /** Chunk `k` is the first one that names `source` and has a Description line. */
  predicate FirstDescribing(blocks: seq<string>, source: string, k: int) {
    0 <= k < |blocks| && Describes(blocks[k], source)
    && forall j :: 0 <= j < k ==> !Describes(blocks[j], source)
  }

  /**
    The description found comes from the first chunk that names the source and
    has a Description line; there is none exactly when no chunk does.
  */
  lemma {:induction false} DescriptionOfFirst(blocks: seq<string>, source: string)
    ensures DescriptionOf(blocks, source).None? <==>
      forall k :: 0 <= k < |blocks| ==> !Describes(blocks[k], source)
    ensures DescriptionOf(blocks, source).Some? ==>
      exists k :: FirstDescribing(blocks, source, k)
        && DescriptionOf(blocks, source) == FirstDescription(SplitLines(blocks[k]))
    decreases |blocks|
  {
    if |blocks| == 0 {
    } else if Describes(blocks[0], source) {
      assert FirstDescribing(blocks, source, 0);
    } else {
      var tail := blocks[1..];
      DescriptionOfFirst(tail, source);
      assert DescriptionOf(blocks, source) == DescriptionOf(tail, source);
      assert forall k :: 1 <= k < |blocks| ==> tail[k - 1] == blocks[k];
      if DescriptionOf(tail, source).Some? {
        var k :| FirstDescribing(tail, source, k)
          && DescriptionOf(tail, source) == FirstDescription(SplitLines(tail[k]));
        forall j | 0 <= j < k + 1
          ensures !Describes(blocks[j], source)
        {
          if j > 0 {
            assert blocks[j] == tail[j - 1];
          }
        }
        assert FirstDescribing(blocks, source, k + 1);
      }
    }
  }

  /**
    `get_audio_input_device`, given the output of `pactl get-default-source`
    (None when it fails) and of `pactl list sources`.
  */
  function InputDevice(defaultSourceOut: Option<string>, sourcesOut: string): string {
    match defaultSourceOut
    case None => NoMic
    case Some(out) =>
      var source := Strip(out);
      match DescriptionOf(Split(sourcesOut, SourceMarker), source)
      case Some(desc) => desc
      case None => source
  }

  /** The nested search of `get_audio_input_device`, block by block and line by line. */
  method FindInputDevice(defaultSourceOut: Option<string>, sourcesOut: string) returns (name: string)
    ensures name == InputDevice(defaultSourceOut, sourcesOut)
  {
    if defaultSourceOut.None? {
      return NoMic;
    }
    var source := Strip(defaultSourceOut.value);
    var blocks := Split(sourcesOut, SourceMarker);
    var b := 0;
    while b < |blocks|
      invariant b <= |blocks|
      invariant DescriptionOf(blocks[b..], source) == DescriptionOf(blocks, source)
    {
      assert blocks[b..][0] == blocks[b] && blocks[b..][1..] == blocks[b + 1..];
      if Contains(blocks[b], source) {
        var lines := SplitLines(blocks[b]);
        var l := 0;
        while l < |lines|
          invariant l <= |lines|
          invariant FirstDescription(lines[l..]) == FirstDescription(lines)
        {
          assert lines[l..][0] == lines[l] && lines[l..][1..] == lines[l + 1..];
          if Contains(lines[l], DescriptionMarker) {
            return Strip(After(lines[l], DescriptionMarker));
          }
          l := l + 1;
        }
      }
      b := b + 1;
    }
    return source;
  }

  /** The result is the source's own name exactly when no chunk naming it has a description. */
  lemma InputDeviceFallback(out: string, sourcesOut: string)
    requires forall k :: 0 <= k < |Split(sourcesOut, SourceMarker)| ==>
      !Describes(Split(sourcesOut, SourceMarker)[k], Strip(out))
    ensures InputDevice(Some(out), sourcesOut) == Strip(out)
  {
    DescriptionOfFirst(Split(sourcesOut, SourceMarker), Strip(out));
  }

  // ===========================================================================
  // Time-stamped file names
  // ===========================================================================

  /** The clock reading that `datetime.now()` supplies. */
  datatype DateTime = DateTime(year: int, month: int, day: int, hour: int, minute: int, second: int)

  predicate ValidDateTime(t: DateTime) {
    1000 <= t.year <= 9999 && 1 <= t.month <= 12 && 1 <= t.day <= 31
    && 0 <= t.hour <= 23 && 0 <= t.minute <= 59 && 0 <= t.second <= 59
  }

  function Pad2(n: nat): string
    requires n < 100
  {
    [DigitChar(n / 10), DigitChar(n % 10)]
  }

  /** `strftime("%Y%m%d_%H%M%S")`. */
  function Stamp(t: DateTime): (r: string)
    requires ValidDateTime(t)
    ensures |r| == 15 && r[8] == '_'
    ensures forall k :: 0 <= k < 15 && k != 8 ==> IsDigit(r[k])
  {
    Pad2(t.year / 100) + Pad2(t.year % 100) + Pad2(t.month) + Pad2(t.day)
    + "_" + Pad2(t.hour) + Pad2(t.minute) + Pad2(t.second)
  }

  function DigitValue(c: char): int {
    c as int - '0' as int
  }

  /** The number written by the two digits at `k`. */
  function Field2(s: string, k: nat): int
    requires k + 2 <= |s|
  {
    10 * DigitValue(s[k]) + DigitValue(s[k + 1])
  }

  /** Reads a stamp back into the clock reading it was made from. */
  function ParseStamp(s: string): DateTime
    requires |s| == 15
  {
    DateTime(100 * Field2(s, 0) + Field2(s, 2), Field2(s, 4), Field2(s, 6),
             Field2(s, 9), Field2(s, 11), Field2(s, 13))
  }

  lemma Pad2Value(n: nat)
    requires n < 100
    ensures Field2(Pad2(n), 0) == n
  {
  }

  /** Different clock readings give different stamps: each stamp reads back as its reading. */
  lemma StampRoundTrip(t: DateTime)
    requires ValidDateTime(t)
    ensures ParseStamp(Stamp(t)) == t
  {
    var s := Stamp(t);
    Pad2Value(t.year / 100);
    Pad2Value(t.year % 100);
    Pad2Value(t.month);
    Pad2Value(t.day);
    Pad2Value(t.hour);
    Pad2Value(t.minute);
    Pad2Value(t.second);
    assert s[0..2] == Pad2(t.year / 100);
    assert s[2..4] == Pad2(t.year % 100);
    assert s[4..6] == Pad2(t.month);
    assert s[6..8] == Pad2(t.day);
    assert s[9..11] == Pad2(t.hour);
    assert s[11..13] == Pad2(t.minute);
    assert s[13..15] == Pad2(t.second);
  }

  /** `timestamp_file(prefix, ext, folder)`: "<folder>/<prefix>_<stamp>.<ext>". */
  function TimestampFile(prefix: string, ext: string, folder: string, t: DateTime): (r: string)
    requires ValidDateTime(t)
    ensures |r| == |folder| + |prefix| + |ext| + 18
    ensures r[..|folder|] == folder && r[|folder|] == '/'
    ensures r[|folder| + 1..|folder| + 1 + |prefix|] == prefix && r[|folder| + 1 + |prefix|] == '_'
    ensures r[|r| - |ext|..] == ext && r[|r| - |ext| - 1] == '.'
    ensures ParseStamp(r[|folder| + |prefix| + 2..|folder| + |prefix| + 17]) == t
  {
    var stamp := Stamp(t);
    var r := folder + "/" + prefix + "_" + stamp + "." + ext;
    assert r[|folder| + |prefix| + 2..|folder| + |prefix| + 17] == stamp;
    assert r[|folder| + 1..|folder| + 1 + |prefix|] == prefix;
    StampRoundTrip(t);
    r
  }

  /** utils.notify: `notify-send <title> <message>`. */
  function NotifyArgv(title: string, message: string): seq<string> {
    ["notify-send", title, message]
  }

  /** `take_screenshot`: grim writes ~/Pictures/Screenshots/screenshot_<stamp>.png, then a notification. */
  function Screenshot(home: string, t: DateTime): seq<Proc>
    requires ValidDateTime(t)
  {
    var out := TimestampFile("screenshot", "png", home + "/Pictures/Screenshots", t);
    [Spawn(["grim", out]), Spawn(NotifyArgv("Screenshot Taken", out))]
  }
}
