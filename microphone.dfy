/**
  scripts/microphone.py: lists the input devices from `pactl list sources`,
  offers them in a rofi menu marked with the current default, asks for
  confirmation and makes the chosen one the default source.
*/
module Microphone {
  import opened Wrappers
  import opened Text
  import opened Proc

  const MicIcon := "\U{F036C}"
  const YesIcon := "\U{F058}"
  const NoIcon := "\U{F530}"

  /** The line that opens the next source's chunk in `pactl list sources`. */
  const SourceHeader := "Source #"
  const NameMarker := "Name:"
  const DescriptionMarker := "Description:"
  const CurrentTag := "  (current)"

  /** A source as `get_sources` reports it: its pactl name and its human-readable description. */
  datatype Source = Source(name: string, desc: string)

  // ===========================================================================
  // Grouping the listing into one chunk per source
  // ===========================================================================

  /** The chunks collected so far, with the one being built closed off when it has lines. */
  function Close(chunks: seq<seq<string>>, current: seq<string>): seq<seq<string>> {
    if |current| > 0 then chunks + [current] else chunks
  }

  /** Every chunk holds at least one line. */
  predicate AllNonEmpty(chunks: seq<seq<string>>) {
    forall k :: 0 <= k < |chunks| ==> |chunks[k]| > 0
  }

  /** Every line stripped, in order. */
  function StripAll(lines: seq<string>): (r: seq<string>)
    ensures |r| == |lines|
  {
    if |lines| == 0 then [] else [Strip(lines[0])] + StripAll(lines[1..])
  }

  lemma {:induction false} StripAllAt(lines: seq<string>, k: nat)
    requires k < |lines|
    ensures StripAll(lines)[k] == Strip(lines[k])
    decreases |lines|
  {
    if k > 0 {
      StripAllAt(lines[1..], k - 1);
    }
  }

  lemma StripAllFrom(lines: seq<string>, i: nat)
    requires i <= |lines|
    ensures StripAll(lines)[i..] == StripAll(lines[i..])
    decreases i
  {
    if i > 0 {
      StripAllFrom(lines[1..], i - 1);
      assert lines[1..][i - 1..] == lines[i..];
    }
  }

  /**
    The first loop of `get_sources` over the remaining `lines`, from the chunks
    `chunks` already closed and the chunk `current` being built: a line that
    starts with "Source #" closes the current chunk (when it has lines) and
    starts a new one; every line is appended stripped. `stripped` holds the
    remaining lines stripped, `StripAll(lines)`, so that the header test sees
    the line as printed and the chunk receives it stripped.
  */
  function Group(lines: seq<string>, stripped: seq<string>, chunks: seq<seq<string>>, current: seq<string>)
    : (r: seq<seq<string>>)
    requires |stripped| == |lines| && AllNonEmpty(chunks)
    ensures AllNonEmpty(r)
    decreases |lines|
  {
    if |lines| == 0 then Close(chunks, current)
    else if StartsWith(lines[0], SourceHeader) then
      Group(lines[1..], stripped[1..], Close(chunks, current), [stripped[0]])
    else
      Group(lines[1..], stripped[1..], chunks, current + [stripped[0]])
  }

  /** The chunks of the stripped `pactl list sources` output. */
  function Chunks(output: string): seq<seq<string>> {
    var lines := SplitLines(output);
    Group(lines, StripAll(lines), [], [])
  }

  function Flatten(chunks: seq<seq<string>>): seq<string> {
    if |chunks| == 0 then [] else Flatten(chunks[..|chunks| - 1]) + chunks[|chunks| - 1]
  }

  lemma FlattenAppend(chunks: seq<seq<string>>, c: seq<string>)
    ensures Flatten(chunks + [c]) == Flatten(chunks) + c
  {
    assert (chunks + [c])[..|chunks|] == chunks;
  }

  lemma FlattenClose(chunks: seq<seq<string>>, current: seq<string>)
    ensures Flatten(Close(chunks, current)) == Flatten(chunks) + current
  {
    FlattenAppend(chunks, current);
    if |current| == 0 {
      assert Flatten(chunks) + current == Flatten(chunks);
    }
  }

  /**
    Grouping loses no line and adds none: read in order, the chunks hold
    exactly the stripped lines.
  */
  lemma {:induction false} GroupKeepsLines(lines: seq<string>, stripped: seq<string>,
                                           chunks: seq<seq<string>>, current: seq<string>)
    requires |stripped| == |lines| && AllNonEmpty(chunks)
    ensures Flatten(Group(lines, stripped, chunks, current)) == Flatten(chunks) + current + stripped
    decreases |lines|
  {
    if |lines| == 0 {
      FlattenClose(chunks, current);
      assert stripped == [];
    } else {
      var s := stripped[0];
      assert stripped == [s] + stripped[1..];
      if StartsWith(lines[0], SourceHeader) {
        GroupKeepsLines(lines[1..], stripped[1..], Close(chunks, current), [s]);
        FlattenClose(chunks, current);
      } else {
        GroupKeepsLines(lines[1..], stripped[1..], chunks, current + [s]);
      }
    }
  }

  /** The chunks of a listing hold its stripped lines, in order, and no chunk is empty. */
  lemma ChunksKeepLines(output: string)
    ensures Flatten(Chunks(output)) == StripAll(SplitLines(output))
    ensures AllNonEmpty(Chunks(output))
  {
    var lines := SplitLines(output);
    GroupKeepsLines(lines, StripAll(lines), [], []);
  }

  predicate NoHeader(lines: seq<string>) {
    forall k :: 0 <= k < |lines| ==> !StartsWith(lines[k], SourceHeader)
  }

  /** Lines without a "Source #" header all go into the chunk being built. */
  lemma {:induction false} GroupNoHeader(lines: seq<string>, stripped: seq<string>,
                                         chunks: seq<seq<string>>, current: seq<string>)
    requires |stripped| == |lines| && AllNonEmpty(chunks) && NoHeader(lines)
    ensures Group(lines, stripped, chunks, current) == Close(chunks, current + stripped)
    decreases |lines|
  {
    if |lines| == 0 {
      assert current + stripped == current;
    } else {
      var tail := lines[1..];
      assert !StartsWith(lines[0], SourceHeader);
      assert NoHeader(tail) by {
        forall k | 0 <= k < |tail|
          ensures !StartsWith(tail[k], SourceHeader)
        {
          assert tail[k] == lines[k + 1];
        }
      }
      GroupNoHeader(tail, stripped[1..], chunks, current + [stripped[0]]);
      assert current + [stripped[0]] + stripped[1..] == current + stripped;
    }
  }

  /**
    A header line with the lines up to the next header makes one chunk, the
    stripped header first: the listing "Source #0 …" "Source #1 …" yields one
    chunk per source.
  */
  lemma SourceChunk(header: string, body: seq<string>, chunks: seq<seq<string>>, current: seq<string>)
    requires AllNonEmpty(chunks) && StartsWith(header, SourceHeader) && NoHeader(body)
    ensures Group([header] + body, StripAll([header] + body), chunks, current)
      == Close(chunks, current) + [StripAll([header] + body)]
  {
    var lines := [header] + body;
    var stripped := StripAll(lines);
    assert lines[1..] == body;
    GroupNoHeader(body, stripped[1..], Close(chunks, current), [stripped[0]]);
    assert [stripped[0]] + stripped[1..] == stripped;
  }

  /** The listing can be cut before any header line and grouped piece by piece. */
  lemma {:induction false} GroupSplitsAtHeader(first: seq<string>, sf: seq<string>, rest: seq<string>, sr: seq<string>,
                                               chunks: seq<seq<string>>, current: seq<string>)
    requires |sf| == |first| && |sr| == |rest| && AllNonEmpty(chunks)
    requires |rest| > 0 && StartsWith(rest[0], SourceHeader)
    ensures Group(first + rest, sf + sr, chunks, current) == Group(rest, sr, Group(first, sf, chunks, current), [])
    decreases |first|
  {
    if |first| == 0 {
      assert first + rest == rest && sf + sr == sr;
      assert Close(Close(chunks, current), []) == Close(chunks, current);
    } else {
      assert (first + rest)[1..] == first[1..] + rest;
      assert (sf + sr)[1..] == sf[1..] + sr && (sf + sr)[0] == sf[0];
      if StartsWith(first[0], SourceHeader) {
        GroupSplitsAtHeader(first[1..], sf[1..], rest, sr, Close(chunks, current), [sf[0]]);
      } else {
        GroupSplitsAtHeader(first[1..], sf[1..], rest, sr, chunks, current + [sf[0]]);
      }
    }
  }

  // ===========================================================================
  // Reading a chunk
  // ===========================================================================

  /**
    The value of the last line of `lines` that holds `marker`: the text after
    the marker's first occurrence in that line, stripped; "" when no line holds
    it. The loop of `get_sources` overwrites its variable at every such line.
  */
  function LastField(lines: seq<string>, marker: string): string
    requires |marker| > 0
    decreases |lines|
  {
    if |lines| == 0 then ""
    else
      var last := lines[|lines| - 1];
      if Contains(last, marker) then Strip(After(last, marker))
      else LastField(lines[..|lines| - 1], marker)
  }

  /** Line `k` is the last one of `lines` that holds `marker`. */
  predicate LastHolding(lines: seq<string>, marker: string, k: int) {
    0 <= k < |lines| && Contains(lines[k], marker)
    && forall j :: k < j < |lines| ==> !Contains(lines[j], marker)
  }

  /** The field is "" when no line holds the marker. */
  lemma {:induction false} LastFieldAbsent(lines: seq<string>, marker: string)
    requires |marker| > 0
    requires forall k :: 0 <= k < |lines| ==> !Contains(lines[k], marker)
    ensures LastField(lines, marker) == ""
    decreases |lines|
  {
    if |lines| > 0 {
      var init := lines[..|lines| - 1];
      assert forall k :: 0 <= k < |init| ==> init[k] == lines[k];
      LastFieldAbsent(init, marker);
    }
  }

  lemma LastFieldSkip(lines: seq<string>, marker: string)
    requires |marker| > 0 && |lines| > 0 && !Contains(lines[|lines| - 1], marker)
    ensures LastField(lines, marker) == LastField(lines[..|lines| - 1], marker)
  {
  }

  /** The field is read from the last line that holds the marker; earlier ones are overwritten. */
  lemma {:induction false} LastFieldIsLast(lines: seq<string>, marker: string, k: nat)
    requires |marker| > 0 && LastHolding(lines, marker, k)
    ensures LastField(lines, marker) == Strip(After(lines[k], marker))
    decreases |lines|
  {
    if k < |lines| - 1 {
      LastHoldingInit(lines, marker, k);
      LastFieldSkip(lines, marker);
      LastFieldIsLast(lines[..|lines| - 1], marker, k);
    }
  }

  lemma LastHoldingInit(lines: seq<string>, marker: string, k: nat)
    requires LastHolding(lines, marker, k) && k < |lines| - 1
    ensures !Contains(lines[|lines| - 1], marker)
    ensures LastHolding(lines[..|lines| - 1], marker, k)
    ensures lines[..|lines| - 1][k] == lines[k]
  {
    var init := lines[..|lines| - 1];
    forall j | k < j < |init|
      ensures !Contains(init[j], marker)
    {
      assert init[j] == lines[j];
    }
  }

  /** What one chunk says about its source. */
  function SourceOf(chunk: seq<string>): Source {
    Source(LastField(chunk, NameMarker), LastField(chunk, DescriptionMarker))
  }

  /** The sources of the chunks, in order, leaving out the chunks with no name. */
  function SourcesFrom(chunks: seq<seq<string>>): (r: seq<Source>)
    ensures |r| <= |chunks|
    ensures forall k :: 0 <= k < |r| ==> r[k].name != ""
  {
    if |chunks| == 0 then []
    else
      var prev := SourcesFrom(chunks[..|chunks| - 1]);
      var s := SourceOf(chunks[|chunks| - 1]);
      if s.name != "" then prev + [s] else prev
  }

  /** Every source listed comes from one chunk of the listing. */
  lemma {:induction false} SourcesFromChunks(chunks: seq<seq<string>>, k: nat)
    requires k < |SourcesFrom(chunks)|
    ensures exists c :: 0 <= c < |chunks| && SourcesFrom(chunks)[k] == SourceOf(chunks[c])
    decreases |chunks|
  {
    var init := chunks[..|chunks| - 1];
    var s := SourceOf(chunks[|chunks| - 1]);
    if s.name != "" && k == |SourcesFrom(init)| {
      assert SourcesFrom(chunks)[k] == SourceOf(chunks[|chunks| - 1]);
    } else {
      SourcesFromChunks(init, k);
      var c :| 0 <= c < |init| && SourcesFrom(init)[k] == SourceOf(init[c]);
      assert init[c] == chunks[c];
    }
  }

  lemma SourcesFromSnoc(chunks: seq<seq<string>>, c: seq<string>)
    ensures SourcesFrom(chunks + [c]) ==
      if SourceOf(c).name != "" then SourcesFrom(chunks) + [SourceOf(c)] else SourcesFrom(chunks)
  {
    assert (chunks + [c])[..|chunks|] == chunks;
  }

  /** The sources of a leading run of chunks are a prefix of the sources of all of them. */
  lemma {:induction false} SourcesFromPrefix(chunks: seq<seq<string>>, c: nat)
    requires c <= |chunks|
    ensures var p := SourcesFrom(chunks[..c]);
      |p| <= |SourcesFrom(chunks)| && SourcesFrom(chunks)[..|p|] == p
    decreases |chunks|
  {
    if c < |chunks| {
      var init := chunks[..|chunks| - 1];
      SourcesFromPrefix(init, c);
      assert init[..c] == chunks[..c];
    } else {
      assert chunks[..c] == chunks;
    }
  }

  /**
    Every chunk that names a source is listed, in the order of the chunks:
    the source of chunk `c` comes right after the sources of the chunks
    before it.
  */
  lemma SourcesFromKeeps(chunks: seq<seq<string>>, c: nat)
    requires c < |chunks| && SourceOf(chunks[c]).name != ""
    ensures var m := |SourcesFrom(chunks[..c])|;
      m < |SourcesFrom(chunks)| && SourcesFrom(chunks)[m] == SourceOf(chunks[c])
  {
    assert chunks[..c + 1] == chunks[..c] + [chunks[c]];
    SourcesFromSnoc(chunks[..c], chunks[c]);
    SourcesFromPrefix(chunks, c + 1);
  }

  /** `get_sources` on the stripped output of `pactl list sources`. */
  function SourcesOf(output: string): seq<Source> {
    SourcesFrom(Chunks(output))
  }

  lemma GroupUnfold(lines: seq<string>, i: nat, chunks: seq<seq<string>>, current: seq<string>)
    requires i < |lines| && AllNonEmpty(chunks)
    ensures var stripped := StripAll(lines[i..]);
      var h := StartsWith(lines[i], SourceHeader);
      var chunks' := if h then Close(chunks, current) else chunks;
      var current' := if h then [Strip(lines[i])] else current + [Strip(lines[i])];
      AllNonEmpty(chunks')
      && Group(lines[i..], stripped, chunks, current) == Group(lines[i + 1..], StripAll(lines[i + 1..]), chunks', current')
  {
    var rest := lines[i..];
    assert rest[0] == lines[i] && rest[1..] == lines[i + 1..];
    StripAllAt(rest, 0);
  }

  /** The first loop of `get_sources`: the lines gathered into chunks. */
  method GroupLines(lines: seq<string>) returns (sources: seq<seq<string>>)
    ensures sources == Group(lines, StripAll(lines), [], [])
  {
    sources := [];
    var current: seq<string> := [];
    var i := 0;
    assert lines[0..] == lines;
    while i < |lines|
      invariant i <= |lines|
      invariant AllNonEmpty(sources)
      invariant Group(lines[i..], StripAll(lines[i..]), sources, current) == Group(lines, StripAll(lines), [], [])
    {
      GroupUnfold(lines, i, sources, current);
      if StartsWith(lines[i], SourceHeader) {
        if |current| > 0 {
          sources := sources + [current];
        }
        current := [];
        assert current + [Strip(lines[i])] == [Strip(lines[i])];
      }
      current := current + [Strip(lines[i])];
      i := i + 1;
    }
    assert |lines[i..]| == 0;
    if |current| > 0 {
      sources := sources + [current];
    }
  }

  /** The innermost loop of `get_sources`: the name and description a chunk ends up with. */
  method ReadChunk(chunk: seq<string>) returns (s: Source)
    ensures s == SourceOf(chunk)
  {
    var name := "";
    var desc := "";
    var j := 0;
    while j < |chunk|
      invariant j <= |chunk|
      invariant name == LastField(chunk[..j], NameMarker)
      invariant desc == LastField(chunk[..j], DescriptionMarker)
    {
      assert chunk[..j + 1][..j] == chunk[..j] && chunk[..j + 1][j] == chunk[j];
      if Contains(chunk[j], NameMarker) {
        name := Strip(After(chunk[j], NameMarker));
      }
      if Contains(chunk[j], DescriptionMarker) {
        desc := Strip(After(chunk[j], DescriptionMarker));
      }
      j := j + 1;
    }
    assert chunk[..j] == chunk;
    s := Source(name, desc);
  }

  /** `get_sources`, from the stripped output of `pactl list sources`. */
  method GetSources(output: string) returns (result: seq<Source>)
    ensures result == SourcesOf(output)
  {
    var sources := GroupLines(SplitLines(output));
    result := ReadSources(sources);
  }

  /** The second loop of `get_sources`: the named sources, chunk by chunk. */
  method ReadSources(sources: seq<seq<string>>) returns (result: seq<Source>)
    ensures result == SourcesFrom(sources)
  {
    result := [];
    var b := 0;
    while b < |sources|
      invariant b <= |sources|
      invariant result == SourcesFrom(sources[..b])
    {
      var s := ReadChunk(sources[b]);
      assert sources[..b + 1] == sources[..b] + [sources[b]];
      SourcesFromSnoc(sources[..b], sources[b]);
      if s.name != "" {
        result := result + [s];
      }
      b := b + 1;
    }
    assert sources[..b] == sources;
  }

  // ===========================================================================
  // The menu
  // ===========================================================================

  /** The menu line of a source: icon and description, tagged when it is the default. */
  function Label(s: Source, default: string): string {
    MicIcon + " " + s.desc + (if s.name == default then CurrentTag else "")
  }

  function Labels(sources: seq<Source>, default: string): (r: seq<string>)
    ensures |r| == |sources|
    ensures forall k :: 0 <= k < |sources| ==> r[k] == Label(sources[k], default)
  {
    seq(|sources|, k requires 0 <= k < |sources| => Label(sources[k], default))
  }

  lemma LabelsSnoc(sources: seq<Source>, s: Source, default: string)
    ensures Labels(sources + [s], default) == Labels(sources, default) + [Label(s, default)]
    ensures MappingOf(sources + [s], default) == MappingOf(sources, default)[Label(s, default) := s.name]
  {
    assert (sources + [s])[..|sources|] == sources;
  }

  /** The label-to-name dictionary `mapping`: a later source with the same label replaces an earlier one. */
  function MappingOf(sources: seq<Source>, default: string): map<string, string> {
    if |sources| == 0 then map[]
    else
      var last := sources[|sources| - 1];
      MappingOf(sources[..|sources| - 1], default)[Label(last, default) := last.name]
  }

  /**
    The dictionary holds exactly the labels shown; each maps to the name of the
    last source carrying that label.
  */
  lemma {:induction false} MappingLast(sources: seq<Source>, default: string, line: string)
    ensures line in MappingOf(sources, default) <==> line in Labels(sources, default)
    ensures line in MappingOf(sources, default) ==> exists k :: (0 <= k < |sources|
      && Label(sources[k], default) == line && MappingOf(sources, default)[line] == sources[k].name
      && forall j :: k < j < |sources| ==> Label(sources[j], default) != line)
    decreases |sources|
  {
    if |sources| > 0 {
      var init := sources[..|sources| - 1];
      var last := sources[|sources| - 1];
      MappingLast(init, default, line);
      assert Labels(sources, default) == Labels(init, default) + [Label(last, default)];
      if Label(last, default) != line && line in MappingOf(sources, default) {
        var k :| 0 <= k < |init| && Label(init[k], default) == line
          && MappingOf(init, default)[line] == init[k].name
          && forall j :: k < j < |init| ==> Label(init[j], default) != line;
        assert init[k] == sources[k];
        assert forall j :: k < j < |sources| - 1 ==> init[j] == sources[j];
      }
    }
  }

  /** `mapping.get(result, "")` for the stripped reply of the menu. */
  function Selected(sources: seq<Source>, default: string, reply: string): string {
    var m := MappingOf(sources, default);
    var choice := Strip(reply);
    if choice in m then m[choice] else ""
  }

  /** When no two sources share a label, picking the line of source `k` selects source `k`. */
  lemma SelectLine(sources: seq<Source>, default: string, k: nat)
    requires k < |sources|
    requires forall i, j :: 0 <= i < j < |sources| ==> Label(sources[i], default) != Label(sources[j], default)
    requires Strip(Label(sources[k], default)) == Label(sources[k], default)
    ensures Selected(sources, default, Label(sources[k], default)) == sources[k].name
  {
    var line := Label(sources[k], default);
    MappingLast(sources, default, line);
    assert line in Labels(sources, default);
    var k' :| 0 <= k' < |sources| && Label(sources[k'], default) == line
      && MappingOf(sources, default)[line] == sources[k'].name
      && forall j :: k' < j < |sources| ==> Label(sources[j], default) != line;
  }

  /** A reply that is no menu line selects nothing. */
  lemma SelectOther(sources: seq<Source>, default: string, reply: string)
    requires Strip(reply) !in Labels(sources, default)
    ensures Selected(sources, default, reply) == ""
  {
    MappingLast(sources, default, Strip(reply));
  }

  /**
    A cancelled menu (an empty or blank reply) selects nothing: every menu
    line starts with the microphone icon, so none strips to "".
  */
  lemma BlankReplySelectsNothing(sources: seq<Source>, default: string, reply: string)
    requires Blank(reply)
    ensures Selected(sources, default, reply) == ""
  {
    TrimLeftEmpty(reply);
    assert Strip(reply) == "";
    var labels := Labels(sources, default);
    forall k | 0 <= k < |labels|
      ensures labels[k] != ""
    {
      assert |labels[k]| >= |MicIcon + " "|;
    }
    SelectOther(sources, default, reply);
  }

  /**
    A source other than the default with no "Description:" line cannot be
    picked: its menu line is the icon and a space, which strips to the bare
    icon, and that is no key of the dictionary.
  */
  lemma UndescribedUnselectable(sources: seq<Source>, default: string, k: nat)
    requires k < |sources| && sources[k].desc == "" && sources[k].name != default
    ensures Label(sources[k], default) == MicIcon + " "
    ensures Selected(sources, default, Label(sources[k], default)) == ""
  {
    var line := Label(sources[k], default);
    assert TrimLeft(line) == line;
    assert line[..|line| - 1] == MicIcon && IsSpace(line[|line| - 1]);
    assert TrimRight(line) == TrimRight(MicIcon);
    assert TrimRight(MicIcon) == MicIcon;
    assert Strip(line) == MicIcon;
    var labels := Labels(sources, default);
    forall j | 0 <= j < |labels|
      ensures labels[j] != MicIcon
    {
      assert |labels[j]| >= |MicIcon + " "|;
    }
    SelectOther(sources, default, line);
  }

  /** The rofi call of `mic_menu`, given XDG_CONFIG_HOME ("" when unset). */
  function MenuCall(config: string, options: seq<string>, default: string): Proc {
    Pipe(["rofi", "-theme", config + "/rofi/common.rasi",
          "-theme-str", "window {width: 800px;} listview {columns: 1; lines: " + IntToString(|options|) + ";}",
          "-dmenu", "-p", "Select Microphone", "-mesg", "Current: " + default],
         Join(options, "\n"))
  }

  /** The loop of `mic_menu`: the menu lines and the label-to-name dictionary. */
  method BuildMenu(sources: seq<Source>, default: string) returns (options: seq<string>, mapping: map<string, string>)
    ensures options == Labels(sources, default)
    ensures mapping == MappingOf(sources, default)
  {
    options := [];
    mapping := map[];
    var i := 0;
    while i < |sources|
      invariant i <= |sources|
      invariant options == Labels(sources[..i], default)
      invariant mapping == MappingOf(sources[..i], default)
    {
      var line := MicIcon + " " + sources[i].desc;
      if sources[i].name == default {
        line := line + CurrentTag;
      } else {
        assert line + "" == line;
      }
      assert line == Label(sources[i], default);
      assert sources[..i + 1] == sources[..i] + [sources[i]];
      LabelsSnoc(sources[..i], sources[i], default);
      options := options + [line];
      mapping := mapping[line := sources[i].name];
      i := i + 1;
    }
    assert sources[..i] == sources;
  }

  /**
    `mic_menu`, from the output of `pactl list sources`, of `pactl get-default-source`
    and of the menu: the rofi call it makes and the source name it returns.
  */
  method MicMenu(config: string, sourcesOut: string, defaultOut: string, reply: string)
    returns (call: Proc, selected: string)
    ensures var default := Strip(defaultOut);
      var sources := SourcesOf(Strip(sourcesOut));
      call == MenuCall(config, Labels(sources, default), default)
      && selected == Selected(sources, default, reply)
  {
    var sources := GetSources(Strip(sourcesOut));
    var default := Strip(defaultOut);
    var options, mapping := BuildMenu(sources, default);
    call := MenuCall(config, options, default);
    var result := Strip(reply);
    selected := if result in mapping then mapping[result] else "";
  }

  // ===========================================================================
  // Confirmation and the script
  // ===========================================================================

  function ConfirmCall(config: string): Proc {
    Pipe(["rofi", "-theme", config + "/rofi/common.rasi",
          "-theme-str", "listview {columns: 2; lines: 1;}",
          "-dmenu", "-p", "Confirm", "-mesg", "Set this mic as default?"],
         Join([YesIcon, NoIcon], "\n"))
  }

  /** `confirm()`: only the yes icon, surrounding blanks aside, confirms. */
  function Confirmed(reply: string): bool {
    Strip(reply) == YesIcon
  }

  /** `notify(title, msg)` of this script. */
  function Notify(title: string, msg: string): Proc {
    Spawn(["notify-send", title, msg])
  }

  /** What `main()` runs after the menu returned `selected`. */
  function AfterMenu(config: string, menu: Proc, selected: string, confirmReply: string): Run {
    if selected == "" then Done([menu])
    else if !Confirmed(confirmReply) then Done([menu, ConfirmCall(config)])
    else Done([menu, ConfirmCall(config), Spawn(["pactl", "set-default-source", selected]),
               Notify("Microphone Changed", "Now using:\n" + selected)])
  }

  /**
    `main()`: the menu; when a source was selected, the confirmation; when
    confirmed, the new default and a notification naming it.
  */
  function MicMain(config: string, sourcesOut: string, defaultOut: string,
                   menuReply: string, confirmReply: string): Run
  {
    var default := Strip(defaultOut);
    var sources := SourcesOf(Strip(sourcesOut));
    AfterMenu(config, MenuCall(config, Labels(sources, default), default),
              Selected(sources, default, menuReply), confirmReply)
  }

  lemma AfterMenuChanges(config: string, menu: Proc, selected: string, confirmReply: string, name: string)
    requires |menu.argv| > 0 && menu.argv[0] == "rofi"
    ensures var r := AfterMenu(config, menu, selected, confirmReply);
      r.raised.None?
      && (Launches(r, ["pactl", "set-default-source", name]) <==>
           selected != "" && name == selected && Confirmed(confirmReply))
      && (selected == "" ==> r.launched == [menu])
  {
    var r := AfterMenu(config, menu, selected, confirmReply);
    if selected != "" && Confirmed(confirmReply) {
      assert r.launched[2].argv == ["pactl", "set-default-source", selected];
    }
  }

  /**
    The default source changes only to the selected source, and exactly when a
    source was selected and the change was confirmed; nothing runs after a
    cancelled menu but the menu.
  */
  lemma MicMainChangesOnlyWhenConfirmed(config: string, sourcesOut: string, defaultOut: string,
                                        menuReply: string, confirmReply: string, name: string)
    ensures var r := MicMain(config, sourcesOut, defaultOut, menuReply, confirmReply);
      var selected := Selected(SourcesOf(Strip(sourcesOut)), Strip(defaultOut), menuReply);
      r.raised.None?
      && (Launches(r, ["pactl", "set-default-source", name]) <==>
           selected != "" && name == selected && Confirmed(confirmReply))
      && (selected == "" ==> |r.launched| == 1)
  {
    var default := Strip(defaultOut);
    var sources := SourcesOf(Strip(sourcesOut));
    AfterMenuChanges(config, MenuCall(config, Labels(sources, default), default),
                     Selected(sources, default, menuReply), confirmReply, name);
  }

  /** A source made default is one the listing named. */
  lemma SelectedIsListed(sources: seq<Source>, default: string, reply: string)
    requires Selected(sources, default, reply) != ""
    ensures exists k :: 0 <= k < |sources| && sources[k].name == Selected(sources, default, reply)
  {
    MappingLast(sources, default, Strip(reply));
  }
}
