/**
  The boundary with the external tools. A script's run is the list of commands
  it launches, in order, each as its argument vector (with the text it pipes to
  the command's standard input, for the pickers), and the exception that ended
  it early, if any. Read-only queries (`pactl get-*`, `pactl list`, `pgrep`,
  `ps`, `brightnessctl g`/`m`, `asusctl profile -p`, `uptime`) are not listed:
  their captured output is a parameter of the function that models the script.
*/
module Proc {
  import opened Wrappers

  datatype Proc =
    | Spawn(argv: seq<string>)               // a command launched without input
    | Pipe(argv: seq<string>, input: string) // a picker (rofi) fed its options on stdin

  datatype Run = Run(launched: seq<Proc>, raised: Option<PyError>)

  /** A run that ended normally after launching `launched`. */
  function Done(launched: seq<Proc>): Run {
    Run(launched, None)
  }

  /** The run launched a command with exactly this argument vector. */
  predicate Launches(r: Run, argv: seq<string>) {
    exists k :: 0 <= k < |r.launched| && r.launched[k].argv == argv
  }

  /** The run launched some command whose program name is `prog`. */
  predicate LaunchesProgram(r: Run, prog: string) {
    exists k :: 0 <= k < |r.launched| && |r.launched[k].argv| > 0 && r.launched[k].argv[0] == prog
  }
}
