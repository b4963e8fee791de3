/**
 * Command-line classification of aws-checker: after the standard flag package has
 * parsed the arguments, decide whether to run the checker (with an empty option list)
 * or to exit with a status code, and what is printed on the way.
 */
module Cli {
  import opened Wrappers
  import Checker
  import GoText

  const CommandName := "aws-checker"
  const VersionCommand := "version"

  const TooManyArguments := "too many arguments\n"

  /** The hint printed after every usage complaint. */
  const HelpHint := "Run '" + CommandName + " -help' for usage.\n"

  /** The usage text installed on the flag set. */
  const Usage := CommandName + " is a toolkit for checking availability of AWS services.\n" + HelpHint

  /**
   * What the flag package's `Parse` reports: success with the positional arguments
   * left over, or an error, which is either the help request or another message.
   */
  datatype FlagParse = Parsed(args: seq<string>) | ParseFailed(help: bool, message: string)

  /**
   * The result of `parseFlags`: the options to run with (nil when None), the exit code
   * (nil when None), and the text written to the flag set's output.
   */
  datatype Classification = Classification(options: Option<seq<Checker.CheckerOption>>,
                                           code: Option<int>, output: string)

  /** Go's `%q` for a string without characters that need escaping. */
  function Quote(s: string): string
  {
    "\"" + s + "\""
  }

  /**
   * `parseFlags`: no positional argument runs the checker; the single argument
   * `version` prints the version and exits 0; `-help` exits 0; any other argument
   * list or parse error exits 2. Exactly one of options and code is present.
   */
  function ParseFlags(p: FlagParse, version: string): (r: Classification)
    ensures r.options.Some? != r.code.Some?
    ensures r.options.Some? <==> p == Parsed([])
    ensures r.options.Some? ==> r.options.value == []
    ensures r.code == Some(0) <==> p == Parsed([VersionCommand]) || (p.ParseFailed? && p.help)
    ensures r.code == Some(2) <==>
      (p.ParseFailed? && !p.help) || (p.Parsed? && p.args != [] && p.args != [VersionCommand])
    ensures p == Parsed([VersionCommand]) ==> r.output == CommandName + " " + version
    ensures p.Parsed? && |p.args| > 1 ==> GoText.HasPrefix(r.output, TooManyArguments)
  {
    match p
    case ParseFailed(help, message) =>
      // The flag package prints its message (not for -help) and then the usage.
      var printed := (if help then "" else message + "\n") + Usage;
      Classification(None, Some(if help then 0 else 2), printed)
    case Parsed(args) =>
      if |args| == 0 then
        Classification(Some([]), None, "")
      else if |args| == 1 then
        if args[0] == VersionCommand then
          Classification(None, Some(0), CommandName + " " + version)
        else
          Classification(None, Some(2),
            "unknown command " + Quote(args[0]) + " for " + Quote(CommandName) + "\n"
            + HelpHint)
      else
        Classification(None, Some(2),
          TooManyArguments + HelpHint)
  }
}
