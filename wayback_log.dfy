/**
 * The logging facility shared by the wayback executables: a small piece of
 * module-global configuration (maximum verbosity, context string, colour
 * flag, sink) and the default sink's decision of whether and how a message
 * becomes a line on standard error.
 *
 * Levels are the enumerators of `enum wayback_log_level`; a caller may pass
 * any unsigned value, so a level is a `nat` and the named ones are constants.
 * The formatted message body (the `vfprintf` of the caller's template) is an
 * opaque string.
 */
module WaybackLog {

  import opened Wrappers

  const LOG_ERROR: nat := 0
  const LOG_WARN: nat := 1
  const LOG_INFO: nat := 2
  const LOG_DEBUG: nat := 3
  const LOG_LAST: nat := 4

  const ESC: char := '\U{1B}'

  /** The enumerator spellings of the header, indexed by level. */
  const ENUMERATORS: seq<string> := ["LOG_ERROR", "LOG_WARN", "LOG_INFO", "LOG_DEBUG"]

  /** `log_prefix` */
  const PREFIXES: seq<string> := ["[ERROR]", "[WARN]", "[INFO]", "[DEBUG]"]

  /** `log_colors`, as written: the DEBUG entry carries a trailing ']'. */
  const COLORS: seq<string> :=
    [[ESC] + "[1;31m", [ESC] + "[1;33m", [ESC] + "[1;37m", [ESC] + "[1;39m]"]

  /** The sequence that ends a coloured line. */
  const RESET: string := [ESC] + "[0m"

  /** Select Graphic Rendition "bold, foreground colour 3<d>". */
  function BoldForeground(d: char): string {
    [ESC] + "[1;3" + [d] + "m"
  }

  /**
   * `verbosity_lvl`: the index used for both tables. Levels at or beyond
   * `LOG_LAST` fall back to the last real level, so both lookups stay in bounds.
   */
  function TableIndex(verbosity: nat): (l: nat)
    ensures l < LOG_LAST && l < |PREFIXES| && l < |COLORS|
    ensures verbosity < LOG_LAST ==> l == verbosity
    ensures verbosity >= LOG_LAST ==> l == LOG_DEBUG
  {
    if verbosity < LOG_LAST then verbosity else LOG_LAST - 1
  }

  /** Every prefix is the level's enumerator name without `LOG_`, in brackets. */
  lemma PrefixIsBracketedName(l: nat)
    requires l < LOG_LAST
    ensures PREFIXES[l] == "[" + ENUMERATORS[l][4..] + "]"
  {
  }

  /**
   * The colour codes are bold red, yellow, white and default foreground;
   * the DEBUG one is followed by a literal ']' that ends up on screen.
   */
  lemma ColorCodes()
    ensures COLORS[LOG_ERROR] == BoldForeground('1')
    ensures COLORS[LOG_WARN] == BoldForeground('3')
    ensures COLORS[LOG_INFO] == BoldForeground('7')
    ensures COLORS[LOG_DEBUG] == BoldForeground('9') + "]"
  {
  }

  /** `"<prefix> (<context>): <message>"` */
  function Body(l: nat, context: string, msg: string): (b: string)
    requires l < LOG_LAST
    ensures PREFIXES[l] <= b
    ensures |b| == |PREFIXES[l]| + |context| + |msg| + 5 && b[|b| - |msg|..] == msg
  {
    PREFIXES[l] + " (" + context + "): " + msg
  }

  /** The line layout of the default sink for table index `l`. */
  function Line(useColor: bool, l: nat, context: string, msg: string): (line: string)
    requires l < LOG_LAST
    ensures |line| >= 1 && line[|line| - 1] == '\n'
    ensures |line| == |Body(l, context, msg)| + 1 + (if useColor then |COLORS[l]| + |RESET| else 0)
  {
    (if useColor then COLORS[l] else "") + Body(l, context, msg) + (if useColor then RESET else "") + "\n"
  }

  /**
   * Colour code and reset come as a pair: the coloured line is the plain line
   * with the colour in front and the reset just before the newline.
   */
  lemma {:induction false} ColorWrapsPlainLine(l: nat, context: string, msg: string)
    requires l < LOG_LAST
    ensures var plain := Line(false, l, context, msg);
            |plain| >= 1 && plain[|plain| - 1] == '\n' &&
            Line(true, l, context, msg) == COLORS[l] + plain[..|plain| - 1] + RESET + "\n"
  {
    var body := Body(l, context, msg);
    assert Line(false, l, context, msg) == body + "\n";
    assert (body + "\n")[..|body|] == body;
  }

  /**
   * A plain line starts with the prefix, and the context and the message can
   * be cut back out of it at fixed offsets.
   */
  lemma {:induction false} PlainLineFields(l: nat, context: string, msg: string)
    requires l < LOG_LAST
    ensures var line := Line(false, l, context, msg);
            var p := |PREFIXES[l]|;
            |line| == p + |context| + |msg| + 6 &&
            line[..p] == PREFIXES[l] &&
            line[p + 2 .. p + 2 + |context|] == context &&
            line[p + |context| + 5 .. |line| - 1] == msg &&
            line[|line| - 1] == '\n'
  {
    var p := |PREFIXES[l]|;
    var line := Line(false, l, context, msg);
    assert line == PREFIXES[l] + " (" + context + "): " + msg + "\n";
    assert line[..p] == PREFIXES[l];
    assert line[p + 2 .. p + 2 + |context|] == context;
    assert line[p + |context| + 5 .. |line| - 1] == msg;
  }

  /** A logging sink: the built-in `default_log_func` or a caller-supplied function. */
  datatype Sink = DefaultSink | CustomSink(id: nat)

  /** What a log call amounts to: the default sink's line (if any), or a hand-off to a custom sink. */
  datatype Delivery =
    | Written(line: Option<string>)
    | Forwarded(sink: nat, verbosity: nat, msg: string)

  /** The module-global logging configuration. */
  class Logger {
    var maxVerbosity: nat
    var context: string
    var useColor: bool
    var sink: Sink

    /** The static initialisers. */
    constructor ()
      ensures maxVerbosity == LOG_INFO && context == "wayback"
      ensures useColor && sink == DefaultSink
    {
      maxVerbosity := LOG_INFO;
      context := "wayback";
      useColor := true;
      sink := DefaultSink;
    }

    /**
     * `wayback_log_init`. The environment value `NO_COLOR` and whether
     * standard error is a terminal are inputs.
     */
    method Init(ctx: Option<string>, maxVerbosity: nat, logFunction: Option<Sink>,
                noColor: Option<string>, stderrIsTty: bool)
      modifies this
      ensures this.maxVerbosity == maxVerbosity
      ensures context == if ctx.Some? then ctx.value else old(context)
      ensures sink == if logFunction.Some? then logFunction.value else old(sink)
      ensures useColor <==> old(useColor) && !ColorSuppressed(noColor, stderrIsTty)
      ensures useColor ==> old(useColor)
    {
      if ctx.Some? {
        context := ctx.value;
      }
      this.maxVerbosity := maxVerbosity;
      if logFunction.Some? {
        sink := logFunction.value;
      }
      if (noColor.Some? && |noColor.value| > 0) || !stderrIsTty {
        useColor := false;
      }
    }

    /** `wayback_log_verbosity` */
    method SetVerbosity(maxVerbosity: nat)
      modifies this`maxVerbosity
      ensures this.maxVerbosity == maxVerbosity
    {
      this.maxVerbosity := maxVerbosity;
    }

    /**
     * `default_log_func`: nothing for a level above the maximum; otherwise the
     * line for the clamped level.
     */
    function DefaultLogFunc(verbosity: nat, msg: string): (r: Option<string>)
      reads this
      ensures r.None? <==> verbosity > maxVerbosity
      ensures r.Some? ==> r.value == Line(useColor, TableIndex(verbosity), context, msg)
    {
      if verbosity > maxVerbosity then None
      else Some(Line(useColor, TableIndex(verbosity), context, msg))
    }

    /** `wayback_log` and `wayback_vlog`: hand the level and message to the current sink. */
    method Log(verbosity: nat, msg: string) returns (d: Delivery)
      ensures d.Forwarded? <==> sink.CustomSink?
      ensures d.Forwarded? ==> d == Forwarded(sink.id, verbosity, msg)
      ensures d.Written? ==> d.line == DefaultLogFunc(verbosity, msg)
    {
      if sink.CustomSink? {
        d := Forwarded(sink.id, verbosity, msg);
      } else {
        d := Written(DefaultLogFunc(verbosity, msg));
      }
    }
  }

  /** `NO_COLOR` set to a non-empty value, or standard error not a terminal. */
  predicate ColorSuppressed(noColor: Option<string>, stderrIsTty: bool): (b: bool)
    ensures !stderrIsTty ==> b
    ensures stderrIsTty && (noColor.None? || noColor == Some("")) ==> !b
  {
    (noColor.Some? && |noColor.value| > 0) || !stderrIsTty
  }

  /** If a level is written, every more severe (numerically smaller) level is written too. */
  lemma MoreSevereAlsoWritten(lg: Logger, u: nat, v: nat, msg: string, msg': string)
    requires u <= v && lg.DefaultLogFunc(v, msg).Some?
    ensures lg.DefaultLogFunc(u, msg').Some?
  {
  }

  /** An out-of-range level can only be written when the maximum is itself out of range. */
  lemma OutOfRangeNeedsOutOfRangeMax(lg: Logger, v: nat, msg: string)
    requires v >= LOG_LAST && lg.DefaultLogFunc(v, msg).Some?
    ensures lg.maxVerbosity >= LOG_LAST
    ensures lg.DefaultLogFunc(v, msg) == lg.DefaultLogFunc(LOG_DEBUG, msg)
  {
  }

}
