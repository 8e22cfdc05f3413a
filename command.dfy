/**
 * The tshark command line built from the capture configuration
 * (`TrafficCapture.build_tshark_command`), and its inverse: reading the
 * configuration back from a command line.
 */
module Command {
  import opened Wrappers
  import opened Strings

  /**
   * The configuration a capture is built from. `duration` and `packetCount`
   * are Python's `None` or an `int` as argparse produced it; the output path
   * plays no part in the command.
   */
  datatype Config = Config(interface: string, duration: Option<int>, packetCount: Option<int>)

  /** Python truthiness of an optional integer: set and non-zero. */
  predicate Truthy(o: Option<int>) {
    o.Some? && o.value != 0
  }

  /** The packet fields tshark is asked to print, in column order. */
  const ExtractedFields: seq<string> :=
    ["frame.time", "ip.src", "ip.dst", "tcp.srcport", "tcp.dstport",
     "udp.srcport", "udp.dstport", "_ws.col.Protocol", "frame.len"]

  /** The `-E` output options: header row, `|` separator, double quotes, first occurrence only. */
  const OutputOptions: seq<string> := ["header=y", "separator=|", "quote=d", "occurrence=f"]

  /** The fixed part of every command; only the interface varies. */
  function BaseArgs(interface: string): (args: seq<string>)
    ensures |args| == 31 && args[2] == interface
  {
    ["tshark",
     "-i", interface,
     "-T", "fields",
     "-e", "frame.time",
     "-e", "ip.src",
     "-e", "ip.dst",
     "-e", "tcp.srcport",
     "-e", "tcp.dstport",
     "-e", "udp.srcport",
     "-e", "udp.dstport",
     "-e", "_ws.col.Protocol",
     "-e", "frame.len",
     "-E", "header=y",
     "-E", "separator=|",
     "-E", "quote=d",
     "-E", "occurrence=f"]
  }

  /** The command starts by capturing on the interface and printing fields. */
  lemma BaseArgsPrefix(interface: string)
    ensures BaseArgs(interface)[..5] == ["tshark", "-i", interface, "-T", "fields"]
  {
  }

  /** Then one `-e` per extracted field, in column order. */
  lemma BaseArgsFields(interface: string)
    ensures forall k :: 0 <= k < |ExtractedFields| ==>
              BaseArgs(interface)[5 + 2 * k] == "-e" && BaseArgs(interface)[6 + 2 * k] == ExtractedFields[k]
  {
  }

  /** Then one `-E` per output option, which closes the fixed part. */
  lemma BaseArgsOptions(interface: string)
    ensures forall k :: 0 <= k < |OutputOptions| ==>
              BaseArgs(interface)[23 + 2 * k] == "-E" && BaseArgs(interface)[24 + 2 * k] == OutputOptions[k]
  {
  }

  /** `f'duration:{d}'`, the argument of `-a`. */
  function DurationArg(d: int): string {
    "duration:" + IntString(d)
  }

  /** The argument list handed to tshark for a configuration. */
  function BuildCommand(cfg: Config): seq<string>
  {
    var cmd := BaseArgs(cfg.interface);
    var cmd := if Truthy(cfg.duration) then cmd + ["-a", DurationArg(cfg.duration.value)] else cmd;
    if Truthy(cfg.packetCount) then cmd + ["-c", IntString(cfg.packetCount.value)] else cmd
  }

  /**
   * The shape of every command: the 31 fixed arguments, then the duration pair
   * exactly when the duration is truthy, then the count pair exactly when the
   * packet count is truthy.
   */
  lemma CommandShape(cfg: Config)
    ensures var cmd := BuildCommand(cfg);
      && |cmd| == 31 + (if Truthy(cfg.duration) then 2 else 0) + (if Truthy(cfg.packetCount) then 2 else 0)
      && cmd[..31] == BaseArgs(cfg.interface)
      && (Truthy(cfg.duration) <==> |cmd| > 31 && cmd[31] == "-a")
      && (Truthy(cfg.duration) ==> cmd[32] == DurationArg(cfg.duration.value))
      && (Truthy(cfg.packetCount) <==> |cmd| > 31 && cmd[|cmd| - 2] == "-c")
      && (Truthy(cfg.packetCount) ==> cmd[|cmd| - 1] == IntString(cfg.packetCount.value))
  {
  }

  /** The configuration with falsy limits replaced by `None`: what the command can tell apart. */
  function Normalize(cfg: Config): Config {
    Config(cfg.interface,
           if Truthy(cfg.duration) then cfg.duration else None,
           if Truthy(cfg.packetCount) then cfg.packetCount else None)
  }

  /** Reads a truthy limit back from its argument, or fails. */
  function ParseLimit(arg: string): Option<int> {
    match ParseInt(arg)
    case Some(n) => if n != 0 then Some(n) else None
    case None => None
  }

  /** Reads the `duration:<d>` argument back. */
  function ParseDuration(arg: string): Option<int> {
    if |arg| >= 9 && arg[..9] == "duration:" then ParseLimit(arg[9..]) else None
  }

  /** Reads the optional limit pairs that follow the fixed arguments. */
  function ParseLimits(rest: seq<string>): Option<(Option<int>, Option<int>)> {
    if rest == [] then Some((None, None))
    else if |rest| == 2 && rest[0] == "-a" && ParseDuration(rest[1]).Some? then
      Some((ParseDuration(rest[1]), None))
    else if |rest| == 2 && rest[0] == "-c" && ParseLimit(rest[1]).Some? then
      Some((None, ParseLimit(rest[1])))
    else if |rest| == 4 && rest[0] == "-a" && ParseDuration(rest[1]).Some?
            && rest[2] == "-c" && ParseLimit(rest[3]).Some? then
      Some((ParseDuration(rest[1]), ParseLimit(rest[3])))
    else None
  }

  /** The configuration a command line was built from, if it is one `BuildCommand` produces. */
  function ParseCommand(cmd: seq<string>): Option<Config> {
    if |cmd| < 31 || cmd[..31] != BaseArgs(cmd[2]) then None
    else
      match ParseLimits(cmd[31..])
      case Some((d, c)) => Some(Config(cmd[2], d, c))
      case None => None
  }

  lemma ParseDurationArg(d: int)
    requires d != 0
    ensures ParseDuration(DurationArg(d)) == Some(d)
  {
    ParseIntString(d);
    assert DurationArg(d)[9..] == IntString(d);
  }

  lemma ParseLimitString(n: int)
    requires n != 0
    ensures ParseLimit(IntString(n)) == Some(n)
  {
    ParseIntString(n);
  }

  /** Reading a built command back gives the configuration, up to falsy limits. */
  lemma ParseBuild(cfg: Config)
    ensures ParseCommand(BuildCommand(cfg)) == Some(Normalize(cfg))
  {
    var cmd := BuildCommand(cfg);
    CommandShape(cfg);
    if Truthy(cfg.duration) {
      ParseDurationArg(cfg.duration.value);
    }
    if Truthy(cfg.packetCount) {
      ParseLimitString(cfg.packetCount.value);
    }
    var rest := cmd[31..];
    assert ParseLimits(rest) == Some((Normalize(cfg).duration, Normalize(cfg).packetCount));
  }

  /**
   * Two configurations give the same command exactly when they agree on the
   * interface and on every truthy limit: the command records nothing else.
   */
  lemma BuildInjective(a: Config, b: Config)
    ensures BuildCommand(a) == BuildCommand(b) <==> Normalize(a) == Normalize(b)
  {
    ParseBuild(a);
    ParseBuild(b);
    if Normalize(a) == Normalize(b) {
      BuildCommandParts(a);
      BuildCommandParts(b);
    }
  }

  /** The optional limit arguments `BuildCommand` appends after the fixed ones. */
  function LimitArgs(duration: Option<int>, packetCount: Option<int>): seq<string> {
    (if Truthy(duration) then ["-a", DurationArg(duration.value)] else [])
    + (if Truthy(packetCount) then ["-c", IntString(packetCount.value)] else [])
  }

  lemma BuildCommandParts(cfg: Config)
    ensures BuildCommand(cfg) == BaseArgs(cfg.interface) + LimitArgs(cfg.duration, cfg.packetCount)
  {
  }

  lemma LimitParse(arg: string)
    requires ParseLimit(arg).Some?
    ensures ParseLimit(arg).value != 0 && IntString(ParseLimit(arg).value) == arg
  {
    IntStringParse(arg);
  }

  lemma DurationParse(arg: string)
    requires ParseDuration(arg).Some?
    ensures ParseDuration(arg).value != 0 && DurationArg(ParseDuration(arg).value) == arg
  {
    LimitParse(arg[9..]);
    assert arg == arg[..9] + arg[9..];
  }

  /** The limit arguments that parse are exactly the ones appended for what they parse to. */
  lemma LimitsParse(rest: seq<string>, duration: Option<int>, packetCount: Option<int>)
    requires ParseLimits(rest) == Some((duration, packetCount))
    ensures LimitArgs(duration, packetCount) == rest
  {
    if |rest| == 2 && rest[0] == "-a" && ParseDuration(rest[1]).Some? {
      DurationParse(rest[1]);
    } else if |rest| == 2 && rest[0] == "-c" && ParseLimit(rest[1]).Some? {
      LimitParse(rest[1]);
    } else if |rest| == 4 {
      DurationParse(rest[1]);
      LimitParse(rest[3]);
      assert rest == ["-a", rest[1], "-c", rest[3]];
    }
  }

  /** A command that parses is exactly the one built from what it parses to. */
  lemma BuildParse(cmd: seq<string>, cfg: Config)
    requires ParseCommand(cmd) == Some(cfg)
    ensures BuildCommand(cfg) == cmd
  {
    LimitsParse(cmd[31..], cfg.duration, cfg.packetCount);
    BuildCommandParts(cfg);
    assert cmd == cmd[..31] + cmd[31..];
  }
}
