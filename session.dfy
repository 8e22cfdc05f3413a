/**
 * One capture session of `TrafficCapture`: the header written when it starts,
 * the tool's output streamed into the log line by line, and `stop_capture`,
 * which halts the tool and appends a closing trailer on every call.
 *
 * What the operating system decides is an input here: whether `tshark` could
 * be started, the text it prints, the read during which SIGINT or SIGTERM
 * arrives, the read before which the tool has exited on its own (at its own
 * limit, or on a SIGINT it received with the script), whether a terminated
 * process exits within the five-second grace period, and the timestamps
 * `datetime.now()` returns.
 */
module Session {
  import opened Wrappers
  import opened Strings
  import opened Command
  import opened Analysis

  /** `tshark_process` as `poll()` sees it: none yet, running, or ended in one of three ways. */
  datatype Process = NoProcess | Running | Exited | Terminated | Killed

  /** The signals `stop_capture` sends: `terminate()` and `kill()`. */
  datatype Signal = Terminate | Kill

  /**
   * What `stop_capture` does to the process: a running one is sent SIGTERM,
   * then SIGKILL when it has not exited within the grace period; any other is
   * left alone.
   */
  function Halt(p: Process, exitsInGrace: bool): (r: (Process, seq<Signal>))
    ensures r.0 != Running
    ensures Terminate in r.1 <==> p == Running
    ensures Kill in r.1 <==> p == Running && !exitsInGrace
    ensures r.1 == [] || r.1[0] == Terminate
    ensures p != Running ==> r == (p, [])
  {
    if p != Running then (p, [])
    else if exitsInGrace then (Terminated, [Terminate])
    else (Killed, [Terminate, Kill])
  }

  /**
   * What `poll()` reports, given whether the tool has ended by the time of the
   * call. A running tool that has ended on its own is seen to have exited. A
   * tool sent SIGKILL is not waited for, so until it has ended `poll()` still
   * sees it running. A process that `wait()` has reaped stays as it is.
   * `Popen` keeps the return code once a `poll()` has seen it, so `ended` is
   * true for a killed tool whose end an earlier `poll()` has seen.
   */
  function Polled(p: Process, ended: bool): (r: Process)
    ensures r == Running <==> (p == Running || p == Killed) && !ended
    ensures r != Running ==> r == p || (p == Running && r == Exited)
  {
    if p == Running && ended then Exited
    else if p == Killed && !ended then Running
    else p
  }

  /** Whether the tool has exited on its own before read `i` of its output. */
  predicate ExitedBefore(exitedBy: Option<nat>, i: nat) {
    exitedBy.Some? && exitedBy.value <= i
  }

  /**
   * A second stop sends nothing, except after a first stop that killed the
   * tool when the tool has not ended by the second `poll()`: then it is sent
   * SIGTERM again, and SIGKILL again if the second grace period runs out.
   */
  lemma HaltTwice(p: Process, first: bool, ended: bool, second: bool)
    ensures var q := Halt(p, first).0;
      Halt(Polled(q, ended), second) == if q == Killed && !ended then Halt(Running, second) else (q, [])
    ensures Halt(Polled(Halt(p, first).0, ended), second).1 != [] <==>
              ((p == Running && !first) || p == Killed) && !ended
  {
  }

  /** The comment line that closes a trailer. */
  function ClosingLine(now: string): string {
    "# Captura finalizada em: " + now + "\n"
  }

  /** `f"\n# Captura finalizada em: {now}\n"`, appended by every stop. */
  function Trailer(now: string): string {
    "\n" + ClosingLine(now)
  }

  /** The two lines a trailer adds: a blank one and the closing comment. */
  function TrailerLines(now: string): seq<string> {
    ["\n", ClosingLine(now)]
  }

  /** The contents of the file, empty when it does not exist yet (`open(path, 'a')` creates it). */
  function Contents(file: Option<string>): string {
    if file.Some? then file.value else []
  }

  /** The title line of the header. */
  const Title: string := "# Captura de Tr\U{E1}fego de Rede\n"

  /** The text of the header line naming the record columns, written here column by column. */
  const ColumnsText: string :=
    "# Formato: " + "Timestamp|" + "IP_Origem|" + "IP_Destino|" + "Porta_TCP_Origem|" + "Porta_TCP_Destino|"
    + "Porta_UDP_Origem|" + "Porta_UDP_Destino|" + "Protocolo|" + "Tamanho"

  /** The header line naming the record columns. */
  const Columns: string := ColumnsText + "\n"

  /** `c * n`: `n` copies of the character `c`. */
  function Repeat(c: char, n: nat): (s: string)
    ensures |s| == n && forall i :: 0 <= i < n ==> s[i] == c
  {
    if n == 0 then [] else Repeat(c, n - 1) + [c]
  }

  /** `"#" + "=" * 100 + "\n"`, the rule that closes the header. */
  const Rule: string := "#" + Repeat('=', 100) + "\n"

  /** The five comment lines `start_capture` writes when it (re)creates the log. */
  function HeaderLines(interface: string, startedAt: string): seq<string> {
    [Title, "# Iniciada em: " + startedAt + "\n", "# Interface: " + interface + "\n", Columns, Rule]
  }

  /** The trailers of a number of stops, in order. */
  function Trailers(stops: seq<string>): string {
    if stops == [] then [] else Trailer(stops[0]) + Trailers(stops[1..])
  }

  lemma TrailersSpec(stops: seq<string>)
    ensures |stops| == 1 ==> Trailers(stops) == Trailer(stops[0])
    ensures |stops| == 2 ==> Trailers(stops) == Trailer(stops[0]) + Trailer(stops[1])
  {
    if |stops| == 2 {
      assert stops[1..][1..] == [];
    }
  }

  /** The log of a session: the header, the lines streamed from the tool, and one trailer per stop. */
  function SessionLog(interface: string, startedAt: string, written: seq<string>, stops: seq<string>): string {
    Concat(HeaderLines(interface, startedAt)) + Concat(written) + Trailers(stops)
  }

  /** How many lines the loop writes: none when capture is inactive, otherwise up to the interrupted read. */
  function Written(active: bool, available: nat, interruptAt: Option<nat>): nat {
    if !active then 0
    else if interruptAt.Some? && interruptAt.value < available then interruptAt.value
    else available
  }

  /** Whether the signal arrives while the loop is still reading, the final read at end of output included. */
  predicate Interrupts(active: bool, available: nat, interruptAt: Option<nat>) {
    interruptAt.Some? && interruptAt.value <= (if active then available else 0)
  }

  /** The counts printed as progress after `n` lines, in order: `packet_count % 100 == 0`. */
  function ProgressPoints(n: nat): seq<nat> {
    if n == 0 then [] else ProgressPoints(n - 1) + (if n % 100 == 0 then [n] else [])
  }

  /** Progress is printed exactly at the multiples of 100 reached, once each, in increasing order. */
  lemma {:induction false} ProgressSpec(n: nat)
    ensures forall k :: k in ProgressPoints(n) <==> 0 < k <= n && k % 100 == 0
    ensures forall i, j :: 0 <= i < j < |ProgressPoints(n)| ==> ProgressPoints(n)[i] < ProgressPoints(n)[j]
    ensures |ProgressPoints(n)| == n / 100
  {
    if n > 0 {
      ProgressSpec(n - 1);
      var before := ProgressPoints(n - 1);
      assert forall i :: 0 <= i < |before| ==> before[i] < n by {
        forall i | 0 <= i < |before| ensures before[i] < n {
          assert before[i] in before;
        }
      }
    }
  }

  lemma ConcatSnoc(pieces: seq<string>, piece: string)
    ensures Concat(pieces + [piece]) == Concat(pieces) + piece
  {
    ConcatAppend(pieces, [piece]);
    assert Concat([piece]) == piece + Concat([]);
  }

  /** A piece of text without a newline, followed by one, is one whole line. */
  lemma WholeLineOf(body: string)
    requires '\n' !in body
    ensures WholeLine(body + "\n")
  {
    assert (body + "\n")[..|body|] == body;
  }

  lemma TitleShape()
    ensures WholeLine(Title) && IsComment(Title)
  {
    WholeLineOf("# Captura de Tr\U{E1}fego de Rede");
  }

  lemma ColumnsShape()
    ensures WholeLine(Columns) && IsComment(Columns)
  {
    WholeLineOf(ColumnsText);
  }

  lemma RuleShape()
    ensures WholeLine(Rule) && IsComment(Rule)
  {
    WholeLineOf("#" + Repeat('=', 100));
  }

  /** The header is five whole comment lines as long as the interface and the time hold no newline. */
  lemma HeaderShape(interface: string, startedAt: string)
    requires '\n' !in interface && '\n' !in startedAt
    ensures |HeaderLines(interface, startedAt)| == 5
    ensures forall k :: 0 <= k < 5 ==>
              WholeLine(HeaderLines(interface, startedAt)[k]) && IsComment(HeaderLines(interface, startedAt)[k])
  {
    TitleShape();
    WholeLineOf("# Iniciada em: " + startedAt);
    WholeLineOf("# Interface: " + interface);
    ColumnsShape();
    RuleShape();
  }

  /** The lines the trailers of a number of stops consist of. */
  function StopLines(stops: seq<string>): seq<string> {
    if stops == [] then [] else TrailerLines(stops[0]) + StopLines(stops[1..])
  }

  /** `n` blank lines. */
  function Blanks(n: nat): (blanks: seq<string>)
    ensures |blanks| == n
  {
    if n == 0 then [] else ["\n"] + Blanks(n - 1)
  }

  /** A trailer is a blank line and a comment line, as long as its time holds no newline. */
  lemma TrailerSpec(now: string)
    requires '\n' !in now
    ensures Concat(TrailerLines(now)) == Trailer(now)
    ensures WholeLine(TrailerLines(now)[0]) && WholeLine(TrailerLines(now)[1])
    ensures DataLines(TrailerLines(now)) == ["\n"]
  {
    var lines := TrailerLines(now);
    WholeLineOf("# Captura finalizada em: " + now);
    assert WholeLine("\n");
    var closing := ClosingLine(now);
    assert lines[1..] == [closing] && [closing][1..] == [];
    assert Concat([closing]) == closing + Concat([]);
    assert Concat(lines) == "\n" + Concat([closing]);
    assert lines[..1] == ["\n"];
    assert DataLines(["\n"]) == DataLines([]) + ["\n"];
  }

  /** The trailers of several stops, read back: one blank line and one comment line each. */
  lemma {:induction false} StopLinesSpec(stops: seq<string>)
    requires forall k :: 0 <= k < |stops| ==> '\n' !in stops[k]
    ensures Concat(StopLines(stops)) == Trailers(stops)
    ensures forall k :: 0 <= k < |StopLines(stops)| ==> WholeLine(StopLines(stops)[k])
    ensures DataLines(StopLines(stops)) == Blanks(|stops|)
  {
    if stops != [] {
      var first, rest := TrailerLines(stops[0]), StopLines(stops[1..]);
      StopLinesSpec(stops[1..]);
      TrailerSpec(stops[0]);
      ConcatAppend(first, rest);
      DataLinesAppend(first, rest);
      forall k | 0 <= k < |first + rest| ensures WholeLine((first + rest)[k]) {
        if k >= 2 {
          assert (first + rest)[k] == rest[k - 2];
        }
      }
    }
  }

  /** Blank lines contribute no protocol. */
  lemma {:induction false} BlanksProtocols(n: nat)
    ensures Protocols(Blanks(n)) == []
  {
    if n > 0 {
      BlanksProtocols(n - 1);
      CollectAppend(ProtocolField, ["\n"], Blanks(n - 1));
      assert ["\n"][..0] == [];
    }
  }

  lemma WholeLinesAppend(a: seq<string>, b: seq<string>)
    requires forall k :: 0 <= k < |a| ==> WholeLine(a[k])
    requires forall k :: 0 <= k < |b| ==> WholeLine(b[k])
    ensures forall k :: 0 <= k < |a + b| ==> WholeLine((a + b)[k])
  {
    forall k | |a| <= k < |a + b| ensures WholeLine((a + b)[k]) {
      assert (a + b)[k] == b[k - |a|];
    }
  }

  /** Whole lines written one after another and then trailers are read back as exactly those lines. */
  lemma LogLines(header: seq<string>, written: seq<string>, stops: seq<string>)
    requires forall k :: 0 <= k < |header| ==> WholeLine(header[k])
    requires forall k :: 0 <= k < |written| ==> WholeLine(written[k])
    requires forall k :: 0 <= k < |stops| ==> '\n' !in stops[k]
    ensures Lines(Concat(header) + Concat(written) + Trailers(stops)) == header + written + StopLines(stops)
  {
    var trailer := StopLines(stops);
    StopLinesSpec(stops);
    ConcatAppend(header, written);
    ConcatAppend(header + written, trailer);
    WholeLinesAppend(header, written);
    WholeLinesAppend(header + written, trailer);
    LinesConcat(header + written + trailer);
  }

  /** Comment lines, then data, then blank lines: the data lines and the blanks. */
  lemma LogData(header: seq<string>, written: seq<string>, stops: seq<string>)
    requires forall k :: 0 <= k < |header| ==> IsComment(header[k])
    requires forall k :: 0 <= k < |stops| ==> '\n' !in stops[k]
    ensures DataLines(header + written + StopLines(stops)) == DataLines(written) + Blanks(|stops|)
  {
    var trailer := StopLines(stops);
    StopLinesSpec(stops);
    DataLinesComments(header);
    DataLinesAppend(header, written);
    assert DataLines(header + written) == DataLines(written);
    DataLinesAppend(header + written, trailer);
  }

  /**
   * Read back, the log of a session is its five header lines, the streamed
   * lines and the trailer lines, provided the streamed lines are whole and
   * neither the interface nor any timestamp holds a newline.
   */
  lemma SessionLines(interface: string, startedAt: string, written: seq<string>, stops: seq<string>)
    requires '\n' !in interface && '\n' !in startedAt
    requires forall k :: 0 <= k < |stops| ==> '\n' !in stops[k]
    requires forall k :: 0 <= k < |written| ==> WholeLine(written[k])
    ensures Lines(SessionLog(interface, startedAt, written, stops)) ==
              HeaderLines(interface, startedAt) + written + StopLines(stops)
  {
    HeaderShape(interface, startedAt);
    LogLines(HeaderLines(interface, startedAt), written, stops);
  }

  /**
   * A log of comment lines, then whole data lines, then trailers: the analysis
   * counts the data lines that are not comments plus one blank line per
   * trailer, and reports the protocols of the data lines alone.
   */
  lemma LogReport(header: seq<string>, written: seq<string>, stops: seq<string>)
    requires forall k :: 0 <= k < |header| ==> WholeLine(header[k]) && IsComment(header[k])
    requires forall k :: 0 <= k < |written| ==> WholeLine(written[k])
    requires forall k :: 0 <= k < |stops| ==> '\n' !in stops[k]
    ensures ReportOf(Lines(Concat(header) + Concat(written) + Trailers(stops))) ==
              Report(|DataLines(written)| + |stops|, ReportOf(written).distribution)
  {
    var lines := Lines(Concat(header) + Concat(written) + Trailers(stops));
    LogLines(header, written, stops);
    LogData(header, written, stops);
    var data := DataLines(written);
    assert DataLines(lines) == data + Blanks(|stops|);
    CollectAppend(ProtocolField, data, Blanks(|stops|));
    BlanksProtocols(|stops|);
    assert Protocols(DataLines(lines)) == Protocols(data);
  }

  /**
   * The analysis of a session's log counts the streamed lines that are not
   * comments plus one blank line per stop, and reports the protocols of the
   * streamed lines alone.
   */
  lemma SessionReport(interface: string, startedAt: string, written: seq<string>, stops: seq<string>)
    requires '\n' !in interface && '\n' !in startedAt
    requires forall k :: 0 <= k < |stops| ==> '\n' !in stops[k]
    requires forall k :: 0 <= k < |written| ==> WholeLine(written[k])
    ensures ReportOf(Lines(SessionLog(interface, startedAt, written, stops))) ==
              Report(|DataLines(written)| + |stops|, ReportOf(written).distribution)
  {
    HeaderShape(interface, startedAt);
    LogReport(HeaderLines(interface, startedAt), written, stops);
  }

  /**
   * A session that streamed nothing is analysed as one packet per stop, the
   * blank line that opens each trailer, with an empty distribution.
   */
  lemma EmptySessionReport(interface: string, startedAt: string, stops: seq<string>)
    requires '\n' !in interface && '\n' !in startedAt
    requires forall k :: 0 <= k < |stops| ==> '\n' !in stops[k]
    ensures ReportOf(Lines(SessionLog(interface, startedAt, [], stops))) == Report(|stops|, [])
  {
    SessionReport(interface, startedAt, [], stops);
    assert DataLines([]) == [];
  }

  /**
   * The cells of the row of column names that tshark prints first under
   * `-E header=y`: the nine field names in column order, each between `quote`
   * (empty when the names are not quoted), the last one ending the line.
   */
  function HeaderCells(quote: string): seq<string> {
    seq(9, k requires 0 <= k < 9 => quote + ExtractedFields[k] + quote + (if k == 8 then "\n" else ""))
  }

  /**
   * tshark's header row is not a comment, so it is counted as a packet, and it
   * has at least eight columns, so its eighth column name is a protocol key.
   */
  lemma HeaderRowReport(quote: string)
    requires quote == [] || quote == "\""
    ensures var row := Join(HeaderCells(quote), '|');
      !IsComment(row) && ProtocolField(row) == Some(quote + "_ws.col.Protocol" + quote)
  {
    var cells := HeaderCells(quote);
    assert cells[7] == quote + "_ws.col.Protocol" + quote;
    assert |cells[0]| > 0 && cells[0][0] != '#';
    assert Join(cells, '|') == cells[0] + ['|'] + Join(cells[1..], '|');
    assert Join(cells, '|')[0] == cells[0][0];
    RecordProtocol(cells);
    StripUnchanged(cells[7]);
  }

  /**
   * The lines the loop takes from the tool are whole lines unless the last of
   * them is the unterminated tail of an output that does not end in a newline.
   */
  lemma StreamedWhole(stdout: string, w: nat)
    requires w <= |Lines(stdout)|
    requires w < |Lines(stdout)| || stdout == [] || stdout[|stdout| - 1] == '\n'
    ensures forall k :: 0 <= k < w ==> WholeLine(Lines(stdout)[..w][k])
  {
    LinesShape(stdout);
  }

  /** `TrafficCapture`: the capture configuration and the state its methods update. */
  class TrafficCapture {
    /** `interface`, `duration` and `packet_count`. */
    const config: Config
    /** `tshark_process`. */
    var process: Process
    /** `capture_active`. */
    var captureActive: bool
    /** The contents of `output_file`, or `None` while it does not exist. */
    var file: Option<string>

    constructor (config: Config, file: Option<string>)
      ensures this.config == config && this.file == file
      ensures process == NoProcess && !captureActive
    {
      this.config := config;
      this.file := file;
      process := NoProcess;
      captureActive := false;
    }

    /**
     * `stop_capture`: polls the tool (`ended` tells whether it has ended by
     * the time of the call), halts it if it is still running, clears
     * `capture_active`, and appends the trailer whenever the file exists, on
     * every call.
     */
    method StopCapture(ended: bool, exitsInGrace: bool, now: string) returns (sent: seq<Signal>)
      modifies this
      ensures (process, sent) == Halt(Polled(old(process), ended), exitsInGrace)
      ensures !captureActive
      ensures file == if old(file).Some? then Some(old(file).value + Trailer(now)) else None
    {
      sent := [];
      if process == Running && ended {
        process := Exited;
      } else if process == Killed && !ended {
        process := Running;
      }
      if process == Running {
        sent := [Terminate];
        if exitsInGrace {
          process := Terminated;
        } else {
          sent := [Terminate, Kill];
          process := Killed;
        }
      }
      captureActive := false;
      if file.Some? {
        file := Some(file.value + Trailer(now));
      }
    }

    /**
     * The read/append loop of `start_capture` over the lines the tool prints.
     * Each line is appended to the log as read and counted, and every hundredth
     * count is reported. A signal that arrives during read `interruptAt` runs
     * `stop_capture` and raises `SystemExit`, which leaves the loop; the stop
     * finds the tool exited when it has exited on its own before that read
     * (`exitedBy`).
     */
    method StreamOutput(lines: seq<string>, interruptAt: Option<nat>, exitedBy: Option<nat>,
                        exitsInGrace: bool, now: string)
      returns (count: nat, progress: seq<nat>, sent: seq<Signal>, interrupted: bool)
      modifies this
      ensures var w := Written(old(captureActive), |lines|, interruptAt);
        && count == w
        && progress == ProgressPoints(w)
        && interrupted == Interrupts(old(captureActive), |lines|, interruptAt)
        && file == Some(Contents(old(file)) + Concat(lines[..w]) + if interrupted then Trailer(now) else [])
      ensures interrupted ==>
                (process, sent) == Halt(Polled(old(process), ExitedBefore(exitedBy, interruptAt.value)), exitsInGrace)
                && !captureActive
      ensures !interrupted ==> process == old(process) && sent == [] && captureActive == old(captureActive)
    {
      file := Some(Contents(file));
      count, progress, sent, interrupted := 0, [], [], false;
      var i := 0;
      assert Contents(old(file)) + Concat(lines[..0]) == Contents(old(file));
      while true
        invariant 0 <= i <= |lines|
        invariant i <= Written(old(captureActive), |lines|, interruptAt)
        invariant i == 0 || old(captureActive)
        invariant captureActive == old(captureActive) && process == old(process)
        invariant count == i && progress == ProgressPoints(i)
        invariant file == Some(Contents(old(file)) + Concat(lines[..i]))
        decreases |lines| - i
      {
        if interruptAt == Some(i) {
          sent := StopCapture(ExitedBefore(exitedBy, i), exitsInGrace, now);
          interrupted := true;
          return;
        }
        if i == |lines| {
          break;
        }
        var line := lines[i];
        if !captureActive {
          break;
        }
        ConcatSnoc(lines[..i], line);
        assert lines[..i + 1] == lines[..i] + [line];
        AppendAssociates(Contents(old(file)), Concat(lines[..i]), line);
        file := Some(file.value + line);
        count := count + 1;
        if count % 100 == 0 {
          progress := progress + [count];
        }
        i := i + 1;
      }
      assert file.value + [] == file.value;
    }

    /**
     * `start_capture`: (re)creates the log with its header, builds the command,
     * starts the tool and streams its output, waits for the tool to end, and
     * stops in the `finally` clause. When the process cannot be started the
     * error is caught and only the stop follows. `exiting` tells that the
     * `SystemExit` of an interrupt is leaving the method, after the `finally`
     * clause has stopped the capture a second time.
     *
     * `exitedBy` is the read of the output before which the tool this call
     * starts has exited on its own, and `graceAtInterrupt` whether it exits
     * within the grace period of the interrupt's stop. `endedAtFinish` tells
     * whether the tool recorded when the final stop runs has ended by its
     * `poll()`: the tool of an earlier capture when none could be started, or
     * this call's tool after the interrupt's stop killed it without waiting.
     * `graceAtFinish` is the grace period of that final stop.
     */
    method StartCapture(startedAt: string, spawned: bool, stdout: string, interruptAt: Option<nat>,
                        exitedBy: Option<nat>, graceAtInterrupt: bool, endedAtFinish: bool, graceAtFinish: bool,
                        interruptedAt: string, finishedAt: string)
      returns (cmd: seq<string>, progress: seq<nat>, sent: seq<Signal>, exiting: bool)
      modifies this
      ensures cmd == BuildCommand(config)
      ensures var lines := Lines(stdout);
        var w := if spawned then Written(true, |lines|, interruptAt) else 0;
        && exiting == (spawned && Interrupts(true, |lines|, interruptAt))
        && progress == ProgressPoints(w)
        && file == Some(SessionLog(config.interface, startedAt, lines[..w],
                                   (if exiting then [interruptedAt] else []) + [finishedAt]))
      ensures !captureActive
      ensures spawned ==>
                var first := if exiting then Halt(Polled(Running, ExitedBefore(exitedBy, interruptAt.value)), graceAtInterrupt)
                             else (Exited, []);
                var last := Halt(Polled(first.0, endedAtFinish), graceAtFinish);
                process == last.0 && sent == first.1 + last.1
      ensures spawned && !exiting ==> process == Exited && sent == []
      ensures !spawned ==> (process, sent) == Halt(Polled(old(process), endedAtFinish), graceAtFinish)
    {
      var header := Concat(HeaderLines(config.interface, startedAt));
      file := Some(header);
      cmd := BuildCommand(config);
      progress, sent, exiting := [], [], false;
      var lines := Lines(stdout);
      var w := 0;
      if spawned {
        process := Running;
        captureActive := true;
        var count;
        count, progress, sent, exiting := StreamOutput(lines, interruptAt, exitedBy, graceAtInterrupt, interruptedAt);
        w := count;
        if !exiting {
          process := Exited;
        }
      } else {
        assert lines[..w] == [];
        assert header + Concat(lines[..w]) + [] == header;
      }
      assert file == Some(header + Concat(lines[..w]) + if exiting then Trailer(interruptedAt) else []);
      ghost var halted := (process, sent);
      assert spawned ==> halted == if exiting then Halt(Polled(Running, ExitedBefore(exitedBy, interruptAt.value)), graceAtInterrupt)
                                   else (Exited, []);
      var last := StopCapture(endedAtFinish, graceAtFinish, finishedAt);
      assert (process, last) == Halt(Polled(halted.0, endedAtFinish), graceAtFinish);
      assert !spawned ==> halted == (old(process), []) && [] + last == last;
      sent := sent + last;
      assert sent == halted.1 + last;
      ghost var stops := (if exiting then [interruptedAt] else []) + [finishedAt];
      ghost var first := if exiting then Trailer(interruptedAt) else [];
      TrailersSpec(stops);
      assert Trailers(stops) == first + Trailer(finishedAt);
      AppendAssociates(header + Concat(lines[..w]), first, Trailer(finishedAt));
    }
  }
}
