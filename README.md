# A verified model of the tshark capture script

`Script.py` wraps the `tshark` packet analyser in a class, `TrafficCapture`. It:

- builds the tshark command line from an interface, an optional duration and an optional packet count;
- streams tshark's pipe-separated records into a log file that opens with a five-line comment header;
- stops the capture, which terminates tshark (and kills it if it has not exited within five seconds) and appends a closing trailer;
- analyses an existing log: it counts the non-comment lines as packets and prints how many records carry each protocol, most frequent first;
- chooses, in `main`, one of these according to the command-line flags.

This project models those parts in Dafny and proves properties of them:

- `wrappers.dfy`: `Option`.
- `strings.dfy` (module `Strings`): the Python string operations the script relies on, each with its specification:
  - `str.strip()`, `str.split` and its inverse `join`;
  - `str(int)` and its inverse parse;
  - `readlines()`, as `Lines`.
- `command.dfy` (module `Command`): `build_tshark_command` as a pure function. The parser `ParseCommand` reads a configuration back from a command line, and both round trips are proved.
- `analysis.dfy` (module `Analysis`): `analyze_capture`.
  - The tally loop is a method proved against `Tally` and `FirstSeen`.
  - The dictionary is modelled as Python keeps it: keys in insertion order, beside a map of counts.
  - The printed distribution is a stable sort by decreasing count with the empty key dropped. It is proved to be sorted, a permutation, stable, and exactly the non-empty keys.
- `session.dfy` (module `Session`): class `TrafficCapture`, with the fields `process`, `captureActive` and the log `file` (its contents, or `None` while it does not exist). Its methods:
  - `StopCapture`: `stop_capture`.
  - `StreamOutput`: the read/append loop.
  - `StartCapture`: `start_capture`, including its `except` and `finally` clauses.

  Lemmas connect the log a session writes to what the analysis reports about it.
- `dispatch.dfy` (module `Dispatch`): the order of checks in `main`.

Everything the operating system decides is a parameter:

- whether tshark could be started;
- the text tshark prints;
- the read during which SIGINT or SIGTERM arrives;
- the read before which tshark has exited on its own. It exits at its own `-a` or `-c` limit while lines are still in the pipe, or on a Ctrl+C that reaches it along with the script;
- whether a terminated process exits within the grace period of each stop;
- whether a tool sent SIGKILL has ended by the next `poll()`. `kill()` does not wait for it. `Popen` keeps a return code once a `poll()` has seen it, so for a tool whose end an earlier `poll()` has already seen this input is true;
- the timestamps `datetime.now()` returns;
- whether the file exists;
- whether the user is root and whether `tshark --version` succeeds.

Three consequences of the code are worth stating:

- **Stopping is not idempotent.** Every call clears `capture_active` and appends a trailer.
  - A second `stop_capture` after a first one that terminated the tool sends no signal, because `wait()` has reaped it and `poll()` finds it ended.
  - After a first stop that killed the tool, `kill()` has not waited. The second `poll()` can still find the tool running, and then it is sent SIGTERM again, and SIGKILL again when the second grace period runs out (`Session.HaltTwice`).
  - An interrupted capture ends with two trailers. The signal handler stops once and raises `SystemExit`, and the `finally` clause of `start_capture` stops again. `StartCapture` states this as `file == Some(SessionLog(…, (if exiting then [interruptedAt] else []) + [finishedAt]))`.
- **A trailer is two lines.** It is a blank line, then the closing comment.
- **Each stop adds one packet to the analysis.** The blank line of each trailer is not a comment, so the analysis counts it as a packet (`Session.EmptySessionReport`, `Session.SessionReport`).
  - A log with no tshark output reports one packet when the capture ends by itself, and two when it is interrupted.
  - tshark's own header row, printed because of `-E header=y`, is the first line streamed. It has nine columns, one per extracted field. It is not a comment, so it adds one packet. It has at least eight columns, so its eighth, `_ws.col.Protocol` (between double quotes when tshark quotes the names), enters the distribution (`Session.HeaderRowReport`).

## Model

| member | source | states |
|---|---|---|
| Strings.Strip | Script.py:234 | `str.strip()`. Its contract is `Strings.StripSpec` and `Strings.StripUnchanged` |
| Strings.Split | Script.py:232 | `str.split` on the pipe character. Its contract is `Strings.SplitSpec`, and `Strings.JoinSplit` and `Strings.SplitJoin` pair it with `Join` |
| Strings.Lines | Script.py:219-220 | `readlines()`. Its contract is `Strings.ConcatLines`, `Strings.LinesShape`, `Strings.LinesAppend` and `Strings.LinesConcat` |
| Strings.StripSpec | Script.py:234 | `strip()` returns the slice of the field that follows its leading whitespace, has only whitespace after it, and neither starts nor ends with whitespace |
| Strings.StripUnchanged | Script.py:234 | a field with no whitespace at either end is its own `strip()` |
| Strings.SplitSpec | Script.py:232 | splitting on the pipe character gives one more field than there are separators, and no field contains the separator |
| Strings.JoinSplit | Script.py:232 | joining the fields of a split with the separator gives the line back |
| Strings.SplitJoin | Script.py:232 | splitting a join of separator-free fields gives the fields back |
| Strings.ConcatLines | Script.py:219-220 | the lines `readlines()` returns concatenate back to the file's text |
| Strings.LinesShape | Script.py:219-220 | every line `readlines()` returns ends in its only newline, except possibly an unterminated last line; when the text ends in a newline every line is whole |
| Strings.LinesAppend | Script.py:219-220 | the lines of text appended after a newline are the old lines followed by the new ones |
| Strings.LinesConcat | Script.py:219-220 | text written as a sequence of whole lines is read back by `readlines()` as exactly those lines |
| Strings.IntString | Script.py:109 | `str(n)` is non-empty and starts with `-` exactly when `n` is negative |
| Strings.ParseIntString | Script.py:109 | `str(n)` parses back to `n` |
| Strings.IntStringParse | Script.py:109 | a string that parses as an integer is exactly `str` of that integer |
| Command.BaseArgs | Script.py:84-101 | the fixed part of the command has 31 arguments, and the interface is the third |
| Command.BaseArgsPrefix | Script.py:84-87 | the command starts `tshark -i <interface> -T fields` |
| Command.BaseArgsFields | Script.py:88-96 | then one `-e` per extracted field, the nine fields in column order |
| Command.BaseArgsOptions | Script.py:97-100 | then one `-E` per output option: header, pipe separator, double quotes, first occurrence |
| Command.CommandShape | Script.py:103-111 | the `-a duration:<d>` pair is present exactly when the duration is truthy, and the `-c <n>` pair, last, exactly when the packet count is truthy |
| Command.BuildCommand | Script.py:79-111 | `build_tshark_command`. Its layout is stated by `Command.BaseArgsPrefix`, `Command.BaseArgsFields`, `Command.BaseArgsOptions` and `Command.CommandShape`, and its round trips with `ParseCommand` by `Command.ParseBuild` and `Command.BuildParse` |
| Command.BuildInjective | Script.py:84-111 | two configurations give the same command exactly when they agree on the interface and on every truthy limit |
| Command.ParseDurationArg | Script.py:105 | `duration:<d>` reads back as `d` for a non-zero `d` |
| Command.ParseLimitString | Script.py:109 | the packet count argument reads back as the count |
| Command.DurationParse | Script.py:105 | an argument that reads as a duration is the one written for it |
| Command.LimitParse | Script.py:109 | an argument that reads as a count is the one written for it |
| Command.LimitsParse | Script.py:103-109 | limit arguments that parse are exactly the ones appended for what they parse to |
| Command.ParseBuild | Script.py:84-111 | reading a built command back gives its configuration, with falsy limits as `None` |
| Command.BuildParse | Script.py:84-111 | a command line that parses is exactly the one built from what it parses to |
| Analysis.DataLines | Script.py:223 | the list `data_lines`. Its contract is `Analysis.DataLinesMembers`, `Analysis.DataLinesComments`, `Analysis.DataLinesAppend` and `Analysis.DataLinesAll` |
| Analysis.ProtocolField | Script.py:231-234 | the key one data line contributes, if any. Its contract is `Analysis.ProtocolFieldQualifies` and `Analysis.RecordProtocol` |
| Analysis.Tally | Script.py:229-235 | the counts of the `protocols` dictionary. Its contract is `Analysis.TallyCounts` and `Analysis.TallySum` |
| Analysis.FirstSeen | Script.py:229-235 | the key order of the `protocols` dictionary. Its contract is `Analysis.FirstSeenKeys` and `Analysis.FirstSeenOrder` |
| Analysis.Distribution | Script.py:237-240 | the printed distribution. Its contract is `Analysis.DistributionSpec` |
| Analysis.DataLinesMembers | Script.py:223 | the data lines are exactly the lines that do not start with `#` |
| Analysis.DataLinesComments | Script.py:223 | a file of comment lines holds no data line |
| Analysis.DataLinesAppend | Script.py:223 | filtering distributes over concatenation and keeps file order |
| Analysis.DataLinesAll | Script.py:223-225 | the packet count is at most the number of lines, and equals it exactly when no line is a comment |
| Analysis.ProtocolFieldQualifies | Script.py:231-233 | a data line contributes a protocol exactly when it holds at least seven pipe separators |
| Analysis.RecordProtocol | Script.py:231-234 | a record of eight or more separator-free columns contributes its eighth column, stripped |
| Analysis.ProtocolsAll | Script.py:230-234 | at most one protocol per data line, and one per line exactly when every line qualifies |
| Analysis.TallyCounts | Script.py:229-235 | the dictionary holds exactly the protocols that occur, each with its number of occurrences |
| Analysis.FirstSeenKeys | Script.py:229-235 | the dictionary's key order lists every protocol that occurs, once |
| Analysis.FirstSeenOrder | Script.py:229-235 | keys are ordered by their first occurrence among the records |
| Analysis.TallySum | Script.py:229-235 | the counts add up to the number of qualifying records |
| Analysis.DictionaryStep | Script.py:235 | one more occurrence adds a new key last with count one, or adds one to a known key |
| Analysis.CountOne | Script.py:235 | the update `protocols[p] = protocols.get(p, 0) + 1` keeps the dictionary equal to the tally of the records seen, with one more record |
| Analysis.CountProtocols | Script.py:229-235 | the tally loop builds the dictionary whose keys are the protocols in first-seen order and whose counts are the tally |
| Analysis.AnalyzeLines | Script.py:219-235 | the printed packet count is the number of non-comment lines, and the dictionary is the tally of their protocols |
| Analysis.Items | Script.py:238 | `items()` lists each key in insertion order with its count |
| Analysis.Insert | Script.py:238 | inserting an entry into a list sorted by decreasing count keeps it sorted |
| Analysis.SortByCount | Script.py:238 | the sort by count with `reverse=True` gives a list with non-increasing counts |
| Analysis.SortPermutes | Script.py:238 | the sort is a permutation of the items |
| Analysis.SortStable | Script.py:238 | entries of equal count keep their insertion order |
| Analysis.NonEmpty | Script.py:239 | the printed entries have non-empty keys and are entries of the dictionary |
| Analysis.NonEmptyCount | Script.py:239 | skipping the empty key keeps every other entry as often as it occurs |
| Analysis.NonEmptySorted | Script.py:238-239 | skipping the empty key keeps the order by count |
| Analysis.WithCountNonEmpty | Script.py:238-239 | skipping the empty key and selecting one count commute |
| Analysis.DistributionSpec | Script.py:237-240 | the distribution printed is sorted by count and lists every non-empty key once with its count, and entries of equal count keep their insertion order |
| Analysis.AnalyzeCapture | Script.py:207-244 | a missing file gives no report, and an existing one gives the packet count and distribution over its lines |
| Session.Halt | Script.py:187-197 | a running tool is sent SIGTERM, then SIGKILL if it does not exit within the grace period, and ends not running; any other process is left alone and sent nothing |
| Session.Polled | Script.py:187-196 | `poll()` sees the tool running exactly when it is running, or was sent SIGKILL, and has not ended yet; a tool that ended on its own is seen to have exited |
| Session.HaltTwice | Script.py:183-197 | a second stop sends a signal exactly when the first one killed the tool and the tool has not ended by the second `poll()`; then it is halted again as `Halt` says |
| Session.Repeat | Script.py:140 | `"=" * 100` is 100 copies of `=` |
| Session.HeaderLines | Script.py:134-140 | the five header lines. Their shape is stated by `Session.HeaderShape` |
| Session.Trailer | Script.py:203 | the trailer each stop appends. How it reads back is stated by `Session.TrailerSpec` and `Session.StopLinesSpec` |
| Session.HeaderShape | Script.py:134-140 | the header is five whole comment lines when the interface and the start time hold no newline |
| Session.TrailerSpec | Script.py:203 | a trailer is read back as a blank line and the closing comment, and only the blank line is data |
| Session.StopLinesSpec | Script.py:201-203 | the trailers of several stops read back as whole lines, with one blank data line per stop |
| Session.BlanksProtocols | Script.py:230-235 | blank lines contribute no protocol |
| Session.ProgressSpec | Script.py:169-173 | progress is printed at every multiple of 100 reached, and only there: once each, in increasing order, `n / 100` times |
| Session.LogLines | Script.py:219-220 | a log written as whole lines followed by trailers reads back as those lines followed by the trailer lines |
| Session.LogData | Script.py:223 | comment lines, then data, then trailers: the data lines are the written ones plus one blank per trailer |
| Session.LogReport | Script.py:223-235 | the report counts the written data lines plus one per trailer, and its distribution is that of the written lines alone |
| Session.SessionLines | Script.py:134-203 | a session's log reads back as its header lines, the streamed lines and the trailer lines |
| Session.SessionReport | Script.py:134-244 | the analysis of a session's log counts the streamed non-comment lines plus one per stop, and reports the protocols of the streamed lines alone |
| Session.EmptySessionReport | Script.py:201-225 | a session that streamed nothing is reported as one packet per stop with an empty distribution |
| Session.HeaderRowReport | Script.py:88-97 | tshark's row of column names, quoted or not, is not a comment and contributes its eighth name, `_ws.col.Protocol`, as a protocol key |
| Session.StreamedWhole | Script.py:161 | the lines read from the tool are whole, unless the last one is the unterminated tail of its output |
| Session.TrafficCapture.constructor | Script.py:28-33 | a new capture holds its configuration, has no process and is not active |
| Session.TrafficCapture.StopCapture | Script.py:183-205 | polls the tool, so a tool that has ended is left alone, and a killed tool that has not ended yet is seen running. It halts a tool still running as `Halt` says, clears `capture_active`, and appends a trailer to the file whenever it exists, on every call |
| Session.TrafficCapture.StreamOutput | Script.py:160-173 | the loop appends to the log and counts exactly the lines before the end of output, the interrupted read, or inactivity. It prints progress at every hundredth line. An interrupt runs the stop, which finds the tool exited when it has exited on its own before that read. Otherwise the process and active flag are unchanged |
| Session.TrafficCapture.StartCapture | Script.py:121-181 | the command is built from the configuration. The log is the header, the streamed lines, and one trailer per stop: two when interrupted. The capture ends inactive. An interrupt's stop sends SIGTERM (and SIGKILL after the grace period) only when the tool has not exited on its own before the interrupted read. The final stop polls what the interrupt's stop left: a killed tool that has not ended by then is halted again. An uninterrupted capture ends with the tool exited and no signal sent. When no tool could be started, the final stop halts whatever process was recorded |
| Dispatch.Decide | Script.py:273-292 | a missing tool ends the run first; `--list-interfaces` takes precedence over `--analyze`; root is checked for listing and capturing but not for analysing |
| Dispatch.ExitStatus | Script.py:273-292 | the status a run ends with. What it is for each combination of inputs is stated by `Dispatch.ExitCode` |
| Dispatch.ExitCode | Script.py:273-292 | a run exits with status 1 exactly when tshark is missing, or when it lists interfaces or captures without root (`sys.exit(1)` in `check_permissions`, Script.py:46). It exits with status 0 otherwise |
| Dispatch.RootNeeded | Script.py:278-289 | root is demanded exactly of runs that pass the tool check and do not only analyse |

## Left out

- Printing: banners, error messages and "saved to" lines are not modelled. The progress lines are, as the list of counts printed.
- `os.geteuid`, `subprocess.run(['tshark', '--version'])`, `signal.signal` and `datetime.now()` are replaced by parameters. Timestamps are strings.
- `list_interfaces` runs and prints `tshark -D`. It is external output and is not modelled beyond its place in `Dispatch`.
- argparse: the parsed flags and options are inputs. `int` parsing of `-d` and `-c` is argparse's, and the model takes the resulting `Option<int>`.
- `os.path.getsize`: the printed file size is not modelled.
- Process spawning, `poll()`, `wait()` and the five-second `wait(timeout=5)` are replaced by inputs: `spawned`; `exitedBy` and `endedAtFinish` (with `ended` of `StopCapture`) for what `poll()` finds, through `Session.Polled` and `Session.ExitedBefore`; `graceAtInterrupt` and `graceAtFinish` (with `exitsInGrace` of `StopCapture`) for the grace wait. After `wait()` the process is `Exited`.
- Exceptions other than a failed spawn are not modelled. These include write errors, decode errors and errors during the analysis read (`except` at lines 242-243).
- Session.TrafficCapture.StreamOutput: a signal is modelled only while the loop waits for a line, including the final read at end of output. A signal during a write, a progress print, the header write, `wait()` or `stop_capture` itself is not modelled.
- Session.TrafficCapture.StartCapture: the file is modelled as one text value that each write extends, so `flush()` and partial writes are not visible.
- Universal newlines are not modelled: text mode turns `\r\n` and a lone `\r` into `\n`, both on the tool's pipe and when the log is read back. `readlines()` splits on `\n` only.
- Session.SessionReport: requires the streamed lines to be whole. An unterminated last line of tshark output merges with the trailer's leading newline when read back, which this lemma does not describe. `Session.StreamedWhole` says when the requirement holds.
- Command.ParseBuild: holds up to `Normalize`, because a zero limit is falsy and leaves no trace in the command.
- Unicode case and encoding are not modelled. Strings are sequences of characters, and `strip()` uses Python's `isspace` set.
