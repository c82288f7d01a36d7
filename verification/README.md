# tsm poll core in Dafny

tsm polls a power controller over SNMP and prints one time-aligned line of
readings per sample interval. This project models the parts that decide
what gets printed:

- **the poll command** (`Poll`, after `cmd/poll.go`): how the interval is
  parsed and bounded, how one output line is built, and the cadence loop.
  The loop advances a target time by one interval per pass, takes the
  latest scan from the service, compares the scan's time with the target,
  and then prints the scan, repeats the previous scan once, or skips. It
  re-anchors the target when a scan is more than half an interval late.
  The loop is a `method` over a finite sequence of select outcomes. It is
  proved equal to a step function (`Step`) folded over those events
  (`RunEvents`), and whole-run properties are proved about that fold.
- **the SNMP service** (`Snmp`, after `snmp/service.go`): a class holding
  host, port, the connected flag, the gosnmp session parameters and the
  single-slot scan cache. The sampler writes to the cache and `GetScan`
  empties it. The sampler goroutine is a loop over a finite sequence of
  timer ticks.
- **the configuration** (`Config`, after `config/configuration.go`):
  - the model selection (the package globals `curModelGroup`/`curModelNdx`)
    as a class;
  - the OID list builders and `ModelInfo`;
  - the value decoders `reverseBits`, `bitmapString` and `ValueString`.
- **the command layer** (`Cmd`, after `cmd/cmd.go`): the interval bounds,
  the package OID tables filled by `initOids`, and `queryForModel`, which
  identifies the controller model.

Supporting modules:

- `Bits`: uint64 arithmetic, shifts and bit access.
- `GoText`: decimal and binary text, `strconv.ParseUint`, `%0<w>d`,
  `strings.TrimRight`.
- `Clock`: instants as integer nanoseconds, `Time.Round`, Go's truncating
  `Duration` division, and the UTC calendar breakdown that `formatScan`
  prints.

Where the code and its comments disagree, the model follows the code:

- A scan more than half an interval in the future (`cmd/poll.go:214-219`)
  re-anchors the target and IS printed, because that branch has no
  `continue`.
- A scan more than half an interval early (`cmd/poll.go:220-235`) is never
  printed in that pass. When a previous scan exists and was not repeated
  last time, that scan becomes the current one, but nothing is printed.
- The "initial rpm scan received" notice (`cmd/poll.go:195-199`) is logged
  for the first scan that arrives after a gap, before the scan is
  classified. It is not logged only for on-time scans.

## Model

| member | source | states |
|---|---|---|
| Clock.Round | cmd/poll.go:164 | Time.Round: the result is a multiple of d within half an interval of t; halfway cases round up |
| Clock.RoundUnique | cmd/poll.go:218 | the multiple of d nearest to t (ties upward) is unique, so Round is exactly that multiple |
| Clock.Quo | cmd/poll.go:134 | Duration division truncates toward zero: the remainder has the sign of the dividend and is smaller than the divisor |
| Clock.CivilRoundTrip | cmd/poll.go:59-67 | the year/month/day/hour/minute/second printed for an instant is the whole second containing that instant |
| GoText.ParseUint | snmp/service.go:72 | strconv.ParseUint reads left to right, and the first problem decides the outcome. The result is a value iff the text is non-empty decimal digits whose value fits in bitSize bits. It is a syntax error iff the text is empty or a non-digit comes before the digits so far exceed the maximum. Anything else is a range error |
| GoText.OverflowBeforeSyntax | snmp/service.go:72 | "70000x" at 16 bits is a range error: the overflow comes before the "x" |
| GoText.ParseDecimal | snmp/service.go:72 | any value that fits, written in decimal, parses back to itself |
| GoText.TrimRightCutSuffix | config/configuration.go:248 | trailing cut characters are removed without touching what precedes them |
| Config.ReverseBits | config/configuration.go:227-236 | the loop over num's bits with wrapping uint64 power computes ReversedBits(num, len) |
| Config.ReversedBitAt | config/configuration.go:227-236 | bit j of the result is bit len-1-j of num when both positions lie in the word; every other bit is clear |
| Config.ReversedBitsFit | config/configuration.go:227-236 | for len <= 64 the result is below 2^len |
| Config.ReverseBitsOfZero | config/configuration.go:230 | reversing 0 gives 0 for any len |
| Config.ReverseBitsInvolution | config/configuration.go:227-236 | reversing twice restores any value that fits in len <= 64 bits |
| Config.BitmapString | config/configuration.go:238-249 | the loop over 64 positions yields the labels of the set bits followed by ", ", with trailing separators trimmed |
| Config.BitmapLabelMembership | config/configuration.go:241-245 | position i is reported iff it has a label, is below 64 and its bit is set |
| Config.ChosenAscending | config/configuration.go:241 | labels are reported in ascending bit order |
| Config.BitmapTextJoin | config/configuration.go:238-249 | with labels that do not end in a space or comma, the text is the labels joined by ", " and is empty iff no label is reported |
| Config.BitmapTextEmpty | config/configuration.go:238-249 | no reported label gives the empty text, whatever the labels are |
| Config.ValueString | config/configuration.go:73-99 | "string" and unknown types return the raw text. "map" returns Values at the parsed index. "bitreverse" returns the binary text of the parsed value reversed over the Scaling width. "bitmap" returns bitmapString of the parsed value, or "None" when that is empty |
| Config.BitReverseString | config/configuration.go:81-84 | the "bitreverse" text consists of binary digits only |
| Config.BitReverseStringValue | config/configuration.go:81-84 | for widths 1..64 the text has exactly w digits and reads back as reverseBits(val, w) |
| Config.LastMatch | config/configuration.go:218-225 | the last group with the given name; none iff no group has it |
| Config.LastListing | config/configuration.go:207-212 | the last group whose model list names the model; none iff no group lists it |
| Config.Selection.constructor | config/configuration.go:12-13 | no model is selected at start (empty group, index 0) |
| Config.Selection.SetModel | config/configuration.go:218-225 | selects the last group with that name; with no such group the selection is unchanged; consistency is kept |
| Config.Selection.StaticOids | config/configuration.go:102-105 | the EMC OIDs followed by the selected group's static OIDs |
| Config.Selection.DataOidsInfo | config/configuration.go:150-174 | error iff no model is selected; otherwise status, measurement, alarm and fault OIDs in that order, with their OIDs in the same order |
| Config.Selection.StaticOidsInfo | config/configuration.go:177-196 | error iff no model is selected; otherwise the EMC OIDs then the group's static OIDs, with their OIDs |
| Config.CollectOids | config/configuration.go:168-170 | one OID per metadata entry, in order |
| Config.ModelInfo | config/configuration.go:199-216 | every group's model OID in group order; a model is in the map iff some group lists it, and it maps to the last such group's name |
| Snmp.CopyScan | snmp/service.go:28-40 | the copy has the same timestamp, keys and values |
| Snmp.CopyIsEqual | snmp/service.go:28-40 | such a copy equals the original scan |
| Snmp.SnmpService.constructor | snmp/service.go:56-63 | a new service is not ready, has no session and no scan |
| Snmp.SnmpService.Initialize | snmp/service.go:66-86 | a bad port returns ParseUint's error and changes nothing; a good one stores host and port and drops the connection |
| Snmp.SnmpService.Connect | snmp/service.go:89-116 | already connected gives an error and no change; a dial failure clears the session; success stores the session and sets ready |
| Snmp.SnmpService.SaveScan | snmp/service.go:162-167 | the slot holds the new scan, whatever it held before |
| Snmp.SnmpService.GetScan | snmp/service.go:170-182 | empty slot: current time, no data, "scan unavailable"; full slot: its scan; the slot is empty afterwards |
| Snmp.SnmpService.QueryDeviceVars | snmp/service.go:150-159 | a failed query returns its error and leaves the slot; an answer is saved |
| Snmp.SnmpService.PollStart | snmp/service.go:185-227 | the period is a third of the sample interval; not ready gives an error; timers fire at anchor + k * period and the slot ends with the latest answer |
| Snmp.SnmpService.RunSampler | snmp/service.go:202-224 | the sampler handles ticks until cancel, each timer due one period after the last, and the slot follows SlotAfter |
| Snmp.SnmpService.InitAndConnect | snmp/service.go:230-245 | a good port stores host and port; a bad one is only logged and changes neither. Connect follows: on a dial failure its error, not ready, no session; on success ready, with a session for host, the port truncated to uint16 and the community; a bad port on a connected service gives "already connected" and no change. The scan slot and the period are untouched |
| Snmp.FailedQueryKeepsSlot | snmp/service.go:213-216 | a failed query leaves the slot as it was |
| Snmp.SlotHoldsLatest | snmp/service.go:162-167 | the slot holds the latest answer; older unconsumed ones are overwritten |
| Snmp.SlotWithoutAnswers | snmp/service.go:213-216 | without answers the slot keeps its value |
| Cmd.ModelGroupOf | config/configuration.go:207-212 | the group a model maps to in ModelInfo's map, "" when unlisted |
| Cmd.OidTables.InitOids | cmd/cmd.go:119-137 | without a model: the error, cleared static tables, nothing else touched; otherwise static and data tables from the selection and allOids = static then data |
| Cmd.PickModel | cmd/cmd.go:179-184 | the model is "" or an answer other than "0" with its mapped group; with no empty answers a model is found iff some answer is not "0" |
| Cmd.QueryForModel | cmd/cmd.go:159-193 | a connect failure returns before any query; the model OIDs are asked; a query error passes through; otherwise ModelOutcome holds and the selection stays consistent; the service ends as InitAndConnect leaves it (host, port, ready and session), with the scan slot and period untouched |
| Cmd.QueryConnected | cmd/cmd.go:172-184 | the OIDs asked are the groups' model OIDs; a failure passes through; answers give ModelOutcome |
| Cmd.ModelFromAnswers | cmd/cmd.go:179-192 | no model gives ModelNotFound with the selection untouched; a model selects its group through SetModel |
| Poll.RoundHalfEven | cmd/poll.go:136 | %.0f: the nearest integer, ties to the even one |
| Poll.SecondsTextWhole | cmd/poll.go:44-51 | a whole number of seconds prints as its decimal digits |
| Poll.RangeMessageBounds | cmd/poll.go:44-51 | the range error reads "must be between 1 and 60 seconds" |
| Poll.GetSampleInterval | cmd/poll.go:36-55 | as written: a parse error passes through; a parsed value is accepted iff it is NaN or lies in [1, 60], otherwise the range message |
| Poll.GetSampleIntervalAcceptsNaN | cmd/poll.go:43 | the text "NaN" is accepted, because NaN is neither below 1 nor above 60 |
| Poll.GetSampleIntervalChecked | cmd/poll.go:43-52 | with the range test corrected: a parsed value is accepted iff it is a finite number in [1, 60] |
| Poll.GetSampleIntervalAgree | cmd/poll.go:43 | the two range tests give the same result for everything except NaN, which the corrected one rejects with the range message |
| Poll.PollArgsParse | cmd/poll.go:96-114 | as written: no arguments is an error; one or two arguments index past the end |
| Poll.IntervalOf | cmd/poll.go:109-110 | an accepted finite value becomes its whole seconds, truncated toward zero, which lie in [1 s, 60 s]; NaN gives an interval Go leaves to the implementation |
| Poll.ArgsFromThird | cmd/poll.go:104-112 | an interval iff args[2] parses to a finite number in [1, 60]; the interval is its truncated whole seconds; NaN gives an undefined interval |
| Poll.PollArgsParseChecked | cmd/poll.go:96-114 | with the guard and the range test corrected: fewer than three arguments is an error, NaN never gets through, and any interval lies in [1 s, 60 s] in whole seconds |
| Poll.PollArgsParsePanics | cmd/poll.go:100-104 | "host poll" panics as written and is an error when corrected |
| Poll.PollArgsParseAgree | cmd/poll.go:104-112 | with three or more arguments the two versions agree, except that NaN gives an undefined interval as written and the range error when corrected |
| Poll.FieldsInGroupOrder | cmd/poll.go:76-82 | a line lists status, then measurement, then alarm, then fault fields |
| Poll.FieldsOnlyListed | cmd/poll.go:77-82 | values of OIDs outside the list never affect the line |
| Poll.FormatScan | cmd/poll.go:57-86 | the header (date, net, sta, loc, interval), then " chancode:value" per data OID of the selected model |
| Poll.AppendFields | cmd/poll.go:77-82 | the loop appends one field per OID, in order |
| Poll.Start | cmd/poll.go:164 | the first target is the multiple of d nearest to now, plus d; the first pass waits for one more d |
| Poll.Step | cmd/poll.go:170-241 | one pass of the loop: missing scans never print and log once per gap; scans more than d/2 early never print and repeat the previous scan at most once in a row; other scans print; scans more than d/2 late re-anchor; the target stays on the grid |
| Poll.RunAfterExit | cmd/poll.go:202-205 | nothing is read after the stop signal |
| Poll.PrintedAt | cmd/poll.go:239 | printed line k is record k formatted |
| Poll.PollLoop | cmd/poll.go:164-241 | the printed lines are formatScan of the records of RunEvents, and the log is RunEvents' log |
| Poll.ScanArrived | cmd/poll.go:195-239 | the loop body for a scan that arrived is exactly Step's result |
| Poll.PrintScan | cmd/poll.go:239 | printing appends the formatted record |
| Poll.TargetsOnGrid | cmd/poll.go:172 | the target stays a multiple of d and advances by at least d per pass |
| Poll.OnScheduleAllPrinted | cmd/poll.go:210-239 | scans that each arrive within half an interval of their target are all printed, in order, with no re-anchoring |
| Poll.MissesLogOnce | cmd/poll.go:181-188 | a run of missing scans prints nothing and logs "no rpm scan" at most once |
| Poll.EarlyTwice | cmd/poll.go:220-235 | after an early scan that repeated, a second early scan neither prints nor repeats, and starts a gap |
| Poll.PollCommand | cmd/poll.go:117-248 | Poll panics iff there are fewer than three arguments (args[0] is read first, then args[2]); an interval error is returned; an interval of "NaN" is undefined; with a valid port the run finishes iff the second connect succeeds, a dial failure is returned as the error, and the output is the loop's; with an unparsable port the second connect gives "already connected" when the service was already connected or the first dial succeeded, and otherwise the second dial decides; the selection stays consistent |
| Poll.PollRun | cmd/poll.go:138-248 | a dial failure is returned as the error; an unparsable port on a connected service gives "already connected"; otherwise the sampler starts and the output is the loop's |

## Left out

- Concurrency is not modelled: goroutines, `select`, contexts, the WaitGroup, the mutex, signal setup (`setupSignals`), and the unlocked nil check in `GetScan`. The sampler and the loop are sequences of select outcomes.
- gosnmp is not modelled: what `QueryOids` returns and whether dialing fails are inputs (`QueryOutcome`, `dialError`). `Close` is left out.
- The wall clock is not modelled: `time.Now` is a parameter and timers are not modelled, only their due times.
- Floating point is not modelled:
  - `strconv.ParseFloat` and `%f` are function parameters of `GetSampleInterval`. A parsed float is a finite real, NaN or an infinity. `ParseFloat` with bitSize 32 rounds the text to float32; that rounding is left to the `parseFloat` parameter, so acceptance at the bounds is decided on the rounded value (for example "0.99999999" rounds to 1).
  - The "number" case of `ValueString` is a parameter.
  - The float32 round trip in `pollArgsParse` is taken to be exact on the finite accepted range.
  - `math.Pow(2, ndx)` in `bitmapString` is a bit test, which is exact for ndx < 64.
- Config.ValueString: the unknown-type case does not model its debug print to stdout. "bitreverse" requires a non-negative Scaling whose integer part is at most 1,000,000, because a negative Scaling makes the `uint` conversion implementation-defined; 1,000,000 is this model's own bound, and the widths between it and the largest width `fmt` accepts are not modelled. "map" requires an index inside Values, because Go panics otherwise.
- Config.Selection.StaticOids: requires a valid group index. Go panics when DeviceGroups is empty, because the index stays 0 and `StaticOids` does not check for a selected model (`config/configuration.go:103`).
- Poll.FormatScan: `ValueString` is a `render` parameter, so the line does not depend on the decoders' float cases.
- Poll.PollLoop: requires d > 0. `pollArgsParse` guarantees this (at least 1 s) for every finite value it accepts, but not for NaN; see the next line.
- Poll.GetSampleInterval: NaN passes the range test (`cmd/poll.go:43`). `time.Duration(float32(NaN))` at `cmd/poll.go:109-110` is implementation-dependent in Go. So the model stops there with `PollUndefined` and does not model the run with the resulting interval.
- Poll.PollCommand: the sampler's ticks and the loop's events are independent inputs, so how they interleave in time is not modelled. `cancel` and `wg.Wait` at the end are not modelled. Debug log lines, the notices and the text of `logDeviceInfo` are left out.
- Poll.PollArgsParsePanics, Poll.PollArgsParseAgree, Poll.GetSampleIntervalAcceptsNaN and Poll.GetSampleIntervalAgree: these follow from the definitions alone.
- Snmp.PortError: the exact error text of `strconv.ParseUint` is not modelled beyond its cause, and `%q` escaping is not modelled.
- `NewTSMCmdService`, `main.go`, the status command, the TUI, the serializer and the logger are not part of this model.

## Findings

| source | as written | input that shows it | evidently intended | confidence | as-written member | corrected member |
|---|---|---|---|---|---|---|
| cmd/poll.go:100-104 | guards `len(args) < 1` and then reads `args[2]` | args `["host", "poll"]` passes the guard and indexes past the end | `len(args) < 3`, returning the "not enough parameters" error | not executed | Poll.PollArgsParse (shown by Poll.PollArgsParsePanics) | Poll.PollArgsParseChecked |
| cmd/poll.go:43 | rejects `val < 1 \|\| val > 60`, which is false for NaN | interval argument "NaN" (ParseFloat accepts it) is returned as valid and converted to a Duration | reject any value not within [1, 60], NaN included | not executed | Poll.GetSampleInterval (shown by Poll.GetSampleIntervalAcceptsNaN) | Poll.GetSampleIntervalChecked |
