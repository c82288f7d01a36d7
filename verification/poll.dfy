/**
 * The poll command: validation of the sample interval, the text of one
 * output record, and the cadence loop that takes a scan from the service
 * once per interval, checks its time against the target time, and prints
 * it, repeats the previous one, or skips.
 */
module Poll {
  import opened Common
  import opened GoText
  import opened Clock
  import opened Config
  import opened Cmd
  import opened Snmp

  // ---- the sample interval ----

  /** Duration.Seconds(): a duration as a number of seconds. */
  function SecondsOf(d: int): real
  {
    d as real / Second as real
  }

  /** The "%.0f" text of Seconds(): rounded to the nearest integer, ties to even; a negative value rounding to 0 prints "-0". */
  function SecondsText(d: int): (s: string)
    ensures |s| >= 1
  {
    var k := RoundHalfEven(d, Second);
    if k < 0 then "-" + Decimal(-k)
    else if k == 0 && d < 0 then "-0"
    else Decimal(k)
  }

  /** The integer nearest to n / q, ties to the even one. */
  function RoundHalfEven(n: int, q: int): (k: int)
    requires q > 0
    ensures -q <= 2 * (n - k * q) <= q
    ensures 2 * (n - k * q) == q || 2 * (n - k * q) == -q ==> k % 2 == 0
  {
    var f, r := n / q, n % q;
    assert n - f * q == r && n - (f + 1) * q == r - q by {
      assert n == q * f + r;
      assert (f + 1) * q == f * q + q;
    }
    if 2 * r < q then f
    else if 2 * r > q then f + 1
    else if f % 2 == 0 then f
    else f + 1
  }

  /** A whole number of seconds prints as its decimal digits. */
  lemma SecondsTextWhole(k: nat)
    ensures SecondsText(k * Second) == Decimal(k)
  {
    var n := k * Second;
    assert n / Second == k && n % Second == 0 by {
      MultipleMod(k, Second);
    }
  }

  /** The text of getSampleInterval's range error; val is the rejected value as %f prints it. */
  function RangeMessage(valText: string): string
  {
    "invalid sample interval " + valText + " must be between "
      + SecondsText(MinSampleInterval) + " and " + SecondsText(MaxSampleInterval) + " seconds"
  }

  /** The bounds in the range message read 1 and 60. */
  lemma RangeMessageBounds(valText: string)
    ensures RangeMessage(valText)
      == "invalid sample interval " + valText + " must be between 1 and 60 seconds"
  {
    SecondsTextWhole(1);
    SecondsTextWhole(60);
    assert Decimal(60) == "60";
  }

  /** A float64 as strconv.ParseFloat can return it: a finite value, NaN, or an infinity. */
  datatype Float = Finite(value: real) | NaN | Inf(negative: bool)

  /** Go's x < r for a finite bound r; false when x is NaN. */
  predicate Below(x: Float, r: real)
  {
    (x.Finite? && x.value < r) || x == Inf(true)
  }

  /** Go's x > r for a finite bound r; false when x is NaN. */
  predicate Above(x: Float, r: real)
  {
    (x.Finite? && x.value > r) || x == Inf(false)
  }

  /**
   * getSampleInterval as written: parse the text as a float (parseFloat
   * stands for strconv.ParseFloat and fixed for %f) and reject it when it
   * lies below or above the interval bounds. NaN is neither, so it passes.
   */
  function GetSampleInterval(intstr: string, parseFloat: string -> Result<Float>, fixed: Float -> string)
    : (r: Result<Float>)
    ensures parseFloat(intstr).Err? ==> r == parseFloat(intstr)
    ensures parseFloat(intstr).Ok? ==>
      (r.Ok? <==> parseFloat(intstr).value.NaN?
                  || (parseFloat(intstr).value.Finite? && 1.0 <= parseFloat(intstr).value.value <= 60.0))
    ensures r.Ok? ==> r == parseFloat(intstr)
    ensures parseFloat(intstr).Ok? && r.Err? ==> r.msg == RangeMessage(fixed(parseFloat(intstr).value))
  {
    match parseFloat(intstr)
    case Err(e) => Err(e)
    case Ok(val) =>
      if Below(val, SecondsOf(MinSampleInterval)) || Above(val, SecondsOf(MaxSampleInterval)) then
        Err(RangeMessage(fixed(val)))
      else Ok(val)
  }

  /** The text "NaN" parses to NaN, which the range test lets through. */
  lemma GetSampleIntervalAcceptsNaN(intstr: string, parseFloat: string -> Result<Float>, fixed: Float -> string)
    requires parseFloat(intstr) == Ok(NaN)
    ensures GetSampleInterval(intstr, parseFloat, fixed) == Ok(NaN)
  {
  }

  /** getSampleInterval with the range test it needs: accept only a value inside the bounds. */
  function GetSampleIntervalChecked(intstr: string, parseFloat: string -> Result<Float>, fixed: Float -> string)
    : (r: Result<Float>)
    ensures parseFloat(intstr).Err? ==> r == parseFloat(intstr)
    ensures parseFloat(intstr).Ok? ==>
      (r.Ok? <==> parseFloat(intstr).value.Finite? && 1.0 <= parseFloat(intstr).value.value <= 60.0)
    ensures r.Ok? ==> r == parseFloat(intstr)
    ensures parseFloat(intstr).Ok? && r.Err? ==> r.msg == RangeMessage(fixed(parseFloat(intstr).value))
  {
    match parseFloat(intstr)
    case Err(e) => Err(e)
    case Ok(val) =>
      if !(val.Finite? && SecondsOf(MinSampleInterval) <= val.value <= SecondsOf(MaxSampleInterval)) then
        Err(RangeMessage(fixed(val)))
      else Ok(val)
  }

  /** The two range tests differ on NaN only. */
  lemma GetSampleIntervalAgree(intstr: string, parseFloat: string -> Result<Float>, fixed: Float -> string)
    ensures parseFloat(intstr) != Ok(NaN) ==>
      GetSampleIntervalChecked(intstr, parseFloat, fixed) == GetSampleInterval(intstr, parseFloat, fixed)
    ensures parseFloat(intstr) == Ok(NaN) ==>
      GetSampleIntervalChecked(intstr, parseFloat, fixed) == Err(RangeMessage(fixed(NaN)))
  {
  }

  /**
   * What pollArgsParse can do: return an interval, return an error, panic
   * on an out-of-range index, or convert a NaN to a Duration, whose value
   * Go leaves to the implementation.
   */
  datatype ArgsOutcome = Interval(d: int) | ArgsError(msg: string) | IndexOutOfRange | NaNInterval

  const NotEnoughParams: string := "not enough parameters, polling interval must be specified"

  /**
   * The Duration an accepted sample interval becomes: float32, then a
   * whole number of seconds truncated toward zero.
   */
  function IntervalOf(r: Result<Float>): (a: ArgsOutcome)
    requires r.Ok? ==> r.value.NaN? || (r.value.Finite? && 1.0 <= r.value.value <= 60.0)
    ensures r.Err? ==> a == ArgsError(r.msg)
    ensures a.NaNInterval? <==> r == Ok(NaN)
    ensures a.Interval? <==> r.Ok? && r.value.Finite?
    ensures a.Interval? ==>
      a.d == r.value.value.Floor * Second
      && MinSampleInterval <= a.d <= MaxSampleInterval && a.d % Second == 0
  {
    if r.Err? then ArgsError(r.msg)
    else if r.value.NaN? then NaNInterval
    else
      var secs := r.value.value.Floor;
      MultipleMod(secs, Second);
      Interval(secs * Second)
  }

  /**
   * pollArgsParse as written: it guards against fewer than one argument
   * but reads the third.
   */
  function PollArgsParse(args: seq<string>, parseFloat: string -> Result<Float>, fixed: Float -> string)
    : (r: ArgsOutcome)
    ensures |args| == 0 ==> r == ArgsError(NotEnoughParams)
    ensures 1 <= |args| < 3 ==> r == IndexOutOfRange
  {
    if |args| < 1 then ArgsError(NotEnoughParams)
    else if |args| < 3 then IndexOutOfRange
    else ArgsFromThird(args, parseFloat, fixed)
  }

  /** The interval read from args[2], once three arguments are known to exist. */
  function ArgsFromThird(args: seq<string>, parseFloat: string -> Result<Float>, fixed: Float -> string)
    : (r: ArgsOutcome)
    requires |args| >= 3
    ensures !r.IndexOutOfRange?
    ensures r.NaNInterval? <==> parseFloat(args[2]) == Ok(NaN)
    ensures r.Interval? <==>
      parseFloat(args[2]).Ok? && parseFloat(args[2]).value.Finite? && 1.0 <= parseFloat(args[2]).value.value <= 60.0
    ensures r.Interval? ==>
      r.d == parseFloat(args[2]).value.value.Floor * Second
      && MinSampleInterval <= r.d <= MaxSampleInterval && r.d % Second == 0
  {
    IntervalOf(GetSampleInterval(args[2], parseFloat, fixed))
  }

  /**
   * pollArgsParse with the guards it needs: fewer than three arguments is
   * an error, never a panic, and NaN is rejected by the range test.
   */
  function PollArgsParseChecked(args: seq<string>, parseFloat: string -> Result<Float>, fixed: Float -> string)
    : (r: ArgsOutcome)
    ensures !r.IndexOutOfRange? && !r.NaNInterval?
    ensures |args| < 3 ==> r == ArgsError(NotEnoughParams)
    ensures r.Interval? ==> MinSampleInterval <= r.d <= MaxSampleInterval && r.d % Second == 0
  {
    if |args| < 3 then ArgsError(NotEnoughParams)
    else IntervalOf(GetSampleIntervalChecked(args[2], parseFloat, fixed))
  }

  /** The command line "host poll" passes the guard and then indexes past the end. */
  lemma PollArgsParsePanics(parseFloat: string -> Result<Float>, fixed: Float -> string)
    ensures PollArgsParse(["host", "poll"], parseFloat, fixed) == IndexOutOfRange
    ensures PollArgsParseChecked(["host", "poll"], parseFloat, fixed) == ArgsError(NotEnoughParams)
  {
  }

  /** With three or more arguments the two agree, except that the corrected one rejects NaN. */
  lemma PollArgsParseAgree(args: seq<string>, parseFloat: string -> Result<Float>, fixed: Float -> string)
    requires |args| >= 3
    ensures parseFloat(args[2]) != Ok(NaN) ==>
      PollArgsParse(args, parseFloat, fixed) == PollArgsParseChecked(args, parseFloat, fixed)
    ensures parseFloat(args[2]) == Ok(NaN) ==>
      PollArgsParse(args, parseFloat, fixed) == NaNInterval
      && PollArgsParseChecked(args, parseFloat, fixed) == ArgsError(RangeMessage(fixed(NaN)))
  {
    GetSampleIntervalAgree(args[2], parseFloat, fixed);
  }

  // ---- formatScan ----

  /** A Go map lookup: the stored value, or "" for a missing key. */
  function Lookup(scan: map<string, string>, oid: string): string
  {
    if oid in scan then scan[oid] else ""
  }

  /** The leading fields of a record: scan time, net, sta, loc and the interval in seconds. */
  function Header(d: int, general: General, ts: int): string
  {
    DateText(ts) + " " + general.net + " " + general.sta + " " + general.loc + " " + SecondsText(d)
  }

  /** One " chancode:value" field; render stands for OidInfo.ValueString. */
  function Field(info: OidInfo, scan: map<string, string>, render: (OidInfo, string) -> string): string
  {
    " " + info.chancode + ":" + render(info, Lookup(scan, info.oid))
  }

  /** The fields of infos, in order. */
  function FieldsText(infos: seq<OidInfo>, scan: map<string, string>, render: (OidInfo, string) -> string): string
  {
    if infos == [] then ""
    else FieldsText(infos[..|infos| - 1], scan, render) + Field(infos[|infos| - 1], scan, render)
  }

  /** One output record. */
  function ScanLine(d: int, general: General, infos: seq<OidInfo>, ts: int, scan: map<string, string>,
                    render: (OidInfo, string) -> string): string
  {
    Header(d, general, ts) + FieldsText(infos, scan, render)
  }

  /** The data OIDs DataOidsInfo yields for the current selection; none when no model is set. */
  function ActiveInfos(cfg: TSMConfig, sel: Selection): seq<OidInfo>
    reads sel
    requires sel.group != "" ==> 0 <= sel.index < |cfg.deviceGroups|
  {
    if sel.group == "" then [] else DataInfoList(cfg.deviceGroups[sel.index])
  }

  /** Fields of a concatenation are the concatenated fields. */
  lemma {:induction false} FieldsAppend(a: seq<OidInfo>, b: seq<OidInfo>, scan: map<string, string>,
                                        render: (OidInfo, string) -> string)
    ensures FieldsText(a + b, scan, render) == FieldsText(a, scan, render) + FieldsText(b, scan, render)
  {
    if b == [] {
      assert a + b == a;
    } else {
      assert (a + b)[..|a + b| - 1] == a + b[..|b| - 1];
      FieldsAppend(a, b[..|b| - 1], scan, render);
    }
  }

  /** A record lists the status fields, then measurements, then alarms, then faults. */
  lemma FieldsInGroupOrder(g: DeviceInfo, scan: map<string, string>, render: (OidInfo, string) -> string)
    ensures FieldsText(DataInfoList(g), scan, render)
      == FieldsText(g.status, scan, render) + FieldsText(g.measurements, scan, render)
       + FieldsText(g.alarms, scan, render) + FieldsText(g.faults, scan, render)
  {
    FieldsAppend(g.status + g.measurements + g.alarms, g.faults, scan, render);
    FieldsAppend(g.status + g.measurements, g.alarms, scan, render);
    FieldsAppend(g.status, g.measurements, scan, render);
  }

  /** Two scans with the same values for every listed OID give the same fields; other OIDs are never printed. */
  lemma {:induction false} FieldsOnlyListed(infos: seq<OidInfo>, s1: map<string, string>, s2: map<string, string>,
                                            render: (OidInfo, string) -> string)
    requires forall i :: 0 <= i < |infos| ==> Lookup(s1, infos[i].oid) == Lookup(s2, infos[i].oid)
    ensures FieldsText(infos, s1, render) == FieldsText(infos, s2, render)
  {
    if infos != [] {
      FieldsOnlyListed(infos[..|infos| - 1], s1, s2, render);
    }
  }

  /** formatScan: the header, then one field per data OID of the selected model. */
  method FormatScan(d: int, cfg: TSMConfig, sel: Selection, ts: int, scan: map<string, string>,
                    render: (OidInfo, string) -> string)
    returns (outstr: string)
    requires sel.group != "" ==> 0 <= sel.index < |cfg.deviceGroups|
    ensures outstr == ScanLine(d, cfg.general, ActiveInfos(cfg, sel), ts, scan, render)
  {
    outstr := DateText(ts);
    outstr := outstr + " " + cfg.general.net + " " + cfg.general.sta + " " + cfg.general.loc + " " + SecondsText(d);
    var r := sel.DataOidsInfo(cfg);
    outstr := AppendFields(outstr, InfosOrNil(r), scan, render);
  }

  /** formatScan's loop: append " chancode:value" for each OID, in order. */
  method AppendFields(prefix: string, oidInfos: seq<OidInfo>, scan: map<string, string>,
                      render: (OidInfo, string) -> string)
    returns (outstr: string)
    ensures outstr == prefix + FieldsText(oidInfos, scan, render)
  {
    outstr := prefix;
    for i := 0 to |oidInfos|
      invariant outstr == prefix + FieldsText(oidInfos[..i], scan, render)
    {
      assert oidInfos[..i + 1][..i] == oidInfos[..i];
      var oidinfo := oidInfos[i];
      var oid := oidinfo.oid;
      var field := " " + oidinfo.chancode + ":" + render(oidinfo, Lookup(scan, oid));
      AppendAssoc(prefix, FieldsText(oidInfos[..i], scan, render), field);
      outstr := outstr + field;
    }
    assert oidInfos[..|oidInfos|] == oidInfos;
  }

  lemma AppendAssoc(a: string, b: string, c: string)
    ensures (a + b) + c == a + (b + c)
  {
  }

  // ---- the cadence loop ----

  /** What the loop reads from its select: the stop signal, or GetScan's time and data (None for nil). */
  datatype Event = Stop | Taken(ts: int, data: Option<map<string, string>>)

  /** A printed record: the scan's time and data. */
  datatype Record = Record(ts: int, data: map<string, string>)

  /** The messages the loop logs at notice level and above. */
  datatype LogLine =
    | NoScanAvailable
    | InitialScan(ts: int, data: map<string, string>)
    | FutureScan(ts: int, target: int)
    | MissingScan(ts: int, target: int)
    | RepeatingPrevious

  /** The loop variables. */
  datatype LoopState = LoopState(
    target: int,
    first: bool,
    scanMissed: bool,
    scanRepeated: bool,
    scan: Option<map<string, string>>,
    prevScan: Option<map<string, string>>,
    exiting: bool)

  datatype StepResult = StepResult(next: LoopState, out: Option<Record>, logs: seq<LogLine>)

  /** The target time the next iteration waits for: one interval past the current one. */
  function Due(d: int, st: LoopState): int
  {
    st.target + d
  }

  /** The variables as the loop starts: the target is the multiple of d nearest to now, plus d. */
  function Start(d: int, now: int): (st: LoopState)
    ensures d > 0 ==> st.target % d == 0 && -d < 2 * (st.target - d - now) <= d
    ensures Due(d, st) == Round(now, d) + 2 * d
    ensures st.first && !st.scanMissed && !st.scanRepeated && st.scan.None? && st.prevScan.None? && !st.exiting
  {
    assert d > 0 ==> (Round(now, d) + d) % d == 0 by {
      if d > 0 {
        AddPeriod(Round(now, d), d);
      }
    }
    LoopState(Round(now, d) + d, true, false, false, None, None, false)
  }

  lemma AddPeriod(t: int, d: int)
    requires d > 0 && t % d == 0
    ensures (t + d) % d == 0
  {
    assert t == d * (t / d);
    assert t + d == d * (t / d + 1);
    MultipleMod(t / d + 1, d);
  }

  /** A multiple of d that lies past another multiple lies at least d past it. */
  lemma NextMultiple(r: int, due: int, d: int)
    requires d > 0 && r % d == 0 && due % d == 0 && r > due
    ensures r >= due + d
  {
    var a, b := r / d, due / d;
    assert r == d * a;
    assert due == d * b;
    assert r - due == d * (a - b);
    assert !(a - b <= 0);
    MulAtLeast(d, a - b);
  }

  /** Re-anchoring on a scan more than half an interval late moves the target at least one interval ahead. */
  lemma ReanchorAhead(ts: int, due: int, d: int)
    requires d > 0 && due % d == 0 && ts - due > Quo(d, 2)
    ensures Round(ts, d) % d == 0 && Round(ts, d) >= due + d
  {
    var r := Round(ts, d);
    assert 2 * r > 2 * ts - d;
    assert 2 * Quo(d, 2) >= d - 1;
    NextMultiple(r, due, d);
  }

  /**
   * One pass of the loop body. A missing scan is never printed; a scan
   * whose offset from the target is at least -d/2 is printed, re-anchoring
   * the target when the offset exceeds +d/2; an earlier scan is not printed
   * and the previous scan is repeated into the state at most once in a row.
   */
  function Step(d: int, st: LoopState, ev: Event): (r: StepResult)
    requires d > 0 && !st.exiting
    ensures ev.Stop? ==>
      r.next == st.(target := Due(d, st), exiting := true) && r.out.None? && r.logs == []
    ensures ev.Taken? ==> !r.next.exiting && r.next.prevScan == st.scan
    ensures ev.Taken? && ev.data.None? ==>
      && r.out.None? && r.next.first && r.next.scanMissed && r.next.scan.None?
      && r.next.target == Due(d, st) && r.next.scanRepeated == st.scanRepeated
      && (r.logs == [NoScanAvailable] <==> !st.scanMissed) && (r.logs == [] <==> st.scanMissed)
    ensures ev.Taken? && ev.data.Some? ==>
      && !r.next.scanMissed
      && (r.out.Some? <==> ev.ts - Due(d, st) >= -Quo(d, 2))
      && (r.out.Some? ==> r.out.value == Record(ev.ts, ev.data.value) && !r.next.scanRepeated && r.next.scan == ev.data)
      && (ev.ts - Due(d, st) > Quo(d, 2) ==> r.next.target == Round(ev.ts, d) && r.next.first)
      && (ev.ts - Due(d, st) <= Quo(d, 2) ==> r.next.target == Due(d, st))
      && (-Quo(d, 2) <= ev.ts - Due(d, st) <= Quo(d, 2) ==> !r.next.first)
      && (|r.logs| > 0 && r.logs[0] == InitialScan(ev.ts, ev.data.value) <==> st.first)
    ensures ev.Taken? && ev.data.Some? && r.out.None? ==>
      && (st.scan.Some? && !st.scanRepeated ==>
            r.next.scanRepeated && r.next.scan == st.scan && !r.next.first && RepeatingPrevious in r.logs)
      && (!(st.scan.Some? && !st.scanRepeated) ==>
            r.next.first && r.next.scanRepeated == st.scanRepeated && r.next.scan == ev.data
            && RepeatingPrevious !in r.logs)
    ensures st.scanRepeated && !r.next.scanRepeated ==> r.out.Some?
    ensures st.target % d == 0 ==> r.next.target % d == 0 && r.next.target >= Due(d, st)
  {
    var target := Due(d, st);
    assert st.target % d == 0 ==> target % d == 0 by {
      if st.target % d == 0 {
        AddPeriod(st.target, d);
      }
    }
    match ev
    case Stop => StepResult(st.(target := target, exiting := true), None, [])
    case Taken(ts, got) =>
      var prevScan := st.scan;
      match got
      case None =>
        StepResult(st.(target := target, first := true, scanMissed := true, scan := None, prevScan := prevScan),
                   None, if st.scanMissed then [] else [NoScanAvailable])
      case Some(data) =>
        var greeted := if st.first then [InitialScan(ts, data)] else [];
        var offset := ts - target;
        var h := Quo(d, 2);
        if offset > h then
          assert st.target % d == 0 ==> Round(ts, d) % d == 0 && Round(ts, d) >= target + d by {
            if st.target % d == 0 {
              ReanchorAhead(ts, target, d);
            }
          }
          StepResult(LoopState(Round(ts, d), true, false, false, got, prevScan, false),
                     Some(Record(ts, data)), greeted + [FutureScan(ts, target)])
        else if offset < -h then
          if prevScan.Some? && !st.scanRepeated then
            StepResult(LoopState(target, false, false, true, prevScan, prevScan, false),
                       None, greeted + [MissingScan(ts, target), RepeatingPrevious])
          else
            StepResult(LoopState(target, true, false, st.scanRepeated, got, prevScan, false),
                       None, greeted + [MissingScan(ts, target)])
        else
          StepResult(LoopState(target, false, false, false, got, prevScan, false), Some(Record(ts, data)), greeted)
  }

  /** What a run of the loop has done: the variables, the printed records and the log. */
  datatype Run = Run(state: LoopState, records: seq<Record>, logs: seq<LogLine>)

  /** The loop from st over events, in order; once exiting, later events are not read. */
  function RunEvents(d: int, st: LoopState, events: seq<Event>): Run
    requires d > 0
  {
    if events == [] then Run(st, [], [])
    else
      var run := RunEvents(d, st, events[..|events| - 1]);
      if run.state.exiting then run
      else
        var r := Step(d, run.state, events[|events| - 1]);
        Run(r.next, run.records + (if r.out.Some? then [r.out.value] else []), run.logs + r.logs)
  }

  /** Events after the stop signal change nothing. */
  lemma {:induction false} RunAfterExit(d: int, st: LoopState, events: seq<Event>, i: nat)
    requires d > 0 && i <= |events| && RunEvents(d, st, events[..i]).state.exiting
    ensures RunEvents(d, st, events) == RunEvents(d, st, events[..i])
    decreases |events| - i
  {
    if i < |events| {
      assert events[..i + 1][..i] == events[..i];
      RunAfterExit(d, st, events, i + 1);
    } else {
      assert events[..i] == events;
    }
  }

  /** formatScan as a function of a record, for a fixed interval, station and OID list. */
  function LineOf(d: int, general: General, infos: seq<OidInfo>, render: (OidInfo, string) -> string): Record -> string
  {
    (r: Record) => ScanLine(d, general, infos, r.ts, r.data, render)
  }

  /** The lines printed for a sequence of records, one formatted scan each. */
  function Printed(format: Record -> string, records: seq<Record>): (lines: seq<string>)
    ensures |lines| == |records|
  {
    if records == [] then []
    else Printed(format, records[..|records| - 1]) + [format(records[|records| - 1])]
  }

  lemma PrintedSnoc(format: Record -> string, records: seq<Record>, rec: Record)
    ensures Printed(format, records + [rec]) == Printed(format, records) + [format(rec)]
  {
    assert (records + [rec])[..|records|] == records;
  }

  /** Line k is record k formatted. */
  lemma {:induction false} PrintedAt(format: Record -> string, records: seq<Record>, k: nat)
    requires k < |records|
    ensures Printed(format, records)[k] == format(records[k])
  {
    var n := |records| - 1;
    if k < n {
      PrintedAt(format, records[..n], k);
    }
  }

  /**
   * Poll, from the first target time on: each pass advances the target by
   * one interval and reads one event; printed records are formatted with
   * formatScan. The loop ends on the stop signal or when the events run out.
   */
  method PollLoop(d: int, cfg: TSMConfig, sel: Selection, now: int, events: seq<Event>,
                  render: (OidInfo, string) -> string)
    returns (lines: seq<string>, logs: seq<LogLine>)
    requires d > 0
    requires sel.group != "" ==> 0 <= sel.index < |cfg.deviceGroups|
    ensures var run := RunEvents(d, Start(d, now), events);
      lines == Printed(LineOf(d, cfg.general, ActiveInfos(cfg, sel), render), run.records) && logs == run.logs
  {
    var hInterval := Quo(d, 2);
    var targetTime := Round(now, d) + d;
    var first, scanMissed, scanRepeated, exiting := true, false, false, false;
    var scan: Option<map<string, string>> := None;
    var prevScan: Option<map<string, string>> := None;
    lines, logs := [], [];
    ghost var records: seq<Record> := [];
    var i := 0;
    while !exiting && i < |events|
      invariant i <= |events|
      invariant RunEvents(d, Start(d, now), events[..i])
        == Run(LoopState(targetTime, first, scanMissed, scanRepeated, scan, prevScan, exiting), records, logs)
      invariant lines == Printed(LineOf(d, cfg.general, ActiveInfos(cfg, sel), render), records)
    {
      ghost var before := LoopState(targetTime, first, scanMissed, scanRepeated, scan, prevScan, exiting);
      ghost var step := Step(d, before, events[i]);
      assert events[..i + 1][..i] == events[..i];
      assert events[..i + 1][i] == events[i];
      assert RunEvents(d, Start(d, now), events[..i + 1]) == Run(step.next, records + (if step.out.Some? then [step.out.value] else []), logs + step.logs);
      var logged: seq<LogLine> := [];
      targetTime := targetTime + d;
      match events[i] {
        case Stop =>
          exiting := true;
        case Taken(ts, got) =>
          prevScan := scan;
          scan := got;
          if got.None? {
            if !scanMissed {
              logged := [NoScanAvailable];
            }
            scanMissed := true;
            first := true;
          } else {
            var emit;
            targetTime, first, scanRepeated, scan, logged, emit :=
              ScanArrived(d, hInterval, targetTime, first, scanRepeated, prevScan, ts, got.value, before);
            scanMissed := false;
            if emit {
              lines, records := PrintScan(d, cfg, sel, Record(ts, got.value), render, lines, records);
            }
          }
      }
      assert logged == step.logs;
      logs := logs + logged;
      assert LoopState(targetTime, first, scanMissed, scanRepeated, scan, prevScan, exiting) == step.next;
      i := i + 1;
    }
    if exiting {
      RunAfterExit(d, Start(d, now), events, i);
    } else {
      assert events[..i] == events;
    }
  }

  /**
   * The loop body for a scan that arrived, with targetTime already advanced:
   * log the first scan after a gap, re-anchor on a late scan, repeat the
   * previous scan once for an early one, and say whether the scan is printed.
   */
  method ScanArrived(d: int, hInterval: int, targetTime: int, first: bool, scanRepeated: bool,
                     prevScan: Option<map<string, string>>, ts: int, data: map<string, string>,
                     ghost st: LoopState)
    returns (targetTime': int, first': bool, scanRepeated': bool, scan': Option<map<string, string>>,
             logged: seq<LogLine>, emit: bool)
    requires d > 0 && hInterval == Quo(d, 2) && !st.exiting
    requires targetTime == Due(d, st) && first == st.first && scanRepeated == st.scanRepeated && prevScan == st.scan
    ensures Step(d, st, Taken(ts, Some(data)))
      == StepResult(LoopState(targetTime', first', false, scanRepeated', scan', prevScan, false),
                    if emit then Some(Record(ts, data)) else None, logged)
  {
    targetTime', first', scanRepeated', scan', logged := targetTime, first, scanRepeated, Some(data), [];
    if first {
      logged := [InitialScan(ts, data)];
      first' := false;
    }
    var offset := ts - targetTime;
    if offset > hInterval {
      logged := logged + [FutureScan(ts, targetTime)];
      targetTime' := Round(ts, d);
      first' := true;
    } else if offset < -hInterval {
      logged := logged + [MissingScan(ts, targetTime)];
      if prevScan.Some? && !scanRepeated {
        logged := logged + [RepeatingPrevious];
        scanRepeated' := true;
        scan' := prevScan;
      } else {
        first' := true;
      }
    }
    emit := -hInterval <= offset;
    if emit {
      scanRepeated' := false;
    }
  }

  /** Format one scan with formatScan and print it after the lines before it. */
  method PrintScan(d: int, cfg: TSMConfig, sel: Selection, rec: Record, render: (OidInfo, string) -> string,
                   lines: seq<string>, ghost records: seq<Record>)
    returns (lines': seq<string>, ghost records': seq<Record>)
    requires sel.group != "" ==> 0 <= sel.index < |cfg.deviceGroups|
    requires lines == Printed(LineOf(d, cfg.general, ActiveInfos(cfg, sel), render), records)
    ensures records' == records + [rec]
    ensures lines' == Printed(LineOf(d, cfg.general, ActiveInfos(cfg, sel), render), records')
  {
    var line := FormatScan(d, cfg, sel, rec.ts, rec.data, render);
    PrintedSnoc(LineOf(d, cfg.general, ActiveInfos(cfg, sel), render), records, rec);
    lines', records' := lines + [line], records + [rec];
  }

  // ---- properties of whole runs ----

  /** Without a stop signal every event is read, and the target stays on the grid of d and advances at least d per event. */
  lemma {:induction false} TargetsOnGrid(d: int, now: int, events: seq<Event>)
    requires d > 0
    ensures var run := RunEvents(d, Start(d, now), events);
      run.state.target % d == 0
      && (!run.state.exiting ==> run.state.target >= Round(now, d) + d + |events| * d)
  {
    if events != [] {
      var n := |events| - 1;
      var prefix := events[..n];
      TargetsOnGrid(d, now, prefix);
      var run := RunEvents(d, Start(d, now), prefix);
      if !run.state.exiting {
        var r := Step(d, run.state, events[n]);
        assert RunEvents(d, Start(d, now), events).state == r.next;
        assert n * d + d == |events| * d;
      }
    }
  }

  /** A scan on schedule: the k-th event (from 0) arrives within half an interval of Round(now, d) + (k + 2) * d. */
  predicate OnSchedule(d: int, now: int, events: seq<Event>)
  {
    forall k :: 0 <= k < |events| ==>
      && events[k].Taken? && events[k].data.Some?
      && -Quo(d, 2) <= events[k].ts - (Round(now, d) + (k + 2) * d) <= Quo(d, 2)
  }

  /** Scans that keep to the schedule are all printed, in order, and the target never re-anchors. */
  lemma {:induction false} OnScheduleAllPrinted(d: int, now: int, events: seq<Event>)
    requires d > 0 && OnSchedule(d, now, events)
    ensures var run := RunEvents(d, Start(d, now), events);
      && !run.state.exiting && run.state.target == Round(now, d) + (|events| + 1) * d
      && |run.records| == |events|
      && forall k :: 0 <= k < |events| ==> run.records[k] == Record(events[k].ts, events[k].data.value)
  {
    if events != [] {
      var n := |events| - 1;
      var prefix := events[..n];
      assert OnSchedule(d, now, prefix) by {
        forall k | 0 <= k < |prefix|
          ensures prefix[k] == events[k]
        {
        }
      }
      OnScheduleAllPrinted(d, now, prefix);
      var run := RunEvents(d, Start(d, now), prefix);
      assert Due(d, run.state) == Round(now, d) + (n + 2) * d by {
        assert (n + 1) * d + d == (n + 2) * d;
      }
      var r := Step(d, run.state, events[n]);
      assert r.out == Some(Record(events[n].ts, events[n].data.value));
      assert r.next.target == Round(now, d) + (n + 2) * d;
      assert RunEvents(d, Start(d, now), events) == Run(r.next, run.records + [r.out.value], run.logs + r.logs);
    }
  }

  /** A run of missing scans prints nothing and logs "no rpm scan" at most once, and only if the previous scan was not missed. */
  lemma {:induction false} MissesLogOnce(d: int, st: LoopState, events: seq<Event>)
    requires d > 0 && !st.exiting && |events| >= 1
    requires forall k :: 0 <= k < |events| ==> events[k].Taken? && events[k].data.None?
    ensures var run := RunEvents(d, st, events);
      && run.records == []
      && run.logs == (if st.scanMissed then [] else [NoScanAvailable])
      && run.state.first && run.state.scanMissed && !run.state.exiting
  {
    if |events| > 1 {
      var prefix := events[..|events| - 1];
      MissesLogOnce(d, st, prefix);
    }
  }

  /** Two early scans in a row: the second cannot repeat again, so it starts a gap. */
  lemma EarlyTwice(d: int, st: LoopState, e1: Event, e2: Event)
    requires d > 0 && !st.exiting
    requires e1.Taken? && e1.data.Some? && e1.ts - Due(d, st) < -Quo(d, 2)
    requires st.scan.Some? && !st.scanRepeated
    ensures var s1 := Step(d, st, e1).next;
      e2.Taken? && e2.data.Some? && e2.ts - Due(d, s1) < -Quo(d, 2) ==>
        var r2 := Step(d, s1, e2);
        r2.out.None? && r2.next.first && r2.next.scanRepeated && RepeatingPrevious !in r2.logs
  {
  }

  // ---- the poll command ----

  /**
   * How Poll ends: a panic on an out-of-range argument index, an error,
   * an interval whose value Go leaves to the implementation (NaN), or the
   * loop's output.
   */
  datatype PollOutcome =
    | PollPanicked
    | PollError(msg: string)
    | PollUndefined
    | PollDone(lines: seq<string>, logs: seq<LogLine>)

  /**
   * Poll: read the command name (args[0]), identify the model and select its
   * group (an identification error is ignored), parse the interval, connect
   * again, fill the OID tables, start the sampler and run the cadence loop.
   * What the device does is given: the dial outcomes of the two connects,
   * the answer to the model query, the sampler's ticks and the events the
   * loop reads.
   */
  method PollCommand(
    cfg: TSMConfig, sel: Selection, svc: SnmpService, tables: OidTables,
    host: string, port: string, community: string, args: seq<string>,
    parseFloat: string -> Result<Float>, fixed: Float -> string,
    modelDial: Option<string>, modelAnswer: QueryOutcome, pollDial: Option<string>,
    now: int, anchor: int, ticks: seq<Tick>, events: seq<Event>, render: (OidInfo, string) -> string)
    returns (outcome: PollOutcome)
    requires sel.Consistent(cfg)
    modifies sel, svc, tables
    ensures sel.Consistent(cfg)
    ensures outcome.PollPanicked? <==> |args| < 3
    ensures outcome.PollUndefined? <==> |args| >= 3 && parseFloat(args[2]) == Ok(NaN)
    ensures |args| >= 3 && PollArgsParse(args, parseFloat, fixed).ArgsError? ==>
      outcome == PollError(PollArgsParse(args, parseFloat, fixed).msg)
    ensures PollArgsParse(args, parseFloat, fixed).Interval? && ParseUint(port, 16).Parsed? ==>
      (outcome.PollDone? <==> pollDial.None?)
      && (pollDial.Some? ==> outcome == PollError(pollDial.value))
    // A bad port is only logged, so after a successful first connect the second one is refused.
    ensures PollArgsParse(args, parseFloat, fixed).Interval? && !ParseUint(port, 16).Parsed?
            && (modelDial.None? || old(svc.ready)) ==>
      outcome == PollError(AlreadyConnected)
    ensures PollArgsParse(args, parseFloat, fixed).Interval? && !ParseUint(port, 16).Parsed?
            && modelDial.Some? && !old(svc.ready) ==>
      (outcome.PollDone? <==> pollDial.None?)
      && (pollDial.Some? ==> outcome == PollError(pollDial.value))
    ensures outcome.PollDone? ==>
      && PollArgsParse(args, parseFloat, fixed).Interval?
      && var d := PollArgsParse(args, parseFloat, fixed).d;
         var run := RunEvents(d, Start(d, now), events);
         outcome.lines == Printed(LineOf(d, cfg.general, ActiveInfos(cfg, sel), render), run.records)
         && outcome.logs == run.logs
  {
    if |args| == 0 {
      return PollPanicked;
    }
    var model, modelGroup, queryErr, asked := QueryForModel(cfg, sel, svc, host, port, community, modelDial, modelAnswer);
    sel.SetModel(cfg, modelGroup);
    var parsed := PollArgsParse(args, parseFloat, fixed);
    match parsed {
      case IndexOutOfRange =>
        return PollPanicked;
      case ArgsError(msg) =>
        return PollError(msg);
      case NaNInterval =>
        return PollUndefined;
      case Interval(d) =>
        outcome := PollRun(cfg, sel, svc, tables, host, port, community, pollDial, d, now, anchor, ticks, events, render);
    }
  }

  /**
   * Poll once the interval is known: connect, fill the OID tables, start
   * the sampler (it cannot refuse once connected) and run the loop.
   */
  method PollRun(
    cfg: TSMConfig, sel: Selection, svc: SnmpService, tables: OidTables,
    host: string, port: string, community: string, pollDial: Option<string>,
    d: int, now: int, anchor: int, ticks: seq<Tick>, events: seq<Event>, render: (OidInfo, string) -> string)
    returns (outcome: PollOutcome)
    requires d > 0 && sel.Consistent(cfg)
    modifies svc, tables
    ensures !outcome.PollPanicked? && !outcome.PollUndefined?
    ensures ParseUint(port, 16).Parsed? || !old(svc.ready) ==> (outcome.PollDone? <==> pollDial.None?)
    ensures (ParseUint(port, 16).Parsed? || !old(svc.ready)) && pollDial.Some? ==> outcome == PollError(pollDial.value)
    ensures !ParseUint(port, 16).Parsed? && old(svc.ready) ==> outcome == PollError(AlreadyConnected)
    ensures outcome.PollDone? ==>
      var run := RunEvents(d, Start(d, now), events);
      outcome.lines == Printed(LineOf(d, cfg.general, ActiveInfos(cfg, sel), render), run.records)
      && outcome.logs == run.logs
  {
    var err := svc.InitAndConnect(host, port, community, pollDial);
    if err.Some? {
      return PollError(err.value);
    }
    var oidsErr := tables.InitOids(cfg, sel);
    var startErr, triggers := svc.PollStart(d, anchor, ticks);
    if startErr.Some? {
      // PollStart refuses only a service that is not connected.
      assert false;
    }
    var lines, logs := PollLoop(d, cfg, sel, now, events, render);
    outcome := PollDone(lines, logs);
  }
}
