/**
 * The SNMP service: host and port settings, the connection flag, and a
 * single-slot cache holding the most recent scan, filled by the sampler
 * and emptied by each GetScan. The gosnmp session is represented by the
 * parameters it was created with; what the network answers is an input.
 */
module Snmp {
  import opened Common
  import opened Bits
  import opened GoText
  import opened Clock

  /** A scan: the time it was taken and the value read for each OID. */
  datatype Scan = Scan(ts: int, data: map<string, string>)

  /** The parameters Connect hands to gosnmp: target, UDP port and community. */
  datatype Session = Session(target: string, port: nat, community: string)

  /** What one QueryOids call produced: a timestamped result map, or the query's error text. */
  datatype QueryOutcome = Answered(ts: int, results: map<string, string>) | Failed(msg: string)

  /** One turn of the sampler's select: the timer fired and a query ran, or the context was cancelled. */
  datatype Tick = Fire(outcome: QueryOutcome) | Cancel

  /** Ports are uint16 on the wire. */
  const PortLimit: nat := 0x1_0000

  const AlreadyConnected: string := "error: already connected"
  const ScanUnavailable: string := "scan unavailable"

  /** snmpScan.copy: the same timestamp and a fresh map with the same entries, filled key by key. */
  method CopyScan(scan: Scan) returns (c: Scan)
    ensures c.ts == scan.ts
    ensures c.data.Keys == scan.data.Keys
    ensures forall key :: key in c.data ==> c.data[key] == scan.data[key]
  {
    var newdata: map<string, string> := map[];
    var rest := scan.data.Keys;
    while rest != {}
      invariant rest <= scan.data.Keys
      invariant newdata.Keys == scan.data.Keys - rest
      invariant forall key :: key in newdata ==> newdata[key] == scan.data[key]
      decreases rest
    {
      var key :| key in rest;
      newdata := newdata[key := scan.data[key]];
      rest := rest - {key};
    }
    c := Scan(scan.ts, newdata);
  }

  /** A copy is indistinguishable from the original. */
  lemma CopyIsEqual(scan: Scan, c: Scan)
    requires c.ts == scan.ts && c.data.Keys == scan.data.Keys
    requires forall key :: key in c.data ==> c.data[key] == scan.data[key]
    ensures c == scan
  {
    assert c.data == scan.data;
  }

  /** The text strconv.ParseUint's error carries for port. */
  function PortError(port: string): (msg: string)
    requires !ParseUint(port, 16).Parsed?
    ensures |msg| > |port|
  {
    "strconv.ParseUint: parsing \"" + port + "\": "
      + (if ParseUint(port, 16).SyntaxError? then "invalid syntax" else "value out of range")
  }

  /** The scan the slot holds after the sampler has run the given ticks, starting from slot. */
  function SlotAfter(slot: Option<Scan>, ticks: seq<Tick>): Option<Scan>
  {
    if ticks == [] then slot
    else
      var before := SlotAfter(slot, ticks[..|ticks| - 1]);
      match ticks[|ticks| - 1]
      case Fire(Answered(ts, results)) => Some(Scan(ts, results))
      case _ => before
  }

  /** How many ticks the sampler handles before it sees Cancel. */
  function FiredCount(ticks: seq<Tick>): (n: nat)
    ensures n <= |ticks|
    ensures forall i :: 0 <= i < n ==> ticks[i].Fire?
    ensures n < |ticks| ==> ticks[n].Cancel?
  {
    if ticks == [] || ticks[0].Cancel? then 0 else 1 + FiredCount(ticks[1..])
  }

  /** A failed query changes nothing: the slot keeps what it had. */
  lemma {:induction false} FailedQueryKeepsSlot(slot: Option<Scan>, ticks: seq<Tick>, msg: string)
    ensures SlotAfter(slot, ticks + [Fire(Failed(msg))]) == SlotAfter(slot, ticks)
  {
    assert (ticks + [Fire(Failed(msg))])[..|ticks|] == ticks;
  }

  /** The slot holds the most recent answer; earlier unconsumed answers are gone. */
  lemma {:induction false} SlotHoldsLatest(slot: Option<Scan>, ticks: seq<Tick>, i: nat)
    requires i < |ticks| && ticks[i].Fire? && ticks[i].outcome.Answered?
    requires forall j :: i < j < |ticks| ==> !(ticks[j].Fire? && ticks[j].outcome.Answered?)
    ensures SlotAfter(slot, ticks) == Some(Scan(ticks[i].outcome.ts, ticks[i].outcome.results))
  {
    if i < |ticks| - 1 {
      SlotHoldsLatest(slot, ticks[..|ticks| - 1], i);
    }
  }

  /** With no answered query the slot is as the sampler found it. */
  lemma {:induction false} SlotWithoutAnswers(slot: Option<Scan>, ticks: seq<Tick>)
    requires forall j :: 0 <= j < |ticks| ==> !(ticks[j].Fire? && ticks[j].outcome.Answered?)
    ensures SlotAfter(slot, ticks) == slot
  {
    if ticks != [] {
      SlotWithoutAnswers(slot, ticks[..|ticks| - 1]);
    }
  }

  /** The snmpService object. */
  class SnmpService {
    var host: string
    var port: nat
    var ready: bool
    var internalInterval: int
    var params: Option<Session>
    var currentScan: Option<Scan>

    /** ready exactly when a session exists, and the session uses the stored host and port. */
    ghost predicate Valid()
      reads this
    {
      && port < PortLimit
      && (ready <==> params.Some?)
      && (params.Some? ==> params.value.target == host && params.value.port == port)
    }

    /** NewSnmpService: zero values throughout, in particular not ready. */
    constructor ()
      ensures Valid()
      ensures !ready && params.None? && currentScan.None?
      ensures host == "" && port == 0 && internalInterval == 0
    {
      host := "";
      port := 0;
      ready := false;
      internalInterval := 0;
      params := None;
      currentScan := None;
    }

    /**
     * initialize: a port that is not a 16-bit unsigned decimal is rejected
     * and nothing changes; otherwise host and port are stored and the
     * connection is dropped.
     */
    method Initialize(host: string, port: string) returns (err: Option<string>)
      modifies this
      ensures ParseUint(port, 16).Parsed? ==>
        && err.None? && this.host == host && this.port == ParseUint(port, 16).value
        && !ready && params.None?
        && currentScan == old(currentScan) && internalInterval == old(internalInterval)
      ensures !ParseUint(port, 16).Parsed? ==>
        && err == Some(PortError(port))
        && this.host == old(this.host) && this.port == old(this.port) && ready == old(ready)
        && params == old(params) && currentScan == old(currentScan) && internalInterval == old(internalInterval)
      ensures old(Valid()) ==> Valid()
    {
      var parsed := ParseUint(port, 16);
      Pow2Is16();
      if !parsed.Parsed? {
        return Some(PortError(port));
      }
      this.host := host;
      this.port := parsed.value;
      ready := false;
      params := None;
      err := None;
    }

    /**
     * Connect: on a ready service, the error "already connected" and no
     * change. Otherwise dial (the outcome of gosnmp's Connect is dialError):
     * a failure clears the session and returns its error, a success stores
     * the session and marks the service ready.
     */
    method Connect(community: string, dialError: Option<string>) returns (err: Option<string>)
      modifies this
      ensures old(ready) ==> err == Some(AlreadyConnected) && ready && params == old(params)
      ensures !old(ready) && dialError.Some? ==> err == dialError && !ready && params.None?
      ensures !old(ready) && dialError.None? ==>
        err.None? && ready && params == Some(Session(host, port % PortLimit, community))
      ensures host == old(host) && port == old(port)
      ensures currentScan == old(currentScan) && internalInterval == old(internalInterval)
      ensures old(Valid()) ==> Valid()
    {
      if !ready {
        var session := Session(host, port % PortLimit, community);
        if dialError.Some? {
          params := None;
          return dialError;
        }
        params := Some(session);
        ready := true;
      } else {
        return Some(AlreadyConnected);
      }
      err := None;
    }

    /** saveScan: the slot now holds (ts, results), whatever it held before. */
    method SaveScan(ts: int, results: map<string, string>)
      modifies this
      ensures currentScan == Some(Scan(ts, results))
      ensures host == old(host) && port == old(port) && ready == old(ready)
      ensures params == old(params) && internalInterval == old(internalInterval)
      ensures old(Valid()) ==> Valid()
    {
      currentScan := Some(Scan(ts, results));
    }

    /**
     * GetScan: an empty slot yields the current time, no data and the error
     * "scan unavailable"; a full slot yields a copy of its scan and is
     * emptied. Either way the slot is empty afterwards.
     */
    method GetScan(now: int) returns (ts: int, data: Option<map<string, string>>, err: Option<string>)
      modifies this
      ensures old(currentScan).None? ==> ts == now && data.None? && err == Some(ScanUnavailable)
      ensures old(currentScan).Some? ==>
        ts == old(currentScan).value.ts && data == Some(old(currentScan).value.data) && err.None?
      ensures currentScan.None?
      ensures host == old(host) && port == old(port) && ready == old(ready)
      ensures params == old(params) && internalInterval == old(internalInterval)
      ensures old(Valid()) ==> Valid()
    {
      if currentScan.None? {
        return now, None, Some(ScanUnavailable);
      }
      var scan := CopyScan(currentScan.value);
      CopyIsEqual(currentScan.value, scan);
      currentScan := None;
      return scan.ts, Some(scan.data), None;
    }

    /** queryDeviceVars: store an answered query; a failed one is reported and the slot is left alone. */
    method QueryDeviceVars(outcome: QueryOutcome) returns (err: Option<string>)
      modifies this
      ensures outcome.Failed? ==> err == Some(outcome.msg) && currentScan == old(currentScan)
      ensures outcome.Answered? ==> err.None? && currentScan == Some(Scan(outcome.ts, outcome.results))
      ensures host == old(host) && port == old(port) && ready == old(ready)
      ensures params == old(params) && internalInterval == old(internalInterval)
      ensures old(Valid()) ==> Valid()
    {
      match outcome
      case Failed(msg) =>
        err := Some(msg);
      case Answered(ts, results) =>
        SaveScan(ts, results);
        err := None;
    }

    /**
     * PollStart: set the internal period to a third of the sample interval,
     * then refuse to start on a service that is not connected. A started
     * sampler runs the given ticks from the anchor time: the k-th timer
     * (k from 1) is due at anchor + k * period however long the queries
     * take, and the slot ends up holding the latest answer.
     */
    method PollStart(sampleInterval: int, anchor: int, ticks: seq<Tick>)
      returns (err: Option<string>, triggers: seq<int>)
      modifies this
      ensures internalInterval == Quo(sampleInterval, 3)
      ensures !old(ready) ==>
        (err == Some("TSEMC1Device is not connected to host: " + host)
         && triggers == [] && currentScan == old(currentScan))
      ensures old(ready) ==>
        (err.None? && |triggers| == FiredCount(ticks)
         && (forall k :: 0 <= k < |triggers| ==> triggers[k] == anchor + (k + 1) * internalInterval)
         && currentScan == SlotAfter(old(currentScan), ticks[..FiredCount(ticks)]))
      ensures host == old(host) && port == old(port) && ready == old(ready) && params == old(params)
      ensures old(Valid()) ==> Valid()
    {
      internalInterval := Quo(sampleInterval, 3);
      if !ready {
        return Some("TSEMC1Device is not connected to host: " + host), [];
      }
      triggers := RunSampler(anchor, ticks);
      err := None;
    }

    /** The sampler goroutine, run over a finite sequence of select outcomes. */
    method RunSampler(anchor: int, ticks: seq<Tick>) returns (triggers: seq<int>)
      modifies this
      ensures |triggers| == FiredCount(ticks)
      ensures forall k :: 0 <= k < |triggers| ==> triggers[k] == anchor + (k + 1) * internalInterval
      ensures currentScan == SlotAfter(old(currentScan), ticks[..FiredCount(ticks)])
      ensures host == old(host) && port == old(port) && ready == old(ready)
      ensures params == old(params) && internalInterval == old(internalInterval)
      ensures old(Valid()) ==> Valid()
    {
      var trigtime := anchor;
      var i := 0;
      triggers := [];
      while i < |ticks|
        invariant i <= FiredCount(ticks)
        invariant |triggers| == i && trigtime == anchor + i * internalInterval
        invariant forall k :: 0 <= k < i ==> triggers[k] == anchor + (k + 1) * internalInterval
        invariant currentScan == SlotAfter(old(currentScan), ticks[..i])
        invariant host == old(host) && port == old(port) && ready == old(ready)
        invariant params == old(params) && internalInterval == old(internalInterval)
        invariant old(Valid()) ==> Valid()
      {
        trigtime := trigtime + internalInterval;
        match ticks[i]
        case Cancel =>
          return;
        case Fire(outcome) =>
          assert ticks[..i + 1][..i] == ticks[..i];
          triggers := triggers + [trigtime];
          var e := QueryDeviceVars(outcome);
          i := i + 1;
      }
    }

    /**
     * InitAndConnect: an initialize error is only logged; the result is
     * Connect's. A bad port therefore keeps the old host and port, and on a
     * service that is still connected it yields "already connected".
     */
    method InitAndConnect(host: string, port: string, community: string, dialError: Option<string>)
      returns (err: Option<string>)
      modifies this
      ensures ParseUint(port, 16).Parsed? ==> this.host == host && this.port == ParseUint(port, 16).value
      ensures !ParseUint(port, 16).Parsed? ==> this.host == old(this.host) && this.port == old(this.port)
      ensures ParseUint(port, 16).Parsed? || !old(ready) ==>
        && err == dialError
        && (dialError.Some? ==> !ready && params.None?)
        && (dialError.None? ==> ready && params == Some(Session(this.host, this.port % PortLimit, community)))
      ensures !ParseUint(port, 16).Parsed? && old(ready) ==>
        err == Some(AlreadyConnected) && ready && params == old(params)
      ensures old(Valid()) && err.None? ==> params == Some(Session(this.host, this.port, community))
      ensures currentScan == old(currentScan) && internalInterval == old(internalInterval)
      ensures old(Valid()) ==> Valid()
    {
      var initErr := Initialize(host, port);
      err := Connect(community, dialError);
    }
  }
}
