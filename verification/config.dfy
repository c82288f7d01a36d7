/**
 * The device configuration: per-OID display metadata, the device groups
 * of each controller family, the package-wide selection of the current
 * model group, and the decoders that turn raw SNMP values into text.
 */
module Config {
  import opened Common
  import opened Bits
  import opened GoText

  /** Display metadata for one OID endpoint. */
  datatype OidInfo = OidInfo(
    oid: string,
    chancode: string,
    labelText: string,     // the Label field
    kind: string,          // the Type field: "string", "number", "bitreverse", "map" or "bitmap"
    scaling: real,
    values: seq<string>)

  /** One family of controller models and the OIDs it answers. */
  datatype DeviceInfo = DeviceInfo(
    groupOid: string,
    modelGroup: string,
    modellist: seq<string>,
    statics: seq<OidInfo>,
    status: seq<OidInfo>,
    measurements: seq<OidInfo>,
    alarms: seq<OidInfo>,
    faults: seq<OidInfo>)

  datatype General = General(sta: string, net: string, loc: string)

  datatype TSMConfig = TSMConfig(general: General, emcOids: seq<OidInfo>, deviceGroups: seq<DeviceInfo>)

  /** An OID list together with the metadata it was read from. */
  datatype OidLists = OidLists(oids: seq<string>, infos: seq<OidInfo>)

  /** The OIDs of a metadata list, in the same order. */
  function OidsOf(infos: seq<OidInfo>): (oids: seq<string>)
    ensures |oids| == |infos|
  {
    seq(|infos|, i requires 0 <= i < |infos| => infos[i].oid)
  }

  /** The data OIDs of a group in polling order: status, measurements, alarms, faults. */
  function DataInfoList(g: DeviceInfo): seq<OidInfo>
  {
    g.status + g.measurements + g.alarms + g.faults
  }

  // ---- reverseBits ----

  /**
   * The bit pattern reverseBits(num, len) produces: position j holds bit
   * len-1-j of num, for those j that land inside a 64-bit word.
   * Only the first k source bits are counted.
   */
  function Moved(num: nat, len: nat, k: nat): (bs: seq<bool>)
    ensures |bs| == 64
  {
    seq(64, j requires 0 <= j < 64 => j < len && len - 1 - j < k && Bit(num, len - 1 - j))
  }

  /** The value reverseBits(num, len) returns. */
  function ReversedBits(num: nat, len: nat): nat
  {
    FromBits(Moved(num, len, 64))
  }

  /**
   * reverseBits: walk num from its low bit up, adding bit i at position
   * len-1-i; uint64 arithmetic wraps and shifts of 64 or more give 0.
   */
  method ReverseBits(num: nat, len: nat) returns (r: nat)
    requires num < TWO64 && len < TWO64
    ensures r == ReversedBits(num, len)
  {
    var n := num;
    var ret := 0;
    var power := Dec64(len);
    ghost var k := 0;
    ShrWord(num);
    assert Moved(num, len, 0) == seq(64, i => false);
    FalseBitsZero(64);
    while n != 0
      invariant k <= 64
      invariant n == Shr(num, k)
      invariant if k < len then power == len - 1 - k else power == TWO64 + len - 1 - k
      invariant ret == FromBits(Moved(num, len, k))
      decreases n
    {
      ReverseStep(num, len, k, n, ret, power);
      ret := (ret + Shl64(n % 2, power)) % TWO64;
      ShrStep(num, k);
      n := n / 2;
      power := Dec64(power);
      k := k + 1;
    }
    MovedDone(num, len, k);
    r := ret;
  }

  /** One iteration of reverseBits adds bit k of num at position len-1-k, if that lands in the word. */
  lemma ReverseStep(num: nat, len: nat, k: nat, n: nat, ret: nat, power: nat)
    requires k < 64 && n == Shr(num, k)
    requires if k < len then power == len - 1 - k else power == TWO64 + len - 1 - k
    requires ret == FromBits(Moved(num, len, k))
    ensures (ret + Shl64(n % 2, power)) % TWO64 == FromBits(Moved(num, len, k + 1))
  {
    ShiftedBit(num, len, k, n, power);
    MovedStep(num, len, k);
    FromBitsBound(Moved(num, len, k + 1));
    Pow2Is64();
  }

  /** The term reverseBits adds for bit k: the bit moved to position len-1-k, or 0 when that is outside the word. */
  lemma ShiftedBit(num: nat, len: nat, k: nat, n: nat, power: nat)
    requires k < 64 && n == Shr(num, k)
    requires if k < len then power == len - 1 - k else power == TWO64 + len - 1 - k
    ensures var p := len - 1 - k;
      Shl64(n % 2, power) == (if 0 <= p < 64 && Bit(num, k) then Pow2(p) else 0)
  {
    BitOfShr(num, k, 0);
    assert Bit(n, 0) == (n % 2 == 1);
    if power < 64 {
      Pow2Is64();
      Pow2Monotone(power, 63);
      assert Pow2(64) == 2 * Pow2(63);
      assert n % 2 == 0 || n % 2 == 1;
    }
  }

  lemma MovedStep(num: nat, len: nat, k: nat)
    ensures var p := len - 1 - k;
      FromBits(Moved(num, len, k + 1))
        == FromBits(Moved(num, len, k)) + (if 0 <= p < 64 && Bit(num, k) then Pow2(p) else 0)
  {
    var p := len - 1 - k;
    if 0 <= p < 64 && Bit(num, k) {
      assert Moved(num, len, k + 1) == Moved(num, len, k)[p := true];
      FromBitsSet(Moved(num, len, k), p);
    } else {
      assert Moved(num, len, k + 1) == Moved(num, len, k);
    }
  }

  lemma MovedDone(num: nat, len: nat, k: nat)
    requires k <= 64 && Shr(num, k) == 0
    ensures Moved(num, len, k) == Moved(num, len, 64)
  {
    forall j | 0 <= j < 64
      ensures Moved(num, len, k)[j] == Moved(num, len, 64)[j]
    {
      if j < len && k <= len - 1 - j {
        BitOfShr(num, k, len - 1 - j - k);
        BitOfZero(len - 1 - j - k);
      }
    }
  }

  /** Bit j of the result is bit len-1-j of the input; every other bit is clear. */
  lemma ReversedBitAt(num: nat, len: nat, j: nat)
    ensures Bit(ReversedBits(num, len), j) == (j < 64 && j < len && len - 1 - j < 64 && Bit(num, len - 1 - j))
  {
    BitOfFromBits(Moved(num, len, 64), j);
  }

  /** For len <= 64 the result fits in len bits. */
  lemma ReversedBitsFit(num: nat, len: nat)
    requires len <= 64
    ensures ReversedBits(num, len) < Pow2(len)
  {
    var bs := Moved(num, len, 64);
    assert bs == bs[..len] + seq(64 - len, i => false);
    FromBitsLowOnly(bs[..len], 64 - len);
    FromBitsBound(bs[..len]);
  }

  lemma {:induction false} FromBitsLowOnly(bs: seq<bool>, z: nat)
    ensures FromBits(bs + seq(z, i => false)) == FromBits(bs)
  {
    if bs == [] {
      FalseBitsZero(z);
      assert bs + seq(z, i => false) == seq(z, i => false);
    } else {
      assert (bs + seq(z, i => false))[1..] == bs[1..] + seq(z, i => false);
      FromBitsLowOnly(bs[1..], z);
    }
  }

  lemma {:induction false} FalseBitsZero(z: nat)
    ensures FromBits(seq(z, i => false)) == 0
  {
    if z > 0 {
      assert seq(z, i => false)[1..] == seq(z - 1, i => false);
      FalseBitsZero(z - 1);
    }
  }

  lemma ReverseBitsOfZero(len: nat)
    ensures ReversedBits(0, len) == 0
  {
    forall j | 0 <= j < 64
      ensures !Moved(0, len, 64)[j]
    {
      if j < len {
        BitOfZero(len - 1 - j);
      }
    }
    assert Moved(0, len, 64) == seq(64, i => false);
    FalseBitsZero(64);
  }

  /** Reversing twice restores any value that fits in len <= 64 bits. */
  lemma ReverseBitsInvolution(num: nat, len: nat)
    requires len <= 64 && num < Pow2(len)
    ensures ReversedBits(ReversedBits(num, len), len) == num
  {
    var r := ReversedBits(num, len);
    forall j | 0 <= j < 64
      ensures Moved(r, len, 64)[j] == LowBits(num, 64)[j]
    {
      if j < len {
        ReversedBitAt(num, len, len - 1 - j);
      } else {
        BitAbove(num, len, j);
      }
    }
    assert Moved(r, len, 64) == LowBits(num, 64);
    Pow2Monotone(len, 64);
    FromBitsOfLowBits(num, 64);
  }

  // ---- bitmapString ----

  /** Positions below n and below len whose bit is set in bits, in ascending order. */
  function Chosen(bits: nat, len: nat, n: nat): (c: seq<nat>)
    ensures forall i :: 0 <= i < |c| ==> c[i] < n && c[i] < len && Bit(bits, c[i])
  {
    if n == 0 then []
    else Chosen(bits, len, n - 1) + (if n - 1 < len && Bit(bits, n - 1) then [n - 1] else [])
  }

  /** The chosen positions are strictly ascending. */
  lemma {:induction false} ChosenAscending(bits: nat, len: nat, n: nat)
    ensures forall i, j :: 0 <= i < j < |Chosen(bits, len, n)| ==> Chosen(bits, len, n)[i] < Chosen(bits, len, n)[j]
  {
    if n > 0 {
      ChosenAscending(bits, len, n - 1);
      var c, p := Chosen(bits, len, n), Chosen(bits, len, n - 1);
      assert c == p + (if n - 1 < len && Bit(bits, n - 1) then [n - 1] else []);
      assert forall i :: 0 <= i < |p| ==> c[i] == p[i] && p[i] < n - 1;
      assert |c| > |p| ==> c[|p|] == n - 1;
      forall i, j | 0 <= i < j < |c|
        ensures c[i] < c[j]
      {
        if j < |p| {
          assert c[i] == p[i] && c[j] == p[j] && p[i] < p[j];
        } else {
          assert j == |p| && c[j] == n - 1 && c[i] == p[i];
        }
      }
    }
  }

  /** Every set position below n and len is chosen. */
  lemma {:induction false} ChosenComplete(bits: nat, len: nat, n: nat, i: nat)
    requires i < n && i < len && Bit(bits, i)
    ensures i in Chosen(bits, len, n)
  {
    if i < n - 1 {
      ChosenComplete(bits, len, n - 1, i);
    }
  }

  /** The labels of the chosen positions. */
  function Pick(bitmap: seq<string>, c: seq<nat>): (ls: seq<string>)
    requires forall i :: 0 <= i < |c| ==> c[i] < |bitmap|
    ensures |ls| == |c|
  {
    seq(|c|, k requires 0 <= k < |c| => bitmap[c[k]])
  }

  lemma PickSnoc(bitmap: seq<string>, c: seq<nat>, x: nat)
    requires forall i :: 0 <= i < |c| ==> c[i] < |bitmap|
    requires x < |bitmap|
    ensures Pick(bitmap, c + [x]) == Pick(bitmap, c) + [bitmap[x]]
  {
    assert forall i :: 0 <= i < |c + [x]| ==> (c + [x])[i] < |bitmap|;
  }

  /** The labels bitmapString reports for bits: bitmap[i] for each set bit i below 64, ascending. */
  function BitmapLabels(bits: nat, bitmap: seq<string>): seq<string>
  {
    Pick(bitmap, Chosen(bits, |bitmap|, 64))
  }

  /** Each label followed by ", ", concatenated. */
  function Suffixed(ls: seq<string>): string
  {
    if ls == [] then "" else Suffixed(ls[..|ls| - 1]) + ls[|ls| - 1] + ", "
  }

  lemma SuffixedSnoc(ls: seq<string>, x: string)
    ensures Suffixed(ls + [x]) == Suffixed(ls) + x + ", "
  {
    assert (ls + [x])[..|ls|] == ls;
  }

  const SeparatorChars: set<char> := {' ', ','}

  /** What bitmapString returns. */
  function BitmapText(bits: nat, bitmap: seq<string>): string
  {
    TrimRight(Suffixed(BitmapLabels(bits, bitmap)), SeparatorChars)
  }

  /**
   * bitmapString: for each of the 64 bit positions that has a label and is
   * set, append the label and ", ", then trim trailing spaces and commas.
   */
  method BitmapString(bits: nat, bitmap: seq<string>) returns (s: string)
    ensures s == BitmapText(bits, bitmap)
  {
    var res := "";
    var bmlen := |bitmap|;
    for ndx := 0 to 64
      invariant res == Suffixed(Pick(bitmap, Chosen(bits, |bitmap|, ndx)))
    {
      BitmapStep(bits, bitmap, ndx);
      if ndx < bmlen && Bit(bits, ndx) {
        res := res + bitmap[ndx] + ", ";
      }
    }
    s := TrimRight(res, SeparatorChars);
  }

  /** One pass of bitmapString's loop appends the label of position ndx when it exists and its bit is set. */
  lemma BitmapStep(bits: nat, bitmap: seq<string>, ndx: nat)
    ensures Suffixed(Pick(bitmap, Chosen(bits, |bitmap|, ndx + 1)))
      == Suffixed(Pick(bitmap, Chosen(bits, |bitmap|, ndx)))
         + (if ndx < |bitmap| && Bit(bits, ndx) then bitmap[ndx] + ", " else "")
  {
    var before := Chosen(bits, |bitmap|, ndx);
    if ndx < |bitmap| && Bit(bits, ndx) {
      assert Chosen(bits, |bitmap|, ndx + 1) == before + [ndx];
      PickSnoc(bitmap, before, ndx);
      SuffixedSnoc(Pick(bitmap, before), bitmap[ndx]);
    } else {
      assert Chosen(bits, |bitmap|, ndx + 1) == before + [];
      assert before + [] == before;
    }
  }

  /** A label is reported exactly when it exists, sits below bit 64 and its bit is set. */
  lemma BitmapLabelMembership(bits: nat, bitmap: seq<string>, i: nat)
    ensures i in Chosen(bits, |bitmap|, 64) <==> (i < |bitmap| && i < 64 && Bit(bits, i))
  {
    if i < |bitmap| && i < 64 && Bit(bits, i) {
      ChosenComplete(bits, |bitmap|, 64, i);
    }
  }

  /** A label that TrimRight cannot eat into: non-empty and not ending in a space or comma. */
  predicate Clean(l: string)
  {
    l != [] && l[|l| - 1] !in SeparatorChars
  }

  lemma {:induction false} SuffixedJoin(ls: seq<string>)
    requires ls != []
    ensures Suffixed(ls) == Join(ls, ", ") + ", "
  {
    if |ls| > 1 {
      SuffixedJoin(ls[..|ls| - 1]);
      JoinSnoc(ls[..|ls| - 1], ls[|ls| - 1], ", ");
      assert ls[..|ls| - 1] + [ls[|ls| - 1]] == ls;
    }
  }

  lemma {:induction false} JoinSnoc(xs: seq<string>, x: string, sep: string)
    requires xs != []
    ensures Join(xs + [x], sep) == Join(xs, sep) + sep + x
  {
    if |xs| > 1 {
      assert (xs + [x])[1..] == xs[1..] + [x];
      JoinSnoc(xs[1..], x, sep);
    }
  }

  lemma {:induction false} JoinEndsClean(xs: seq<string>, sep: string)
    requires xs != [] && Clean(xs[|xs| - 1])
    ensures var j := Join(xs, sep); j != [] && j[|j| - 1] == xs[|xs| - 1][|xs[|xs| - 1]| - 1]
  {
    if |xs| > 1 {
      assert xs[1..][|xs[1..]| - 1] == xs[|xs| - 1];
      JoinEndsClean(xs[1..], sep);
    }
  }

  /**
   * When every reported label is clean, bitmapString is the labels joined
   * by ", "; it is empty exactly when no label is reported.
   */
  lemma BitmapTextJoin(bits: nat, bitmap: seq<string>)
    requires forall i :: 0 <= i < |bitmap| ==> Clean(bitmap[i])
    ensures BitmapText(bits, bitmap) == Join(BitmapLabels(bits, bitmap), ", ")
    ensures BitmapText(bits, bitmap) == "" <==> BitmapLabels(bits, bitmap) == []
  {
    var ls := BitmapLabels(bits, bitmap);
    if ls != [] {
      SuffixedJoin(ls);
      TrimRightCutSuffix(Join(ls, ", "), ", ", SeparatorChars);
      JoinEndsClean(ls, ", ");
    }
  }

  /** With no label reported the text is empty, whatever the labels look like. */
  lemma BitmapTextEmpty(bits: nat, bitmap: seq<string>)
    requires BitmapLabels(bits, bitmap) == []
    ensures BitmapText(bits, bitmap) == ""
  {
  }

  // ---- ValueString ----

  /** The widest "bitreverse" Scaling this model covers; wider widths are not modelled. */
  const MaxModelledWidth: int := 1_000_000

  /**
   * The inputs on which ValueString is defined: a "map" index inside Values
   * (Go panics otherwise), and a "bitreverse" Scaling whose integer part is a
   * usable bit count and format width.
   */
  predicate ValueDefined(info: OidInfo, res: string)
  {
    && (info.kind == "map" ==> ParseUintValue(res, 64) < |info.values|)
    && (info.kind == "bitreverse" ==> 0.0 <= info.scaling && info.scaling.Floor <= MaxModelledWidth)
  }

  /**
   * ValueString: human-readable text for a raw value. The "number" case
   * (floating point) is rendered by the supplied function.
   */
  function ValueString(info: OidInfo, res: string, number: (OidInfo, string) -> string): (s: string)
    requires ValueDefined(info, res)
    ensures info.kind == "string" ==> s == res
    ensures info.kind == "map" ==> s in info.values && s == info.values[ParseUintValue(res, 64)]
    ensures info.kind == "bitreverse" ==>
      && (forall i :: 0 <= i < |s| ==> s[i] == '0' || s[i] == '1')
      && s == BitReverseString(ParseUintValue(res, 64), info.scaling.Floor)
    ensures info.kind == "bitmap" ==>
      var text := BitmapText(ParseUintValue(res, 64), info.values);
      && (s == "None" <==> text in {"", "None"})
      && s == (if text == "" then "None" else text)
    ensures info.kind !in {"string", "number", "bitreverse", "map", "bitmap"} ==> s == res
  {
    var val := ParseUintValue(res, 64);
    if info.kind == "string" then res
    else if info.kind == "number" then number(info, res)
    else if info.kind == "bitreverse" then BitReverseString(val, info.scaling.Floor)
    else if info.kind == "map" then info.values[val]
    else if info.kind == "bitmap" then
      var text := BitmapText(val, info.values);
      if text == "" then "None" else text
    else res
  }

  /** The "bitreverse" rendering: reverseBits(val, w) printed with %0<w>b. */
  function BitReverseString(val: nat, w: nat): (s: string)
    ensures forall i :: 0 <= i < |s| ==> s[i] == '0' || s[i] == '1'
  {
    ZeroPadBinary(Binary(ReversedBits(val, w)), w);
    ZeroPad(Binary(ReversedBits(val, w)), w)
  }

  /**
   * For 1 <= w <= 64 the "bitreverse" text has exactly w binary digits and
   * reads back as the reversed bits.
   */
  lemma BitReverseStringValue(val: nat, w: nat)
    requires 1 <= w <= 64
    ensures |BitReverseString(val, w)| == w
    ensures BinaryValue(BitReverseString(val, w)) == ReversedBits(val, w)
  {
    ReversedBitsFit(val, w);
    PaddedBinary(ReversedBits(val, w), w);
  }

  /** A number below 2^w, printed with %0<w>b, has exactly w digits and reads back as itself. */
  lemma PaddedBinary(r: nat, w: nat)
    requires 1 <= w && r < Pow2(w)
    ensures |ZeroPad(Binary(r), w)| == w
    ensures BinaryValue(ZeroPad(Binary(r), w)) == r
  {
    BinaryFits(r, w);
    ZeroPadBinary(Binary(r), w);
    BinaryRoundTrip(r);
  }

  lemma {:induction false} BinaryFits(n: nat, w: nat)
    requires 1 <= w && n < Pow2(w)
    ensures |Binary(n)| <= w
  {
    if n >= 2 {
      BinaryFits(n / 2, w - 1);
    }
  }

  lemma ZeroPadBinary(s: string, w: int)
    requires forall i :: 0 <= i < |s| ==> s[i] == '0' || s[i] == '1'
    ensures var p := ZeroPad(s, w);
      (forall i :: 0 <= i < |p| ==> p[i] == '0' || p[i] == '1') && BinaryValue(p) == BinaryValue(s)
  {
    if |s| < w {
      LeadingZeros(w - |s|, s);
    }
  }

  lemma {:induction false} LeadingZeros(k: nat, s: string)
    requires forall i :: 0 <= i < |s| ==> s[i] == '0' || s[i] == '1'
    ensures BinaryValue(Zeros(k) + s) == BinaryValue(s)
  {
    if s == [] {
      assert Zeros(k) + s == Zeros(k);
      ZerosValue(k);
    } else {
      assert (Zeros(k) + s)[..|Zeros(k) + s| - 1] == Zeros(k) + s[..|s| - 1];
      LeadingZeros(k, s[..|s| - 1]);
    }
  }

  lemma {:induction false} ZerosValue(k: nat)
    ensures BinaryValue(Zeros(k)) == 0
  {
    if k > 0 {
      ZerosValue(k - 1);
    }
  }

  // ---- the package-wide model selection ----

  /** The last index whose group is named model, if any. */
  function LastMatch(groups: seq<DeviceInfo>, model: string): (r: Option<nat>)
    ensures r.None? <==> forall i :: 0 <= i < |groups| ==> groups[i].modelGroup != model
    ensures r.Some? ==> r.value < |groups| && groups[r.value].modelGroup == model
    ensures r.Some? ==> forall j :: r.value < j < |groups| ==> groups[j].modelGroup != model
  {
    if groups == [] then None
    else if groups[|groups| - 1].modelGroup == model then Some(|groups| - 1)
    else LastMatch(groups[..|groups| - 1], model)
  }

  /** The last index whose model list names model, if any. */
  function LastListing(groups: seq<DeviceInfo>, model: string): (r: Option<nat>)
    ensures r.None? <==> forall i :: 0 <= i < |groups| ==> model !in groups[i].modellist
    ensures r.Some? ==> r.value < |groups| && model in groups[r.value].modellist
    ensures r.Some? ==> forall j :: r.value < j < |groups| ==> model !in groups[j].modellist
  {
    if groups == [] then None
    else if model in groups[|groups| - 1].modellist then Some(|groups| - 1)
    else LastListing(groups[..|groups| - 1], model)
  }

  /**
   * The package globals curModelGroup and curModelNdx: which device group
   * the other lookups read. An empty group name means no model is selected.
   */
  class Selection {
    var group: string
    var index: int

    constructor ()
      ensures group == "" && index == 0
    {
      group := "";
      index := 0;
    }

    /** The selected index names a group of cfg carrying the selected name. */
    ghost predicate Consistent(cfg: TSMConfig)
      reads this
    {
      group != "" ==> 0 <= index < |cfg.deviceGroups| && cfg.deviceGroups[index].modelGroup == group
    }

    /** SetModel: select the last group named model; with no such group nothing changes. */
    method SetModel(cfg: TSMConfig, model: string)
      modifies this
      ensures LastMatch(cfg.deviceGroups, model).None? ==> group == old(group) && index == old(index)
      ensures LastMatch(cfg.deviceGroups, model).Some? ==>
        group == model && index == LastMatch(cfg.deviceGroups, model).value
      ensures old(Consistent(cfg)) ==> Consistent(cfg)
    {
      var groups := cfg.deviceGroups;
      for ndx := 0 to |groups|
        invariant LastMatch(groups[..ndx], model).None? ==> group == old(group) && index == old(index)
        invariant LastMatch(groups[..ndx], model).Some? ==>
          group == model && index == LastMatch(groups[..ndx], model).value
      {
        assert groups[..ndx + 1][..ndx] == groups[..ndx];
        if model == groups[ndx].modelGroup {
          group := model;
          index := ndx;
        }
      }
      assert groups[..|groups|] == groups;
    }

    /** StaticOids: the EMC OIDs followed by the selected group's static OIDs. */
    function StaticOids(cfg: TSMConfig): (r: seq<OidInfo>)
      reads this
      requires 0 <= index < |cfg.deviceGroups|
      ensures |r| == |cfg.emcOids| + |cfg.deviceGroups[index].statics|
      ensures r[..|cfg.emcOids|] == cfg.emcOids && r[|cfg.emcOids|..] == cfg.deviceGroups[index].statics
    {
      cfg.emcOids + cfg.deviceGroups[index].statics
    }

    /** DataOidsInfo: the selected group's data OIDs in polling order, or an error when no model is set. */
    method DataOidsInfo(cfg: TSMConfig) returns (r: Result<OidLists>)
      requires group != "" ==> 0 <= index < |cfg.deviceGroups|
      ensures r.Err? <==> group == ""
      ensures r.Err? ==> r.msg == "Model moust be set before calling DataOidsInfo"
      ensures r.Ok? ==> r.value.infos == DataInfoList(cfg.deviceGroups[index])
      ensures r.Ok? ==> r.value.oids == OidsOf(r.value.infos)
    {
      if group == "" {
        return Err("Model moust be set before calling DataOidsInfo");
      }
      var g := cfg.deviceGroups[index];
      var infos := g.status + g.measurements + g.alarms + g.faults;
      var oids := CollectOids(infos);
      r := Ok(OidLists(oids, infos));
    }

    /** StaticOidsInfo: the EMC and static OIDs of the selected group, or an error when no model is set. */
    method StaticOidsInfo(cfg: TSMConfig) returns (r: Result<OidLists>)
      requires group != "" ==> 0 <= index < |cfg.deviceGroups|
      ensures r.Err? <==> group == ""
      ensures r.Err? ==> r.msg == "Model moust be set before calling StaticOidsInfo"
      ensures r.Ok? ==> r.value.infos == cfg.emcOids + cfg.deviceGroups[index].statics
      ensures r.Ok? ==> r.value.oids == OidsOf(r.value.infos)
    {
      if group == "" {
        return Err("Model moust be set before calling StaticOidsInfo");
      }
      var infos := cfg.emcOids + cfg.deviceGroups[index].statics;
      var oids := CollectOids(infos);
      r := Ok(OidLists(oids, infos));
    }
  }

  /** The append loop shared by DataOidsInfo and StaticOidsInfo. */
  method CollectOids(infos: seq<OidInfo>) returns (oids: seq<string>)
    ensures |oids| == |infos| && forall i :: 0 <= i < |oids| ==> oids[i] == infos[i].oid
  {
    oids := [];
    for i := 0 to |infos|
      invariant |oids| == i && forall k :: 0 <= k < i ==> oids[k] == infos[k].oid
    {
      oids := oids + [infos[i].oid];
    }
  }

  /**
   * ModelInfo: every group's model OID in group order, and a map from each
   * listed model to the group name of the last group listing it.
   */
  method ModelInfo(cfg: TSMConfig) returns (modelOids: seq<string>, modelMap: map<string, string>)
    ensures |modelOids| == |cfg.deviceGroups|
    ensures forall i :: 0 <= i < |modelOids| ==> modelOids[i] == cfg.deviceGroups[i].groupOid
    ensures forall m :: m in modelMap <==> LastListing(cfg.deviceGroups, m).Some?
    ensures forall m :: m in modelMap ==> modelMap[m] == cfg.deviceGroups[LastListing(cfg.deviceGroups, m).value].modelGroup
  {
    var groups := cfg.deviceGroups;
    modelOids := [];
    modelMap := map[];
    for i := 0 to |groups|
      invariant |modelOids| == i && forall k :: 0 <= k < i ==> modelOids[k] == groups[k].groupOid
      invariant forall m :: m in modelMap <==> LastListing(groups[..i], m).Some?
      invariant forall m :: m in modelMap ==> modelMap[m] == groups[LastListing(groups[..i], m).value].modelGroup
    {
      var devGroup := groups[i];
      assert groups[..i + 1][..i] == groups[..i];
      modelOids := modelOids + [devGroup.groupOid];
      ghost var outer := modelMap;
      for j := 0 to |devGroup.modellist|
        invariant forall m :: m in modelMap <==> (m in outer || m in devGroup.modellist[..j])
        invariant forall m :: m in modelMap ==>
          modelMap[m] == if m in devGroup.modellist[..j] then devGroup.modelGroup else outer[m]
      {
        assert devGroup.modellist[..j + 1] == devGroup.modellist[..j] + [devGroup.modellist[j]];
        modelMap := modelMap[devGroup.modellist[j] := devGroup.modelGroup];
      }
      assert devGroup.modellist[..|devGroup.modellist|] == devGroup.modellist;
    }
    assert groups[..|groups|] == groups;
  }
}
