/**
 * The command layer's shared state and setup: the sample-interval bounds,
 * the package-level OID tables built from the configuration, and the
 * identification of the controller model from a query of every group's
 * model OID.
 */
module Cmd {
  import opened Common
  import opened GoText
  import opened Clock
  import opened Config
  import opened Snmp

  /** The smallest accepted sample interval. */
  const MinSampleInterval: int := 1 * Second
  /** The largest accepted sample interval. */
  const MaxSampleInterval: int := 60 * Second

  /** The group name modelMap gives for model: the last group listing it, "" when none does. */
  function ModelGroupOf(groups: seq<DeviceInfo>, model: string): (g: string)
    ensures LastListing(groups, model).None? ==> g == ""
    ensures LastListing(groups, model).Some? ==> g == groups[LastListing(groups, model).value].modelGroup
  {
    match LastListing(groups, model)
    case None => ""
    case Some(i) => groups[i].modelGroup
  }

  /** The model OIDs ModelInfo lists, in group order. */
  function GroupOids(groups: seq<DeviceInfo>): (oids: seq<string>)
    ensures |oids| == |groups|
  {
    seq(|groups|, i requires 0 <= i < |groups| => groups[i].groupOid)
  }

  /** How %v prints a pointer to a string slice: &[a b c]. */
  function SliceText(xs: seq<string>): string
  {
    "&[" + Join(xs, " ") + "]"
  }

  /** The error queryForModel reports when no model value came back. */
  function ModelNotFound(oids: seq<string>): string
  {
    "Model not found in Model Group OID list [" + SliceText(oids) + "]\n"
  }

  /** The OID list of a (oids, infos, error) triple; nil after an error. */
  function OidsOrNil(r: Result<OidLists>): seq<string>
  {
    if r.Ok? then r.value.oids else []
  }

  /** The metadata list of a (oids, infos, error) triple; nil after an error. */
  function InfosOrNil(r: Result<OidLists>): seq<OidInfo>
  {
    if r.Ok? then r.value.infos else []
  }

  function ErrorOf<T>(r: Result<T>): Option<string>
  {
    if r.Ok? then None else Some(r.msg)
  }

  /** The package globals dataOids, dataOidInfo, staticOids, staticOidInfo and allOids; nil is the empty sequence. */
  class OidTables {
    var staticOids: seq<string>
    var staticOidInfo: seq<OidInfo>
    var dataOids: seq<string>
    var dataOidInfo: seq<OidInfo>
    var allOids: seq<string>

    constructor ()
      ensures staticOids == [] && staticOidInfo == [] && dataOids == [] && dataOidInfo == [] && allOids == []
    {
      staticOids, staticOidInfo := [], [];
      dataOids, dataOidInfo := [], [];
      allOids := [];
    }

    /**
     * initOids: fill the static tables, then the data tables, then allOids as
     * the static OIDs followed by the data OIDs. Without a selected model the
     * static tables are cleared, the error is returned, and nothing else is
     * touched.
     */
    method InitOids(cfg: TSMConfig, sel: Selection) returns (err: Option<string>)
      requires sel.group != "" ==> 0 <= sel.index < |cfg.deviceGroups|
      modifies this
      ensures sel.group == "" ==>
        (err == Some("Model moust be set before calling StaticOidsInfo")
         && staticOids == [] && staticOidInfo == []
         && dataOids == old(dataOids) && dataOidInfo == old(dataOidInfo) && allOids == old(allOids))
      ensures sel.group != "" ==>
        (err.None?
         && staticOidInfo == cfg.emcOids + cfg.deviceGroups[sel.index].statics
         && staticOids == OidsOf(staticOidInfo)
         && dataOidInfo == DataInfoList(cfg.deviceGroups[sel.index])
         && dataOids == OidsOf(dataOidInfo)
         && allOids == staticOids + dataOids)
    {
      var statics := sel.StaticOidsInfo(cfg);
      staticOids, staticOidInfo := OidsOrNil(statics), InfosOrNil(statics);
      if statics.Err? {
        return Some(statics.msg);
      }
      var data := sel.DataOidsInfo(cfg);
      dataOids, dataOidInfo := OidsOrNil(data), InfosOrNil(data);
      err := ErrorOf(data);
      if data.Ok? {
        allOids := staticOids + dataOids;
      }
    }
  }

  /**
   * queryForModel's loop over the answers: every value other than "0"
   * replaces the model, and its group is looked up in modelMap ("" when
   * absent); the answers are visited in Go's unspecified map order.
   */
  method PickModel(results: map<string, string>, modelMap: map<string, string>)
    returns (model: string, modelGroup: string)
    ensures (model == "" && modelGroup == "")
      || (model in results.Values && model != "0"
          && modelGroup == (if model in modelMap then modelMap[model] else ""))
    ensures "" !in results.Values ==>
      (model != "" <==> exists key :: key in results && results[key] != "0")
  {
    model, modelGroup := "", "";
    var rest := results.Keys;
    while rest != {}
      invariant rest <= results.Keys
      invariant (model == "" && modelGroup == "")
        || (model in results.Values && model != "0"
            && modelGroup == (if model in modelMap then modelMap[model] else ""))
      invariant "" !in results.Values ==>
        (model != "" <==> exists key :: key in results && key !in rest && results[key] != "0")
      decreases rest
    {
      var key :| key in rest;
      var modinfo := results[key];
      if modinfo != "0" {
        model := modinfo;
        modelGroup := if model in modelMap then modelMap[model] else "";
      }
      rest := rest - {key};
    }
  }

  /**
   * What queryForModel reports once the model OIDs have answered with
   * results, and the selection (group, index) it leaves behind, starting
   * from (oldGroup, oldIndex): success exactly when a model was found; the
   * model is an answer other than "0" and its group is the one modelMap
   * gives, selected when a group of that name exists; without a model the
   * error is ModelNotFound and the selection is untouched. Answers that are
   * all "0" or empty give no model; any other answer, when none is empty,
   * gives one.
   */
  ghost predicate ModelOutcome(cfg: TSMConfig, results: map<string, string>,
                               model: string, modelGroup: string, err: Option<string>,
                               group: string, index: int, oldGroup: string, oldIndex: int)
  {
    && (err.None? <==> model != "")
    && (err.None? ==>
          model in results.Values && model != "0"
          && modelGroup == ModelGroupOf(cfg.deviceGroups, model)
          && (LastMatch(cfg.deviceGroups, modelGroup).Some? ==>
                group == modelGroup && index == LastMatch(cfg.deviceGroups, modelGroup).value)
          && (LastMatch(cfg.deviceGroups, modelGroup).None? ==> group == oldGroup && index == oldIndex))
    && (err.Some? ==>
          err == Some(ModelNotFound(GroupOids(cfg.deviceGroups))) && modelGroup == ""
          && group == oldGroup && index == oldIndex)
    && ((forall key :: key in results ==> results[key] in {"0", ""}) ==> err.Some?)
    && (("" !in results.Values && exists key :: key in results && results[key] != "0") ==> err.None?)
  }

  /**
   * queryForModel: connect (a failure is returned before any query), ask
   * every group's model OID, and take a value other than "0" as the model
   * (PickModel); the model's group comes from ModelInfo's map and is then
   * selected with SetModel.
   * asked is the OID list handed to QueryOids, None when no query was made.
   */
  method QueryForModel(
    cfg: TSMConfig, sel: Selection, svc: SnmpService,
    host: string, port: string, community: string, dialError: Option<string>, answer: QueryOutcome)
    returns (model: string, modelGroup: string, err: Option<string>, asked: Option<seq<string>>)
    modifies sel, svc
    ensures !((ParseUint(port, 16).Parsed? || !old(svc.ready)) && dialError.None?) ==>
        (err.Some? && asked.None? && model == "" && modelGroup == ""
         && sel.group == old(sel.group) && sel.index == old(sel.index))
    ensures (ParseUint(port, 16).Parsed? || !old(svc.ready)) && dialError.Some? ==> err == dialError
    ensures asked.Some? ==> asked.value == GroupOids(cfg.deviceGroups)
    ensures asked.Some? && answer.Failed? ==>
      (err == Some(answer.msg) && sel.group == old(sel.group) && sel.index == old(sel.index))
    ensures asked.Some? && answer.Answered? ==>
      ModelOutcome(cfg, answer.results, model, modelGroup, err, sel.group, sel.index, old(sel.group), old(sel.index))
    ensures err.None? ==> asked.Some?
    ensures old(sel.Consistent(cfg)) ==> sel.Consistent(cfg)
    // The service is left as InitAndConnect leaves it; the query does not touch it.
    ensures ParseUint(port, 16).Parsed? ==> svc.host == host && svc.port == ParseUint(port, 16).value
    ensures !ParseUint(port, 16).Parsed? ==> svc.host == old(svc.host) && svc.port == old(svc.port)
    ensures ParseUint(port, 16).Parsed? || !old(svc.ready) ==>
      && (dialError.Some? ==> !svc.ready && svc.params.None?)
      && (dialError.None? ==> svc.ready && svc.params == Some(Session(svc.host, svc.port % PortLimit, community)))
    ensures !ParseUint(port, 16).Parsed? && old(svc.ready) ==>
      err == Some(AlreadyConnected) && svc.ready && svc.params == old(svc.params)
    ensures svc.currentScan == old(svc.currentScan) && svc.internalInterval == old(svc.internalInterval)
    ensures old(svc.Valid()) ==> svc.Valid()
  {
    model, modelGroup, asked := "", "", None;
    err := svc.InitAndConnect(host, port, community, dialError);
    if err.Some? {
      return "", "", err, None;
    }
    assert sel.group == old(sel.group) && sel.index == old(sel.index);
    assert sel.Consistent(cfg) == old(sel.Consistent(cfg));
    model, modelGroup, err, asked := QueryConnected(cfg, sel, answer);
  }

  /** queryForModel after a successful connect: list the model OIDs, query them, and read the answers. */
  method QueryConnected(cfg: TSMConfig, sel: Selection, answer: QueryOutcome)
    returns (model: string, modelGroup: string, err: Option<string>, asked: Option<seq<string>>)
    modifies sel
    ensures asked == Some(GroupOids(cfg.deviceGroups))
    ensures answer.Failed? ==>
      (err == Some(answer.msg) && sel.group == old(sel.group) && sel.index == old(sel.index))
    ensures answer.Answered? ==>
      ModelOutcome(cfg, answer.results, model, modelGroup, err, sel.group, sel.index, old(sel.group), old(sel.index))
    ensures old(sel.Consistent(cfg)) ==> sel.Consistent(cfg)
  {
    var modelGroupOids, modelMap := ModelInfo(cfg);
    assert modelGroupOids == GroupOids(cfg.deviceGroups);
    assert forall m :: m in modelMap ==> modelMap[m] == ModelGroupOf(cfg.deviceGroups, m);
    asked := Some(modelGroupOids);
    match answer
    case Failed(msg) =>
      return "", "", Some(msg), asked;
    case Answered(_, results) =>
      model, modelGroup, err := ModelFromAnswers(cfg, sel, modelGroupOids, modelMap, results);
  }

  /**
   * The end of queryForModel, once the model OIDs have answered: pick the
   * model, report ModelNotFound when there is none, and select its group.
   */
  method ModelFromAnswers(
    cfg: TSMConfig, sel: Selection, modelGroupOids: seq<string>, modelMap: map<string, string>,
    results: map<string, string>)
    returns (model: string, modelGroup: string, err: Option<string>)
    requires modelGroupOids == GroupOids(cfg.deviceGroups)
    requires forall m :: m in modelMap <==> LastListing(cfg.deviceGroups, m).Some?
    requires forall m :: m in modelMap ==> modelMap[m] == ModelGroupOf(cfg.deviceGroups, m)
    modifies sel
    ensures ModelOutcome(cfg, results, model, modelGroup, err, sel.group, sel.index, old(sel.group), old(sel.index))
    ensures old(sel.Consistent(cfg)) ==> sel.Consistent(cfg)
  {
    model, modelGroup := PickModel(results, modelMap);
    if model == "" {
      return "", "", Some(ModelNotFound(modelGroupOids));
    }
    sel.SetModel(cfg, modelGroup);
    err := None;
  }
}
