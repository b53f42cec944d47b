/**
 * The ECS operations: each builds the parameter map it hands to
 * `send_request`, with a fixed action, format and API version, its required
 * arguments, and its optional arguments only when they are given.
 */
module Ecs {
  import opened Wrappers
  import Decimal
  import Strings

  const Endpoint := "ecs.aliyuncs.com"
  const ResponseFormat := "JSON"
  const ApiVersion := "2014-05-26"
  const FixedKeys: set<string> := {"Action", "Format", "Version"}

  /** Rust's `u32`, the type of page numbers and page sizes. */
  type U32 = n: nat | n < 0x1_0000_0000

  /** What an operation passes to `send_request`: the endpoint and the parameters. */
  datatype Call = Call(endpoint: string, params: map<string, string>)

  /** The call goes to the ECS endpoint with the given action, `JSON` and `2014-05-26`. */
  predicate Targets(c: Call, action: string) {
    && c.endpoint == Endpoint
    && "Action" in c.params && c.params["Action"] == action
    && "Format" in c.params && c.params["Format"] == ResponseFormat
    && "Version" in c.params && c.params["Version"] == ApiVersion
  }

  /** The three entries every operation starts from. */
  function FixedParams(action: string): (params: map<string, string>)
    ensures params.Keys == FixedKeys
    ensures Targets(Call(Endpoint, params), action)
  {
    map["Action" := action, "Format" := ResponseFormat, "Version" := ApiVersion]
  }

  /**
   * An optional argument is sent exactly when it is given, under its key and
   * with its value.
   */
  predicate HasOptional(params: map<string, string>, key: string, arg: Option<string>) {
    && (key in params <==> arg.Some?)
    && (arg.Some? ==> params[key] == arg.value)
  }

  /** The map determines the optional argument behind a key. */
  lemma OptionalDetermined(params: map<string, string>, key: string, a: Option<string>, b: Option<string>)
    requires HasOptional(params, key, a) && HasOptional(params, key, b)
    ensures a == b
  {
  }

  /** `if let Some(v) = arg { params.insert(key, v) }`. */
  function InsertIfSome(params: map<string, string>, key: string, arg: Option<string>): (r: map<string, string>)
    requires key !in params
    ensures HasOptional(r, key, arg)
    ensures forall k :: k != key ==> (k in r <==> k in params)
    ensures forall k :: k in params && k != key ==> r[k] == params[k]
  {
    match arg
    case Some(v) => params[key := v]
    case None => params
  }

  /** `bool::to_string`. */
  function BoolString(b: bool): (s: string)
    ensures s == "true" || s == "false"
    ensures s == "true" <==> b
  {
    if b then "true" else "false"
  }

  function BoolArg(arg: Option<bool>): (r: Option<string>)
    ensures r.Some? <==> arg.Some?
    ensures arg.Some? ==> r.value == BoolString(arg.value)
  {
    match arg
    case Some(b) => Some(BoolString(b))
    case None => None
  }

  /** `u32::to_string`: unpadded decimal digits. */
  function U32Arg(arg: Option<U32>): (r: Option<string>)
    ensures r.Some? <==> arg.Some?
    ensures arg.Some? ==> r.value == Decimal.DecimalString(arg.value)
  {
    match arg
    case Some(n) => Some(Decimal.DecimalString(n))
    case None => None
  }

  // ---------------------------------------------------------------------
  // The `InstanceIds` argument
  // ---------------------------------------------------------------------

  function Quote(id: string): string {
    "\"" + id + "\""
  }

  function QuoteAll(ids: seq<string>): (r: seq<string>)
    ensures |r| == |ids|
    ensures forall i :: 0 <= i < |ids| ==> r[i] == Quote(ids[i])
  {
    if |ids| == 0 then [] else [Quote(ids[0])] + QuoteAll(ids[1..])
  }

  /**
   * The ID list as a JSON-array-looking string: each ID between double quotes,
   * joined by commas, inside brackets. IDs are not escaped.
   */
  function InstanceIdsValue(ids: seq<string>): string {
    "[" + Strings.Join(QuoteAll(ids), ',') + "]"
  }

  function IndexOf(s: string, c: char): (r: Option<nat>)
    ensures r.None? ==> c !in s
    ensures r.Some? ==> r.value < |s| && s[r.value] == c && c !in s[..r.value]
    decreases |s|
  {
    if |s| == 0 then None
    else if s[0] == c then Some(0)
    else match IndexOf(s[1..], c)
      case None => None
      case Some(j) => assert s[..j + 1] == [s[0]] + s[1..][..j]; Some(j + 1)
  }

  /** Reads back `"id1","id2",...` (one or more quoted IDs, without brackets). */
  function ParseQuotedList(body: string): Option<seq<string>>
    decreases |body|
  {
    if |body| < 2 || body[0] != '"' then None
    else match IndexOf(body[1..], '"')
      case None => None
      case Some(j) =>
        var id := body[1..1 + j];
        var after := body[j + 2..];
        if after == "" then Some([id])
        else if after[0] == ',' then
          match ParseQuotedList(after[1..])
          case None => None
          case Some(rest) => Some([id] + rest)
        else None
  }

  /** Reads an `InstanceIds` value back into the ID list. */
  function ParseInstanceIds(s: string): Option<seq<string>> {
    if |s| >= 2 && s[0] == '[' && s[|s| - 1] == ']' then
      var body := s[1..|s| - 1];
      if body == "" then Some([]) else ParseQuotedList(body)
    else None
  }

  lemma {:induction false} IndexOfAfter(a: string, c: char, b: string)
    requires c !in a
    ensures IndexOf(a + [c] + b, c) == Some(|a|)
    decreases |a|
  {
    if |a| > 0 {
      assert (a + [c] + b)[1..] == a[1..] + [c] + b;
      IndexOfAfter(a[1..], c, b);
    }
  }

  /** Reading the first quoted ID off the front of a list. */
  lemma ParseQuotedListCons(id: string, tail: string)
    requires '"' !in id
    ensures tail == "" ==> ParseQuotedList(Quote(id) + tail) == Some([id])
    ensures tail != "" && tail[0] == ',' && ParseQuotedList(tail[1..]).Some? ==>
      ParseQuotedList(Quote(id) + tail) == Some([id] + ParseQuotedList(tail[1..]).value)
  {
    var body := Quote(id) + tail;
    assert body[1..] == id + ['"'] + tail;
    IndexOfAfter(id, '"', tail);
    assert body[1..1 + |id|] == id;
    assert body[|id| + 2..] == tail;
  }

  lemma {:induction false} ParseQuotedListJoin(ids: seq<string>)
    requires |ids| >= 1
    requires forall i :: 0 <= i < |ids| ==> '"' !in ids[i]
    ensures ParseQuotedList(Strings.Join(QuoteAll(ids), ',')) == Some(ids)
    decreases |ids|
  {
    var quoted := QuoteAll(ids);
    if |ids| == 1 {
      assert Strings.Join(quoted, ',') == Quote(ids[0]) + "";
      ParseQuotedListCons(ids[0], "");
      assert ids == [ids[0]];
    } else {
      var rest := Strings.Join(QuoteAll(ids[1..]), ',');
      assert quoted[1..] == QuoteAll(ids[1..]);
      assert Strings.Join(quoted, ',') == Quote(ids[0]) + ([','] + rest);
      ParseQuotedListJoin(ids[1..]);
      assert ([','] + rest)[1..] == rest;
      ParseQuotedListCons(ids[0], [','] + rest);
      assert [ids[0]] + ids[1..] == ids;
    }
  }

  /** Without double quotes inside the IDs, the value determines the list. */
  lemma {:induction false} InstanceIdsRoundTrip(ids: seq<string>)
    requires forall i :: 0 <= i < |ids| ==> '"' !in ids[i]
    ensures ParseInstanceIds(InstanceIdsValue(ids)) == Some(ids)
  {
    var s := InstanceIdsValue(ids);
    var body := Strings.Join(QuoteAll(ids), ',');
    assert s[1..|s| - 1] == body;
    if |ids| > 0 {
      ParseQuotedListJoin(ids);
      assert |QuoteAll(ids)[0]| >= 2;
      if |ids| > 1 {
        assert body == QuoteAll(ids)[0] + [','] + Strings.Join(QuoteAll(ids)[1..], ',');
      }
    }
  }

  lemma InstanceIdsEmpty()
    ensures InstanceIdsValue([]) == "[]"
  {
  }

  /** IDs are not escaped: a quote inside one ID can imitate two IDs. */
  lemma InstanceIdsNotEscaped()
    ensures InstanceIdsValue(["a\",\"b"]) == InstanceIdsValue(["a", "b"])
  {
    var two, one := QuoteAll(["a", "b"]), QuoteAll(["a\",\"b"]);
    assert two == [Quote("a"), Quote("b")];
    assert one == [Quote("a\",\"b")];
    assert two[1..] == [Quote("b")];
    assert Strings.Join(two, ',') == Quote("a") + [','] + Quote("b");
    assert Quote("a") + [','] + Quote("b") == Quote("a\",\"b");
  }

  // ---------------------------------------------------------------------
  // The operations
  // ---------------------------------------------------------------------

  function DescribeRegions(regionId: Option<string>): (c: Call)
    ensures Targets(c, "DescribeRegions")
    ensures c.params.Keys <= FixedKeys + {"RegionId"}
    ensures HasOptional(c.params, "RegionId", regionId)
  {
    Call(Endpoint, InsertIfSome(FixedParams("DescribeRegions"), "RegionId", regionId))
  }

  function DescribeZones(regionId: string): (c: Call)
    ensures Targets(c, "DescribeZones")
    ensures c.params.Keys == FixedKeys + {"RegionId"}
    ensures c.params["RegionId"] == regionId
  {
    Call(Endpoint, FixedParams("DescribeZones")["RegionId" := regionId])
  }

  function DescribeAvailableResource(regionId: string, zoneId: string): (c: Call)
    ensures Targets(c, "DescribeAvailableResource")
    ensures c.params.Keys == FixedKeys + {"RegionId", "ZoneId"}
    ensures c.params["RegionId"] == regionId && c.params["ZoneId"] == zoneId
  {
    Call(Endpoint, FixedParams("DescribeAvailableResource")["RegionId" := regionId]["ZoneId" := zoneId])
  }

  function DescribeAccountAttributes(): (c: Call)
    ensures Targets(c, "DescribeAccountAttributes")
    ensures c.params.Keys == FixedKeys
  {
    Call(Endpoint, FixedParams("DescribeAccountAttributes"))
  }

  function DescribeResourcesModification(regionId: string, zoneId: string): (c: Call)
    ensures Targets(c, "DescribeResourcesModification")
    ensures c.params.Keys == FixedKeys + {"RegionId", "ZoneId"}
    ensures c.params["RegionId"] == regionId && c.params["ZoneId"] == zoneId
  {
    Call(Endpoint, FixedParams("DescribeResourcesModification")["RegionId" := regionId]["ZoneId" := zoneId])
  }

  function DescribeRecommendInstanceType(regionId: string): (c: Call)
    ensures Targets(c, "DescribeRecommendInstanceType")
    ensures c.params.Keys == FixedKeys + {"RegionId"}
    ensures c.params["RegionId"] == regionId
  {
    Call(Endpoint, FixedParams("DescribeRecommendInstanceType")["RegionId" := regionId])
  }

  function RunInstances(regionId: string, imageId: string, instanceType: string): (c: Call)
    ensures Targets(c, "RunInstances")
    ensures c.params.Keys == FixedKeys + {"RegionId", "ImageId", "InstanceType"}
    ensures c.params["RegionId"] == regionId && c.params["ImageId"] == imageId
    ensures c.params["InstanceType"] == instanceType
  {
    Call(Endpoint, FixedParams("RunInstances")["RegionId" := regionId]["ImageId" := imageId]["InstanceType" := instanceType])
  }

  function StartInstances(instanceIds: seq<string>): (c: Call)
    ensures Targets(c, "StartInstances")
    ensures c.params.Keys == FixedKeys + {"InstanceIds"}
    ensures c.params["InstanceIds"] == InstanceIdsValue(instanceIds)
  {
    Call(Endpoint, FixedParams("StartInstances")["InstanceIds" := InstanceIdsValue(instanceIds)])
  }

  function StopInstances(instanceIds: seq<string>, forceStop: Option<bool>, dryRun: Option<bool>): (c: Call)
    ensures Targets(c, "StopInstances")
    ensures c.params.Keys <= FixedKeys + {"InstanceIds", "ForceStop", "DryRun"}
    ensures "InstanceIds" in c.params && c.params["InstanceIds"] == InstanceIdsValue(instanceIds)
    ensures HasOptional(c.params, "ForceStop", BoolArg(forceStop))
    ensures HasOptional(c.params, "DryRun", BoolArg(dryRun))
  {
    var params := FixedParams("StopInstances")["InstanceIds" := InstanceIdsValue(instanceIds)];
    var params := InsertIfSome(params, "ForceStop", BoolArg(forceStop));
    Call(Endpoint, InsertIfSome(params, "DryRun", BoolArg(dryRun)))
  }

  function RebootInstance(instanceId: string, forceStop: Option<bool>, dryRun: Option<bool>): (c: Call)
    ensures Targets(c, "RebootInstance")
    ensures c.params.Keys <= FixedKeys + {"InstanceId", "ForceStop", "DryRun"}
    ensures "InstanceId" in c.params && c.params["InstanceId"] == instanceId
    ensures HasOptional(c.params, "ForceStop", BoolArg(forceStop))
    ensures HasOptional(c.params, "DryRun", BoolArg(dryRun))
  {
    var params := FixedParams("RebootInstance")["InstanceId" := instanceId];
    var params := InsertIfSome(params, "ForceStop", BoolArg(forceStop));
    Call(Endpoint, InsertIfSome(params, "DryRun", BoolArg(dryRun)))
  }

  function DeleteInstance(instanceId: string): (c: Call)
    ensures Targets(c, "DeleteInstance")
    ensures c.params.Keys == FixedKeys + {"InstanceId"}
    ensures c.params["InstanceId"] == instanceId
  {
    Call(Endpoint, FixedParams("DeleteInstance")["InstanceId" := instanceId])
  }

  function DescribeInstanceStatus(regionId: string, instanceId: Option<string>, pageNumber: Option<U32>, pageSize: Option<U32>): (c: Call)
    ensures Targets(c, "DescribeInstanceStatus")
    ensures c.params.Keys <= FixedKeys + {"RegionId", "InstanceId", "PageNumber", "PageSize"}
    ensures "RegionId" in c.params && c.params["RegionId"] == regionId
    ensures HasOptional(c.params, "InstanceId", instanceId)
    ensures HasOptional(c.params, "PageNumber", U32Arg(pageNumber))
    ensures HasOptional(c.params, "PageSize", U32Arg(pageSize))
  {
    var params := FixedParams("DescribeInstanceStatus")["RegionId" := regionId];
    var params := InsertIfSome(params, "InstanceId", instanceId);
    var params := InsertIfSome(params, "PageNumber", U32Arg(pageNumber));
    Call(Endpoint, InsertIfSome(params, "PageSize", U32Arg(pageSize)))
  }

  function DescribeInstances(regionId: string, filters: Option<string>, pageNumber: Option<U32>, pageSize: Option<U32>): (c: Call)
    ensures Targets(c, "DescribeInstances")
    ensures c.params.Keys <= FixedKeys + {"RegionId", "Filters", "PageNumber", "PageSize"}
    ensures "RegionId" in c.params && c.params["RegionId"] == regionId
    ensures HasOptional(c.params, "Filters", filters)
    ensures HasOptional(c.params, "PageNumber", U32Arg(pageNumber))
    ensures HasOptional(c.params, "PageSize", U32Arg(pageSize))
  {
    var params := FixedParams("DescribeInstances")["RegionId" := regionId];
    var params := InsertIfSome(params, "Filters", filters);
    var params := InsertIfSome(params, "PageNumber", U32Arg(pageNumber));
    Call(Endpoint, InsertIfSome(params, "PageSize", U32Arg(pageSize)))
  }

  // ---------------------------------------------------------------------
  // Properties across calls
  // ---------------------------------------------------------------------

  /** Starting and stopping the same IDs sends the same `InstanceIds` value. */
  lemma StartStopSameInstanceIds(ids: seq<string>, forceStop: Option<bool>, dryRun: Option<bool>)
    ensures StartInstances(ids).params["InstanceIds"] == StopInstances(ids, forceStop, dryRun).params["InstanceIds"]
  {
  }

  /** With no options, `DescribeInstances` sends exactly its four mandatory keys. */
  lemma DescribeInstancesMinimal(regionId: string)
    ensures DescribeInstances(regionId, None, None, None).params
      == map["Action" := "DescribeInstances", "Format" := "JSON", "Version" := "2014-05-26", "RegionId" := regionId]
  {
  }

  /**
   * Different arguments make different `DescribeInstanceStatus` calls: each
   * option can be read back from the map, page numbers through their digits.
   */
  lemma {:induction false} DescribeInstanceStatusInjective(
    regionId1: string, instanceId1: Option<string>, pageNumber1: Option<U32>, pageSize1: Option<U32>,
    regionId2: string, instanceId2: Option<string>, pageNumber2: Option<U32>, pageSize2: Option<U32>)
    requires DescribeInstanceStatus(regionId1, instanceId1, pageNumber1, pageSize1)
      == DescribeInstanceStatus(regionId2, instanceId2, pageNumber2, pageSize2)
    ensures regionId1 == regionId2 && instanceId1 == instanceId2
    ensures pageNumber1 == pageNumber2 && pageSize1 == pageSize2
  {
    var c := DescribeInstanceStatus(regionId1, instanceId1, pageNumber1, pageSize1);
    OptionalDetermined(c.params, "InstanceId", instanceId1, instanceId2);
    OptionalDetermined(c.params, "PageNumber", U32Arg(pageNumber1), U32Arg(pageNumber2));
    OptionalDetermined(c.params, "PageSize", U32Arg(pageSize1), U32Arg(pageSize2));
    if pageNumber1.Some? {
      Decimal.DecimalInjective(pageNumber1.value, pageNumber2.value);
    }
    if pageSize1.Some? {
      Decimal.DecimalInjective(pageSize1.value, pageSize2.value);
    }
  }

  /** Quote-free ID lists and the two flags can all be read back from a `StopInstances` call. */
  lemma {:induction false} StopInstancesInjective(
    ids1: seq<string>, forceStop1: Option<bool>, dryRun1: Option<bool>,
    ids2: seq<string>, forceStop2: Option<bool>, dryRun2: Option<bool>)
    requires forall i :: 0 <= i < |ids1| ==> '"' !in ids1[i]
    requires forall i :: 0 <= i < |ids2| ==> '"' !in ids2[i]
    requires StopInstances(ids1, forceStop1, dryRun1) == StopInstances(ids2, forceStop2, dryRun2)
    ensures ids1 == ids2 && forceStop1 == forceStop2 && dryRun1 == dryRun2
  {
    var c := StopInstances(ids1, forceStop1, dryRun1);
    InstanceIdsRoundTrip(ids1);
    InstanceIdsRoundTrip(ids2);
    OptionalDetermined(c.params, "ForceStop", BoolArg(forceStop1), BoolArg(forceStop2));
    OptionalDetermined(c.params, "DryRun", BoolArg(dryRun1), BoolArg(dryRun2));
  }
}
