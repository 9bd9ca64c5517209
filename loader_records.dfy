/** The loader's record normalisers and relationship-pair builders: pure
    specifications of what each `_extract_*` and pair builder computes from
    the raw provider dictionaries, and the loops that compute them. */
module LoaderRecords {
  import opened Values

  // ---------------------------------------------------------------------
  // Running a per-element step over a sequence, stopping at the first raise
  // ---------------------------------------------------------------------

  /** Apply `f` to each element in order and concatenate the outputs; the
      first element whose step raises makes the whole run raise that error. */
  function FlatMap<A, B>(f: A -> Result<seq<B>>, xs: seq<A>): Result<seq<B>>
    decreases |xs|
  {
    if xs == [] then Ok([])
    else match FlatMap(f, xs[..|xs| - 1])
      case Err(e) => Err(e)
      case Ok(acc) =>
        match f(xs[|xs| - 1])
        case Err(e) => Err(e)
        case Ok(ys) => Ok(acc + ys)
  }

  /** One more element of a loop that has succeeded so far. */
  lemma FlatMapStep<A, B>(f: A -> Result<seq<B>>, xs: seq<A>, j: nat, acc: seq<B>)
    requires j < |xs|
    requires FlatMap(f, xs[..j]) == Ok(acc)
    ensures FlatMap(f, xs[..j + 1]) == if f(xs[j]).Err? then Err(f(xs[j]).error) else Ok(acc + f(xs[j]).value)
  {
    assert xs[..j + 1][..j] == xs[..j];
  }

  /** Once a prefix raised, the whole run raises the same error. */
  lemma {:induction false} FlatMapErrSticks<A, B>(f: A -> Result<seq<B>>, xs: seq<A>, i: nat, e: Error)
    requires i <= |xs|
    requires FlatMap(f, xs[..i]) == Err(e)
    ensures FlatMap(f, xs) == Err(e)
    decreases |xs| - i
  {
    if i < |xs| {
      var ys := xs[..i + 1];
      assert ys[..|ys| - 1] == xs[..i];
      FlatMapErrSticks(f, xs, i + 1, e);
    } else {
      assert xs[..i] == xs;
    }
  }

  /** The run succeeds exactly when every step does; when each step yields a
      single element, the output has one element per input, in order. */
  lemma {:induction false} FlatMapSingletons<A, B>(f: A -> Result<seq<B>>, xs: seq<A>)
    requires forall x :: f(x).Ok? ==> |f(x).value| == 1
    ensures FlatMap(f, xs).Ok? <==> forall i :: 0 <= i < |xs| ==> f(xs[i]).Ok?
    ensures FlatMap(f, xs).Ok? ==>
              |FlatMap(f, xs).value| == |xs| &&
              forall i :: 0 <= i < |xs| ==> f(xs[i]) == Ok([FlatMap(f, xs).value[i]])
    decreases |xs|
  {
    if xs != [] {
      var init, last := xs[..|xs| - 1], xs[|xs| - 1];
      FlatMapSingletons(f, init);
      assert forall i :: 0 <= i < |init| ==> init[i] == xs[i];
      if FlatMap(f, init).Ok? && f(last).Ok? {
        var acc := FlatMap(f, init).value;
        assert FlatMap(f, xs) == Ok(acc + f(last).value);
        forall i | 0 <= i < |xs| ensures f(xs[i]) == Ok([FlatMap(f, xs).value[i]]) {
          if i < |init| {
            assert FlatMap(f, xs).value[i] == acc[i];
          } else {
            assert FlatMap(f, xs).value[i] == f(last).value[0];
            assert f(last).value == [f(last).value[0]];
          }
        }
      } else if FlatMap(f, init).Ok? {
        assert !f(xs[|xs| - 1]).Ok?;
      } else {
        var i :| 0 <= i < |init| && !f(init[i]).Ok?;
        assert !f(xs[i]).Ok?;
      }
    }
  }

  /** Running `f` over `a + b` is running it over `a`, then over `b`. */
  lemma {:induction false} FlatMapAppend<A, B>(f: A -> Result<seq<B>>, a: seq<A>, b: seq<A>)
    ensures FlatMap(f, a + b).Ok? <==> FlatMap(f, a).Ok? && FlatMap(f, b).Ok?
    ensures FlatMap(f, a + b).Ok? ==> FlatMap(f, a + b).value == FlatMap(f, a).value + FlatMap(f, b).value
    decreases |b|
  {
    if b == [] {
      assert a + b == a;
    } else {
      var b' := b[..|b| - 1];
      assert (a + b)[..|a + b| - 1] == a + b';
      assert (a + b)[|a + b| - 1] == b[|b| - 1];
      FlatMapAppend(f, a, b');
    }
  }

  /** A nested run (each outer element yields a list, whose elements are then
      processed) succeeds exactly when the two-phase run (collect all inner
      elements first, then process them) does, with the same output. */
  lemma {:induction false} FlatMapFusion<A, B, C>(k: A -> Result<seq<C>>, g: A -> Result<seq<B>>, h: B -> Result<seq<C>>, xs: seq<A>)
    requires forall x :: k(x) == ThenAll(g(x), h)
    ensures FlatMap(k, xs).Ok? <==> ThenAll(FlatMap(g, xs), h).Ok?
    ensures FlatMap(k, xs).Ok? ==> FlatMap(k, xs) == ThenAll(FlatMap(g, xs), h)
    decreases |xs|
  {
    if xs != [] {
      var init, last := xs[..|xs| - 1], xs[|xs| - 1];
      FlatMapFusion(k, g, h, init);
      assert k(last) == ThenAll(g(last), h);
      if FlatMap(g, init).Ok? && g(last).Ok? {
        FlatMapAppend(h, FlatMap(g, init).value, g(last).value);
      }
    }
  }

  /** Process the elements of a list that an earlier step produced. */
  function ThenAll<B, C>(r: Result<seq<B>>, h: B -> Result<seq<C>>): Result<seq<C>> {
    match r
    case Err(e) => Err(e)
    case Ok(ys) => FlatMap(h, ys)
  }

  // ---------------------------------------------------------------------
  // Record normalisation
  // ---------------------------------------------------------------------

  /** The provider kinds the loader normalises. */
  datatype Kind = Ec2Instance | SecurityGroup | Vpc | Subnet | EbsVolume | S3Bucket | SecurityRule

  /** The raw field each kind's record takes its `id` from. */
  function IdentityField(kind: Kind): string {
    match kind
    case Ec2Instance => "InstanceId"
    case SecurityGroup => "GroupId"
    case Vpc => "VpcId"
    case Subnet => "SubnetId"
    case EbsVolume => "VolumeId"
    case S3Bucket => "BucketName"
    case SecurityRule => "RuleId"
  }

  /** The record `_extract_ec2_instances` appends for one raw instance.
      `instance.get('State', {}).get(...)` raises when `State` is present
      but not a dictionary, and likewise for `Placement`. */
  function Ec2InstanceRecord(instance: Record): Result<Record> {
    var state := GetOr(instance, "State", Dict(map[]));
    var placement := GetOr(instance, "Placement", Dict(map[]));
    if !state.Dict? || !placement.Dict? then Err(AttributeError)
    else Ok(map[
      "id" := Get(instance, "InstanceId"),
      "InstanceId" := Get(instance, "InstanceId"),
      "Name" := Get(instance, "Name"),
      "State" := GetOr(state.entries, "Name", Str("unknown")),
      "InstanceType" := Get(instance, "InstanceType"),
      "PublicIpAddress" := Get(instance, "PublicIpAddress"),
      "PrivateIpAddress" := Get(instance, "PrivateIpAddress"),
      "ImageId" := Get(instance, "ImageId"),
      "LaunchTime" := Get(instance, "LaunchTime"),
      "AvailabilityZone" := Get(placement.entries, "AvailabilityZone"),
      "Region" := GetOr(instance, "Region", Str("unknown"))])
  }

  function SecurityGroupRecord(sg: Record): Record {
    map[
      "id" := Get(sg, "GroupId"),
      "GroupId" := Get(sg, "GroupId"),
      "GroupName" := Get(sg, "GroupName"),
      "Description" := Get(sg, "Description"),
      "VpcId" := Get(sg, "VpcId"),
      "Region" := GetOr(sg, "Region", Str("unknown"))]
  }

  function VpcRecord(vpc: Record): Record {
    map[
      "id" := Get(vpc, "VpcId"),
      "VpcId" := Get(vpc, "VpcId"),
      "Name" := Get(vpc, "Name"),
      "CidrBlock" := Get(vpc, "CidrBlock"),
      "State" := Get(vpc, "State"),
      "IsDefault" := GetOr(vpc, "IsDefault", Bool(false)),
      "Region" := GetOr(vpc, "Region", Str("unknown"))]
  }

  function SubnetRecord(subnet: Record): Record {
    map[
      "id" := Get(subnet, "SubnetId"),
      "SubnetId" := Get(subnet, "SubnetId"),
      "Name" := Get(subnet, "Name"),
      "CidrBlock" := Get(subnet, "CidrBlock"),
      "AvailabilityZone" := Get(subnet, "AvailabilityZone"),
      "VpcId" := Get(subnet, "VpcId"),
      "Region" := GetOr(subnet, "Region", Str("unknown"))]
  }

  function EbsVolumeRecord(volume: Record): Record {
    map[
      "id" := Get(volume, "VolumeId"),
      "VolumeId" := Get(volume, "VolumeId"),
      "Size" := Get(volume, "Size"),
      "VolumeType" := Get(volume, "VolumeType"),
      "State" := Get(volume, "State"),
      "Encrypted" := GetOr(volume, "Encrypted", Bool(false)),
      "Iops" := Get(volume, "Iops"),
      "CreationDate" := Get(volume, "CreationDate"),
      "KmsKeyId" := Get(volume, "KmsKeyId"),
      "Region" := GetOr(volume, "Region", Str("unknown"))]
  }

  function S3BucketRecord(bucket: Record): Record {
    map[
      "id" := Get(bucket, "BucketName"),
      "Name" := Get(bucket, "BucketName"),
      "CreationDate" := Get(bucket, "CreationDate"),
      "Arn" := Get(bucket, "Arn"),
      "Region" := GetOr(bucket, "Region", Str("us-east-1"))]
  }

  /** The node record `_load_security_rules_and_relationships` builds for one
      raw rule (it carries no region). */
  function SecurityRuleRecord(rule: Record): Record {
    map[
      "id" := Get(rule, "RuleId"),
      "RuleId" := Get(rule, "RuleId"),
      "GroupId" := Get(rule, "GroupId"),
      "Protocol" := Get(rule, "Protocol"),
      "PortRange" := Get(rule, "PortRange"),
      "SourceCIDR" := Get(rule, "SourceCIDR"),
      "Direction" := Get(rule, "Direction"),
      "Action" := Get(rule, "Action"),
      "Description" := Get(rule, "Description")]
  }

  /** Normalise one raw element of a kind: only a dictionary has `.get`. */
  function Normalise(kind: Kind, raw: Value): Result<Record> {
    if !raw.Dict? then Err(AttributeError)
    else match kind
      case Ec2Instance => Ec2InstanceRecord(raw.entries)
      case SecurityGroup => Ok(SecurityGroupRecord(raw.entries))
      case Vpc => Ok(VpcRecord(raw.entries))
      case Subnet => Ok(SubnetRecord(raw.entries))
      case EbsVolume => Ok(EbsVolumeRecord(raw.entries))
      case S3Bucket => Ok(S3BucketRecord(raw.entries))
      case SecurityRule => Ok(SecurityRuleRecord(raw.entries))
  }

  /** One raw element to a one-record list, as the loop body appends it. */
  function NormaliseItem(kind: Kind, raw: Value): (r: Result<seq<Record>>)
    ensures r.Ok? ==> |r.value| == 1
  {
    match Normalise(kind, raw)
    case Err(e) => Err(e)
    case Ok(rec) => Ok([rec])
  }

  /** The elements a loader iterates: `data[key]` when `data` is a dictionary
      holding `key`, and nothing otherwise. */
  function Container(data: Value, key: string): Result<seq<Value>> {
    if data.Dict? && key in data.entries then Elements(data.entries[key]) else Ok([])
  }

  /** What a single-level `_extract_*` returns. */
  function Extracted(kind: Kind, data: Value, key: string): Result<seq<Record>> {
    ThenAll(Container(data, key), (e: Value) => NormaliseItem(kind, e))
  }

  /** `reservation['Instances']`: a missing key raises KeyError, and a
      reservation that is not a dictionary cannot be subscripted by a string. */
  function ReservationInstances(reservation: Value): Result<seq<Value>> {
    if !reservation.Dict? then Err(TypeError)
    else if "Instances" !in reservation.entries then Err(KeyError("Instances"))
    else Elements(reservation.entries["Instances"])
  }

  /** Every raw instance of every reservation, in order. */
  function AllInstances(ec2Data: Value): Result<seq<Value>> {
    ThenAll(Container(ec2Data, "Reservations"), ReservationInstances)
  }

  /** The records of one reservation's instances. */
  function ReservationRecords(reservation: Value): Result<seq<Record>> {
    ThenAll(ReservationInstances(reservation), (e: Value) => NormaliseItem(Ec2Instance, e))
  }

  /** What `_extract_ec2_instances` returns: the nested loop over reservations
      and their instances. */
  function ExtractedEc2(ec2Data: Value): Result<seq<Record>> {
    ThenAll(Container(ec2Data, "Reservations"), ReservationRecords)
  }

  // ---------------------------------------------------------------------
  // The normalising loops
  // ---------------------------------------------------------------------

  /** The loop that normalises each element of a list in turn. */
  method NormaliseEach(kind: Kind, items: seq<Value>) returns (r: Result<seq<Record>>)
    ensures r == FlatMap((e: Value) => NormaliseItem(kind, e), items)
  {
    var f := (e: Value) => NormaliseItem(kind, e);
    var records: seq<Record> := [];
    var i := 0;
    while i < |items|
      invariant 0 <= i <= |items|
      invariant FlatMap(f, items[..i]) == Ok(records)
    {
      var one := Normalise(kind, items[i]);
      assert FlatMap(f, items[..i + 1]) == if one.Err? then Err(one.error) else Ok(records + [one.value]) by {
        FlatMapStep(f, items, i, records);
        assert f(items[i]) == if one.Err? then Err(one.error) else Ok([one.value]);
      }
      if one.Err? {
        FlatMapErrSticks(f, items, i + 1, one.error);
        return Err(one.error);
      }
      records := records + [one.value];
      i := i + 1;
    }
    assert items[..i] == items;
    return Ok(records);
  }

  /** A single-level normaliser: `isinstance(data, dict) and key in data`,
      then one record per element of `data[key]`. */
  method ExtractFlat(kind: Kind, data: Value, key: string) returns (r: Result<seq<Record>>)
    ensures r == Extracted(kind, data, key)
  {
    if !(data.Dict? && key in data.entries) {
      return Ok([]);
    }
    var items := Elements(data.entries[key]);
    if items.Err? {
      return Err(items.error);
    }
    r := NormaliseEach(kind, items.value);
  }

  method ExtractSecurityGroups(sgData: Value) returns (r: Result<seq<Record>>)
    ensures r == Extracted(SecurityGroup, sgData, "SecurityGroups")
  {
    r := ExtractFlat(SecurityGroup, sgData, "SecurityGroups");
  }

  method ExtractVpcs(vpcData: Value) returns (r: Result<seq<Record>>)
    ensures r == Extracted(Vpc, vpcData, "Vpcs")
  {
    r := ExtractFlat(Vpc, vpcData, "Vpcs");
  }

  method ExtractSubnets(subnetData: Value) returns (r: Result<seq<Record>>)
    ensures r == Extracted(Subnet, subnetData, "Subnets")
  {
    r := ExtractFlat(Subnet, subnetData, "Subnets");
  }

  method ExtractEbsVolumes(volumeData: Value) returns (r: Result<seq<Record>>)
    ensures r == Extracted(EbsVolume, volumeData, "Volumes")
  {
    r := ExtractFlat(EbsVolume, volumeData, "Volumes");
  }

  method ExtractS3Buckets(bucketData: Value) returns (r: Result<seq<Record>>)
    ensures r == Extracted(S3Bucket, bucketData, "Buckets")
  {
    r := ExtractFlat(S3Bucket, bucketData, "Buckets");
  }

  /** `_extract_ec2_instances`: the outer loop over reservations, the inner
      loop over each reservation's instances. */
  method ExtractEc2Instances(ec2Data: Value) returns (r: Result<seq<Record>>)
    ensures r == ExtractedEc2(ec2Data)
  {
    if !(ec2Data.Dict? && "Reservations" in ec2Data.entries) {
      return Ok([]);
    }
    var all := Elements(ec2Data.entries["Reservations"]);
    if all.Err? {
      return Err(all.error);
    }
    var reservations := all.value;
    var instances: seq<Record> := [];
    var i := 0;
    while i < |reservations|
      invariant 0 <= i <= |reservations|
      invariant FlatMap(ReservationRecords, reservations[..i]) == Ok(instances)
    {
      assert reservations[..i + 1][..i] == reservations[..i];
      var items := ReservationInstances(reservations[i]);
      if items.Err? {
        FlatMapErrSticks(ReservationRecords, reservations, i + 1, items.error);
        return Err(items.error);
      }
      var fromOne := NormaliseEach(Ec2Instance, items.value);
      if fromOne.Err? {
        FlatMapErrSticks(ReservationRecords, reservations, i + 1, fromOne.error);
        return Err(fromOne.error);
      }
      instances := instances + fromOne.value;
      i := i + 1;
    }
    assert reservations[..i] == reservations;
    return Ok(instances);
  }

  // ---------------------------------------------------------------------
  // Properties of the normalisers
  // ---------------------------------------------------------------------

  /** Each single-level normaliser yields exactly one record per element of
      its container, in order, each the normalisation of that element. */
  lemma ExtractedOnePerElement(kind: Kind, data: Value, key: string)
    ensures Extracted(kind, data, key).Ok? ==>
              var items := Container(data, key).value;
              && |Extracted(kind, data, key).value| == |items|
              && forall i :: 0 <= i < |items| ==> Normalise(kind, items[i]) == Ok(Extracted(kind, data, key).value[i])
  {
    if Container(data, key).Ok? {
      FlatMapSingletons((e: Value) => NormaliseItem(kind, e), Container(data, key).value);
    }
  }

  /** `_extract_ec2_instances` yields one record per instance across all
      reservations, in order; it raises exactly when collecting the
      instances or normalising one of them raises. */
  lemma ExtractedEc2OnePerInstance(ec2Data: Value)
    ensures ExtractedEc2(ec2Data).Ok? <==>
              AllInstances(ec2Data).Ok? && forall i :: 0 <= i < |AllInstances(ec2Data).value| ==>
                Normalise(Ec2Instance, AllInstances(ec2Data).value[i]).Ok?
    ensures ExtractedEc2(ec2Data).Ok? ==>
              var items := AllInstances(ec2Data).value;
              && |ExtractedEc2(ec2Data).value| == |items|
              && forall i :: 0 <= i < |items| ==> Normalise(Ec2Instance, items[i]) == Ok(ExtractedEc2(ec2Data).value[i])
  {
    var h := (e: Value) => NormaliseItem(Ec2Instance, e);
    var c := Container(ec2Data, "Reservations");
    if c.Ok? {
      FlatMapFusion(ReservationRecords, ReservationInstances, h, c.value);
      if AllInstances(ec2Data).Ok? {
        FlatMapSingletons(h, AllInstances(ec2Data).value);
      }
    }
  }

  /** Input that is not a dictionary, or lacks the container key, yields no
      records. */
  lemma NoContainerNoRecords(kind: Kind, data: Value, key: string)
    requires !data.Dict? || key !in data.entries
    ensures Extracted(kind, data, key) == Ok([])
    ensures key == "Reservations" ==> ExtractedEc2(data) == Ok([])
  {
  }

  /** Every record is keyed by the kind's identity field: its `id` is the
      raw element's InstanceId, GroupId, VpcId, SubnetId, VolumeId,
      BucketName or RuleId. Only an instance with a non-dictionary `State`
      or `Placement`, or a raw element that is not a dictionary, raises. */
  lemma RecordIdIsIdentityField(kind: Kind, raw: Value)
    ensures Normalise(kind, raw).Ok? <==>
              raw.Dict? &&
              (kind == Ec2Instance ==> GetOr(raw.entries, "State", Dict(map[])).Dict? &&
                                       GetOr(raw.entries, "Placement", Dict(map[])).Dict?)
    ensures Normalise(kind, raw).Ok? ==>
              Get(Normalise(kind, raw).value, "id") == Get(raw.entries, IdentityField(kind))
  {
  }

  /** The normalisers' defaults: a missing `State.Name` is 'unknown', a
      missing `Encrypted` or `IsDefault` is False, and a missing `Region` is
      'unknown', or 'us-east-1' for buckets. */
  lemma NormaliserDefaults(raw: Record)
    ensures Ec2InstanceRecord(raw).Ok? && ("State" !in raw || "Name" !in raw["State"].entries) ==>
              Ec2InstanceRecord(raw).value["State"] == Str("unknown")
    ensures Ec2InstanceRecord(raw).Ok? && "Region" !in raw ==> Ec2InstanceRecord(raw).value["Region"] == Str("unknown")
    ensures "Encrypted" !in raw ==> EbsVolumeRecord(raw)["Encrypted"] == Bool(false)
    ensures "IsDefault" !in raw ==> VpcRecord(raw)["IsDefault"] == Bool(false)
    ensures "Region" !in raw ==>
              && SecurityGroupRecord(raw)["Region"] == Str("unknown")
              && VpcRecord(raw)["Region"] == Str("unknown")
              && SubnetRecord(raw)["Region"] == Str("unknown")
              && EbsVolumeRecord(raw)["Region"] == Str("unknown")
              && S3BucketRecord(raw)["Region"] == Str("us-east-1")
  {
  }

  // ---------------------------------------------------------------------
  // Relationship pairs
  // ---------------------------------------------------------------------

  /** A two-field pair record, as the builders append it. */
  function Pair(k1: string, v1: Value, k2: string, v2: Value): Record {
    map[k1 := v1, k2 := v2]
  }

  /** The IS_MEMBER_OF pairs of one raw instance: its id (read under
      `instanceKey`) paired with the `GroupId` of every listed group. The
      pairs exist whenever `SecurityGroups` is truthy, whatever the id. */
  function SecurityGroupPairsOf(instanceKey: string, instance: Value): Result<seq<Record>> {
    if !instance.Dict? then Err(AttributeError)
    else
      var instanceId := Get(instance.entries, instanceKey);
      var groups := Get(instance.entries, "SecurityGroups");
      if !Truthy(groups) then Ok([])
      else ThenAll(Elements(groups), (sg: Value) => GroupPair(instanceId, sg))
  }

  function GroupPair(instanceId: Value, sg: Value): (r: Result<seq<Record>>)
    ensures r.Ok? ==> |r.value| == 1
  {
    if sg.Dict? then Ok([Pair("instance_id", instanceId, "group_id", Get(sg.entries, "GroupId"))])
    else Err(AttributeError)
  }

  /** The LOCATED_IN pair of one raw instance, present only when both its
      id and its `SubnetId` are truthy. */
  function SubnetPairOf(instanceKey: string, instance: Value): Result<seq<Record>> {
    if !instance.Dict? then Err(AttributeError)
    else
      var instanceId := Get(instance.entries, instanceKey);
      var subnetId := Get(instance.entries, "SubnetId");
      if Truthy(instanceId) && Truthy(subnetId) then Ok([Pair("instance_id", instanceId, "subnet_id", subnetId)])
      else Ok([])
  }

  /** The ATTACHES_TO pairs of one raw volume: one per attachment whose
      `InstanceId` is truthy, provided the `VolumeId` is truthy too. */
  function AttachmentPairsOf(volume: Value): Result<seq<Record>> {
    if !volume.Dict? then Err(AttributeError)
    else
      var volumeId := Get(volume.entries, "VolumeId");
      var attachments := Get(volume.entries, "Attachments");
      if !Truthy(attachments) then Ok([])
      else ThenAll(Elements(attachments), (a: Value) => AttachmentPair(volumeId, a))
  }

  function AttachmentPair(volumeId: Value, attachment: Value): Result<seq<Record>> {
    if !attachment.Dict? then Err(AttributeError)
    else
      var instanceId := Get(attachment.entries, "InstanceId");
      if Truthy(volumeId) && Truthy(instanceId) then Ok([Pair("volume_id", volumeId, "instance_id", instanceId)])
      else Ok([])
  }

  /** The HAS_RULE pair of one raw rule, made without any check. */
  function RulePair(rule: Value): (r: Result<seq<Record>>)
    ensures r.Ok? ==> |r.value| == 1
  {
    if rule.Dict? then Ok([Pair("group_id", Get(rule.entries, "GroupId"), "rule_id", Get(rule.entries, "RuleId"))])
    else Err(AttributeError)
  }

  /** Which per-instance builder a reservation loop runs. */
  datatype InstanceBuilder = GroupMembership | SubnetLocation

  function PairsOfInstance(b: InstanceBuilder, instanceKey: string, instance: Value): Result<seq<Record>> {
    match b
    case GroupMembership => SecurityGroupPairsOf(instanceKey, instance)
    case SubnetLocation => SubnetPairOf(instanceKey, instance)
  }

  function PairsOfReservation(b: InstanceBuilder, instanceKey: string, reservation: Value): Result<seq<Record>> {
    ThenAll(ReservationInstances(reservation), (inst: Value) => PairsOfInstance(b, instanceKey, inst))
  }

  /** The pairs a per-instance builder collects over every reservation. */
  function InstancePairs(b: InstanceBuilder, instanceKey: string, ec2Data: Value): Result<seq<Record>> {
    ThenAll(Container(ec2Data, "Reservations"), (res: Value) => PairsOfReservation(b, instanceKey, res))
  }

  /** A run over a single element is that element's step. */
  lemma FlatMapOne<A, B>(f: A -> Result<seq<B>>, x: A)
    ensures FlatMap(f, [x]) == f(x)
  {
    assert [x][..0] == [];
    assert FlatMap(f, [x][..0]) == Ok([]);
    if f(x).Ok? {
      assert [] + f(x).value == f(x).value;
    }
  }

  /** An answer with one reservation holding one instance yields exactly
      that instance's pairs. */
  lemma InstancePairsOfOne(b: InstanceBuilder, instanceKey: string, ec2Data: Value, res: Value, inst: Value)
    requires Container(ec2Data, "Reservations") == Ok([res])
    requires ReservationInstances(res) == Ok([inst])
    ensures InstancePairs(b, instanceKey, ec2Data) == PairsOfInstance(b, instanceKey, inst)
  {
    var onInstance := (inst: Value) => PairsOfInstance(b, instanceKey, inst);
    var onReservation := (res: Value) => PairsOfReservation(b, instanceKey, res);
    FlatMapOne(onInstance, inst);
    FlatMapOne(onReservation, res);
    assert PairsOfReservation(b, instanceKey, res) == FlatMap(onInstance, [inst]);
    assert InstancePairs(b, instanceKey, ec2Data) == FlatMap(onReservation, [res]);
  }

  function AttachmentPairs(volumeData: Value): Result<seq<Record>> {
    ThenAll(Container(volumeData, "Volumes"), AttachmentPairsOf)
  }

  /** `'Rules' in data['security_rules']`, then `data['security_rules']['Rules']`:
      a dictionary is tested for the key; a list for an element equal to
      'Rules' and a string for the substring, and either then raises when
      subscripted by a string; any other value cannot be tested. None means
      the test was false and the rules are skipped. */
  function RuleElements(rules: Value): Result<Option<seq<Value>>> {
    match rules
    case Dict(m) =>
      if "Rules" in m then
        match Elements(m["Rules"])
        case Err(e) => Err(e)
        case Ok(xs) => Ok(Some(xs))
      else Ok(None)
    case List(xs) => if Str("Rules") in xs then Err(TypeError) else Ok(None)
    case Str(s) => if Contains(s, "Rules") then Err(TypeError) else Ok(None)
    case _ => Err(TypeError)
  }

  // ---------------------------------------------------------------------
  // The pair-building loops
  // ---------------------------------------------------------------------

  /** The loop over one instance's security groups. */
  method GroupPairsOf(instanceKey: string, instance: Value) returns (r: Result<seq<Record>>)
    ensures r == SecurityGroupPairsOf(instanceKey, instance)
  {
    if !instance.Dict? {
      return Err(AttributeError);
    }
    var instanceId := Get(instance.entries, instanceKey);
    var groups := Get(instance.entries, "SecurityGroups");
    if !Truthy(groups) {
      return Ok([]);
    }
    var f := (sg: Value) => GroupPair(instanceId, sg);
    var all := Elements(groups);
    if all.Err? {
      return Err(all.error);
    }
    var items := all.value;
    var pairs: seq<Record> := [];
    var i := 0;
    while i < |items|
      invariant 0 <= i <= |items|
      invariant FlatMap(f, items[..i]) == Ok(pairs)
    {
      assert items[..i + 1][..i] == items[..i];
      if !items[i].Dict? {
        FlatMapErrSticks(f, items, i + 1, AttributeError);
        return Err(AttributeError);
      }
      pairs := pairs + [Pair("instance_id", instanceId, "group_id", Get(items[i].entries, "GroupId"))];
      i := i + 1;
    }
    assert items[..i] == items;
    return Ok(pairs);
  }

  /** The loop over one volume's attachments. */
  method AttachmentPairsOfVolume(volume: Value) returns (r: Result<seq<Record>>)
    ensures r == AttachmentPairsOf(volume)
  {
    if !volume.Dict? {
      return Err(AttributeError);
    }
    var volumeId := Get(volume.entries, "VolumeId");
    var attachments := Get(volume.entries, "Attachments");
    if !Truthy(attachments) {
      return Ok([]);
    }
    var f := (a: Value) => AttachmentPair(volumeId, a);
    var all := Elements(attachments);
    if all.Err? {
      return Err(all.error);
    }
    var items := all.value;
    var pairs: seq<Record> := [];
    var i := 0;
    while i < |items|
      invariant 0 <= i <= |items|
      invariant FlatMap(f, items[..i]) == Ok(pairs)
    {
      assert items[..i + 1][..i] == items[..i];
      if !items[i].Dict? {
        FlatMapErrSticks(f, items, i + 1, AttributeError);
        return Err(AttributeError);
      }
      var instanceId := Get(items[i].entries, "InstanceId");
      assert f(items[i]) ==
        if Truthy(volumeId) && Truthy(instanceId) then Ok([Pair("volume_id", volumeId, "instance_id", instanceId)]) else Ok([]);
      if Truthy(volumeId) && Truthy(instanceId) {
        pairs := pairs + [Pair("volume_id", volumeId, "instance_id", instanceId)];
      } else {
        assert pairs + [] == pairs;
      }
      i := i + 1;
    }
    assert items[..i] == items;
    return Ok(pairs);
  }

  /** The instance loop of one reservation. */
  method ReservationPairs(b: InstanceBuilder, instanceKey: string, reservation: Value) returns (r: Result<seq<Record>>)
    ensures r == PairsOfReservation(b, instanceKey, reservation)
  {
    var per := (inst: Value) => PairsOfInstance(b, instanceKey, inst);
    var all := ReservationInstances(reservation);
    if all.Err? {
      return Err(all.error);
    }
    var instances := all.value;
    var pairs: seq<Record> := [];
    var j := 0;
    while j < |instances|
      invariant 0 <= j <= |instances|
      invariant FlatMap(per, instances[..j]) == Ok(pairs)
    {
      var some: Result<seq<Record>>;
      if b == GroupMembership {
        some := GroupPairsOf(instanceKey, instances[j]);
      } else {
        some := SubnetPairOf(instanceKey, instances[j]);
      }
      assert some == per(instances[j]);
      FlatMapStep(per, instances, j, pairs);
      if some.Err? {
        FlatMapErrSticks(per, instances, j + 1, some.error);
        return Err(some.error);
      }
      pairs := pairs + some.value;
      j := j + 1;
    }
    assert instances[..j] == instances;
    return Ok(pairs);
  }

  /** The reservation loop shared by the IS_MEMBER_OF and LOCATED_IN
      builders. */
  method CollectInstancePairs(b: InstanceBuilder, instanceKey: string, ec2Data: Value) returns (r: Result<seq<Record>>)
    ensures r == InstancePairs(b, instanceKey, ec2Data)
  {
    var step := (res: Value) => PairsOfReservation(b, instanceKey, res);
    if !(ec2Data.Dict? && "Reservations" in ec2Data.entries) {
      return Ok([]);
    }
    var all := Elements(ec2Data.entries["Reservations"]);
    if all.Err? {
      return Err(all.error);
    }
    var reservations := all.value;
    var pairs: seq<Record> := [];
    var i := 0;
    while i < |reservations|
      invariant 0 <= i <= |reservations|
      invariant FlatMap(step, reservations[..i]) == Ok(pairs)
    {
      var fromOne := ReservationPairs(b, instanceKey, reservations[i]);
      assert FlatMap(step, reservations[..i + 1]) ==
             if fromOne.Err? then Err(fromOne.error) else Ok(pairs + fromOne.value) by {
        assert fromOne == step(reservations[i]);
        FlatMapStep(step, reservations, i, pairs);
      }
      if fromOne.Err? {
        FlatMapErrSticks(step, reservations, i + 1, fromOne.error);
        return Err(fromOne.error);
      }
      pairs := pairs + fromOne.value;
      i := i + 1;
    }
    assert reservations[..i] == reservations;
    return Ok(pairs);
  }

  /** `_load_ec2_security_group_relationships`' pair list. */
  method BuildSecurityGroupPairs(instanceKey: string, ec2Data: Value) returns (r: Result<seq<Record>>)
    ensures r == InstancePairs(GroupMembership, instanceKey, ec2Data)
  {
    r := CollectInstancePairs(GroupMembership, instanceKey, ec2Data);
  }

  /** `_load_ec2_subnet_relationships`' pair list. */
  method BuildSubnetPairs(instanceKey: string, ec2Data: Value) returns (r: Result<seq<Record>>)
    ensures r == InstancePairs(SubnetLocation, instanceKey, ec2Data)
  {
    r := CollectInstancePairs(SubnetLocation, instanceKey, ec2Data);
  }

  /** `_load_ebs_ec2_relationships`' pair list. */
  method BuildAttachmentPairs(volumeData: Value) returns (r: Result<seq<Record>>)
    ensures r == AttachmentPairs(volumeData)
  {
    if !(volumeData.Dict? && "Volumes" in volumeData.entries) {
      return Ok([]);
    }
    var all := Elements(volumeData.entries["Volumes"]);
    if all.Err? {
      return Err(all.error);
    }
    var volumes := all.value;
    var pairs: seq<Record> := [];
    var i := 0;
    while i < |volumes|
      invariant 0 <= i <= |volumes|
      invariant FlatMap(AttachmentPairsOf, volumes[..i]) == Ok(pairs)
    {
      assert volumes[..i + 1][..i] == volumes[..i];
      var fromOne := AttachmentPairsOfVolume(volumes[i]);
      if fromOne.Err? {
        FlatMapErrSticks(AttachmentPairsOf, volumes, i + 1, fromOne.error);
        return Err(fromOne.error);
      }
      pairs := pairs + fromOne.value;
      i := i + 1;
    }
    assert volumes[..i] == volumes;
    return Ok(pairs);
  }

  /** The HAS_RULE pair loop over the raw rules. */
  method BuildRulePairs(rules: seq<Value>) returns (r: Result<seq<Record>>)
    ensures r == FlatMap(RulePair, rules)
  {
    var pairs: seq<Record> := [];
    var i := 0;
    while i < |rules|
      invariant 0 <= i <= |rules|
      invariant FlatMap(RulePair, rules[..i]) == Ok(pairs)
    {
      assert rules[..i + 1][..i] == rules[..i];
      if !rules[i].Dict? {
        FlatMapErrSticks(RulePair, rules, i + 1, AttributeError);
        return Err(AttributeError);
      }
      pairs := pairs + [Pair("group_id", Get(rules[i].entries, "GroupId"), "rule_id", Get(rules[i].entries, "RuleId"))];
      i := i + 1;
    }
    assert rules[..i] == rules;
    return Ok(pairs);
  }

  // ---------------------------------------------------------------------
  // Properties of the pair builders
  // ---------------------------------------------------------------------

  /** Every element of a successful result satisfies `p`. */
  predicate FlatMapAll<B>(p: B -> bool, r: Result<seq<B>>) {
    r.Ok? ==> forall i :: 0 <= i < |r.value| ==> p(r.value[i])
  }

  /** If every step's output satisfies `p`, so does the whole run's. */
  lemma {:induction false} FlatMapKeeps<A, B>(f: A -> Result<seq<B>>, xs: seq<A>, p: B -> bool)
    requires forall x :: FlatMapAll(p, f(x))
    ensures FlatMapAll(p, FlatMap(f, xs))
    decreases |xs|
  {
    if xs != [] {
      FlatMapKeeps(f, xs[..|xs| - 1], p);
      assert FlatMapAll(p, f(xs[|xs| - 1]));
    }
  }

  /** A LOCATED_IN pair with both ids present and truthy. */
  predicate SubnetPairTruthy(p: Record) {
    "instance_id" in p && "subnet_id" in p && Truthy(p["instance_id"]) && Truthy(p["subnet_id"])
  }

  /** An ATTACHES_TO pair with both ids present and truthy. */
  predicate AttachmentPairTruthy(p: Record) {
    "volume_id" in p && "instance_id" in p && Truthy(p["volume_id"]) && Truthy(p["instance_id"])
  }

  /** The subnet and volume builders emit a pair only when both of its ids
      are truthy, and then exactly one. */
  lemma PairsNeedTruthyIds(instanceKey: string, instance: Record, volumeId: Value, attachment: Record)
    ensures var instanceId, subnetId := Get(instance, instanceKey), Get(instance, "SubnetId");
      SubnetPairOf(instanceKey, Dict(instance)) ==
        if Truthy(instanceId) && Truthy(subnetId) then Ok([Pair("instance_id", instanceId, "subnet_id", subnetId)]) else Ok([])
    ensures var instanceId := Get(attachment, "InstanceId");
      AttachmentPair(volumeId, Dict(attachment)) ==
        if Truthy(volumeId) && Truthy(instanceId) then Ok([Pair("volume_id", volumeId, "instance_id", instanceId)]) else Ok([])
  {
  }

  /** Every pair the subnet and volume builders produce has truthy ids. */
  lemma EmittedPairsHaveTruthyIds(instanceKey: string, ec2Data: Value, volumeData: Value)
    ensures FlatMapAll(SubnetPairTruthy, InstancePairs(SubnetLocation, instanceKey, ec2Data))
    ensures FlatMapAll(AttachmentPairTruthy, AttachmentPairs(volumeData))
  {
    var per := (inst: Value) => PairsOfInstance(SubnetLocation, instanceKey, inst);
    var step := (res: Value) => PairsOfReservation(SubnetLocation, instanceKey, res);
    forall inst ensures FlatMapAll(SubnetPairTruthy, per(inst)) { }
    forall res ensures FlatMapAll(SubnetPairTruthy, step(res)) {
      if ReservationInstances(res).Ok? {
        FlatMapKeeps(per, ReservationInstances(res).value, SubnetPairTruthy);
      }
    }
    if Container(ec2Data, "Reservations").Ok? {
      FlatMapKeeps(step, Container(ec2Data, "Reservations").value, SubnetPairTruthy);
    }
    forall v ensures FlatMapAll(AttachmentPairTruthy, AttachmentPairsOf(v)) {
      if v.Dict? && Truthy(Get(v.entries, "Attachments")) && Elements(Get(v.entries, "Attachments")).Ok? {
        var vid := Get(v.entries, "VolumeId");
        var f := (a: Value) => AttachmentPair(vid, a);
        forall a ensures FlatMapAll(AttachmentPairTruthy, f(a)) { }
        FlatMapKeeps(f, Elements(Get(v.entries, "Attachments")).value, AttachmentPairTruthy);
      }
    }
    if Container(volumeData, "Volumes").Ok? {
      FlatMapKeeps(AttachmentPairsOf, Container(volumeData, "Volumes").value, AttachmentPairTruthy);
    }
  }

  /** The security-group builder emits one pair per listed group even when
      the instance has no id under the key it reads: the pair then carries a
      null `instance_id`. */
  lemma GroupPairsIgnoreMissingId(instanceKey: string, instance: Record, groups: seq<Record>)
    requires instanceKey !in instance
    requires Get(instance, "SecurityGroups") == List(seq(|groups|, i requires 0 <= i < |groups| => Dict(groups[i])))
    requires groups != []
    ensures SecurityGroupPairsOf(instanceKey, Dict(instance)).Ok?
    ensures var ps := SecurityGroupPairsOf(instanceKey, Dict(instance)).value;
      && |ps| == |groups|
      && forall i :: 0 <= i < |groups| ==> ps[i] == Pair("instance_id", Null, "group_id", Get(groups[i], "GroupId"))
  {
    var items := seq(|groups|, i requires 0 <= i < |groups| => Dict(groups[i]));
    var f := (sg: Value) => GroupPair(Null, sg);
    FlatMapSingletons(f, items);
  }
}
