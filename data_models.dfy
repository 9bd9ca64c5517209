/** The static schema registry: for each node kind, its label, the property
    references that map provider fields onto node properties, and the
    relationship descriptors that link it to other kinds; plus the table of
    secondary indexes. Pure data and lookups. */
module DataModels {
  import opened Values

  /** One property reference: the source field it is read from, whether it
      gets a secondary index, and whether its value comes from the call's
      keyword arguments rather than from the record. */
  datatype PropertyRef = PropertyRef(fieldName: string, extraIndex: bool, setInKwargs: bool)

  /** One attribute of a frozen properties class, in declaration order. */
  datatype Property = Property(attr: string, ref: PropertyRef)

  datatype LinkDirection = Inward | Outward | Bidirectional

  datatype RelSchema = RelSchema(
    targetNodeLabel: string,
    targetNodeMatcher: seq<Property>,
    direction: LinkDirection,
    relLabel: string,
    properties: seq<Property>)

  datatype NodeSchema = NodeSchema(
    nodeLabel: string,
    properties: seq<Property>,
    subResourceRelationship: Option<RelSchema>,
    otherRelationships: Option<seq<RelSchema>>)

  function Plain(field: string): PropertyRef { PropertyRef(field, false, false) }
  function Indexed(field: string): PropertyRef { PropertyRef(field, true, false) }
  function Kwarg(field: string): PropertyRef { PropertyRef(field, false, true) }

  /** The properties of every relationship: only its `lastupdated` stamp. */
  const RelProperties: seq<Property> := [Property("lastupdated", Kwarg("lastupdated"))]

  // ---------------------------------------------------------------------
  // Node properties
  // ---------------------------------------------------------------------

  const Ec2InstanceNodeProperties: seq<Property> := [
    Property("id", Plain("InstanceId")),
    Property("instanceid", Indexed("InstanceId")),
    Property("name", Plain("Name")),
    Property("state", Plain("State")),
    Property("instancetype", Plain("InstanceType")),
    Property("publicip", Plain("PublicIpAddress")),
    Property("privateip", Plain("PrivateIpAddress")),
    Property("imageid", Plain("ImageId")),
    Property("launchtime", Plain("LaunchTime")),
    Property("availabilityzone", Plain("AvailabilityZone")),
    Property("region", Kwarg("Region")),
    Property("lastupdated", Kwarg("lastupdated")),
    Property("platform", Plain("Platform")),
    Property("architecture", Plain("Architecture")),
    Property("ebsoptimized", Plain("EbsOptimized")),
    Property("tenancy", Plain("Tenancy"))
  ]

  const SecurityGroupNodeProperties: seq<Property> := [
    Property("id", Plain("GroupId")),
    Property("groupid", Indexed("GroupId")),
    Property("name", Plain("GroupName")),
    Property("description", Plain("Description")),
    Property("vpcid", Plain("VpcId")),
    Property("region", Kwarg("Region")),
    Property("lastupdated", Kwarg("lastupdated"))
  ]

  const VpcNodeProperties: seq<Property> := [
    Property("id", Plain("VpcId")),
    Property("vpcid", Indexed("VpcId")),
    Property("name", Plain("Name")),
    Property("cidrblock", Plain("CidrBlock")),
    Property("state", Plain("State")),
    Property("isdefault", Plain("IsDefault")),
    Property("region", Kwarg("Region")),
    Property("lastupdated", Kwarg("lastupdated"))
  ]

  const SubnetNodeProperties: seq<Property> := [
    Property("id", Plain("SubnetId")),
    Property("subnetid", Indexed("SubnetId")),
    Property("name", Plain("Name")),
    Property("cidrblock", Plain("CidrBlock")),
    Property("availabilityzone", Plain("AvailabilityZone")),
    Property("vpcid", Plain("VpcId")),
    Property("region", Kwarg("Region")),
    Property("lastupdated", Kwarg("lastupdated"))
  ]

  const EbsVolumeNodeProperties: seq<Property> := [
    Property("id", Plain("VolumeId")),
    Property("volumeid", Indexed("VolumeId")),
    Property("size", Plain("Size")),
    Property("volumetype", Plain("VolumeType")),
    Property("state", Plain("State")),
    Property("encrypted", Plain("Encrypted")),
    Property("kmskeyid", Plain("KmsKeyId")),
    Property("region", Kwarg("Region")),
    Property("lastupdated", Kwarg("lastupdated"))
  ]

  const SecurityRuleNodeProperties: seq<Property> := [
    Property("id", Plain("RuleId")),
    Property("ruleid", Indexed("RuleId")),
    Property("protocol", Plain("Protocol")),
    Property("portrange", Plain("PortRange")),
    Property("sourcecidr", Plain("SourceCIDR")),
    Property("direction", Plain("Direction")),
    Property("action", Plain("Action")),
    Property("description", Plain("Description")),
    Property("lastupdated", Kwarg("lastupdated"))
  ]

  // ---------------------------------------------------------------------
  // Relationship schemas. Each takes the matcher it was constructed with;
  // as in `__post_init__`, the default is filled in only when it is None.
  // ---------------------------------------------------------------------

  function Ec2InstanceToAwsAccountRel(matcher: Option<seq<Property>> := None): RelSchema {
    RelSchema("AWSAccount",
              if matcher.None? then [Property("id", Kwarg("AWS_ID"))] else matcher.value,
              Inward, "RESOURCE", RelProperties)
  }

  function Ec2InstanceToSecurityGroupRel(matcher: Option<seq<Property>> := None): RelSchema {
    RelSchema("SecurityGroup",
              if matcher.None? then [Property("groupid", Plain("GroupId"))] else matcher.value,
              Outward, "IS_MEMBER_OF", RelProperties)
  }

  function Ec2InstanceToSubnetRel(matcher: Option<seq<Property>> := None): RelSchema {
    RelSchema("Subnet",
              if matcher.None? then [Property("subnetid", Plain("SubnetId"))] else matcher.value,
              Outward, "LOCATED_IN", RelProperties)
  }

  function SecurityGroupToVpcRel(matcher: Option<seq<Property>> := None): RelSchema {
    RelSchema("VPC",
              if matcher.None? then [Property("vpcid", Plain("VpcId"))] else matcher.value,
              Inward, "MEMBER_OF_VPC", RelProperties)
  }

  function SubnetToVpcRel(matcher: Option<seq<Property>> := None): RelSchema {
    RelSchema("VPC",
              if matcher.None? then [Property("vpcid", Plain("VpcId"))] else matcher.value,
              Inward, "MEMBER_OF_VPC", RelProperties)
  }

  function EbsVolumeToEc2InstanceRel(matcher: Option<seq<Property>> := None): RelSchema {
    RelSchema("EC2Instance",
              if matcher.None? then [Property("instanceid", Plain("InstanceId"))] else matcher.value,
              Outward, "ATTACHES_TO", RelProperties)
  }

  function SecurityRuleToSecurityGroupRel(matcher: Option<seq<Property>> := None): RelSchema {
    RelSchema("SecurityGroup",
              if matcher.None? then [Property("groupid", Plain("GroupId"))] else matcher.value,
              Inward, "HAS_RULE", RelProperties)
  }

  // ---------------------------------------------------------------------
  // Node schemas. `other` is the other_relationships argument; the default
  // list is filled in only when it is None. VPC has no `__post_init__`.
  // ---------------------------------------------------------------------

  function Ec2InstanceSchema(other: Option<seq<RelSchema>> := None): NodeSchema {
    NodeSchema("EC2Instance", Ec2InstanceNodeProperties, Some(Ec2InstanceToAwsAccountRel()),
               Some(if other.None? then [Ec2InstanceToSecurityGroupRel(), Ec2InstanceToSubnetRel()]
                    else other.value))
  }

  function SecurityGroupSchema(other: Option<seq<RelSchema>> := None): NodeSchema {
    NodeSchema("SecurityGroup", SecurityGroupNodeProperties, Some(Ec2InstanceToAwsAccountRel()),
               Some(if other.None? then [SecurityGroupToVpcRel()] else other.value))
  }

  function VpcSchema(other: Option<seq<RelSchema>> := None): NodeSchema {
    NodeSchema("VPC", VpcNodeProperties, Some(Ec2InstanceToAwsAccountRel()), other)
  }

  function SubnetSchema(other: Option<seq<RelSchema>> := None): NodeSchema {
    NodeSchema("Subnet", SubnetNodeProperties, Some(Ec2InstanceToAwsAccountRel()),
               Some(if other.None? then [SubnetToVpcRel()] else other.value))
  }

  function EbsVolumeSchema(other: Option<seq<RelSchema>> := None): NodeSchema {
    NodeSchema("EBSVolume", EbsVolumeNodeProperties, Some(Ec2InstanceToAwsAccountRel()),
               Some(if other.None? then [EbsVolumeToEc2InstanceRel()] else other.value))
  }

  function SecurityRuleSchema(other: Option<seq<RelSchema>> := None): NodeSchema {
    NodeSchema("SecurityRule", SecurityRuleNodeProperties, Some(Ec2InstanceToAwsAccountRel()),
               Some(if other.None? then [SecurityRuleToSecurityGroupRel()] else other.value))
  }

  // ---------------------------------------------------------------------
  // Registry and lookup
  // ---------------------------------------------------------------------

  /** SCHEMA_REGISTRY, in its insertion order. */
  const SchemaRegistry: seq<(string, NodeSchema)> := [
    ("EC2Instance", Ec2InstanceSchema()),
    ("SecurityGroup", SecurityGroupSchema()),
    ("VPC", VpcSchema()),
    ("Subnet", SubnetSchema()),
    ("EBSVolume", EbsVolumeSchema()),
    ("SecurityRule", SecurityRuleSchema())
  ]

  const RegisteredKinds: set<string> :=
    {"EC2Instance", "SecurityGroup", "VPC", "Subnet", "EBSVolume", "SecurityRule"}

  /** Lookup in an association list: the entry of the first matching key. */
  function Lookup<V>(entries: seq<(string, V)>, key: string): (r: Option<V>)
    ensures r.Some? <==> exists i :: 0 <= i < |entries| && entries[i].0 == key
    ensures r.Some? ==> exists i :: 0 <= i < |entries| && entries[i] == (key, r.value)
  {
    if entries == [] then None
    else if entries[0].0 == key then Some(entries[0].1)
    else Lookup(entries[1..], key)
  }

  /** `get_schema`: the registered schema, or None for any other kind. */
  function GetSchema(kind: string): Option<NodeSchema> {
    Lookup(SchemaRegistry, kind)
  }

  /** `get_all_schemas`: the whole registry, in order. */
  function GetAllSchemas(): (r: seq<(string, NodeSchema)>)
    ensures |r| == 6
    ensures forall i :: 0 <= i < |r| ==> r[i].0 in RegisteredKinds
  {
    SchemaRegistry
  }

  /** The kinds of the registry, in order (what `cleanup_old_data` sweeps by default). */
  function RegisteredLabels(): (r: seq<string>)
    ensures |r| == |SchemaRegistry|
    ensures forall i :: 0 <= i < |r| ==> r[i] == SchemaRegistry[i].0
  {
    seq(|SchemaRegistry|, i requires 0 <= i < |SchemaRegistry| => SchemaRegistry[i].0)
  }

  /** Whether a schema's properties class declares an attribute. */
  predicate HasAttr(s: NodeSchema, attr: string) {
    exists i :: 0 <= i < |s.properties| && s.properties[i].attr == attr
  }

  /** The source field of a schema's `id` property. */
  function IdSource(s: NodeSchema): Option<string> {
    match Lookup(PropsAsEntries(s.properties), "id")
    case None => None
    case Some(r) => Some(r.fieldName)
  }

  function PropsAsEntries(ps: seq<Property>): (r: seq<(string, PropertyRef)>)
    ensures |r| == |ps|
    ensures forall i :: 0 <= i < |ps| ==> r[i] == (ps[i].attr, ps[i].ref)
  {
    seq(|ps|, i requires 0 <= i < |ps| => (ps[i].attr, ps[i].ref))
  }

  // ---------------------------------------------------------------------
  // Index table
  // ---------------------------------------------------------------------

  datatype Index = Index(nodeLabel: string, property: string)

  /** INDEXES, in order. */
  const Indexes: seq<Index> := [
    Index("EC2Instance", "id"), Index("EC2Instance", "lastupdated"), Index("EC2Instance", "instanceid"),
    Index("EC2Instance", "state"), Index("EC2Instance", "region"),
    Index("SecurityGroup", "id"), Index("SecurityGroup", "lastupdated"), Index("SecurityGroup", "groupid"),
    Index("SecurityGroup", "vpcid"),
    Index("VPC", "id"), Index("VPC", "lastupdated"), Index("VPC", "vpcid"), Index("VPC", "region"),
    Index("Subnet", "id"), Index("Subnet", "lastupdated"), Index("Subnet", "subnetid"),
    Index("Subnet", "vpcid"), Index("Subnet", "availabilityzone"),
    Index("EBSVolume", "id"), Index("EBSVolume", "lastupdated"), Index("EBSVolume", "volumeid"),
    Index("EBSVolume", "state"),
    Index("SecurityRule", "id"), Index("SecurityRule", "lastupdated"), Index("SecurityRule", "ruleid"),
    Index("SecurityRule", "protocol"), Index("SecurityRule", "direction")
  ]

  /** The Cypher statement of one index entry. */
  function IndexStatement(ix: Index): string {
    "CREATE INDEX IF NOT EXISTS FOR (n:" + ix.nodeLabel + ") ON (n." + ix.property + ")"
  }

  // ---------------------------------------------------------------------
  // Properties of the registry
  // ---------------------------------------------------------------------

  /** `get_schema` finds exactly the six registered kinds, and each schema's
      label is the kind it is registered under. */
  lemma GetSchemaExactlyRegistered(kind: string)
    ensures GetSchema(kind).Some? <==> kind in RegisteredKinds
    ensures GetSchema(kind).Some? ==> GetSchema(kind).value.nodeLabel == kind
  {
    if GetSchema(kind).Some? {
      var i :| 0 <= i < |SchemaRegistry| && SchemaRegistry[i] == (kind, GetSchema(kind).value);
      RegistryLabelsMatchKeys();
    }
    if kind in RegisteredKinds {
      assert exists i :: 0 <= i < |SchemaRegistry| && SchemaRegistry[i].0 == kind by {
        if kind == "EC2Instance" { assert SchemaRegistry[0].0 == kind; }
        else if kind == "SecurityGroup" { assert SchemaRegistry[1].0 == kind; }
        else if kind == "VPC" { assert SchemaRegistry[2].0 == kind; }
        else if kind == "Subnet" { assert SchemaRegistry[3].0 == kind; }
        else if kind == "EBSVolume" { assert SchemaRegistry[4].0 == kind; }
        else { assert SchemaRegistry[5].0 == kind; }
      }
    }
  }

  /** The schema `get_schema` returns for each registered kind. */
  lemma GetSchemaOfEachKind()
    ensures GetSchema("EC2Instance") == Some(Ec2InstanceSchema())
    ensures GetSchema("SecurityGroup") == Some(SecurityGroupSchema())
    ensures GetSchema("VPC") == Some(VpcSchema())
    ensures GetSchema("Subnet") == Some(SubnetSchema())
    ensures GetSchema("EBSVolume") == Some(EbsVolumeSchema())
    ensures GetSchema("SecurityRule") == Some(SecurityRuleSchema())
  {
  }

  lemma RegistryLabelsMatchKeys()
    ensures forall i :: 0 <= i < |SchemaRegistry| ==> SchemaRegistry[i].1.nodeLabel == SchemaRegistry[i].0
  {
  }

  /** In every registered schema the `id` property and the extra-indexed
      property read the same source field, and the extra-indexed property is
      the only one. */
  lemma IdAndExtraIndexShareSource(i: int)
    requires 0 <= i < |SchemaRegistry|
    ensures var s := SchemaRegistry[i].1;
      && IdSource(s).Some?
      && (exists j :: 0 <= j < |s.properties| && s.properties[j].ref.extraIndex)
      && forall j :: 0 <= j < |s.properties| && s.properties[j].ref.extraIndex ==>
           s.properties[j].ref.fieldName == IdSource(s).value && s.properties[j].attr != "id"
  {
    if i == 0 { IdExtraIndex0(); }
    else if i == 1 { IdExtraIndex1(); }
    else if i == 2 { IdExtraIndex2(); }
    else if i == 3 { IdExtraIndex3(); }
    else if i == 4 { IdExtraIndex4(); }
    else { IdExtraIndex5(); }
  }

  lemma IdExtraIndex0()
    ensures var s := SchemaRegistry[0].1;
      && IdSource(s).Some?
      && (exists j :: 0 <= j < |s.properties| && s.properties[j].ref.extraIndex)
      && forall j :: 0 <= j < |s.properties| && s.properties[j].ref.extraIndex ==>
           s.properties[j].ref.fieldName == IdSource(s).value && s.properties[j].attr != "id"
  {
    var s := SchemaRegistry[0].1;
    assert PropsAsEntries(s.properties)[0] == ("id", s.properties[0].ref);
    assert s.properties[1].ref.extraIndex;
    forall j | 0 <= j < |s.properties| && s.properties[j].ref.extraIndex ensures j == 1 {
      ExtraIndexedIsSecond(0, j);
    }
  }

  lemma IdExtraIndex1()
    ensures var s := SchemaRegistry[1].1;
      && IdSource(s).Some?
      && (exists j :: 0 <= j < |s.properties| && s.properties[j].ref.extraIndex)
      && forall j :: 0 <= j < |s.properties| && s.properties[j].ref.extraIndex ==>
           s.properties[j].ref.fieldName == IdSource(s).value && s.properties[j].attr != "id"
  {
    var s := SchemaRegistry[1].1;
    assert PropsAsEntries(s.properties)[0] == ("id", s.properties[0].ref);
    assert s.properties[1].ref.extraIndex;
    forall j | 0 <= j < |s.properties| && s.properties[j].ref.extraIndex ensures j == 1 {
      ExtraIndexedIsSecond(1, j);
    }
  }

  lemma IdExtraIndex2()
    ensures var s := SchemaRegistry[2].1;
      && IdSource(s).Some?
      && (exists j :: 0 <= j < |s.properties| && s.properties[j].ref.extraIndex)
      && forall j :: 0 <= j < |s.properties| && s.properties[j].ref.extraIndex ==>
           s.properties[j].ref.fieldName == IdSource(s).value && s.properties[j].attr != "id"
  {
    var s := SchemaRegistry[2].1;
    assert PropsAsEntries(s.properties)[0] == ("id", s.properties[0].ref);
    assert s.properties[1].ref.extraIndex;
    forall j | 0 <= j < |s.properties| && s.properties[j].ref.extraIndex ensures j == 1 {
      ExtraIndexedIsSecond(2, j);
    }
  }

  lemma IdExtraIndex3()
    ensures var s := SchemaRegistry[3].1;
      && IdSource(s).Some?
      && (exists j :: 0 <= j < |s.properties| && s.properties[j].ref.extraIndex)
      && forall j :: 0 <= j < |s.properties| && s.properties[j].ref.extraIndex ==>
           s.properties[j].ref.fieldName == IdSource(s).value && s.properties[j].attr != "id"
  {
    var s := SchemaRegistry[3].1;
    assert PropsAsEntries(s.properties)[0] == ("id", s.properties[0].ref);
    assert s.properties[1].ref.extraIndex;
    forall j | 0 <= j < |s.properties| && s.properties[j].ref.extraIndex ensures j == 1 {
      ExtraIndexedIsSecond(3, j);
    }
  }

  lemma IdExtraIndex4()
    ensures var s := SchemaRegistry[4].1;
      && IdSource(s).Some?
      && (exists j :: 0 <= j < |s.properties| && s.properties[j].ref.extraIndex)
      && forall j :: 0 <= j < |s.properties| && s.properties[j].ref.extraIndex ==>
           s.properties[j].ref.fieldName == IdSource(s).value && s.properties[j].attr != "id"
  {
    var s := SchemaRegistry[4].1;
    assert PropsAsEntries(s.properties)[0] == ("id", s.properties[0].ref);
    assert s.properties[1].ref.extraIndex;
    forall j | 0 <= j < |s.properties| && s.properties[j].ref.extraIndex ensures j == 1 {
      ExtraIndexedIsSecond(4, j);
    }
  }

  lemma IdExtraIndex5()
    ensures var s := SchemaRegistry[5].1;
      && IdSource(s).Some?
      && (exists j :: 0 <= j < |s.properties| && s.properties[j].ref.extraIndex)
      && forall j :: 0 <= j < |s.properties| && s.properties[j].ref.extraIndex ==>
           s.properties[j].ref.fieldName == IdSource(s).value && s.properties[j].attr != "id"
  {
    var s := SchemaRegistry[5].1;
    assert PropsAsEntries(s.properties)[0] == ("id", s.properties[0].ref);
    assert s.properties[1].ref.extraIndex;
    forall j | 0 <= j < |s.properties| && s.properties[j].ref.extraIndex ensures j == 1 {
      ExtraIndexedIsSecond(5, j);
    }
  }


  /** `lastupdated` is filled from the keyword arguments in every node schema
      and in every relationship the registry declares. */
  lemma LastUpdatedSetInKwargs(i: int)
    requires 0 <= i < |SchemaRegistry|
    ensures var s := SchemaRegistry[i].1;
      && Property("lastupdated", Kwarg("lastupdated")) in s.properties
      && (s.subResourceRelationship.Some? ==>
            Property("lastupdated", Kwarg("lastupdated")) in s.subResourceRelationship.value.properties)
      && (s.otherRelationships.Some? ==>
            forall r :: r in s.otherRelationships.value ==>
              Property("lastupdated", Kwarg("lastupdated")) in r.properties)
  {
    var s := SchemaRegistry[i].1;
    assert RelProperties[0] == Property("lastupdated", Kwarg("lastupdated"));
    if i == 0 { assert s.properties[11] == Property("lastupdated", Kwarg("lastupdated")); }
    else if i == 1 { assert s.properties[6] == Property("lastupdated", Kwarg("lastupdated")); }
    else if i == 2 || i == 3 { assert s.properties[7] == Property("lastupdated", Kwarg("lastupdated")); }
    else { assert s.properties[8] == Property("lastupdated", Kwarg("lastupdated")); }
  }

  /** The fixed relationship descriptors of the registry. */
  lemma RelationshipDescriptors()
    ensures Ec2InstanceSchema().otherRelationships ==
            Some([RelSchema("SecurityGroup", [Property("groupid", Plain("GroupId"))], Outward, "IS_MEMBER_OF", RelProperties),
                  RelSchema("Subnet", [Property("subnetid", Plain("SubnetId"))], Outward, "LOCATED_IN", RelProperties)])
    ensures EbsVolumeSchema().otherRelationships ==
            Some([RelSchema("EC2Instance", [Property("instanceid", Plain("InstanceId"))], Outward, "ATTACHES_TO", RelProperties)])
    ensures SecurityRuleSchema().otherRelationships ==
            Some([RelSchema("SecurityGroup", [Property("groupid", Plain("GroupId"))], Inward, "HAS_RULE", RelProperties)])
    ensures forall i :: 0 <= i < |SchemaRegistry| ==>
              SchemaRegistry[i].1.subResourceRelationship ==
              Some(RelSchema("AWSAccount", [Property("id", Kwarg("AWS_ID"))], Inward, "RESOURCE", RelProperties))
    ensures VpcSchema().otherRelationships == None
  {
  }

  /** A value given to the constructor is kept; only None gets the default. */
  lemma PostInitKeepsGivenValues(other: seq<RelSchema>, matcher: seq<Property>)
    ensures Ec2InstanceSchema(Some(other)).otherRelationships == Some(other)
    ensures SecurityGroupSchema(Some(other)).otherRelationships == Some(other)
    ensures SubnetSchema(Some(other)).otherRelationships == Some(other)
    ensures EbsVolumeSchema(Some(other)).otherRelationships == Some(other)
    ensures SecurityRuleSchema(Some(other)).otherRelationships == Some(other)
    ensures VpcSchema(Some(other)).otherRelationships == Some(other)
    ensures Ec2InstanceToSecurityGroupRel(Some(matcher)).targetNodeMatcher == matcher
    ensures EbsVolumeToEc2InstanceRel(Some(matcher)).targetNodeMatcher == matcher
    ensures SecurityRuleToSecurityGroupRel(Some(matcher)).targetNodeMatcher == matcher
  {
  }

  /** The only extra-indexed attribute of a registered schema is its second,
      the `<kind>id` copy of the identity field. */
  lemma ExtraIndexedIsSecond(i: int, j: int)
    requires 0 <= i < |SchemaRegistry|
    requires 0 <= j < |SchemaRegistry[i].1.properties|
    ensures SchemaRegistry[i].1.properties[j].ref.extraIndex <==> j == 1
  {
  }

  /** INDEXES holds an `id` and a `lastupdated` index for every registered
      label, and an index for every extra-indexed property. */
  lemma IndexesCoverRegistry(i: int)
    requires 0 <= i < |SchemaRegistry|
    ensures Index(SchemaRegistry[i].0, "id") in Indexes
    ensures Index(SchemaRegistry[i].0, "lastupdated") in Indexes
    ensures forall j :: 0 <= j < |SchemaRegistry[i].1.properties| && SchemaRegistry[i].1.properties[j].ref.extraIndex ==>
              Index(SchemaRegistry[i].0, SchemaRegistry[i].1.properties[j].attr) in Indexes
  {
    if i == 0 {
      IndexesCover0();
    } else if i == 1 {
      IndexesCover1();
    } else if i == 2 {
      IndexesCover2();
    } else if i == 3 {
      IndexesCover3();
    } else if i == 4 {
      IndexesCover4();
    } else {
      IndexesCover5();
    }
  }

  lemma IndexesCover0()
    ensures Index(SchemaRegistry[0].0, "id") in Indexes
    ensures Index(SchemaRegistry[0].0, "lastupdated") in Indexes
    ensures forall j :: 0 <= j < |SchemaRegistry[0].1.properties| && SchemaRegistry[0].1.properties[j].ref.extraIndex ==>
              Index(SchemaRegistry[0].0, SchemaRegistry[0].1.properties[j].attr) in Indexes
  {
    forall j | 0 <= j < |SchemaRegistry[0].1.properties| && SchemaRegistry[0].1.properties[j].ref.extraIndex
      ensures j == 1
    {
      ExtraIndexedIsSecond(0, j);
    }
    assert Indexes[0] == Index("EC2Instance", "id");
    assert Indexes[1] == Index("EC2Instance", "lastupdated");
    assert Indexes[2] == Index("EC2Instance", SchemaRegistry[0].1.properties[1].attr);
  }

  lemma IndexesCover1()
    ensures Index(SchemaRegistry[1].0, "id") in Indexes
    ensures Index(SchemaRegistry[1].0, "lastupdated") in Indexes
    ensures forall j :: 0 <= j < |SchemaRegistry[1].1.properties| && SchemaRegistry[1].1.properties[j].ref.extraIndex ==>
              Index(SchemaRegistry[1].0, SchemaRegistry[1].1.properties[j].attr) in Indexes
  {
    forall j | 0 <= j < |SchemaRegistry[1].1.properties| && SchemaRegistry[1].1.properties[j].ref.extraIndex
      ensures j == 1
    {
      ExtraIndexedIsSecond(1, j);
    }
    assert Indexes[5] == Index("SecurityGroup", "id");
    assert Indexes[6] == Index("SecurityGroup", "lastupdated");
    assert Indexes[7] == Index("SecurityGroup", SchemaRegistry[1].1.properties[1].attr);
  }

  lemma IndexesCover2()
    ensures Index(SchemaRegistry[2].0, "id") in Indexes
    ensures Index(SchemaRegistry[2].0, "lastupdated") in Indexes
    ensures forall j :: 0 <= j < |SchemaRegistry[2].1.properties| && SchemaRegistry[2].1.properties[j].ref.extraIndex ==>
              Index(SchemaRegistry[2].0, SchemaRegistry[2].1.properties[j].attr) in Indexes
  {
    forall j | 0 <= j < |SchemaRegistry[2].1.properties| && SchemaRegistry[2].1.properties[j].ref.extraIndex
      ensures j == 1
    {
      ExtraIndexedIsSecond(2, j);
    }
    assert Indexes[9] == Index("VPC", "id");
    assert Indexes[10] == Index("VPC", "lastupdated");
    assert Indexes[11] == Index("VPC", SchemaRegistry[2].1.properties[1].attr);
  }

  lemma IndexesCover3()
    ensures Index(SchemaRegistry[3].0, "id") in Indexes
    ensures Index(SchemaRegistry[3].0, "lastupdated") in Indexes
    ensures forall j :: 0 <= j < |SchemaRegistry[3].1.properties| && SchemaRegistry[3].1.properties[j].ref.extraIndex ==>
              Index(SchemaRegistry[3].0, SchemaRegistry[3].1.properties[j].attr) in Indexes
  {
    forall j | 0 <= j < |SchemaRegistry[3].1.properties| && SchemaRegistry[3].1.properties[j].ref.extraIndex
      ensures j == 1
    {
      ExtraIndexedIsSecond(3, j);
    }
    assert Indexes[13] == Index("Subnet", "id");
    assert Indexes[14] == Index("Subnet", "lastupdated");
    assert Indexes[15] == Index("Subnet", SchemaRegistry[3].1.properties[1].attr);
  }

  lemma IndexesCover4()
    ensures Index(SchemaRegistry[4].0, "id") in Indexes
    ensures Index(SchemaRegistry[4].0, "lastupdated") in Indexes
    ensures forall j :: 0 <= j < |SchemaRegistry[4].1.properties| && SchemaRegistry[4].1.properties[j].ref.extraIndex ==>
              Index(SchemaRegistry[4].0, SchemaRegistry[4].1.properties[j].attr) in Indexes
  {
    forall j | 0 <= j < |SchemaRegistry[4].1.properties| && SchemaRegistry[4].1.properties[j].ref.extraIndex
      ensures j == 1
    {
      ExtraIndexedIsSecond(4, j);
    }
    assert Indexes[18] == Index("EBSVolume", "id");
    assert Indexes[19] == Index("EBSVolume", "lastupdated");
    assert Indexes[20] == Index("EBSVolume", SchemaRegistry[4].1.properties[1].attr);
  }

  lemma IndexesCover5()
    ensures Index(SchemaRegistry[5].0, "id") in Indexes
    ensures Index(SchemaRegistry[5].0, "lastupdated") in Indexes
    ensures forall j :: 0 <= j < |SchemaRegistry[5].1.properties| && SchemaRegistry[5].1.properties[j].ref.extraIndex ==>
              Index(SchemaRegistry[5].0, SchemaRegistry[5].1.properties[j].attr) in Indexes
  {
    forall j | 0 <= j < |SchemaRegistry[5].1.properties| && SchemaRegistry[5].1.properties[j].ref.extraIndex
      ensures j == 1
    {
      ExtraIndexedIsSecond(5, j);
    }
    assert Indexes[22] == Index("SecurityRule", "id");
    assert Indexes[23] == Index("SecurityRule", "lastupdated");
    assert Indexes[24] == Index("SecurityRule", SchemaRegistry[5].1.properties[1].attr);
  }

  /** Every entry of INDEXES names a registered label and an attribute that
      label's schema declares. */
  lemma IndexesNameDeclaredAttributes(k: int)
    requires 0 <= k < |Indexes|
    ensures GetSchema(Indexes[k].nodeLabel).Some?
    ensures HasAttr(GetSchema(Indexes[k].nodeLabel).value, Indexes[k].property)
  {
    GetSchemaOfEachKind();
    if k < 5 {
      Ec2InstanceSchemaDeclares(k - 0);
    } else if k < 9 {
      SecurityGroupSchemaDeclares(k - 5);
    } else if k < 13 {
      VpcSchemaDeclares(k - 9);
    } else if k < 18 {
      SubnetSchemaDeclares(k - 13);
    } else if k < 22 {
      EbsVolumeSchemaDeclares(k - 18);
    } else {
      SecurityRuleSchemaDeclares(k - 22);
    }
  }

  lemma Ec2InstanceSchemaDeclares(d: int)
    requires 0 <= d < 5
    ensures Indexes[0 + d].nodeLabel == "EC2Instance"
    ensures HasAttr(Ec2InstanceSchema(), Indexes[0 + d].property)
  {
    var ps := Ec2InstanceSchema().properties;
    if d == 0 { assert ps[0].attr == Indexes[0 + d].property;
    } else if d == 1 { assert ps[11].attr == Indexes[0 + d].property;
    } else if d == 2 { assert ps[1].attr == Indexes[0 + d].property;
    } else if d == 3 { assert ps[3].attr == Indexes[0 + d].property;
    } else { assert ps[10].attr == Indexes[0 + d].property; }
  }

  lemma SecurityGroupSchemaDeclares(d: int)
    requires 0 <= d < 4
    ensures Indexes[5 + d].nodeLabel == "SecurityGroup"
    ensures HasAttr(SecurityGroupSchema(), Indexes[5 + d].property)
  {
    var ps := SecurityGroupSchema().properties;
    if d == 0 { assert ps[0].attr == Indexes[5 + d].property;
    } else if d == 1 { assert ps[6].attr == Indexes[5 + d].property;
    } else if d == 2 { assert ps[1].attr == Indexes[5 + d].property;
    } else { assert ps[4].attr == Indexes[5 + d].property; }
  }

  lemma VpcSchemaDeclares(d: int)
    requires 0 <= d < 4
    ensures Indexes[9 + d].nodeLabel == "VPC"
    ensures HasAttr(VpcSchema(), Indexes[9 + d].property)
  {
    var ps := VpcSchema().properties;
    if d == 0 { assert ps[0].attr == Indexes[9 + d].property;
    } else if d == 1 { assert ps[7].attr == Indexes[9 + d].property;
    } else if d == 2 { assert ps[1].attr == Indexes[9 + d].property;
    } else { assert ps[6].attr == Indexes[9 + d].property; }
  }

  lemma SubnetSchemaDeclares(d: int)
    requires 0 <= d < 5
    ensures Indexes[13 + d].nodeLabel == "Subnet"
    ensures HasAttr(SubnetSchema(), Indexes[13 + d].property)
  {
    var ps := SubnetSchema().properties;
    if d == 0 { assert ps[0].attr == Indexes[13 + d].property;
    } else if d == 1 { assert ps[7].attr == Indexes[13 + d].property;
    } else if d == 2 { assert ps[1].attr == Indexes[13 + d].property;
    } else if d == 3 { assert ps[5].attr == Indexes[13 + d].property;
    } else { assert ps[4].attr == Indexes[13 + d].property; }
  }

  lemma EbsVolumeSchemaDeclares(d: int)
    requires 0 <= d < 4
    ensures Indexes[18 + d].nodeLabel == "EBSVolume"
    ensures HasAttr(EbsVolumeSchema(), Indexes[18 + d].property)
  {
    var ps := EbsVolumeSchema().properties;
    if d == 0 { assert ps[0].attr == Indexes[18 + d].property;
    } else if d == 1 { assert ps[8].attr == Indexes[18 + d].property;
    } else if d == 2 { assert ps[1].attr == Indexes[18 + d].property;
    } else { assert ps[4].attr == Indexes[18 + d].property; }
  }

  lemma SecurityRuleSchemaDeclares(d: int)
    requires 0 <= d < 5
    ensures Indexes[22 + d].nodeLabel == "SecurityRule"
    ensures HasAttr(SecurityRuleSchema(), Indexes[22 + d].property)
  {
    var ps := SecurityRuleSchema().properties;
    if d == 0 { assert ps[0].attr == Indexes[22 + d].property;
    } else if d == 1 { assert ps[8].attr == Indexes[22 + d].property;
    } else if d == 2 { assert ps[1].attr == Indexes[22 + d].property;
    } else if d == 3 { assert ps[2].attr == Indexes[22 + d].property;
    } else { assert ps[5].attr == Indexes[22 + d].property; }
  }
  lemma RegionDeclared()
    ensures HasAttr(Ec2InstanceSchema(), "region") && HasAttr(SecurityGroupSchema(), "region")
    ensures HasAttr(VpcSchema(), "region") && HasAttr(SubnetSchema(), "region")
    ensures HasAttr(EbsVolumeSchema(), "region")
  {
    assert Ec2InstanceSchema().properties[10].attr == "region";
    assert SecurityGroupSchema().properties[5].attr == "region";
    assert VpcSchema().properties[6].attr == "region";
    assert SubnetSchema().properties[6].attr == "region";
    assert EbsVolumeSchema().properties[7].attr == "region";
  }

  lemma RuleSchemaLacksRegion()
    ensures !HasAttr(SecurityRuleSchema(), "region")
  {
    var ps := SecurityRuleSchema().properties;
    forall i | 0 <= i < |ps| ensures ps[i].attr != "region" { }
  }

  /** No node schema declares `account_id`. */
  lemma AccountIdUndeclared()
    ensures !HasAttr(Ec2InstanceSchema(), "account_id") && !HasAttr(SecurityGroupSchema(), "account_id")
    ensures !HasAttr(VpcSchema(), "account_id") && !HasAttr(SubnetSchema(), "account_id")
    ensures !HasAttr(EbsVolumeSchema(), "account_id") && !HasAttr(SecurityRuleSchema(), "account_id")
  {
    forall i | 0 <= i < |Ec2InstanceNodeProperties| ensures Ec2InstanceNodeProperties[i].attr != "account_id" { }
    forall i | 0 <= i < |SecurityGroupNodeProperties| ensures SecurityGroupNodeProperties[i].attr != "account_id" { }
    forall i | 0 <= i < |VpcNodeProperties| ensures VpcNodeProperties[i].attr != "account_id" { }
    forall i | 0 <= i < |SubnetNodeProperties| ensures SubnetNodeProperties[i].attr != "account_id" { }
    forall i | 0 <= i < |EbsVolumeNodeProperties| ensures EbsVolumeNodeProperties[i].attr != "account_id" { }
    forall i | 0 <= i < |SecurityRuleNodeProperties| ensures SecurityRuleNodeProperties[i].attr != "account_id" { }
  }

  /** `hasattr(schema.properties, 'region')` holds for every registered
      schema except the security rule's, so the node statement sets `region`
      for every kind but SecurityRule. No schema declares `account_id`, so
      that clause is never added. */
  lemma RegionAndAccountAttributes(kind: string)
    requires kind in RegisteredKinds
    ensures GetSchema(kind).Some?
    ensures HasAttr(GetSchema(kind).value, "region") <==> kind != "SecurityRule"
    ensures !HasAttr(GetSchema(kind).value, "account_id")
  {
    var s := KnownSchema(kind);
    RegionDeclared();
    RuleSchemaLacksRegion();
    AccountIdUndeclared();
  }

  /** The schema registered under each of the six kinds. */
  lemma KnownSchema(kind: string) returns (s: NodeSchema)
    requires kind in RegisteredKinds
    ensures GetSchema(kind) == Some(s)
    ensures kind == "EC2Instance" ==> s == Ec2InstanceSchema()
    ensures kind == "SecurityGroup" ==> s == SecurityGroupSchema()
    ensures kind == "VPC" ==> s == VpcSchema()
    ensures kind == "Subnet" ==> s == SubnetSchema()
    ensures kind == "EBSVolume" ==> s == EbsVolumeSchema()
    ensures kind == "SecurityRule" ==> s == SecurityRuleSchema()
  {
    if kind == "EC2Instance" { s := Ec2InstanceSchema(); assert SchemaRegistry[0] == (kind, s); }
    else if kind == "SecurityGroup" { s := SecurityGroupSchema(); assert SchemaRegistry[1] == (kind, s); }
    else if kind == "VPC" { s := VpcSchema(); assert SchemaRegistry[2] == (kind, s); }
    else if kind == "Subnet" { s := SubnetSchema(); assert SchemaRegistry[3] == (kind, s); }
    else if kind == "EBSVolume" { s := EbsVolumeSchema(); assert SchemaRegistry[4] == (kind, s); }
    else { s := SecurityRuleSchema(); assert SchemaRegistry[5] == (kind, s); }
  }
}
