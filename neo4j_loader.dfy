/** `ImprovedNeo4jLoader`: the object that owns the store session and the
    update tag, with the batch loops, the sweeps and the relationship loaders
    that drive the store statements of LoaderStore. The session is reduced
    to the store state it changes. */
module Neo4jLoader {
  import opened Values
  import opened Graph
  import Store = Graph
  import DataModels
  import opened LoaderRecords
  import opened LoaderStore

  /** The raw instance field the EC2 normaliser keys instance nodes by. */
  const InstanceKey: string := "InstanceId"

  /** The raw instance field the source's relationship builders read. */
  const WrittenInstanceKey: string := "InstanceID"

  /** The statement parameters `load_nodes` uses for a schema. */
  function NodeParams(s: DataModels.NodeSchema, tag: int, region: Option<string>): NodeLoad {
    NodeLoad(s.nodeLabel, tag, region, DataModels.HasAttr(s, "region"))
  }

  /** What `load_nodes` returns and leaves in the store. */
  function LoadNodesResult(g: Graph, nodeType: string, data: seq<Record>, tag: int, region: Option<string>): (bool, Graph) {
    match DataModels.GetSchema(nodeType)
    case None => (false, g)
    case Some(s) => LoadBatches(g, NodeParams(s, tag, region), Batches(data, BatchSize))
  }

  /** The labels `cleanup_old_data` sweeps: the given list, or every
      registered kind when none is given. */
  function CleanupLabels(nodeTypes: Option<seq<string>>): seq<string> {
    if nodeTypes.None? then DataModels.RegisteredLabels() else nodeTypes.value
  }

  /** A kind the registry does not know, such as "S3Bucket", is refused
      with False and the store is left alone. */
  lemma LoadNodesUnknownKind(g: Graph, nodeType: string, data: seq<Record>, tag: int, region: Option<string>)
    requires nodeType !in DataModels.RegisteredKinds
    ensures LoadNodesResult(g, nodeType, data, tag, region) == (false, g)
  {
    DataModels.GetSchemaExactlyRegistered(nodeType);
  }

  lemma S3BucketsAreNotLoaded(g: Graph, data: seq<Record>, tag: int, region: Option<string>)
    ensures LoadNodesResult(g, "S3Bucket", data, tag, region) == (false, g)
  {
    LoadNodesUnknownKind(g, "S3Bucket", data, tag, region);
  }

  /** For a registered kind, `load_nodes` returns True exactly when every
      item is loadable. It then leaves what one merge of the whole list under
      that label leaves (with `region` set unless the kind is SecurityRule);
      every item's node exists and carries the update tag. */
  lemma LoadNodesMeaning(g: Graph, nodeType: string, data: seq<Record>, tag: int, region: Option<string>)
    requires nodeType in DataModels.RegisteredKinds
    ensures var p := NodeLoad(nodeType, tag, region, nodeType != "SecurityRule");
            var r := LoadNodesResult(g, nodeType, data, tag, region);
            && (r.0 <==> forall i :: 0 <= i < |data| ==> Loadable(data[i]))
            && (r.0 ==> UpsertBatch(g, p, data).Ok? && r.1 == UpsertBatch(g, p, data).value)
            && (r.0 ==> forall i :: 0 <= i < |data| ==>
                  var k := NodeKey(nodeType, Get(data[i], "id"));
                  k in r.1.nodes && Get(r.1.nodes[k], "lastupdated") == Int(tag))
  {
    DataModels.GetSchemaExactlyRegistered(nodeType);
    DataModels.RegionAndAccountAttributes(nodeType);
    var p := NodeLoad(nodeType, tag, region, nodeType != "SecurityRule");
    assert NodeParams(DataModels.GetSchema(nodeType).value, tag, region) == p;
    LoadNodesInBatches(g, p, data);
    if LoadNodesResult(g, nodeType, data, tag, region).0 {
      forall i | 0 <= i < |data|
        ensures var k := NodeKey(nodeType, Get(data[i], "id"));
                k in UpsertBatch(g, p, data).value.nodes &&
                Get(UpsertBatch(g, p, data).value.nodes[k], "lastupdated") == Int(tag)
      {
        assert ItemKey(p, data[i]) in Touched(p, data);
        StampsTouched(g, p, data, ItemKey(p, data[i]));
      }
    }
  }

  /** A successful `load_nodes`, repeated, reports True again and leaves
      the store as the first call left it. */
  lemma LoadNodesIdempotent(g: Graph, nodeType: string, data: seq<Record>, tag: int, region: Option<string>)
    requires LoadNodesResult(g, nodeType, data, tag, region).0
    ensures var g' := LoadNodesResult(g, nodeType, data, tag, region).1;
            LoadNodesResult(g', nodeType, data, tag, region) == (true, g')
  {
    var s := DataModels.GetSchema(nodeType).value;
    var p := NodeParams(s, tag, region);
    var g' := LoadNodesResult(g, nodeType, data, tag, region).1;
    LoadNodesInBatches(g, p, data);
    LoadNodesInBatches(g', p, data);
    UpsertBatchIdempotent(g, p, data);
  }

  /** Nodes a load has just stamped survive `cleanup_old_data` with the same
      tag. */
  lemma LoadedNodesSurviveCleanup(g: Graph, nodeType: string, data: seq<Record>, tag: int, region: Option<string>,
                                  labels: seq<string>, i: int)
    requires nodeType in DataModels.RegisteredKinds
    requires LoadNodesResult(g, nodeType, data, tag, region).0
    requires 0 <= i < |data|
    ensures var g' := LoadNodesResult(g, nodeType, data, tag, region).1;
            var k := NodeKey(nodeType, Get(data[i], "id"));
            k in g'.nodes && k in Cleanup(g', labels, tag).nodes && Cleanup(g', labels, tag).nodes[k] == g'.nodes[k]
  {
    LoadNodesMeaning(g, nodeType, data, tag, region);
    var g' := LoadNodesResult(g, nodeType, data, tag, region).1;
    CleanupKeeps(g', labels, tag, NodeKey(nodeType, Get(data[i], "id")));
  }

  /** Finding, as written: `cleanup_old_data_advanced` compares against a
      fresh clock reading instead of the loader's tag, so once the clock has
      moved on it deletes the nodes the loader has just stamped (all of them,
      with a limit at least the store's size). */
  lemma ClockTagSweepsFreshNodes(g: Graph, labels: seq<string>, now: int, limit: int, g': Graph, tag: int, k: NodeKey)
    requires SweepChain(g, labels, now, limit, g')
    requires limit >= |g.nodes|
    requires k in g.nodes && k.nodeLabel in labels && LabelSyntax(k.nodeLabel)
    requires Get(g.nodes[k], "lastupdated") == Int(tag) && now != tag
    ensures k !in g'.nodes
  {
    SweepChainLargeLimit(g, labels, now, limit, g');
    assert k in Eligible(g, labels, now);
  }

  /** Finding, corrected: sweeping with the loader's own tag keeps every
      node that tag stamped. */
  lemma TagSweepKeepsFreshNodes(g: Graph, labels: seq<string>, limit: int, g': Graph, tag: int, k: NodeKey)
    requires SweepChain(g, labels, tag, limit, g')
    requires k in g.nodes && Get(g.nodes[k], "lastupdated") == Int(tag)
    ensures k in g'.nodes && g'.nodes[k] == g.nodes[k]
  {
    SweepChainKeeps(g, labels, tag, limit, g', k);
  }

  // ---------------------------------------------------------------------
  // The relationship-pair field names, on a concrete instance
  // ---------------------------------------------------------------------

  /** A describe-instances answer with one instance `i-1` in group `sg-1`
      and subnet `subnet-1`, keyed as the provider keys it. */
  const SampleInstance: Value :=
    Dict(map["InstanceId" := Str("i-1"), "SubnetId" := Str("subnet-1"),
             "SecurityGroups" := List([Dict(map["GroupId" := Str("sg-1")])])])

  const SampleEc2Data: Value :=
    Dict(map["Reservations" := List([Dict(map["Instances" := List([SampleInstance])])])])

  /** A store holding the instance, its group and its subnet. */
  const SampleStore: Graph :=
    Graph(map[NodeKey("EC2Instance", Str("i-1")) := map["id" := Str("i-1")],
              NodeKey("SecurityGroup", Str("sg-1")) := map["id" := Str("sg-1")],
              NodeKey("Subnet", Str("subnet-1")) := map["id" := Str("subnet-1")]],
          map[])

  const MemberEdge: Edge := Edge("IS_MEMBER_OF", NodeKey("EC2Instance", Str("i-1")), NodeKey("SecurityGroup", Str("sg-1")))

  lemma SampleShape()
    ensures Container(SampleEc2Data, "Reservations") == Ok([Dict(map["Instances" := List([SampleInstance])])])
    ensures ReservationInstances(Dict(map["Instances" := List([SampleInstance])])) == Ok([SampleInstance])
  {
  }

  /** The sample's IS_MEMBER_OF pair carries whatever the instance holds
      under the key read. */
  lemma SampleGroupPairs(instanceKey: string)
    ensures InstancePairs(GroupMembership, instanceKey, SampleEc2Data) ==
            Ok([Pair("instance_id", Get(SampleInstance.entries, instanceKey), "group_id", Str("sg-1"))])
  {
    SampleShape();
    InstancePairsOfOne(GroupMembership, instanceKey, SampleEc2Data, Dict(map["Instances" := List([SampleInstance])]), SampleInstance);
    var sgs := [Dict(map["GroupId" := Str("sg-1")])];
    assert Elements(Get(SampleInstance.entries, "SecurityGroups")) == Ok(sgs);
    FlatMapOne((sg: Value) => GroupPair(Get(SampleInstance.entries, instanceKey), sg), sgs[0]);
  }

  /** The sample's LOCATED_IN pair exists only when the key read holds a
      truthy id. */
  lemma SampleSubnetPairs(instanceKey: string)
    ensures InstancePairs(SubnetLocation, instanceKey, SampleEc2Data) ==
            if Truthy(Get(SampleInstance.entries, instanceKey))
            then Ok([Pair("instance_id", Get(SampleInstance.entries, instanceKey), "subnet_id", Str("subnet-1"))])
            else Ok([])
  {
    SampleShape();
    InstancePairsOfOne(SubnetLocation, instanceKey, SampleEc2Data, Dict(map["Instances" := List([SampleInstance])]), SampleInstance);
  }

  /** Finding, as written: the builders read `InstanceID`, which a provider
      instance does not have, so even with both endpoints in the store no
      IS_MEMBER_OF edge is made (the pair carries a null id) and no
      LOCATED_IN pair is emitted at all. */
  lemma WrittenKeyLosesEdges()
    ensures var r := InstancePairs(GroupMembership, WrittenInstanceKey, SampleEc2Data);
            r.Ok? && UpsertEdges(SampleStore, "IS_MEMBER_OF", RelPatternOf("IS_MEMBER_OF").value, r.value, 7) == SampleStore
    ensures InstancePairs(SubnetLocation, WrittenInstanceKey, SampleEc2Data) == Ok([])
  {
    SampleGroupPairs(WrittenInstanceKey);
    SampleSubnetPairs(WrittenInstanceKey);
    assert Get(SampleInstance.entries, WrittenInstanceKey) == Null;
    var pat := RelPatternOf("IS_MEMBER_OF").value;
    var pairs := InstancePairs(GroupMembership, WrittenInstanceKey, SampleEc2Data).value;
    assert pairs[..0] == [];
    assert !Connectable(SampleStore, EdgeOf("IS_MEMBER_OF", pat, pairs[0]));
  }

  /** Finding, corrected: reading `InstanceId` connects the instance to its
      group and its subnet. */
  lemma InstanceKeyConnects()
    ensures var r := InstancePairs(GroupMembership, InstanceKey, SampleEc2Data);
            r.Ok? && MemberEdge in UpsertEdges(SampleStore, "IS_MEMBER_OF", RelPatternOf("IS_MEMBER_OF").value, r.value, 7).edges
    ensures var r := InstancePairs(SubnetLocation, InstanceKey, SampleEc2Data);
            r.Ok? && Edge("LOCATED_IN", NodeKey("EC2Instance", Str("i-1")), NodeKey("Subnet", Str("subnet-1"))) in
              UpsertEdges(SampleStore, "LOCATED_IN", RelPatternOf("LOCATED_IN").value, r.value, 7).edges
  {
    SampleGroupPairs(InstanceKey);
    SampleSubnetPairs(InstanceKey);
    assert Get(SampleInstance.entries, InstanceKey) == Str("i-1");
    var pairs := InstancePairs(GroupMembership, InstanceKey, SampleEc2Data).value;
    assert pairs[..0] == [];
    var pairs2 := InstancePairs(SubnetLocation, InstanceKey, SampleEc2Data).value;
    assert pairs2[..0] == [];
  }

  /** In general the corrected key is the normaliser's identity field, so a
      pair's `instance_id` is the id of the node made from the same raw
      instance. */
  lemma InstanceKeyIsNodeId(instance: Record)
    requires Ec2InstanceRecord(instance).Ok?
    ensures Get(instance, InstanceKey) == Get(Ec2InstanceRecord(instance).value, "id")
    ensures InstanceKey == IdentityField(Ec2Instance)
  {
  }

  // ---------------------------------------------------------------------
  // run_analysis_advanced
  // ---------------------------------------------------------------------

  /** The five distinct analysis statements. */
  datatype Analysis = ExposedSsh | OverlyPermissive | UnusedSecurityGroups | OrphanedVolumes | StoppedInstances

  /** The `analysis_queries` table: seven names, two pairs of which share a
      statement. */
  function AnalysisFor(analysisType: string): Option<Analysis> {
    if analysisType == "security" || analysisType == "exposed_ssh" then Some(ExposedSsh)
    else if analysisType == "overly_permissive" then Some(OverlyPermissive)
    else if analysisType == "unused_security_groups" then Some(UnusedSecurityGroups)
    else if analysisType == "orphaned_volumes" then Some(OrphanedVolumes)
    else if analysisType == "cost" || analysisType == "cost_optimization" then Some(StoppedInstances)
    else None
  }

  const AnalysisNames: set<string> :=
    {"security", "exposed_ssh", "overly_permissive", "unused_security_groups", "orphaned_volumes", "cost", "cost_optimization"}

  /** Exactly the seven names are known, and the aliases share statements. */
  lemma AnalysisTable(analysisType: string)
    ensures AnalysisFor(analysisType).Some? <==> analysisType in AnalysisNames
    ensures AnalysisFor("security") == AnalysisFor("exposed_ssh")
    ensures AnalysisFor("cost") == AnalysisFor("cost_optimization")
    ensures forall a, b :: a in AnalysisNames && b in AnalysisNames && AnalysisFor(a) == AnalysisFor(b) && a != b ==>
              {a, b} == {"security", "exposed_ssh"} || {a, b} == {"cost", "cost_optimization"}
  {
  }

  // ---------------------------------------------------------------------
  // The loader
  // ---------------------------------------------------------------------

  class ImprovedNeo4jLoader {
    /** The state of the store the session writes to. */
    var graph: Graph
    /** The stamp of this run, read from the clock at construction. */
    const updateTag: int

    ghost predicate Valid()
      reads this
    {
      Store.Valid(graph)
    }

    /** A loader connected to `store`, with the clock reading `tag`. */
    constructor (store: Graph, tag: int)
      requires Store.Valid(store)
      ensures graph == store && updateTag == tag
      ensures Valid()
    {
      graph := store;
      updateTag := tag;
    }

    /** `load_nodes`: the schema lookup, then one statement per batch of
        1000, stopping at the first that fails. */
    method LoadNodes(nodeType: string, data: seq<Record>, region: Option<string>) returns (ok: bool)
      requires Valid()
      modifies this
      ensures (ok, graph) == LoadNodesResult(old(graph), nodeType, data, updateTag, region)
      ensures Valid()
    {
      var schema := DataModels.GetSchema(nodeType);
      if schema.None? {
        return false;
      }
      var p := NodeParams(schema.value, updateTag, region);
      var i := 0;
      while i < |data|
        invariant 0 <= i <= |data|
        invariant Store.Valid(graph)
        invariant LoadBatches(old(graph), p, Batches(data, BatchSize)) == LoadBatches(graph, p, Batches(data[i..], BatchSize))
        decreases |data| - i
      {
        var hi := if i + BatchSize <= |data| then i + BatchSize else |data|;
        var batch := data[i..hi];
        NextBatch(data, i, hi);
        var r := UpsertBatch(graph, p, batch);
        if r.Err? {
          return false;
        }
        UpsertBatchValid(graph, p, batch);
        graph := r.value;
        i := hi;
      }
      assert data[i..] == [];
      return true;
    }

    /** `load_relationships`: one statement per batch of 1000; it reports
        True whatever the type. */
    method LoadRelationships(relType: string, data: seq<Record>) returns (ok: bool)
      requires Valid()
      modifies this
      ensures ok && graph == LoadEdgeBatches(old(graph), relType, Batches(data, BatchSize), updateTag)
      ensures Valid()
    {
      var i := 0;
      while i < |data|
        invariant 0 <= i <= |data|
        invariant Store.Valid(graph)
        invariant LoadEdgeBatches(old(graph), relType, Batches(data, BatchSize), updateTag) ==
                  LoadEdgeBatches(graph, relType, Batches(data[i..], BatchSize), updateTag)
        decreases |data| - i
      {
        var hi := if i + BatchSize <= |data| then i + BatchSize else |data|;
        NextBatch(data, i, hi);
        LoadRelationshipBatch(relType, data[i..hi]);
        i := hi;
      }
      assert data[i..] == [];
      return true;
    }

    /** `_load_relationship_batch`: the statement of the type, or nothing
        for a type without one. */
    method LoadRelationshipBatch(relType: string, batch: seq<Record>)
      requires Valid()
      modifies this
      ensures graph == match RelPatternOf(relType)
                       case None => old(graph)
                       case Some(pat) => UpsertEdges(old(graph), relType, pat, batch, updateTag)
      ensures Valid()
    {
      var pat := RelPatternOf(relType);
      if pat.None? {
        return;
      }
      UpsertEdgesIdempotent(graph, relType, pat.value, batch, updateTag);
      graph := UpsertEdges(graph, relType, pat.value, batch, updateTag);
    }

    /** `cleanup_old_data`: one sweep per label; a label the statement
        cannot carry fails on its own and the loop goes on. */
    method CleanupOldData(nodeTypes: Option<seq<string>>)
      requires Valid()
      modifies this
      ensures graph == Cleanup(old(graph), CleanupLabels(nodeTypes), updateTag)
      ensures Valid()
    {
      var labels := if nodeTypes.None? then DataModels.RegisteredLabels() else nodeTypes.value;
      var i := 0;
      while i < |labels|
        invariant 0 <= i <= |labels|
        invariant graph == Cleanup(old(graph), labels[..i], updateTag)
        invariant Store.Valid(graph)
      {
        assert labels[..i + 1][..i] == labels[..i];
        if LabelSyntax(labels[i]) {
          DetachDeleteValid(graph, StaleNodes(graph, labels[i], updateTag));
          graph := DetachDelete(graph, StaleNodes(graph, labels[i], updateTag));
        }
        i := i + 1;
      }
      assert labels[..i] == labels;
    }

    /** `cleanup_old_data_advanced` as written: the tag compared against is
        `now`, the clock reading taken when it starts. */
    method CleanupOldDataAdvanced(nodeLabels: seq<string>, limit: int, now: int)
      requires Valid()
      modifies this
      ensures SweepChain(old(graph), nodeLabels, now, limit, graph)
      ensures Valid()
    {
      SweepLabels(nodeLabels, limit, now);
    }

    /** The advanced sweep with the loader's own tag. */
    method SweepStale(nodeLabels: seq<string>, limit: int)
      requires Valid()
      modifies this
      ensures SweepChain(old(graph), nodeLabels, updateTag, limit, graph)
      ensures Valid()
    {
      SweepLabels(nodeLabels, limit, updateTag);
    }

    method SweepLabels(nodeLabels: seq<string>, limit: int, tag: int)
      requires Valid()
      modifies this
      ensures SweepChain(old(graph), nodeLabels, tag, limit, graph)
      ensures Valid()
    {
      var i := 0;
      while i < |nodeLabels|
        invariant 0 <= i <= |nodeLabels|
        invariant SweepChain(old(graph), nodeLabels[..i], tag, limit, graph)
        invariant Store.Valid(graph)
      {
        ghost var before := graph;
        SweepLabel(nodeLabels[i], limit, tag);
        assert nodeLabels[..i + 1][..i] == nodeLabels[..i];
        assert SweepStep(before, graph, nodeLabels[..i + 1][i], tag, limit);
        i := i + 1;
      }
      assert nodeLabels[..i] == nodeLabels;
    }

    /** One label of the advanced sweep: up to `limit` of the nodes whose
        stamp differs from the tag, with their edges. */
    method SweepLabel(nodeLabel: string, limit: int, tag: int)
      requires Valid()
      modifies this
      ensures SweepStep(old(graph), graph, nodeLabel, tag, limit)
      ensures Valid()
    {
      if !LabelSyntax(nodeLabel) || limit < 0 {
        return;
      }
      var g0 := graph;
      var stale := Unstamped(graph, nodeLabel, tag);
      var chosen: set<NodeKey> := {};
      var rest := stale;
      while |chosen| < limit && rest != {}
        invariant chosen + rest == stale && chosen !! rest
        invariant |chosen| + |rest| == |stale|
        invariant |chosen| <= limit
        decreases |rest|
      {
        var x :| x in rest;
        chosen := chosen + {x};
        rest := rest - {x};
      }
      assert chosen <= stale && |chosen| == Min(limit, |stale|);
      DetachDeleteValid(graph, chosen);
      graph := DetachDelete(g0, chosen);
      assert SweepStep(g0, graph, nodeLabel, tag, limit);
    }

    /** `_load_ec2_security_group_relationships`, reading the instance id
        under `instanceKey`: a raise while collecting the pairs (reported
        as false) leaves the store alone. */
    method LoadEc2SecurityGroupRelationships(data: Record, instanceKey: string) returns (ok: bool)
      requires "ec2_instances" in data
      requires Valid()
      modifies this
      ensures var pairs := InstancePairs(GroupMembership, instanceKey, data["ec2_instances"]);
              && ok == pairs.Ok?
              && graph == if pairs.Ok? then UpsertEdges(old(graph), "IS_MEMBER_OF", RelPatternOf("IS_MEMBER_OF").value, pairs.value, updateTag)
                          else old(graph)
      ensures Valid()
    {
      var pairs := BuildSecurityGroupPairs(instanceKey, data["ec2_instances"]);
      if pairs.Err? {
        return false;
      }
      if pairs.value != [] {
        ok := LoadRelationships("IS_MEMBER_OF", pairs.value);
        LoadEdgesInBatches(old(graph), "IS_MEMBER_OF", pairs.value, updateTag);
      }
      return true;
    }

    /** `_load_ec2_subnet_relationships`, reading the instance id under
        `instanceKey`. */
    method LoadEc2SubnetRelationships(data: Record, instanceKey: string) returns (ok: bool)
      requires "ec2_instances" in data
      requires Valid()
      modifies this
      ensures var pairs := InstancePairs(SubnetLocation, instanceKey, data["ec2_instances"]);
              && ok == pairs.Ok?
              && graph == if pairs.Ok? then UpsertEdges(old(graph), "LOCATED_IN", RelPatternOf("LOCATED_IN").value, pairs.value, updateTag)
                          else old(graph)
      ensures Valid()
    {
      var pairs := BuildSubnetPairs(instanceKey, data["ec2_instances"]);
      if pairs.Err? {
        return false;
      }
      if pairs.value != [] {
        ok := LoadRelationships("LOCATED_IN", pairs.value);
        LoadEdgesInBatches(old(graph), "LOCATED_IN", pairs.value, updateTag);
      }
      return true;
    }

    /** `_load_ebs_ec2_relationships`. */
    method LoadEbsEc2Relationships(data: Record) returns (ok: bool)
      requires "ebs_volumes" in data
      requires Valid()
      modifies this
      ensures var pairs := AttachmentPairs(data["ebs_volumes"]);
              && ok == pairs.Ok?
              && graph == if pairs.Ok? then UpsertEdges(old(graph), "ATTACHES_TO", RelPatternOf("ATTACHES_TO").value, pairs.value, updateTag)
                          else old(graph)
      ensures Valid()
    {
      var pairs := BuildAttachmentPairs(data["ebs_volumes"]);
      if pairs.Err? {
        return false;
      }
      if pairs.value != [] {
        ok := LoadRelationships("ATTACHES_TO", pairs.value);
        LoadEdgesInBatches(old(graph), "ATTACHES_TO", pairs.value, updateTag);
      }
      return true;
    }

    /** `_load_security_rules_and_relationships`: the rule nodes (without a
        region), then one HAS_RULE pair per rule. */
    method LoadSecurityRulesAndRelationships(data: Record) returns (ok: bool)
      requires "security_rules" in data
      requires Valid()
      modifies this
      ensures (ok, graph) == RulesLoad(old(graph), data["security_rules"], updateTag)
      ensures Valid()
    {
      var found := RuleElements(data["security_rules"]);
      if found.Err? {
        return false;
      }
      if found.value.None? {
        return true;
      }
      var rules := found.value.value;
      var records := NormaliseEach(SecurityRule, rules);
      if records.Err? {
        return false;
      }
      if records.value != [] {
        var loaded := LoadNodes("SecurityRule", records.value, None);
      }
      ghost var afterNodes := graph;
      var pairs := BuildRulePairs(rules);
      if pairs.Err? {
        return false;
      }
      if pairs.value != [] {
        ok := LoadRelationships("HAS_RULE", pairs.value);
        LoadEdgesInBatches(afterNodes, "HAS_RULE", pairs.value, updateTag);
      }
      return true;
    }

    /** `run_analysis_advanced`: an unknown type gives [] without touching
        the session; a known one gives the rows the store answers, or []
        when the statement fails. */
    method RunAnalysisAdvanced(analysisType: string, answer: Result<seq<Record>>) returns (findings: seq<Record>)
      ensures AnalysisFor(analysisType).None? ==> findings == []
      ensures AnalysisFor(analysisType).Some? ==> findings == if answer.Ok? then answer.value else []
    {
      var query := AnalysisFor(analysisType);
      if query.None? {
        return [];
      }
      if answer.Err? {
        return [];
      }
      return answer.value;
    }
  }

  /** The batch the loops take at offset `i`, and the rest of the list. */
  lemma NextBatch(data: seq<Record>, i: int, hi: int)
    requires 0 <= i < |data|
    requires hi == if i + BatchSize <= |data| then i + BatchSize else |data|
    ensures Batches(data[i..], BatchSize) != []
    ensures Batches(data[i..], BatchSize)[0] == data[i..hi]
    ensures Batches(data[i..], BatchSize)[1..] == Batches(data[hi..], BatchSize)
  {
    var xs := data[i..];
    if |xs| > BatchSize {
      assert xs[..BatchSize] == data[i..hi];
      assert xs[BatchSize..] == data[hi..];
    } else {
      assert data[hi..] == [];
    }
  }

  /** What `_load_security_rules_and_relationships` returns and leaves. */
  function RulesLoad(g: Graph, rulesData: Value, tag: int): (bool, Graph) {
    match RuleElements(rulesData)
    case Err(_) => (false, g)
    case Ok(None) => (true, g)
    case Ok(Some(rules)) =>
      match FlatMap((e: Value) => NormaliseItem(SecurityRule, e), rules)
      case Err(_) => (false, g)
      case Ok(records) =>
        var g1 := if records == [] then g else LoadNodesResult(g, "SecurityRule", records, tag, None).1;
        match FlatMap(RulePair, rules)
        case Err(_) => (false, g1)
        case Ok(pairs) => (true, UpsertEdges(g1, "HAS_RULE", RelPatternOf("HAS_RULE").value, pairs, tag))
  }
}
