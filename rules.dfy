/** The security rules: their identity, the graph query each one runs, what
    the query matches in the store, and how `evaluate` turns the rows the
    session answers into at most one finding. */
module SecurityRules {
  import opened Values
  import opened Graph
  import Store = Graph

  datatype Severity = Critical | High | Medium | Low | Info

  /** `Severity.value`. */
  function SeverityValue(s: Severity): string {
    match s
    case Critical => "CRITICAL"
    case High => "HIGH"
    case Medium => "MEDIUM"
    case Low => "LOW"
    case Info => "INFO"
  }

  lemma SeverityValueInjective(a: Severity, b: Severity)
    ensures SeverityValue(a) == SeverityValue(b) <==> a == b
  {
  }

  /** The graph query a rule runs; it stands for the Cypher text that
      `get_cypher_query` returns. */
  datatype RuleQuery =
    | ExposedSshQuery
    | ExposedRdpQuery
    | OverlyPermissiveQuery
    | UnencryptedEbsQuery
    | OrphanedEbsQuery
    | UnusedSecurityGroupQuery
    | NetworkSegmentationQuery
    | PublicRunningInstanceQuery

  datatype Rule = Rule(ruleId: string, ruleName: string, description: string, severity: Severity,
                       recommendation: string, query: RuleQuery)

  datatype Finding = Finding(ruleId: string, ruleName: string, severity: Severity, description: string,
                             affected: seq<Record>, recommendation: string, query: RuleQuery,
                             metadata: Record)

  /** The default rules, in the order the engine loads them, and the
      example custom rule, with the source's names and texts. */
  const ExposedSshRule := Rule("EXPOSED_SSH", "暴露的 SSH 服務", "檢測暴露於公網的 SSH 服務（端口 22）", High,
                               "限制 SSH 訪問來源 IP 或使用 VPN", ExposedSshQuery)
  const ExposedRdpRule := Rule("EXPOSED_RDP", "暴露的 RDP 服務", "檢測暴露於公網的 RDP 服務（端口 3389）", High,
                               "限制 RDP 訪問來源 IP 或使用 VPN", ExposedRdpQuery)
  const OverlyPermissiveRule := Rule("OVERLY_PERMISSIVE", "過度寬鬆的安全群組規則", "檢測允許所有流量的安全群組規則",
                                     Critical, "限制規則的來源 IP 範圍和端口範圍", OverlyPermissiveQuery)
  const UnencryptedEbsRule := Rule("UNENCRYPTED_EBS", "未加密的 EBS 磁碟", "檢測未加密的 EBS 磁碟", Medium,
                                   "啟用 EBS 磁碟加密", UnencryptedEbsQuery)
  const OrphanedEbsRule := Rule("ORPHANED_EBS", "孤兒 EBS 磁碟", "檢測未附加到任何實例的 EBS 磁碟", Low,
                                "刪除未使用的 EBS 磁碟以節省成本", OrphanedEbsQuery)
  const UnusedSecurityGroupRule := Rule("UNUSED_SECURITY_GROUP", "未使用的安全群組", "檢測未附加到任何資源的安全群組",
                                        Low, "刪除未使用的安全群組", UnusedSecurityGroupQuery)
  const NetworkSegmentationRule := Rule("NETWORK_SEGMENTATION", "網路分段分析", "分析網路分段情況和跨 VPC 連接",
                                        Medium, "實施適當的網路分段策略", NetworkSegmentationQuery)
  const CustomSecurityRule := Rule("CUSTOM_RULE", "自定義安全規則", "這是一個自定義安全規則的範例", Medium,
                                   "根據您的需求調整此規則", PublicRunningInstanceQuery)

  const DefaultRules: seq<Rule> :=
    [ExposedSshRule, ExposedRdpRule, OverlyPermissiveRule, UnencryptedEbsRule,
     OrphanedEbsRule, UnusedSecurityGroupRule, NetworkSegmentationRule]

  // ---------------------------------------------------------------------
  // What a query matches in the store
  // ---------------------------------------------------------------------

  /** A result row: one value per returned column; a node column holds the
      node's property map as a dictionary. */
  type Row = map<string, Value>

  /** `rule.PortRange CONTAINS port`: false unless the range is a string. */
  predicate PortMatches(portRange: Value, port: string) {
    portRange.Str? && Contains(portRange.s, port)
  }

  /** The WHERE clause of the SSH and RDP queries. */
  predicate OpenToInternet(rule: Props, port: string) {
    && Get(rule, "SourceCIDR") == Str("0.0.0.0/0")
    && PortMatches(Get(rule, "PortRange"), port)
    && Get(rule, "Protocol") == Str("tcp")
    && Get(rule, "Direction") == Str("inbound")
  }

  /** The WHERE clause of the overly permissive query: every port. */
  predicate AllPortsOpen(rule: Props) {
    && Get(rule, "SourceCIDR") == Str("0.0.0.0/0")
    && Get(rule, "PortRange") == Str("0-65535")
    && Get(rule, "Protocol") == Str("tcp")
    && Get(rule, "Direction") == Str("inbound")
  }

  predicate Unencrypted(volume: Props) {
    Get(volume, "Encrypted") == Bool(false) && Get(volume, "State") == Str("in-use")
  }

  ghost predicate Orphaned(g: Graph, volume: NodeKey) {
    && volume in g.nodes
    && !HasEdgeTo(g, volume, "ATTACHES_TO", "EC2Instance")
    && Get(g.nodes[volume], "State") == Str("available")
  }

  predicate PublicRunning(instance: Props) {
    Get(instance, "State") == Str("running") && Get(instance, "PublicIpAddress") != Null
  }

  /** A node's row entry. */
  function Node(g: Graph, k: NodeKey): Value
    requires k in g.nodes
  {
    Dict(g.nodes[k])
  }

  /** The instances a subnet contains: `count(instance)` of the optional
      match. */
  ghost function InstancesIn(g: Graph, subnet: NodeKey): set<NodeKey> {
    set e | e in g.edges && e.relLabel == "CONTAINS" && e.src == subnet && e.dst.nodeLabel == "EC2Instance" :: e.dst
  }

  ghost function InstanceRuleRows(g: Graph, port: string): set<Row> {
    set i, s, r | i in g.nodes && s in g.nodes && r in g.nodes
                  && i.nodeLabel == "EC2Instance" && s.nodeLabel == "SecurityGroup" && r.nodeLabel == "SecurityRule"
                  && Edge("IS_MEMBER_OF", i, s) in g.edges && Edge("HAS_RULE", s, r) in g.edges
                  && OpenToInternet(g.nodes[r], port)
      :: map["instance" := Node(g, i), "sg" := Node(g, s), "rule" := Node(g, r)]
  }

  ghost function GroupRuleRows(g: Graph): set<Row> {
    set s, r | s in g.nodes && r in g.nodes && s.nodeLabel == "SecurityGroup" && r.nodeLabel == "SecurityRule"
               && Edge("HAS_RULE", s, r) in g.edges && AllPortsOpen(g.nodes[r])
      :: map["sg" := Node(g, s), "rule" := Node(g, r)]
  }

  /** The rows a query's MATCH and WHERE produce, one per match. */
  ghost function MatchSet(q: RuleQuery, g: Graph): set<Row> {
    match q
    case ExposedSshQuery => InstanceRuleRows(g, "22")
    case ExposedRdpQuery => InstanceRuleRows(g, "3389")
    case OverlyPermissiveQuery => GroupRuleRows(g)
    case UnencryptedEbsQuery =>
      set v | v in g.nodes && v.nodeLabel == "EBSVolume" && Unencrypted(g.nodes[v]) :: map["volume" := Node(g, v)]
    case OrphanedEbsQuery =>
      set v | v in g.nodes && v.nodeLabel == "EBSVolume" && Orphaned(g, v) :: map["volume" := Node(g, v)]
    case UnusedSecurityGroupQuery =>
      set s | s in g.nodes && s.nodeLabel == "SecurityGroup" && !HasEdgeFrom(g, s, "IS_MEMBER_OF", "EC2Instance")
        :: map["sg" := Node(g, s)]
    case NetworkSegmentationQuery =>
      set v, s | v in g.nodes && s in g.nodes && v.nodeLabel == "VPC" && s.nodeLabel == "Subnet"
                 && Edge("CONTAINS", v, s) in g.edges
        :: map["vpc" := Node(g, v), "subnet" := Node(g, s), "instance_count" := Int(|InstancesIn(g, s)|)]
    case PublicRunningInstanceQuery =>
      set i | i in g.nodes && i.nodeLabel == "EC2Instance" && PublicRunning(g.nodes[i]) :: map["instance" := Node(g, i)]
  }

  /** The session answered the query on `g`: every match exactly once, in
      an order of the store's choosing. */
  ghost predicate Answers(q: RuleQuery, g: Graph, rows: seq<Row>) {
    Distinct(rows) && forall row :: row in rows <==> row in MatchSet(q, g)
  }

  // ---------------------------------------------------------------------
  // evaluate
  // ---------------------------------------------------------------------

  /** `dict(record[column])`: a missing column raises KeyError; a value
      that is not a node raises. */
  function Column(row: Row, column: string): Result<Props> {
    if column !in row then Err(KeyError(column))
    else if row[column].Dict? then Ok(row[column].entries)
    else Err(TypeError)
  }

  /** The affected-resource dictionary one row becomes. */
  function Resource(q: RuleQuery, row: Row): Result<Record> {
    match q
    case ExposedSshQuery => InstanceRuleResource(row)
    case ExposedRdpQuery => InstanceRuleResource(row)
    case OverlyPermissiveQuery =>
      var sg := Column(row, "sg");
      var rule := Column(row, "rule");
      if sg.Err? then Err(sg.error)
      else if rule.Err? then Err(rule.error)
      else Ok(map["type" := Str("SecurityGroup"), "id" := Get(sg.value, "id"), "name" := Get(sg.value, "name"),
                  "vpc_id" := Get(sg.value, "vpcid"), "rule" := Dict(rule.value)])
    case UnencryptedEbsQuery => VolumeResource(row)
    case OrphanedEbsQuery => VolumeResource(row)
    case UnusedSecurityGroupQuery =>
      var sg := Column(row, "sg");
      if sg.Err? then Err(sg.error)
      else Ok(map["type" := Str("SecurityGroup"), "id" := Get(sg.value, "id"), "name" := Get(sg.value, "name"),
                  "description" := Get(sg.value, "description"), "vpc_id" := Get(sg.value, "vpcid")])
    case NetworkSegmentationQuery =>
      var vpc := Column(row, "vpc");
      var subnet := Column(row, "subnet");
      if vpc.Err? then Err(vpc.error)
      else if subnet.Err? then Err(subnet.error)
      else if "instance_count" !in row then Err(KeyError("instance_count"))
      else Ok(map["type" := Str("NetworkSegment"), "vpc_id" := Get(vpc.value, "id"), "vpc_name" := Get(vpc.value, "name"),
                  "subnet_id" := Get(subnet.value, "id"), "subnet_cidr" := Get(subnet.value, "cidrblock"),
                  "availability_zone" := Get(subnet.value, "availabilityzone"),
                  "instance_count" := row["instance_count"]])
    case PublicRunningInstanceQuery =>
      var instance := Column(row, "instance");
      if instance.Err? then Err(instance.error)
      else Ok(map["type" := Str("EC2Instance"), "id" := Get(instance.value, "id"), "name" := Get(instance.value, "name"),
                  "public_ip" := Get(instance.value, "publicip"), "state" := Get(instance.value, "state")])
  }

  function InstanceRuleResource(row: Row): Result<Record> {
    var instance := Column(row, "instance");
    var sg := Column(row, "sg");
    var rule := Column(row, "rule");
    if instance.Err? then Err(instance.error)
    else if sg.Err? then Err(sg.error)
    else if rule.Err? then Err(rule.error)
    else Ok(map["type" := Str("EC2Instance"), "id" := Get(instance.value, "id"), "name" := Get(instance.value, "name"),
                "public_ip" := Get(instance.value, "publicip"), "security_group" := Get(sg.value, "name"),
                "rule" := Dict(rule.value)])
  }

  function VolumeResource(row: Row): Result<Record> {
    var volume := Column(row, "volume");
    if volume.Err? then Err(volume.error)
    else Ok(map["type" := Str("EBSVolume"), "id" := Get(volume.value, "id"), "volume_id" := Get(volume.value, "volumeid"),
                "size" := Get(volume.value, "size"), "volume_type" := Get(volume.value, "volumetype"),
                "state" := Get(volume.value, "state")])
  }

  /** The resources of the rows in order; the first row that raises makes
      the whole evaluation raise. */
  function Resources(q: RuleQuery, rows: seq<Row>): (r: Result<seq<Record>>)
    ensures r.Ok? <==> forall i :: 0 <= i < |rows| ==> Resource(q, rows[i]).Ok?
    ensures r.Ok? ==> |r.value| == |rows| && forall i :: 0 <= i < |rows| ==> r.value[i] == Resource(q, rows[i]).value
  {
    if rows == [] then Ok([])
    else
      var init := rows[..|rows| - 1];
      assert forall i :: 0 <= i < |init| ==> init[i] == rows[i];
      match Resources(q, init)
      case Err(e) => Err(e)
      case Ok(acc) =>
        match Resource(q, rows[|rows| - 1])
        case Err(e) => Err(e)
        case Ok(res) => Ok(acc + [res])
  }

  /** One more row of a loop that has succeeded so far. */
  lemma ResourcesStep(q: RuleQuery, rows: seq<Row>, i: nat, acc: seq<Record>)
    requires i < |rows|
    requires Resources(q, rows[..i]) == Ok(acc)
    ensures Resources(q, rows[..i + 1]) ==
              if Resource(q, rows[i]).Err? then Err(Resource(q, rows[i]).error) else Ok(acc + [Resource(q, rows[i]).value])
  {
    assert rows[..i + 1][..i] == rows[..i];
  }

  /** Once a prefix of the rows raised, the evaluation raises the same. */
  lemma {:induction false} ResourcesErrSticks(q: RuleQuery, rows: seq<Row>, i: nat, e: Error)
    requires i <= |rows|
    requires Resources(q, rows[..i]) == Err(e)
    ensures Resources(q, rows) == Err(e)
    decreases |rows| - i
  {
    if i < |rows| {
      assert rows[..i + 1][..i] == rows[..i];
      ResourcesErrSticks(q, rows, i + 1, e);
    } else {
      assert rows[..i] == rows;
    }
  }

  /** The finding a rule makes of its affected resources. */
  function FindingOf(rule: Rule, affected: seq<Record>): Finding {
    Finding(rule.ruleId, rule.ruleName, rule.severity, rule.description, affected, rule.recommendation,
            rule.query, map["count" := Int(|affected|)])
  }

  /** What `evaluate` returns for the session's answer: the raise of a
      failed query or row, no finding for no rows, and otherwise one. */
  function EvaluateSpec(rule: Rule, answer: Result<seq<Row>>): Result<seq<Finding>> {
    if answer.Err? then Err(answer.error)
    else
      var res := Resources(rule.query, answer.value);
      if res.Err? then Err(res.error)
      else if res.value == [] then Ok([])
      else Ok([FindingOf(rule, res.value)])
  }

  /** No rows, no finding; otherwise exactly one, which copies the rule's
      identity and lists one resource per row in row order, with its count
      in the metadata. */
  lemma EvaluateShape(rule: Rule, answer: Result<seq<Row>>)
    ensures EvaluateSpec(rule, answer).Ok? <==>
              answer.Ok? && forall i :: 0 <= i < |answer.value| ==> Resource(rule.query, answer.value[i]).Ok?
    ensures EvaluateSpec(rule, answer).Ok? ==>
              var fs := EvaluateSpec(rule, answer).value;
              var rows := answer.value;
              && (rows == [] <==> fs == [])
              && (rows != [] ==>
                    && |fs| == 1
                    && fs[0].ruleId == rule.ruleId && fs[0].ruleName == rule.ruleName
                    && fs[0].severity == rule.severity && fs[0].description == rule.description
                    && fs[0].recommendation == rule.recommendation && fs[0].query == rule.query
                    && |fs[0].affected| == |rows|
                    && (forall i :: 0 <= i < |rows| ==> fs[0].affected[i] == Resource(rule.query, rows[i]).value)
                    && fs[0].metadata == map["count" := Int(|fs[0].affected|)])
  {
  }

  // ---------------------------------------------------------------------
  // Evaluation against the store
  // ---------------------------------------------------------------------

  lemma {:induction false} DistinctCard<T>(xs: seq<T>)
    requires Distinct(xs)
    ensures |set x | x in xs| == |xs|
  {
    if xs != [] {
      var init := xs[..|xs| - 1];
      assert Distinct(init);
      DistinctCard(init);
      assert (set x | x in xs) == (set x | x in init) + {xs[|xs| - 1]};
      assert xs[|xs| - 1] !in init;
    }
  }

  /** The shape of an SSH or RDP match: three node columns, the rule's
      passing the WHERE clause. */
  lemma InstanceRuleRowShape(g: Graph, port: string, row: Row)
    requires row in InstanceRuleRows(g, port)
    ensures "instance" in row && row["instance"].Dict? && "sg" in row && row["sg"].Dict?
    ensures "rule" in row && row["rule"].Dict? && OpenToInternet(row["rule"].entries, port)
  {
    var i, s, r :| i in g.nodes && s in g.nodes && r in g.nodes && OpenToInternet(g.nodes[r], port)
                   && row == map["instance" := Node(g, i), "sg" := Node(g, s), "rule" := Node(g, r)];
  }

  lemma GroupRuleRowShape(g: Graph, row: Row)
    requires row in GroupRuleRows(g)
    ensures "sg" in row && row["sg"].Dict? && "rule" in row && row["rule"].Dict?
  {
    var s, r :| s in g.nodes && r in g.nodes && s.nodeLabel == "SecurityGroup" && r.nodeLabel == "SecurityRule"
                && Edge("HAS_RULE", s, r) in g.edges && AllPortsOpen(g.nodes[r])
                && row == map["sg" := Node(g, s), "rule" := Node(g, r)];
  }

  lemma SegmentRowShape(g: Graph, row: Row)
    requires row in MatchSet(NetworkSegmentationQuery, g)
    ensures "vpc" in row && row["vpc"].Dict? && "subnet" in row && row["subnet"].Dict? && "instance_count" in row
  {
    var v, s :| v in g.nodes && s in g.nodes && v.nodeLabel == "VPC" && s.nodeLabel == "Subnet"
                && Edge("CONTAINS", v, s) in g.edges
                && row == map["vpc" := Node(g, v), "subnet" := Node(g, s), "instance_count" := Int(|InstancesIn(g, s)|)];
  }

  /** The volume an orphaned-volume match is about. */
  lemma OrphanedRowVolume(g: Graph, row: Row) returns (v: NodeKey)
    requires row in MatchSet(OrphanedEbsQuery, g)
    ensures v in g.nodes && v.nodeLabel == "EBSVolume" && Orphaned(g, v) && row == map["volume" := Node(g, v)]
  {
    v :| v in g.nodes && v.nodeLabel == "EBSVolume" && Orphaned(g, v) && row == map["volume" := Node(g, v)];
  }

  /** Every row the query matches is one the rule can turn into a
      resource. */
  lemma MatchedRowProcessable(q: RuleQuery, g: Graph, row: Row)
    requires row in MatchSet(q, g)
    ensures Resource(q, row).Ok?
  {
    match q
    case ExposedSshQuery => InstanceRuleRowShape(g, "22", row);
    case ExposedRdpQuery => InstanceRuleRowShape(g, "3389", row);
    case OverlyPermissiveQuery => GroupRuleRowShape(g, row);
    case NetworkSegmentationQuery => SegmentRowShape(g, row);
    case _ =>
  }

  /** Evaluated on the session's answer to its query on a store, a rule
      makes a finding exactly when the query matches something, and the
      finding lists as many resources as there are matches. A match is a
      distinct row of property maps, so two nodes with equal property maps
      in the same column count once; in a valid store a node's map holds its
      own `id`, so nodes of one label never collide. */
  lemma EvaluateOnStore(rule: Rule, g: Graph, rows: seq<Row>)
    requires Answers(rule.query, g, rows)
    ensures EvaluateSpec(rule, Ok(rows)).Ok?
    ensures EvaluateSpec(rule, Ok(rows)).value == [] <==> MatchSet(rule.query, g) == {}
    ensures EvaluateSpec(rule, Ok(rows)).value != [] ==>
              |EvaluateSpec(rule, Ok(rows)).value[0].affected| == |MatchSet(rule.query, g)|
  {
    forall i | 0 <= i < |rows| ensures Resource(rule.query, rows[i]).Ok? {
      MatchedRowProcessable(rule.query, g, rows[i]);
    }
    DistinctCard(rows);
    assert (set x | x in rows) == MatchSet(rule.query, g);
    if rows == [] {
      assert MatchSet(rule.query, g) == {};
    } else {
      assert rows[0] in MatchSet(rule.query, g);
    }
  }

  /** Every resource of the SSH finding names a group rule open to the
      internet on tcp whose port range contains "22". */
  lemma SshFindingNamesOpenRules(g: Graph, rows: seq<Row>)
    requires Answers(ExposedSshQuery, g, rows)
    ensures EvaluateSpec(ExposedSshRule, Ok(rows)).Ok?
    ensures var fs := EvaluateSpec(ExposedSshRule, Ok(rows)).value;
            fs != [] ==> forall k :: 0 <= k < |fs[0].affected| ==>
              var res := fs[0].affected[k];
              "rule" in res && res["rule"].Dict? && OpenToInternet(res["rule"].entries, "22")
  {
    EvaluateOnStore(ExposedSshRule, g, rows);
    var fs := EvaluateSpec(ExposedSshRule, Ok(rows)).value;
    if fs != [] {
      forall k | 0 <= k < |fs[0].affected|
        ensures var res := fs[0].affected[k];
                "rule" in res && res["rule"].Dict? && OpenToInternet(res["rule"].entries, "22")
      {
        assert fs[0].affected[k] == InstanceRuleResource(rows[k]).value;
        InstanceRuleRowShape(g, "22", rows[k]);
      }
    }
  }

  /** In a valid store each resource of the orphaned-volume finding has an
      `id` keying an EBS volume in state "available" with no ATTACHES_TO
      edge to an instance. */
  lemma OrphanedFindingSound(g: Graph, rows: seq<Row>)
    requires Store.Valid(g)
    requires Answers(OrphanedEbsQuery, g, rows)
    ensures EvaluateSpec(OrphanedEbsRule, Ok(rows)).Ok?
    ensures var fs := EvaluateSpec(OrphanedEbsRule, Ok(rows)).value;
            fs != [] ==> forall k :: 0 <= k < |fs[0].affected| ==>
              var res := fs[0].affected[k];
              "id" in res && Orphaned(g, NodeKey("EBSVolume", res["id"]))
  {
    EvaluateOnStore(OrphanedEbsRule, g, rows);
    var fs := EvaluateSpec(OrphanedEbsRule, Ok(rows)).value;
    if fs != [] {
      forall k | 0 <= k < |fs[0].affected|
        ensures var res := fs[0].affected[k];
                "id" in res && Orphaned(g, NodeKey("EBSVolume", res["id"]))
      {
        assert fs[0].affected[k] == VolumeResource(rows[k]).value;
        OrphanedResourceSound(g, rows[k]);
      }
    }
  }

  lemma OrphanedResourceSound(g: Graph, row: Row)
    requires Store.Valid(g)
    requires row in MatchSet(OrphanedEbsQuery, g)
    ensures VolumeResource(row).Ok?
    ensures "id" in VolumeResource(row).value && Orphaned(g, NodeKey("EBSVolume", VolumeResource(row).value["id"]))
  {
    var v := OrphanedRowVolume(g, row);
    assert Get(g.nodes[v], "id") == v.id;
  }

  /** And every such volume is listed. */
  lemma OrphanedFindingComplete(g: Graph, rows: seq<Row>, v: NodeKey)
    requires Answers(OrphanedEbsQuery, g, rows)
    requires v.nodeLabel == "EBSVolume" && Orphaned(g, v)
    ensures var r := EvaluateSpec(OrphanedEbsRule, Ok(rows));
            r.Ok? && r.value != [] &&
            exists k :: 0 <= k < |r.value[0].affected| && r.value[0].affected[k] == VolumeResource(map["volume" := Node(g, v)]).value
  {
    EvaluateOnStore(OrphanedEbsRule, g, rows);
    var fs := EvaluateSpec(OrphanedEbsRule, Ok(rows)).value;
    var row := map["volume" := Node(g, v)];
    assert row in MatchSet(OrphanedEbsQuery, g);
    var k :| 0 <= k < |rows| && rows[k] == row;
    assert fs[0].affected[k] == VolumeResource(rows[k]).value;
  }

  /** The store the loader builds never has CONTAINS edges, so on it the
      segmentation query matches nothing and that rule never reports. */
  lemma SegmentationNeedsContainsEdges(g: Graph)
    requires forall e :: e in g.edges ==> e.relLabel in {"IS_MEMBER_OF", "LOCATED_IN", "ATTACHES_TO", "HAS_RULE"}
    ensures MatchSet(NetworkSegmentationQuery, g) == {}
  {
  }

  /** The port tests of the SSH and RDP rules are substring tests on the
      range text, while the all-ports test is an exact comparison. */
  lemma PortTestsAreTextual()
    ensures PortMatches(Str("8022"), "22")
    ensures PortMatches(Str("3389-3390"), "3389")
    ensures !PortMatches(Str("0-65535"), "22")
    ensures !PortMatches(Int(22), "22")
    ensures forall p: Props :: AllPortsOpen(p) ==> Get(p, "PortRange") == Str("0-65535")
  {
    ContainsIffOccurs("8022", "22");
    assert OccursAt("8022", "22", 2);
    ContainsIffOccurs("3389-3390", "3389");
    assert OccursAt("3389-3390", "3389", 0);
    ContainsIffOccurs("0-65535", "22");
    forall k | 0 <= k && k + 2 <= 7 ensures !OccursAt("0-65535", "22", k) {
      assert "0-65535"[k..k + 2][0] == "0-65535"[k];
      assert "0-65535"[k..k + 2][1] == "0-65535"[k + 1];
    }
  }

  /** `evaluate`: the loop over the answered rows, appending one resource
      per row, and the single finding when there are any. */
  method Evaluate(rule: Rule, answer: Result<seq<Row>>) returns (r: Result<seq<Finding>>)
    ensures r == EvaluateSpec(rule, answer)
  {
    if answer.Err? {
      return Err(answer.error);
    }
    var rows := answer.value;
    var affected: seq<Record> := [];
    var i := 0;
    while i < |rows|
      invariant 0 <= i <= |rows|
      invariant Resources(rule.query, rows[..i]) == Ok(affected)
    {
      var res := Resource(rule.query, rows[i]);
      ResourcesStep(rule.query, rows, i, affected);
      if res.Err? {
        ResourcesErrSticks(rule.query, rows, i + 1, res.error);
        return Err(res.error);
      }
      affected := affected + [res.value];
      i := i + 1;
    }
    assert rows[..i] == rows;
    if affected == [] {
      return Ok([]);
    }
    return Ok([FindingOf(rule, affected)]);
  }
}
