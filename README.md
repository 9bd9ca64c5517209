# Cloud infrastructure analysis: a Dafny model of its core

This project models the core of a tool that loads an AWS inventory into a
Neo4j graph and inspects it with security rules. It covers four parts.

- **Schema registry** (`DataModels`).
  - The frozen node schemas: each kind's label, property references and relationship descriptors.
  - `SCHEMA_REGISTRY` with `get_schema` and `get_all_schemas`.
  - The `INDEXES` table.
- **Graph ingestion** (`LoaderRecords`, `LoaderStore`, `Neo4jLoader`).
  - The `_extract_*` normalisers and the relationship-pair builders.
  - The 1000-item batching.
  - What the loader's Cypher statements do to the store:
    - a node merge by `id`, with `SET n += item` and the `lastupdated` stamp;
    - an edge merge between two nodes matched by `id`;
    - `cleanup_old_data` and `cleanup_old_data_advanced`;
    - the `run_analysis_advanced` lookup.
  - `ImprovedNeo4jLoader` is a class. Its field `graph` is the state of the store its session writes to.
- **Security rules engine** (`SecurityRules`, `FindingsAggregation`, `RulesEngine`).
  - The eight rules.
  - Each rule's graph query, as a set of rows defined over the store.
  - `evaluate`, which turns the rows into at most one finding.
  - `SecurityRulesEngine`: its rule list, `add_rule`, `remove_rule`, `get_rule`, `list_rules`, `run_analysis`, `get_findings_by_severity`, `get_summary` and `export_findings`.
- **Extension registry** (`ModularArchitecture`).
  - `ModuleRegistry`, with its three tables and its instance cache.
  - The lookups of `ExtensionManager`.

`Values` holds the Python-like values the loader and the rules exchange. `Graph` holds the store model:
- nodes keyed by label and `id`, each with a property map;
- labelled edges, each with its `lastupdated` stamp;
- `DETACH DELETE`.

In the table below, the relation `Answers(q, g, rows)` says that `rows` lists each row of query `q` on store `g` exactly once, in an order the store chooses. Rule evaluation takes that answer as its input.

## Model

| member | source | states |
|---|---|---|
| Values.ContainsIffOccurs | src/rules/security_rules_engine.py:76-82 | Cypher `CONTAINS` holds exactly when some window of the text equals the needle |
| Graph.MatchByIdIsKeyLookup | src/neo4j_loader/neo4j_loader.py:245-248 | in a valid store, `MATCH (n:L {id: v})` finds the one node keyed (L, v), or none |
| Graph.DetachDelete | src/neo4j_loader/neo4j_loader.py:300-305 | `DETACH DELETE` removes exactly the doomed nodes and every edge touching one; all other nodes and edges keep their properties |
| Graph.DetachDeleteValid | src/neo4j_loader/neo4j_loader.py:300-305 | deleting nodes with their edges leaves no dangling edge |
| Graph.DetachDeleteTwice | src/neo4j_loader/neo4j_loader.py:723-731 | deleting in two rounds equals deleting the union once |
| DataModels.Lookup | src/data_models.py:478-480 | a key lookup finds a value exactly when some entry has the key, and the value is that entry's |
| DataModels.GetSchemaExactlyRegistered | src/data_models.py:468-480 | `get_schema` returns a schema exactly for the six registered kinds, and that schema's label is the kind |
| DataModels.GetSchemaOfEachKind | src/data_models.py:468-475 | the schema registered under each of the six kinds |
| DataModels.KnownSchema | src/data_models.py:468-475 | each registered kind's lookup yields that kind's schema |
| DataModels.GetAllSchemas | src/data_models.py:483-485 | `get_all_schemas` returns six entries, all of registered kinds |
| DataModels.RegisteredLabels | src/neo4j_loader/neo4j_loader.py:293-294 | the default labels `cleanup_old_data` sweeps are the registry's keys, in order |
| DataModels.PropsAsEntries | src/neo4j_loader/neo4j_loader.py:200-201 | `properties.__dict__` lists each attribute with its reference, in declaration order |
| DataModels.RegistryLabelsMatchKeys | src/data_models.py:468-475 | every schema's label equals the key it is registered under |
| DataModels.IdAndExtraIndexShareSource | src/data_models.py:65-68 | in every schema the `id` property and the extra-indexed `<kind>id` property read the same source field |
| DataModels.IdExtraIndex0 | src/data_models.py:65-68 | EC2Instance: `id` and `instanceid` both read `InstanceId`, and only `instanceid` is extra-indexed |
| DataModels.IdExtraIndex1 | src/data_models.py:172-175 | SecurityGroup: `id` and `groupid` both read `GroupId` |
| DataModels.IdExtraIndex2 | src/data_models.py:225-228 | VPC: `id` and `vpcid` both read `VpcId` |
| DataModels.IdExtraIndex3 | src/data_models.py:250-253 | Subnet: `id` and `subnetid` both read `SubnetId` |
| DataModels.IdExtraIndex4 | src/data_models.py:304-307 | EBSVolume: `id` and `volumeid` both read `VolumeId` |
| DataModels.IdExtraIndex5 | src/data_models.py:359-362 | SecurityRule: `id` and `ruleid` both read `RuleId` |
| DataModels.ExtraIndexedIsSecond | src/data_models.py:65-84 | in a registered schema, a property is extra-indexed exactly when it is the second one, the `<kind>id` copy |
| DataModels.LastUpdatedSetInKwargs | src/data_models.py:65-393 | every node schema, its sub-resource link and each of its other relationships carry `lastupdated` with `set_in_kwargs` |
| DataModels.RelationshipDescriptors | src/data_models.py:92-393 | the fixed descriptors: IS_MEMBER_OF and LOCATED_IN outward from EC2Instance; ATTACHES_TO outward from EBSVolume; HAS_RULE inward to SecurityRule; the RESOURCE link inward from AWSAccount on every kind; VPC with no other relationships |
| DataModels.PostInitKeepsGivenValues | src/data_models.py:159-164 | `__post_init__` fills a default only for None; a given relationship list or matcher is kept |
| DataModels.IndexesCoverRegistry | src/data_models.py:413-452 | INDEXES holds an `id` and a `lastupdated` index for every registered label, and one on each extra-indexed property |
| DataModels.IndexesCover0 | src/data_models.py:415-419 | the EC2Instance entries cover `id`, `lastupdated` and `instanceid` |
| DataModels.IndexesCover1 | src/data_models.py:422-425 | the SecurityGroup entries cover `id`, `lastupdated` and `groupid` |
| DataModels.IndexesCover2 | src/data_models.py:428-431 | the VPC entries cover `id`, `lastupdated` and `vpcid` |
| DataModels.IndexesCover3 | src/data_models.py:434-438 | the Subnet entries cover `id`, `lastupdated` and `subnetid` |
| DataModels.IndexesCover4 | src/data_models.py:441-444 | the EBSVolume entries cover `id`, `lastupdated` and `volumeid` |
| DataModels.IndexesCover5 | src/data_models.py:447-451 | the SecurityRule entries cover `id`, `lastupdated` and `ruleid` |
| DataModels.IndexesNameDeclaredAttributes | src/data_models.py:413-452 | every INDEXES entry names a registered label and an attribute that label's schema declares |
| DataModels.Ec2InstanceSchemaDeclares | src/data_models.py:415-419 | the five EC2Instance indexes name declared attributes |
| DataModels.SecurityGroupSchemaDeclares | src/data_models.py:422-425 | the four SecurityGroup indexes name declared attributes |
| DataModels.VpcSchemaDeclares | src/data_models.py:428-431 | the four VPC indexes name declared attributes |
| DataModels.SubnetSchemaDeclares | src/data_models.py:434-438 | the five Subnet indexes name declared attributes |
| DataModels.EbsVolumeSchemaDeclares | src/data_models.py:441-444 | the four EBSVolume indexes name declared attributes |
| DataModels.SecurityRuleSchemaDeclares | src/data_models.py:447-451 | the five SecurityRule indexes name declared attributes |
| DataModels.RegionDeclared | src/neo4j_loader/neo4j_loader.py:212-213 | five schemas declare `region`, so their node statement sets it |
| DataModels.RuleSchemaLacksRegion | src/neo4j_loader/neo4j_loader.py:212-213 | the SecurityRule schema declares no `region` |
| DataModels.AccountIdUndeclared | src/neo4j_loader/neo4j_loader.py:214-215 | no schema declares `account_id`, so that clause is never added |
| DataModels.RegionAndAccountAttributes | src/neo4j_loader/neo4j_loader.py:211-215 | for a registered kind, `region` is set exactly when the kind is not SecurityRule, and `account_id` never is |
| LoaderRecords.FlatMapErrSticks | src/neo4j_loader/neo4j_loader.py:375-391 | once one element raises, the whole loop raises that error |
| LoaderRecords.FlatMapSingletons | src/neo4j_loader/neo4j_loader.py:398-407 | when each element yields one record, the loop succeeds exactly when every element does, and then yields the elements' records in order |
| LoaderRecords.FlatMapAppend | src/neo4j_loader/neo4j_loader.py:506-515 | a loop over `a + b` succeeds exactly when the loops over `a` and over `b` do, and yields their outputs in order |
| LoaderRecords.FlatMapFusion | src/neo4j_loader/neo4j_loader.py:376-378 | the nested reservation and instance loops equal collecting all instances, then normalising them |
| LoaderRecords.FlatMapKeeps | src/neo4j_loader/neo4j_loader.py:524-533 | a property every step's output has holds of the whole loop's output |
| LoaderRecords.NormaliseItem | src/neo4j_loader/neo4j_loader.py:376-391 | a normalised element yields exactly one record |
| LoaderRecords.GroupPair | src/neo4j_loader/neo4j_loader.py:511-515 | each listed group yields exactly one pair |
| LoaderRecords.RulePair | src/neo4j_loader/neo4j_loader.py:580-584 | each rule yields exactly one HAS_RULE pair |
| LoaderRecords.NormaliseEach | src/neo4j_loader/neo4j_loader.py:376-391 | the append loop over the items equals normalising each item in order |
| LoaderRecords.ExtractFlat | src/neo4j_loader/neo4j_loader.py:394-482 | a single-level extractor returns the container's normalised elements, or [] when there is no container |
| LoaderRecords.ExtractSecurityGroups | src/neo4j_loader/neo4j_loader.py:394-409 | `_extract_security_groups` over the `SecurityGroups` container |
| LoaderRecords.ExtractVpcs | src/neo4j_loader/neo4j_loader.py:411-427 | `_extract_vpcs` over `Vpcs` |
| LoaderRecords.ExtractSubnets | src/neo4j_loader/neo4j_loader.py:429-445 | `_extract_subnets` over `Subnets` |
| LoaderRecords.ExtractEbsVolumes | src/neo4j_loader/neo4j_loader.py:447-466 | `_extract_ebs_volumes` over `Volumes` |
| LoaderRecords.ExtractS3Buckets | src/neo4j_loader/neo4j_loader.py:468-482 | `_extract_s3_buckets` over `Buckets` |
| LoaderRecords.ExtractEc2Instances | src/neo4j_loader/neo4j_loader.py:371-392 | `_extract_ec2_instances`: its two nested loops equal the flattening of reservations into instance records |
| LoaderRecords.ExtractedOnePerElement | src/neo4j_loader/neo4j_loader.py:394-482 | a successful extractor yields exactly one record per container element, in order, each that element's normalisation |
| LoaderRecords.ExtractedEc2OnePerInstance | src/neo4j_loader/neo4j_loader.py:371-392 | the EC2 extractor succeeds exactly when collecting and normalising every instance succeeds; it then yields one record per instance across all reservations, in order |
| LoaderRecords.NoContainerNoRecords | src/neo4j_loader/neo4j_loader.py:375 | input that is not a dict, or lacks the container key, yields [] |
| LoaderRecords.RecordIdIsIdentityField | src/neo4j_loader/neo4j_loader.py:379 | a record's `id` equals the raw element's identity field (InstanceId, GroupId, VpcId, SubnetId, VolumeId, BucketName, RuleId); only a non-dict element, or an instance whose `State` or `Placement` is not a dict, raises |
| LoaderRecords.NormaliserDefaults | src/neo4j_loader/neo4j_loader.py:382-389 | a missing `State.Name` gives 'unknown'; a missing `Encrypted` or `IsDefault` gives False; a missing `Region` gives 'unknown', or 'us-east-1' for buckets |
| LoaderRecords.InstancePairsOfOne | src/neo4j_loader/neo4j_loader.py:506-509 | with one reservation holding one instance, the builders' output is that instance's pairs |
| LoaderRecords.GroupPairsOf | src/neo4j_loader/neo4j_loader.py:509-515 | the inner loop of the group builder equals the specification of one instance's group pairs |
| LoaderRecords.AttachmentPairsOfVolume | src/neo4j_loader/neo4j_loader.py:545-552 | the inner loop of the volume builder equals the specification of one volume's attachment pairs |
| LoaderRecords.ReservationPairs | src/neo4j_loader/neo4j_loader.py:507-508 | the loop over a reservation's instances equals the concatenation of their pairs |
| LoaderRecords.CollectInstancePairs | src/neo4j_loader/neo4j_loader.py:506-508 | the loop over reservations equals the concatenation of their pairs |
| LoaderRecords.BuildSecurityGroupPairs | src/neo4j_loader/neo4j_loader.py:502-515 | the IS_MEMBER_OF pair list |
| LoaderRecords.BuildSubnetPairs | src/neo4j_loader/neo4j_loader.py:520-533 | the LOCATED_IN pair list |
| LoaderRecords.BuildAttachmentPairs | src/neo4j_loader/neo4j_loader.py:538-552 | the ATTACHES_TO pair list |
| LoaderRecords.BuildRulePairs | src/neo4j_loader/neo4j_loader.py:579-584 | one HAS_RULE pair per rule, in order |
| LoaderRecords.PairsNeedTruthyIds | src/neo4j_loader/neo4j_loader.py:529 | the subnet and volume builders emit a pair exactly when both ids are truthy, and then exactly one |
| LoaderRecords.EmittedPairsHaveTruthyIds | src/neo4j_loader/neo4j_loader.py:548 | every pair the subnet and volume builders produce has both ids truthy |
| LoaderRecords.GroupPairsIgnoreMissingId | src/neo4j_loader/neo4j_loader.py:509-515 | an instance without the id field still yields one pair per listed group, with a null `instance_id` |
| LoaderStore.BatchesFlatten | src/neo4j_loader/neo4j_loader.py:169-172 | concatenating the batches gives back the input |
| LoaderStore.BatchesSizes | src/neo4j_loader/neo4j_loader.py:169-172 | every batch is non-empty and at most the batch size, and all but the last are full |
| LoaderStore.BatchesCount | src/neo4j_loader/neo4j_loader.py:229-232 | there are ceil(n / 1000) batches |
| LoaderStore.BatchAt | src/neo4j_loader/neo4j_loader.py:170-171 | batch j is the slice `data[j*1000 : j*1000 + 1000]`, cut at the end |
| LoaderStore.OverlayGet | src/neo4j_loader/neo4j_loader.py:207 | after `SET n += item`, a key reads the item's value if the item has it, else the old one |
| LoaderStore.OverlayCompose | src/neo4j_loader/neo4j_loader.py:207-208 | two overlays in a row equal one overlay of their union |
| LoaderStore.OverlayNothing | src/neo4j_loader/neo4j_loader.py:207 | an empty overlay changes nothing |
| LoaderStore.OverlayIdempotent | src/neo4j_loader/neo4j_loader.py:207 | an overlay applied twice equals it applied once |
| LoaderStore.UpsertBatchOk | src/neo4j_loader/neo4j_loader.py:204-209 | a batch statement succeeds exactly when every item is loadable (non-null `id`, storable values) |
| LoaderStore.UpsertBatchMeaning | src/neo4j_loader/neo4j_loader.py:204-209 | after a successful merge, exactly the batch's keys are added; each touched node holds its old fields overlaid with the writes of its rows; every other node is unchanged |
| LoaderStore.StampsTouched | src/neo4j_loader/neo4j_loader.py:208 | every merged node exists and has `lastupdated` equal to the tag and `id` equal to its key |
| LoaderStore.LastRowFieldsKept | src/neo4j_loader/neo4j_loader.py:207 | a node holds each field of the last row with its id, except the stamp and the region the statement sets |
| LoaderStore.UpsertBatchValid | src/neo4j_loader/neo4j_loader.py:204-209 | a node merge keeps the store valid |
| LoaderStore.UpsertBatchIdempotent | src/neo4j_loader/neo4j_loader.py:204-209 | applying the same batch twice gives the same store as once |
| LoaderStore.UpsertBatchAppend | src/neo4j_loader/neo4j_loader.py:170-172 | merging `a + b` in one statement equals merging `a`, then `b` |
| LoaderStore.LoadBatchesSuccess | src/neo4j_loader/neo4j_loader.py:168-175 | the batch loop reports success exactly when merging the whole list would, and then leaves the same store |
| LoaderStore.LoadBatchesFailure | src/neo4j_loader/neo4j_loader.py:177-179 | on failure, some batch failed, and the batches before it stay committed |
| LoaderStore.LoadNodesInBatches | src/neo4j_loader/neo4j_loader.py:169-175 | loading in batches of 1000 succeeds exactly when every item is loadable, and then equals one merge of the list |
| LoaderStore.UpsertEdgesMeaning | src/neo4j_loader/neo4j_loader.py:245-285 | an edge is added exactly for each pair whose two endpoints exist by `id` (others are skipped silently); it is stamped; nodes and other edges are unchanged |
| LoaderStore.UpsertEdgesAppend | src/neo4j_loader/neo4j_loader.py:229-232 | two edge batches in a row equal one batch of both |
| LoaderStore.UpsertEdgesIdempotent | src/neo4j_loader/neo4j_loader.py:249-250 | re-applying an edge batch changes nothing and keeps the store valid (MERGE creates no duplicates) |
| LoaderStore.LoadEdgeBatchesMeaning | src/neo4j_loader/neo4j_loader.py:228-235 | the relationship batch loop equals merging the concatenated batches |
| LoaderStore.LoadEdgesInBatches | src/neo4j_loader/neo4j_loader.py:229-232 | loading relationships in batches of 1000 equals one merge of the list; an unknown type leaves the store alone |
| LoaderStore.CleanupIsDetachDelete | src/neo4j_loader/neo4j_loader.py:299-305 | `cleanup_old_data` detach-deletes exactly the nodes of the listed labels whose `lastupdated` is below the tag |
| LoaderStore.CleanupKeeps | src/neo4j_loader/neo4j_loader.py:300-305 | a node stamped with the tag, or of an unlisted label, survives unchanged |
| LoaderStore.SweepChainRemovesOnlyEligible | src/neo4j_loader/neo4j_loader.py:726-731 | the limited sweep detach-deletes some subset of the listed labels' nodes whose stamp differs from the tag |
| LoaderStore.SweepChainKeeps | src/neo4j_loader/neo4j_loader.py:726-731 | a node stamped with the tag, or of an unlisted label, survives the limited sweep unchanged |
| LoaderStore.SweepChainLargeLimit | src/neo4j_loader/neo4j_loader.py:729 | with a limit at least the store's size, the sweep removes every eligible node |
| Neo4jLoader.LoadNodesUnknownKind | src/neo4j_loader/neo4j_loader.py:160-163 | a kind the registry lacks gives False and leaves the store alone |
| Neo4jLoader.S3BucketsAreNotLoaded | src/neo4j_loader/neo4j_loader.py:160-163 | `load_nodes("S3Bucket", …)` is refused with False |
| Neo4jLoader.LoadNodesMeaning | src/neo4j_loader/neo4j_loader.py:153-217 | for a registered kind, True exactly when every item is loadable; then every item's node exists stamped with the update tag |
| Neo4jLoader.LoadNodesIdempotent | src/neo4j_loader/neo4j_loader.py:153-179 | repeating a successful `load_nodes` reports True and leaves the store as the first call left it |
| Neo4jLoader.LoadedNodesSurviveCleanup | src/neo4j_loader/neo4j_loader.py:300-305 | nodes a load has just stamped survive `cleanup_old_data` unchanged |
| Neo4jLoader.ClockTagSweepsFreshNodes | src/neo4j_loader/neo4j_loader.py:723-731 | as written: a sweep against a clock reading other than the loader's tag deletes the nodes that tag stamped |
| Neo4jLoader.TagSweepKeepsFreshNodes | src/neo4j_loader/neo4j_loader.py:726-731 | corrected: a sweep against the loader's tag keeps every node that tag stamped |
| Neo4jLoader.SampleShape | src/neo4j_loader/neo4j_loader.py:506-508 | the sample inventory has one reservation with one instance |
| Neo4jLoader.SampleGroupPairs | src/neo4j_loader/neo4j_loader.py:509-515 | the sample's group pairs carry whatever the read key holds |
| Neo4jLoader.SampleSubnetPairs | src/neo4j_loader/neo4j_loader.py:527-533 | the sample's subnet pair exists only when the read key holds a truthy id |
| Neo4jLoader.WrittenKeyLosesEdges | src/neo4j_loader/neo4j_loader.py:509 | as written: reading `InstanceID` makes the IS_MEMBER_OF merge leave the store unchanged, and yields no LOCATED_IN pair |
| Neo4jLoader.InstanceKeyConnects | src/neo4j_loader/neo4j_loader.py:379 | corrected: reading `InstanceId` creates both the IS_MEMBER_OF and the LOCATED_IN edge |
| Neo4jLoader.InstanceKeyIsNodeId | src/neo4j_loader/neo4j_loader.py:379 | the instance node's `id` is the raw `InstanceId` |
| Neo4jLoader.AnalysisTable | src/neo4j_loader/neo4j_loader.py:756-816 | exactly seven analysis names are known; `security`/`exposed_ssh` and `cost`/`cost_optimization` share a statement, and no other pair does |
| Neo4jLoader.ImprovedNeo4jLoader.constructor | src/neo4j_loader/neo4j_loader.py:67-74 | the loader holds the store and the update tag it was given |
| Neo4jLoader.ImprovedNeo4jLoader.LoadNodes | src/neo4j_loader/neo4j_loader.py:153-179 | the result and the new store are those of the batch specification; the store stays valid |
| Neo4jLoader.ImprovedNeo4jLoader.LoadRelationships | src/neo4j_loader/neo4j_loader.py:219-239 | True, and the new store is the merge of all batches |
| Neo4jLoader.ImprovedNeo4jLoader.LoadRelationshipBatch | src/neo4j_loader/neo4j_loader.py:241-285 | a known type merges the batch's edges; an unknown type issues nothing |
| Neo4jLoader.ImprovedNeo4jLoader.CleanupOldData | src/neo4j_loader/neo4j_loader.py:287-308 | the new store is the cleanup of the given labels, or of every registered kind for None |
| Neo4jLoader.ImprovedNeo4jLoader.CleanupOldDataAdvanced | src/neo4j_loader/neo4j_loader.py:721-752 | as written: the store changes by a limited sweep per label against the clock reading |
| Neo4jLoader.ImprovedNeo4jLoader.SweepStale | src/neo4j_loader/neo4j_loader.py:726-731 | corrected: the same sweep against the loader's own tag |
| Neo4jLoader.ImprovedNeo4jLoader.SweepLabels | src/neo4j_loader/neo4j_loader.py:725-731 | the labels are swept in order, each a limited sweep step |
| Neo4jLoader.ImprovedNeo4jLoader.SweepLabel | src/neo4j_loader/neo4j_loader.py:726-731 | one label's step removes at most `limit` nodes whose stamp differs, and as many as exist up to the limit |
| Neo4jLoader.ImprovedNeo4jLoader.LoadEc2SecurityGroupRelationships | src/neo4j_loader/neo4j_loader.py:502-518 | succeeds exactly when the pairs build; the store then has the IS_MEMBER_OF merge of them, else is unchanged |
| Neo4jLoader.ImprovedNeo4jLoader.LoadEc2SubnetRelationships | src/neo4j_loader/neo4j_loader.py:520-536 | the same, for LOCATED_IN |
| Neo4jLoader.ImprovedNeo4jLoader.LoadEbsEc2Relationships | src/neo4j_loader/neo4j_loader.py:538-555 | the same, for ATTACHES_TO |
| Neo4jLoader.ImprovedNeo4jLoader.LoadSecurityRulesAndRelationships | src/neo4j_loader/neo4j_loader.py:557-588 | the result and new store are the rule specification's: rule nodes are loaded, then HAS_RULE edges merged; no `Rules` means no change |
| Neo4jLoader.ImprovedNeo4jLoader.RunAnalysisAdvanced | src/neo4j_loader/neo4j_loader.py:816-832 | an unknown type gives []; a known one gives the store's rows, or [] when the statement fails |
| SecurityRules.SeverityValueInjective | src/rules/security_rules_engine.py:18-24 | distinct severities have distinct values |
| SecurityRules.Resources | src/rules/security_rules_engine.py:92-105 | the row loop succeeds exactly when every row is processable, and then gives one resource per row, in row order |
| SecurityRules.ResourcesErrSticks | src/rules/security_rules_engine.py:117-118 | a row that raises makes the whole evaluation raise |
| SecurityRules.EvaluateShape | src/rules/security_rules_engine.py:85-118 | no rows means no finding; otherwise exactly one, copying the rule's id, name, severity, description, recommendation and query, with one resource per row and `count` equal to their number |
| SecurityRules.InstanceRuleRowShape | src/rules/security_rules_engine.py:76-82 | an SSH/RDP row carries instance, group and an inbound tcp rule open to 0.0.0.0/0 whose port range contains the port |
| SecurityRules.GroupRuleRowShape | src/rules/security_rules_engine.py:192-199 | an overly-permissive row carries a group and its rule |
| SecurityRules.SegmentRowShape | src/rules/security_rules_engine.py:410-413 | a segmentation row carries VPC, subnet and instance count |
| SecurityRules.OrphanedRowVolume | src/rules/security_rules_engine.py:304-307 | an orphaned-volume row is exactly one orphaned volume node |
| SecurityRules.MatchedRowProcessable | src/rules/security_rules_engine.py:92-105 | every row a store query returns is processable by its rule |
| SecurityRules.EvaluateOnStore | src/rules/security_rules_engine.py:85-118 | on the store's answer, evaluation succeeds; it gives no finding exactly when the query matches nothing, and otherwise counts each match once |
| SecurityRules.SshFindingNamesOpenRules | src/rules/security_rules_engine.py:76-82 | every resource of the SSH finding names a rule open to the internet on a range containing "22" |
| SecurityRules.OrphanedFindingSound | src/rules/security_rules_engine.py:302-307 | every volume the orphaned finding names is orphaned: no ATTACHES_TO edge to an instance, and state 'available' |
| SecurityRules.OrphanedResourceSound | src/rules/security_rules_engine.py:310-327 | one matched orphaned row gives a resource whose id names an orphaned volume |
| SecurityRules.OrphanedFindingComplete | src/rules/security_rules_engine.py:302-307 | every orphaned volume appears in the orphaned finding |
| SecurityRules.SegmentationNeedsContainsEdges | src/rules/security_rules_engine.py:410-413 | on a store with only the loader's four edge types, the segmentation rule matches nothing |
| SecurityRules.PortTestsAreTextual | src/rules/security_rules_engine.py:76-82 | the port test is textual: "8022" matches 22; "0-65535" does not match 22; an integer never matches; the permissive test wants exactly "0-65535" |
| SecurityRules.Evaluate | src/rules/security_rules_engine.py:85-118 | the imperative `evaluate` loop computes the specification above |
| FindingsAggregation.Keys | src/rules/security_rules_engine.py:524-532 | the keys of an ordered dict, one per entry |
| FindingsAggregation.KeysOf | src/rules/security_rules_engine.py:527-529 | the key of each finding, in order |
| FindingsAggregation.DedupMeaning | src/rules/security_rules_engine.py:528-530 | first-occurrence order has no repeats and the same members |
| FindingsAggregation.Filter | src/rules/security_rules_engine.py:531 | a group holds only findings with its key |
| FindingsAggregation.InsertKeys | src/rules/security_rules_engine.py:528-530 | appending to a group adds its key only when new, at the end |
| FindingsAggregation.InsertLookup | src/rules/security_rules_engine.py:531 | appending to a group extends only that group |
| FindingsAggregation.InsertSizes | src/rules/security_rules_engine.py:548-552 | appending to a group increments only its count, and the total by one |
| FindingsAggregation.LookupAbsent | src/rules/security_rules_engine.py:524-532 | an absent key has no findings |
| FindingsAggregation.LookupAt | src/rules/security_rules_engine.py:524-532 | with distinct keys, looking up an entry's key gives its group |
| FindingsAggregation.GroupMeaning | src/rules/security_rules_engine.py:524-532 | the groups' keys are the first-occurrence order of the severities, and each group is the in-order filter of its severity |
| FindingsAggregation.GroupPartitions | src/rules/security_rules_engine.py:524-532 | `get_findings_by_severity` partitions the findings: distinct keys, exactly the present severities, each group the in-order filter, sizes summing to the total |
| FindingsAggregation.GroupTotal | src/rules/security_rules_engine.py:545-556 | the group sizes sum to the number of findings, and the counting loop equals the group sizes |
| FindingsAggregation.NoElementNoGroup | src/rules/security_rules_engine.py:524-532 | a severity no finding has gets no group |
| FindingsAggregation.SizesKeys | src/rules/security_rules_engine.py:545-556 | the counts have the same keys as the groups and each is its group's size |
| FindingsAggregation.SumAffectedAppend | src/rules/security_rules_engine.py:558-559 | the affected-resource total is additive over concatenation |
| FindingsAggregation.SummaryConsistent | src/rules/security_rules_engine.py:534-561 | `total_findings` is the number of findings; the `by_severity` counts and the `by_rule` counts each sum to it; each count is its key's number of findings |
| FindingsAggregation.ExportFindings | src/rules/security_rules_engine.py:563-580 | only 'json' succeeds, and any other format raises ValueError with the source's message `不支援的導出格式: <format>`; one record per finding, with its rule id, rule name, severity value, description, recommendation, metadata and each affected resource in order |
| RulesEngine.WithoutMeaning | src/rules/security_rules_engine.py:477-480 | `remove_rule` keeps every rule with another id, as often as before, and no rule with the id; an absent id changes nothing |
| RulesEngine.WithoutAppend | src/rules/security_rules_engine.py:479 | the filter distributes over concatenation, so order is kept |
| RulesEngine.CountAppend | src/rules/security_rules_engine.py:479 | occurrences add up over concatenation |
| RulesEngine.ChooseMeaning | src/rules/security_rules_engine.py:504-507 | a selected run contains each registered rule whose id is listed as often as it is registered, and no other; a repeated id does not run a rule twice |
| RulesEngine.ChooseAppend | src/rules/security_rules_engine.py:506-507 | selection keeps registration order |
| RulesEngine.ChooseByIdSet | src/rules/security_rules_engine.py:506-507 | selection depends only on the set of ids given, not their order or repeats; naming every id runs every rule |
| RulesEngine.FirstWithId | src/rules/security_rules_engine.py:482-487 | `get_rule` gives None exactly when no rule has the id, else the earliest rule with it |
| RulesEngine.AddedDuplicateIsShadowed | src/rules/security_rules_engine.py:472-487 | after adding a rule under an existing id, `get_rule` still returns the earlier rule; under a new id it returns the added one |
| RulesEngine.FirstWithIdAppend | src/rules/security_rules_engine.py:482-487 | the lookup over `a + b` finds in `a` first |
| RulesEngine.RunAppend | src/rules/security_rules_engine.py:511-520 | a run over `a + b` is the run over `a` followed by the run over `b` |
| RulesEngine.RunSkipsFailing | src/rules/security_rules_engine.py:517-520 | a rule whose evaluation raises contributes nothing |
| RulesEngine.RunFindings | src/rules/security_rules_engine.py:511-522 | at most one finding per rule; each is some selected rule's finding with affected resources |
| RulesEngine.RunOnStore | src/rules/security_rules_engine.py:502-522 | on a store-backed session, the run makes exactly one finding per rule whose query matches something |
| RulesEngine.SecurityRulesEngine.constructor | src/rules/security_rules_engine.py:456-470 | a new engine holds the seven default rules, in order, with the source's ids, names, texts and severities |
| RulesEngine.SecurityRulesEngine.AddRule | src/rules/security_rules_engine.py:472-475 | the rule is appended |
| RulesEngine.SecurityRulesEngine.RemoveRule | src/rules/security_rules_engine.py:477-480 | the rule list becomes its filter without the id |
| RulesEngine.SecurityRulesEngine.GetRule | src/rules/security_rules_engine.py:482-487 | the first rule with the id, or None |
| RulesEngine.SecurityRulesEngine.ListRules | src/rules/security_rules_engine.py:489-500 | one entry per rule, in order, with its id, name, description, severity value and recommendation |
| RulesEngine.SecurityRulesEngine.RunAnalysis | src/rules/security_rules_engine.py:502-522 | the findings are the run over the selected rules |
| RulesEngine.SecurityRulesEngine.GetFindingsBySeverity | src/rules/security_rules_engine.py:524-532 | the grouping specification above |
| RulesEngine.SecurityRulesEngine.GetSummary | src/rules/security_rules_engine.py:534-561 | the summary specification above |
| ModularArchitecture.ModuleInstance.constructor | src/extensions/modular_architecture.py:43-46 | an instance keeps its class and config |
| ModularArchitecture.PutKeys | src/extensions/modular_architecture.py:146-147 | writing an info adds its name to the keys and keeps the keys unique |
| ModularArchitecture.PutInPlace | src/extensions/modular_architecture.py:146-147 | re-registering a name replaces its info in place; a new name is appended last |
| ModularArchitecture.RemoveMeaning | src/extensions/modular_architecture.py:160-161 | removing a name drops exactly its info and keeps the keys unique |
| ModularArchitecture.OfTypeMeaning | src/extensions/modular_architecture.py:189-197 | `list_modules(t)` keeps exactly the infos of type t; `list_modules(None)` keeps all |
| ModularArchitecture.OfTypeKeys | src/extensions/modular_architecture.py:194-197 | filtering keeps the names unique |
| ModularArchitecture.TypesPartition | src/extensions/modular_architecture.py:335-343 | the five per-type lists together hold every info once |
| ModularArchitecture.MatchIgnoresCase | src/extensions/modular_architecture.py:299 | the name match ignores case on both sides, and every name matches itself |
| ModularArchitecture.ModuleRegistry.constructor | src/extensions/modular_architecture.py:136-140 | three empty tables |
| ModularArchitecture.ModuleRegistry.RegisterModule | src/extensions/modular_architecture.py:142-152 | True; the class and info are stored under the info's name, overwriting; the cached instance is kept |
| ModularArchitecture.ModuleRegistry.UnregisterModule | src/extensions/modular_architecture.py:154-167 | False with nothing changed for an unknown name; otherwise True, and the name is gone from all three tables |
| ModularArchitecture.ModuleRegistry.GetModule | src/extensions/modular_architecture.py:169-187 | None for an unknown name; the cached instance whatever the config; otherwise a fresh instance with `config or {}`, now cached, unless its constructor raises, which gives None |
| ModularArchitecture.ModuleRegistry.ListModules | src/extensions/modular_architecture.py:189-197 | all infos for None; exactly those of the type otherwise |
| ModularArchitecture.ModuleRegistry.GetModuleInfo | src/extensions/modular_architecture.py:199-201 | the info registered under the name, or None when there is none |
| ModularArchitecture.InfoNamed | src/extensions/modular_architecture.py:199-201 | the lookup finds an info with that name, or the name is absent |
| ModularArchitecture.ReRegisterKeepsCachedInstance | src/extensions/modular_architecture.py:146-177 | after re-registering a new class, `get_module` still returns the instance of the old class |
| ModularArchitecture.FirstFoundMeaning | src/extensions/modular_architecture.py:295-303 | the name the lookup finds is a candidate's that matches the query and whose instance passes the base-class check; None exactly when no candidate does |
| ModularArchitecture.CachedMeaning | src/extensions/modular_architecture.py:295-303 | the names a lookup newly caches are matching, registered, uncached candidates whose constructor does not raise; they include the name found unless it was cached before, and every such candidate when none is found |
| ModularArchitecture.ExtensionManager.constructor | src/extensions/modular_architecture.py:273-276 | a manager with a fresh, empty registry |
| ModularArchitecture.ExtensionManager.GetExtension | src/extensions/modular_architecture.py:295-333 | `get_extractor`, `get_analyzer`, `get_visualizer` and `get_rule`: the first module of the type, in registration order, whose name contains the query ignoring case and whose instance has the base class, else None; cached instances stay; the cache's new names are exactly the walk's `Cached` set, each instance with its registered class and `config or {}` |
| ModularArchitecture.ExtensionManager.ListAvailableExtensions | src/extensions/modular_architecture.py:335-343 | the keys `extractors`, `analyzers`, `visualizers`, `rules` and `loaders`, each holding exactly the registered infos of its type; the five sizes sum to the number of registered infos |

## Left out

- The Neo4j driver is not modelled: sessions, transactions, connect/close, constraint and index DDL (`setup_schema`, `create_indexes`) and `get_statistics`. The store is the `Graph` value, and a failing statement is an error result.
- The `backoff` retries and the `timeit` decorator are left out: they only time calls or retry them.
- The clock is a parameter. The update tag is the loader constructor's argument, and the clock reading of `cleanup_old_data_advanced` is the argument `now`.
- `load_with_schema_advanced`, `_build_batch_query` and `_ensure_indexes_advanced` are left out. They read a `config` that the constructor never sets.
- The orchestration in `load_aws_data`, `_load_aws_nodes` and `_load_aws_relationships` is not modelled. The relationship loaders' `requires` are the checks those callers make.
- `ModuleLoader` and `ExtensionManager.load_extension` are left out: they load Python code dynamically. The example modules (boto3, plotting, file output) are left out too.
- Rule queries are modelled by their meaning, as a set of rows on the store. Where the store's answer is needed, it is a parameter, and the row order is the store's choice.
  - The Cypher text is represented by the query's constructor.
  - `ORDER BY` clauses are not modelled.
- SecurityRules.PortMatches: the port test is modelled as `CONTAINS` on the stored text, as the query writes it. Numeric port ranges are not interpreted.
- FindingsAggregation.ExportFindings: the JSON rendering and indentation are not modelled, only the format check and the exported fields.
- Neo4jLoader.ImprovedNeo4jLoader.RunAnalysisAdvanced: the statements also set marker properties (`exposed_ssh`, `unused`, …) on matched nodes. The model returns the store's rows and leaves the store unchanged.
- LoaderStore.LabelSyntax: a label is interpolated into the statement text. The model treats a label that is not a plain ASCII identifier as a statement that fails and is caught; it does not parse Cypher.
- LoaderStore.Storable: the values Neo4j accepts as properties are approximated as null, booleans, integers, strings, and lists whose items are all booleans, all integers or all strings (a list holding null or mixing types is refused). Floating point is not modelled.
- SecurityRules.EvaluateOnStore: a match is counted as a distinct row of property maps, so duplicate rows that Neo4j would return twice (two nodes with equal property maps in one column) count once; in a valid store nodes of one label differ in their `id` property.
- Values.Lower: `str.lower()` is modelled for ASCII letters only.
- ModularArchitecture.ExtensionManager.GetExtension: `isinstance` is modelled by each class's one base kind; deeper inheritance is not modelled. A class constructor that raises is modelled by a flag on the class.
- ModularArchitecture.ExtensionManager.GetExtension is not given module type Loader, because the source has no `get_loader`.
- `BaseModule.get_info`, `initialize` and `cleanup` are abstract in the core, and are left unmodelled.
- Logging is not modelled.
- `SecurityRule.get_cypher_query` is reduced to the rule's query value.
- NetworkSegmentation is modelled, but its query needs CONTAINS edges, which the loader never writes (see `SecurityRules.SegmentationNeedsContainsEdges`).

## Findings

| source | as written | input that shows it | evidently intended | confidence | as-written member | corrected member |
|---|---|---|---|---|---|---|
| src/neo4j_loader/neo4j_loader.py:509-527 | the IS_MEMBER_OF and LOCATED_IN builders read `instance.get('InstanceID')`, but instance nodes are keyed by the provider's `InstanceId` (line 379) | one instance `{InstanceId: "i-1", SubnetId: "subnet-1", SecurityGroups: [{GroupId: "sg-1"}]}` with its instance, group and subnet nodes in the store: no IS_MEMBER_OF edge is created, and no LOCATED_IN pair is emitted | read `InstanceId`, so that each instance connects to its groups and its subnet | high; not executed | Neo4jLoader.WrittenKeyLosesEdges | Neo4jLoader.InstanceKeyConnects |
| src/neo4j_loader/neo4j_loader.py:723 | `cleanup_old_data_advanced` compares stamps against a fresh `int(time.time())` rather than the loader's `update_tag` | a node stamped by this loader's tag t, swept once the clock reads now ≠ t with a limit at least the store's size: the node is deleted | compare against `self.update_tag`, as `cleanup_old_data` does, so that only stale nodes go | medium; not executed | Neo4jLoader.ClockTagSweepsFreshNodes | Neo4jLoader.TagSweepKeepsFreshNodes |

The loader's relationship methods take the field they read as an argument: `WrittenInstanceKey` gives the behaviour as written, `InstanceKey` the corrected one. `ImprovedNeo4jLoader.SweepStale` is the corrected form of `CleanupOldDataAdvanced`.
