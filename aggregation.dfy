/** The engine's aggregations over a list of findings: grouping by
    severity, the counting summary and the export format check. Python's
    dictionaries keep insertion order, so each one is an association list
    whose keys appear in the order they were first inserted. */
module FindingsAggregation {
  import opened Values
  import opened SecurityRules

  /** The key `get_findings_by_severity` and the severity count use. */
  function SeverityKey(f: Finding): string {
    SeverityValue(f.severity)
  }

  /** The key the per-rule count uses. */
  function RuleKey(f: Finding): string {
    f.ruleId
  }

  // ---------------------------------------------------------------------
  // Reference definitions
  // ---------------------------------------------------------------------

  function Keys<V>(d: seq<(string, V)>): (r: seq<string>)
    ensures |r| == |d|
    ensures forall i :: 0 <= i < |d| ==> r[i] == d[i].0
  {
    if d == [] then [] else [d[0].0] + Keys(d[1..])
  }

  /** The key of every element, in order. */
  function KeysOf<T>(xs: seq<T>, key: T -> string): (r: seq<string>)
    ensures |r| == |xs|
    ensures forall i :: 0 <= i < |xs| ==> r[i] == key(xs[i])
  {
    if xs == [] then [] else KeysOf(xs[..|xs| - 1], key) + [key(xs[|xs| - 1])]
  }

  /** The distinct elements of `ks` in order of first occurrence. */
  function Dedup(ks: seq<string>): seq<string> {
    if ks == [] then []
    else
      var d := Dedup(ks[..|ks| - 1]);
      if ks[|ks| - 1] in d then d else d + [ks[|ks| - 1]]
  }

  lemma {:induction false} DedupMeaning(ks: seq<string>)
    ensures Distinct(Dedup(ks))
    ensures forall k :: k in Dedup(ks) <==> k in ks
  {
    if ks != [] {
      var init := ks[..|ks| - 1];
      DedupMeaning(init);
      assert ks == init + [ks[|ks| - 1]];
    }
  }

  /** The elements whose key is `k`, in order. */
  function Filter<T>(xs: seq<T>, key: T -> string, k: string): (r: seq<T>)
    ensures forall i :: 0 <= i < |r| ==> key(r[i]) == k
  {
    if xs == [] then []
    else
      var rest := Filter(xs[..|xs| - 1], key, k);
      if key(xs[|xs| - 1]) == k then rest + [xs[|xs| - 1]] else rest
  }

  /** The list stored under `k`, or [] when `k` is not a key. */
  function Lookup<V>(d: seq<(string, seq<V>)>, k: string): seq<V> {
    if d == [] then [] else if d[0].0 == k then d[0].1 else Lookup(d[1..], k)
  }

  /** `if k not in grouped: grouped[k] = []; grouped[k].append(x)`. */
  function Insert<V>(d: seq<(string, seq<V>)>, k: string, x: V): seq<(string, seq<V>)> {
    if d == [] then [(k, [x])]
    else if d[0].0 == k then [(k, d[0].1 + [x])] + d[1..]
    else [d[0]] + Insert(d[1..], k, x)
  }

  /** `if k not in counts: counts[k] = 0; counts[k] += 1`. */
  function Bump(c: seq<(string, nat)>, k: string): seq<(string, nat)> {
    if c == [] then [(k, 1)]
    else if c[0].0 == k then [(k, c[0].1 + 1)] + c[1..]
    else [c[0]] + Bump(c[1..], k)
  }

  /** The grouping loop, element by element. */
  function Group<T>(xs: seq<T>, key: T -> string): seq<(string, seq<T>)> {
    if xs == [] then [] else Insert(Group(xs[..|xs| - 1], key), key(xs[|xs| - 1]), xs[|xs| - 1])
  }

  /** The counting loop, element by element. */
  function Tally<T>(xs: seq<T>, key: T -> string): seq<(string, nat)> {
    if xs == [] then [] else Bump(Tally(xs[..|xs| - 1], key), key(xs[|xs| - 1]))
  }

  function Sizes<V>(d: seq<(string, seq<V>)>): seq<(string, nat)> {
    if d == [] then [] else [(d[0].0, |d[0].1|)] + Sizes(d[1..])
  }

  function SumCounts(c: seq<(string, nat)>): nat {
    if c == [] then 0 else c[0].1 + SumCounts(c[1..])
  }

  /** The third summary loop: the total length of the affected lists. */
  function SumAffected(findings: seq<Finding>): nat {
    if findings == [] then 0 else SumAffected(findings[..|findings| - 1]) + |findings[|findings| - 1].affected|
  }

  // ---------------------------------------------------------------------
  // One step of each loop
  // ---------------------------------------------------------------------

  lemma {:induction false} InsertKeys<V>(d: seq<(string, seq<V>)>, k: string, x: V)
    ensures Keys(Insert(d, k, x)) == if k in Keys(d) then Keys(d) else Keys(d) + [k]
  {
    if d != [] && d[0].0 != k {
      InsertKeys(d[1..], k, x);
      assert Keys(d) == [d[0].0] + Keys(d[1..]);
    }
  }

  lemma {:induction false} InsertLookup<V>(d: seq<(string, seq<V>)>, k: string, x: V, k': string)
    ensures Lookup(Insert(d, k, x), k') == if k' == k then Lookup(d, k) + [x] else Lookup(d, k')
  {
    if d != [] && d[0].0 != k {
      InsertLookup(d[1..], k, x, k');
    }
  }

  lemma {:induction false} InsertSizes<V>(d: seq<(string, seq<V>)>, k: string, x: V)
    ensures Sizes(Insert(d, k, x)) == Bump(Sizes(d), k)
    ensures SumCounts(Sizes(Insert(d, k, x))) == SumCounts(Sizes(d)) + 1
  {
    if d != [] && d[0].0 != k {
      InsertSizes(d[1..], k, x);
    }
  }

  lemma {:induction false} LookupAbsent<V>(d: seq<(string, seq<V>)>, k: string)
    requires k !in Keys(d)
    ensures Lookup(d, k) == []
  {
    if d != [] {
      assert Keys(d)[0] == d[0].0;
      assert Keys(d[1..]) == Keys(d)[1..];
      LookupAbsent(d[1..], k);
    }
  }

  lemma {:induction false} LookupAt<V>(d: seq<(string, seq<V>)>, j: int)
    requires Distinct(Keys(d)) && 0 <= j < |d|
    ensures Lookup(d, d[j].0) == d[j].1
  {
    if j > 0 {
      assert Keys(d)[0] != Keys(d)[j];
      assert Keys(d[1..]) == Keys(d)[1..];
      LookupAt(d[1..], j - 1);
    }
  }

  // ---------------------------------------------------------------------
  // What the loops compute
  // ---------------------------------------------------------------------

  /** The groups' keys are the distinct keys in order of first occurrence;
      each key's group is exactly its elements, in order. */
  lemma {:induction false} GroupMeaning<T>(xs: seq<T>, key: T -> string)
    ensures Keys(Group(xs, key)) == Dedup(KeysOf(xs, key))
    ensures forall k :: Lookup(Group(xs, key), k) == Filter(xs, key, k)
  {
    if xs != [] {
      var init, last := xs[..|xs| - 1], xs[|xs| - 1];
      GroupMeaning(init, key);
      var d := Group(init, key);
      assert KeysOf(xs, key)[..|xs| - 1] == KeysOf(init, key);
      InsertKeys(d, key(last), last);
      forall k ensures Lookup(Group(xs, key), k) == Filter(xs, key, k) {
        InsertLookup(d, key(last), last, k);
      }
    }
  }

  /** `get_findings_by_severity` partitions the findings: the keys are
      distinct, in order of first occurrence; the group under each key is
      exactly the findings with that key, in their order; and the group
      sizes add up to the number of findings. */
  lemma GroupPartitions<T>(xs: seq<T>, key: T -> string)
    ensures var d := Group(xs, key);
            && Distinct(Keys(d))
            && Keys(d) == Dedup(KeysOf(xs, key))
            && (forall k :: k in Keys(d) <==> exists i :: 0 <= i < |xs| && key(xs[i]) == k)
            && (forall j :: 0 <= j < |d| ==> d[j].1 == Filter(xs, key, d[j].0))
            && SumCounts(Sizes(d)) == |xs|
  {
    GroupMeaning(xs, key);
    DedupMeaning(KeysOf(xs, key));
    var d := Group(xs, key);
    forall k ensures k in Keys(d) <==> exists i :: 0 <= i < |xs| && key(xs[i]) == k {
      if k in KeysOf(xs, key) {
        var i :| 0 <= i < |xs| && KeysOf(xs, key)[i] == k;
      }
    }
    forall j | 0 <= j < |d| ensures d[j].1 == Filter(xs, key, d[j].0) {
      LookupAt(d, j);
    }
    GroupTotal(xs, key);
  }

  lemma {:induction false} GroupTotal<T>(xs: seq<T>, key: T -> string)
    ensures SumCounts(Sizes(Group(xs, key))) == |xs|
    ensures Tally(xs, key) == Sizes(Group(xs, key))
  {
    if xs != [] {
      var init, last := xs[..|xs| - 1], xs[|xs| - 1];
      GroupTotal(init, key);
      InsertSizes(Group(init, key), key(last), last);
    }
  }

  /** A key with no element has no group. */
  lemma NoElementNoGroup<T>(xs: seq<T>, key: T -> string, k: string)
    requires forall i :: 0 <= i < |xs| ==> key(xs[i]) != k
    ensures Lookup(Group(xs, key), k) == []
  {
    GroupPartitions(xs, key);
    LookupAbsent(Group(xs, key), k);
  }

  // ---------------------------------------------------------------------
  // The summary
  // ---------------------------------------------------------------------

  datatype Summary = Summary(totalFindings: nat, bySeverity: seq<(string, nat)>, byRule: seq<(string, nat)>,
                             affectedResources: nat)

  /** What `get_summary` returns. */
  function SummaryOf(findings: seq<Finding>): Summary {
    Summary(|findings|, Tally(findings, SeverityKey), Tally(findings, RuleKey), SumAffected(findings))
  }

  /** The counts agree with each other: each severity's count and each
      rule's count is the number of its findings, both sets of counts add up
      to the total, and the two key lists are the distinct keys in order of
      first occurrence. */
  lemma SummaryConsistent(findings: seq<Finding>)
    ensures var s := SummaryOf(findings);
            && s.totalFindings == |findings|
            && SumCounts(s.bySeverity) == s.totalFindings
            && SumCounts(s.byRule) == s.totalFindings
            && Keys(s.bySeverity) == Dedup(KeysOf(findings, SeverityKey))
            && Keys(s.byRule) == Dedup(KeysOf(findings, RuleKey))
            && (forall j :: 0 <= j < |s.bySeverity| ==> s.bySeverity[j].1 == |Filter(findings, SeverityKey, s.bySeverity[j].0)|)
            && (forall j :: 0 <= j < |s.byRule| ==> s.byRule[j].1 == |Filter(findings, RuleKey, s.byRule[j].0)|)
  {
    GroupPartitions(findings, SeverityKey);
    GroupPartitions(findings, RuleKey);
    GroupTotal(findings, SeverityKey);
    GroupTotal(findings, RuleKey);
    SizesKeys(Group(findings, SeverityKey));
    SizesKeys(Group(findings, RuleKey));
  }

  lemma {:induction false} SizesKeys<V>(d: seq<(string, seq<V>)>)
    ensures Keys(Sizes(d)) == Keys(d)
    ensures |Sizes(d)| == |d|
    ensures forall j :: 0 <= j < |d| ==> Sizes(d)[j] == (d[j].0, |d[j].1|)
  {
    if d != [] {
      SizesKeys(d[1..]);
    }
  }

  /** The affected-resource total grows by each finding's list. */
  lemma {:induction false} SumAffectedAppend(a: seq<Finding>, b: seq<Finding>)
    ensures SumAffected(a + b) == SumAffected(a) + SumAffected(b)
    decreases |b|
  {
    if b == [] {
      assert a + b == a;
    } else {
      var init := b[..|b| - 1];
      assert (a + b)[..|a + b| - 1] == a + init;
      SumAffectedAppend(a, init);
    }
  }

  // ---------------------------------------------------------------------
  // export_findings
  // ---------------------------------------------------------------------

  /** The dictionary `export_findings` writes out for one finding. */
  function ExportRecord(f: Finding): Record {
    map["rule_id" := Str(f.ruleId), "rule_name" := Str(f.ruleName), "severity" := Str(SeverityValue(f.severity)),
        "description" := Str(f.description), "affected_resources" := List(seq(|f.affected|, i requires 0 <= i < |f.affected| => Dict(f.affected[i]))),
        "recommendation" := Str(f.recommendation), "metadata" := Dict(f.metadata)]
  }

  /** `export_findings`: only "json" is a supported format; anything else
      raises ValueError. The rendered text is represented by the list of
      dictionaries it serialises. */
  function ExportFindings(findings: seq<Finding>, format: string): (r: Result<seq<Record>>)
    ensures r.Ok? <==> format == "json"
    ensures r.Err? ==> r.error == ValueError("不支援的導出格式: " + format)
    ensures r.Ok? ==>
              && |r.value| == |findings|
              && forall i :: 0 <= i < |findings| ==>
                   && Get(r.value[i], "rule_id") == Str(findings[i].ruleId)
                   && Get(r.value[i], "severity") == Str(SeverityValue(findings[i].severity))
                   && Get(r.value[i], "metadata") == Dict(findings[i].metadata)
                   && Get(r.value[i], "rule_name") == Str(findings[i].ruleName)
                   && Get(r.value[i], "description") == Str(findings[i].description)
                   && Get(r.value[i], "recommendation") == Str(findings[i].recommendation)
                   && Get(r.value[i], "affected_resources").List?
                   && |Get(r.value[i], "affected_resources").items| == |findings[i].affected|
                   && forall j :: 0 <= j < |findings[i].affected| ==>
                        Get(r.value[i], "affected_resources").items[j] == Dict(findings[i].affected[j])
  {
    if format == "json" then Ok(seq(|findings|, i requires 0 <= i < |findings| => ExportRecord(findings[i])))
    else Err(ValueError("不支援的導出格式: " + format))
  }
}
