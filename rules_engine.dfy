/** `SecurityRulesEngine`: the ordered rule list, its maintenance, rule
    selection and the analysis run that isolates failing rules. The session
    is the store's answer to each rule query. */
module RulesEngine {
  import opened Values
  import opened Graph
  import opened SecurityRules
  import opened FindingsAggregation

  // ---------------------------------------------------------------------
  // The rule list
  // ---------------------------------------------------------------------

  /** `[rule for rule in rules if rule.rule_id != rule_id]`. */
  function Without(rules: seq<Rule>, ruleId: string): seq<Rule> {
    if rules == [] then []
    else (if rules[0].ruleId != ruleId then [rules[0]] else []) + Without(rules[1..], ruleId)
  }

  /** Removal drops every rule with the id and keeps every other rule as
      often as it was there; an absent id changes nothing. */
  lemma {:induction false} WithoutMeaning(rules: seq<Rule>, ruleId: string)
    ensures forall x :: x in Without(rules, ruleId) ==> x.ruleId != ruleId
    ensures forall x: Rule :: Count(Without(rules, ruleId), x) == if x.ruleId == ruleId then 0 else Count(rules, x)
    ensures (forall i :: 0 <= i < |rules| ==> rules[i].ruleId != ruleId) ==> Without(rules, ruleId) == rules
  {
    forall x: Rule ensures Count(Without(rules, ruleId), x) == if x.ruleId == ruleId then 0 else Count(rules, x) {
      WithoutCountAt(rules, ruleId, x);
    }
    if forall i :: 0 <= i < |rules| ==> rules[i].ruleId != ruleId {
      WithoutAbsent(rules, ruleId);
    }
  }

  lemma {:induction false} WithoutCountAt(rules: seq<Rule>, ruleId: string, x: Rule)
    ensures Count(Without(rules, ruleId), x) == if x.ruleId == ruleId then 0 else Count(rules, x)
    decreases |rules|
  {
    if rules != [] {
      var head: seq<Rule> := if rules[0].ruleId != ruleId then [rules[0]] else [];
      assert Without(rules, ruleId) == head + Without(rules[1..], ruleId);
      WithoutCountAt(rules[1..], ruleId, x);
      CountAppend(head, Without(rules[1..], ruleId), x);
      if head != [] {
        assert head[1..] == [];
      }
    }
  }

  lemma {:induction false} WithoutAbsent(rules: seq<Rule>, ruleId: string)
    requires forall i :: 0 <= i < |rules| ==> rules[i].ruleId != ruleId
    ensures Without(rules, ruleId) == rules
    decreases |rules|
  {
    if rules != [] {
      assert forall i :: 0 <= i < |rules[1..]| ==> rules[1..][i] == rules[i + 1];
      WithoutAbsent(rules[1..], ruleId);
      assert [rules[0]] + rules[1..] == rules;
    }
  }

  /** Removal keeps the order: it works segment by segment. */
  lemma {:induction false} WithoutAppend(a: seq<Rule>, b: seq<Rule>, ruleId: string)
    ensures Without(a + b, ruleId) == Without(a, ruleId) + Without(b, ruleId)
  {
    if a != [] {
      assert (a + b)[1..] == a[1..] + b;
      WithoutAppend(a[1..], b, ruleId);
    } else {
      assert a + b == b;
    }
  }

  lemma {:induction false} CountAppend<T>(a: seq<T>, b: seq<T>, x: T)
    ensures Count(a + b, x) == Count(a, x) + Count(b, x)
  {
    if a != [] {
      assert (a + b)[1..] == a[1..] + b;
      CountAppend(a[1..], b, x);
    } else {
      assert a + b == b;
    }
  }

  /** `[rule for rule in rules if rule.rule_id in rule_ids]`. */
  function Choose(rules: seq<Rule>, ruleIds: seq<string>): seq<Rule> {
    if rules == [] then []
    else (if rules[0].ruleId in ruleIds then [rules[0]] else []) + Choose(rules[1..], ruleIds)
  }

  /** The rules `run_analysis` runs: all of them without a list. */
  function Selected(rules: seq<Rule>, ruleIds: Option<seq<string>>): seq<Rule> {
    if ruleIds.None? then rules else Choose(rules, ruleIds.value)
  }

  /** A list of ids selects each registered rule with a listed id exactly as
      often as it is registered, and no other. */
  lemma {:induction false} ChooseMeaning(rules: seq<Rule>, ruleIds: seq<string>)
    ensures forall x: Rule :: Count(Choose(rules, ruleIds), x) == if x.ruleId in ruleIds then Count(rules, x) else 0
  {
    if rules != [] {
      ChooseMeaning(rules[1..], ruleIds);
      forall x: Rule ensures Count(Choose(rules, ruleIds), x) == if x.ruleId in ruleIds then Count(rules, x) else 0 {
        CountAppend([rules[0]], rules[1..], x);
        CountAppend(if rules[0].ruleId in ruleIds then [rules[0]] else [], Choose(rules[1..], ruleIds), x);
        assert [rules[0]] + rules[1..] == rules;
      }
    }
  }

  /** Selection works segment by segment, so it keeps registration order. */
  lemma {:induction false} ChooseAppend(a: seq<Rule>, b: seq<Rule>, ruleIds: seq<string>)
    ensures Choose(a + b, ruleIds) == Choose(a, ruleIds) + Choose(b, ruleIds)
  {
    if a != [] {
      assert (a + b)[1..] == a[1..] + b;
      ChooseAppend(a[1..], b, ruleIds);
    } else {
      assert a + b == b;
    }
  }

  /** Only which ids are listed matters: their order and repetitions do
      not, and listing every registered id selects every rule. */
  lemma {:induction false} ChooseByIdSet(rules: seq<Rule>, ids1: seq<string>, ids2: seq<string>)
    requires forall k :: k in ids1 <==> k in ids2
    ensures Choose(rules, ids1) == Choose(rules, ids2)
    ensures (forall i :: 0 <= i < |rules| ==> rules[i].ruleId in ids1) ==> Choose(rules, ids1) == rules
  {
    if rules != [] {
      ChooseByIdSet(rules[1..], ids1, ids2);
    }
  }

  /** `get_rule`: the first rule with the id, or None. */
  function FirstWithId(rules: seq<Rule>, ruleId: string): (r: Option<Rule>)
    ensures r.None? <==> forall i :: 0 <= i < |rules| ==> rules[i].ruleId != ruleId
    ensures r.Some? ==> exists i :: 0 <= i < |rules| && rules[i] == r.value && r.value.ruleId == ruleId &&
                                    forall j :: 0 <= j < i ==> rules[j].ruleId != ruleId
  {
    if rules == [] then None
    else if rules[0].ruleId == ruleId then Some(rules[0])
    else
      var r := FirstWithId(rules[1..], ruleId);
      assert r.Some? ==> exists i :: 0 <= i < |rules[1..]| && rules[1..][i] == r.value &&
                                     forall j :: 0 <= j < i ==> rules[1..][j].ruleId != ruleId;
      assert r.Some? ==> exists i :: 1 <= i < |rules| && rules[i] == r.value &&
                                     forall j :: 0 <= j < i ==> rules[j].ruleId != ruleId;
      r
  }

  /** `add_rule` appends even a duplicate id, which `get_rule` then never
      returns: the earlier rule still shadows it. */
  lemma AddedDuplicateIsShadowed(rules: seq<Rule>, rule: Rule)
    ensures FirstWithId(rules, rule.ruleId).Some? ==>
              FirstWithId(rules + [rule], rule.ruleId) == FirstWithId(rules, rule.ruleId)
    ensures FirstWithId(rules, rule.ruleId).None? ==> FirstWithId(rules + [rule], rule.ruleId) == Some(rule)
  {
    FirstWithIdAppend(rules, [rule], rule.ruleId);
  }

  lemma {:induction false} FirstWithIdAppend(a: seq<Rule>, b: seq<Rule>, ruleId: string)
    ensures FirstWithId(a + b, ruleId) == if FirstWithId(a, ruleId).Some? then FirstWithId(a, ruleId) else FirstWithId(b, ruleId)
  {
    if a != [] {
      assert (a + b)[0] == a[0];
      assert (a + b)[1..] == a[1..] + b;
      FirstWithIdAppend(a[1..], b, ruleId);
    } else {
      assert a + b == b;
    }
  }

  /** One entry of `list_rules`. */
  datatype RuleInfo = RuleInfo(ruleId: string, ruleName: string, description: string, severity: string,
                               recommendation: string)

  function InfoOf(rule: Rule): RuleInfo {
    RuleInfo(rule.ruleId, rule.ruleName, rule.description, SeverityValue(rule.severity), rule.recommendation)
  }

  // ---------------------------------------------------------------------
  // The analysis run
  // ---------------------------------------------------------------------

  /** What one rule contributes to a run: its findings, or nothing when
      its evaluation raises. */
  function Contribution(rule: Rule, session: RuleQuery -> Result<seq<Row>>): seq<Finding> {
    var r := EvaluateSpec(rule, session(rule.query));
    if r.Ok? then r.value else []
  }

  /** The findings of a run over `rules`, in rule order. */
  function Run(rules: seq<Rule>, session: RuleQuery -> Result<seq<Row>>): seq<Finding> {
    if rules == [] then [] else Run(rules[..|rules| - 1], session) + Contribution(rules[|rules| - 1], session)
  }

  /** The run concatenates the runs of consecutive segments. */
  lemma {:induction false} RunAppend(a: seq<Rule>, b: seq<Rule>, session: RuleQuery -> Result<seq<Row>>)
    ensures Run(a + b, session) == Run(a, session) + Run(b, session)
    decreases |b|
  {
    if b == [] {
      assert a + b == a;
    } else {
      var init, last := b[..|b| - 1], b[|b| - 1];
      assert (a + b)[..|a + b| - 1] == a + init;
      assert (a + b)[|a + b| - 1] == last;
      assert Run(a + b, session) == Run(a + init, session) + Contribution(last, session);
      assert Run(b, session) == Run(init, session) + Contribution(last, session);
      RunAppend(a, init, session);
    }
  }

  /** A rule whose evaluation raises is as if it were not selected. */
  lemma RunSkipsFailing(a: seq<Rule>, rule: Rule, b: seq<Rule>, session: RuleQuery -> Result<seq<Row>>)
    requires EvaluateSpec(rule, session(rule.query)).Err?
    ensures Run(a + [rule] + b, session) == Run(a + b, session)
  {
    assert [rule][..0] == [];
    assert Run([rule], session) == [];
    RunAppend(a + [rule], b, session);
    RunAppend(a, [rule], session);
    assert Run(a + [rule], session) == Run(a, session);
    RunAppend(a, b, session);
  }

  /** A run yields at most one finding per rule, and every finding is the
      finding its own rule made of a non-empty resource list. */
  lemma {:induction false} RunFindings(rules: seq<Rule>, session: RuleQuery -> Result<seq<Row>>)
    ensures |Run(rules, session)| <= |rules|
    ensures forall f :: f in Run(rules, session) ==>
              f.affected != [] && exists i :: 0 <= i < |rules| && f == FindingOf(rules[i], f.affected)
  {
    if rules != [] {
      var init, last := rules[..|rules| - 1], rules[|rules| - 1];
      RunFindings(init, session);
      EvaluateShape(last, session(last.query));
      forall f | f in Run(rules, session)
        ensures f.affected != [] && exists i :: 0 <= i < |rules| && f == FindingOf(rules[i], f.affected)
      {
        if f in Run(init, session) {
          var i :| 0 <= i < |init| && f == FindingOf(init[i], f.affected);
          assert rules[i] == init[i];
        } else {
          assert f in Contribution(last, session);
          assert f == FindingOf(last, f.affected);
        }
      }
    }
  }

  /** The number of rules whose query matches something in `g`. */
  ghost function Firing(rules: seq<Rule>, g: Graph): nat {
    if rules == [] then 0
    else Firing(rules[..|rules| - 1], g) + (if MatchSet(rules[|rules| - 1].query, g) != {} then 1 else 0)
  }

  /** With a session that answers every query from the store `g`, the run
      makes exactly one finding per rule whose query matches something. */
  lemma {:induction false} RunOnStore(rules: seq<Rule>, session: RuleQuery -> Result<seq<Row>>, g: Graph)
    requires forall q :: session(q).Ok? && Answers(q, g, session(q).value)
    ensures |Run(rules, session)| == Firing(rules, g)
  {
    if rules != [] {
      var last := rules[|rules| - 1];
      RunOnStore(rules[..|rules| - 1], session, g);
      EvaluateOnStore(last, g, session(last.query).value);
      EvaluateShape(last, session(last.query));
    }
  }

  // ---------------------------------------------------------------------
  // The engine
  // ---------------------------------------------------------------------

  class SecurityRulesEngine {
    var rules: seq<Rule>
    /** The store's answer to each rule query. */
    const session: RuleQuery -> Result<seq<Row>>

    /** An engine with the seven default rules. */
    constructor (session: RuleQuery -> Result<seq<Row>>)
      ensures rules == DefaultRules && this.session == session
    {
      rules := DefaultRules;
      this.session := session;
    }

    /** `add_rule`: appended at the end, whatever its id. */
    method AddRule(rule: Rule)
      modifies this
      ensures rules == old(rules) + [rule]
    {
      rules := rules + [rule];
    }

    /** `remove_rule`. */
    method RemoveRule(ruleId: string)
      modifies this
      ensures rules == Without(old(rules), ruleId)
    {
      rules := Without(rules, ruleId);
    }

    /** `get_rule`: the scan with early return. */
    method GetRule(ruleId: string) returns (r: Option<Rule>)
      ensures r == FirstWithId(rules, ruleId)
    {
      var i := 0;
      while i < |rules|
        invariant 0 <= i <= |rules|
        invariant forall j :: 0 <= j < i ==> rules[j].ruleId != ruleId
      {
        if rules[i].ruleId == ruleId {
          return Some(rules[i]);
        }
        i := i + 1;
      }
      return None;
    }

    /** `list_rules`: one entry per rule, in order, with the severity as
        its value. */
    function ListRules(): (r: seq<RuleInfo>)
      reads this
      ensures |r| == |rules|
      ensures forall i :: 0 <= i < |rules| ==> r[i].ruleId == rules[i].ruleId && r[i].severity == SeverityValue(rules[i].severity)
      ensures forall i :: 0 <= i < |rules| ==> r[i].ruleName == rules[i].ruleName && r[i].description == rules[i].description && r[i].recommendation == rules[i].recommendation
    {
      seq(|rules|, i requires 0 <= i < |rules| reads this => InfoOf(rules[i]))
    }

    /** `run_analysis`: each selected rule in turn; a rule that raises is
        logged and skipped. */
    method RunAnalysis(ruleIds: Option<seq<string>>) returns (findings: seq<Finding>)
      ensures findings == Run(Selected(rules, ruleIds), session)
    {
      var toRun := Selected(rules, ruleIds);
      findings := [];
      var i := 0;
      while i < |toRun|
        invariant 0 <= i <= |toRun|
        invariant findings == Run(toRun[..i], session)
      {
        var rule := toRun[i];
        var r := Evaluate(rule, session(rule.query));
        assert toRun[..i + 1][..i] == toRun[..i];
        if r.Ok? {
          findings := findings + r.value;
        }
        i := i + 1;
      }
      assert toRun[..i] == toRun;
    }

    /** `get_findings_by_severity`. */
    method GetFindingsBySeverity(findings: seq<Finding>) returns (grouped: seq<(string, seq<Finding>)>)
      ensures grouped == Group(findings, SeverityKey)
    {
      grouped := [];
      var i := 0;
      while i < |findings|
        invariant 0 <= i <= |findings|
        invariant grouped == Group(findings[..i], SeverityKey)
      {
        assert findings[..i + 1][..i] == findings[..i];
        grouped := Insert(grouped, SeverityValue(findings[i].severity), findings[i]);
        i := i + 1;
      }
      assert findings[..i] == findings;
    }

    /** `get_summary`: the three counting loops. */
    method GetSummary(findings: seq<Finding>) returns (s: Summary)
      ensures s == SummaryOf(findings)
    {
      var bySeverity: seq<(string, nat)> := [];
      var i := 0;
      while i < |findings|
        invariant 0 <= i <= |findings|
        invariant bySeverity == Tally(findings[..i], SeverityKey)
      {
        assert findings[..i + 1][..i] == findings[..i];
        bySeverity := Bump(bySeverity, SeverityValue(findings[i].severity));
        i := i + 1;
      }
      var byRule: seq<(string, nat)> := [];
      i := 0;
      while i < |findings|
        invariant 0 <= i <= |findings|
        invariant byRule == Tally(findings[..i], RuleKey)
      {
        assert findings[..i + 1][..i] == findings[..i];
        byRule := Bump(byRule, findings[i].ruleId);
        i := i + 1;
      }
      var affected := 0;
      i := 0;
      while i < |findings|
        invariant 0 <= i <= |findings|
        invariant affected == SumAffected(findings[..i])
      {
        assert findings[..i + 1][..i] == findings[..i];
        affected := affected + |findings[i].affected|;
        i := i + 1;
      }
      assert findings[..i] == findings;
      s := Summary(|findings|, bySeverity, byRule, affected);
    }
  }
}
