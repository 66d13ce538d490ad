/** The summary of a report that the exporter writes into the status of a compliance scan. */
module Report {

  datatype RuleStatus = Passed | Skipped | Accepted | Warning | Failed | Errored | Other(name: string)

  datatype Check = Check(status: RuleStatus)
  datatype Rule = Rule(id: string, name: string, checks: seq<Check>)
  datatype Ruleset = Ruleset(id: string, version: string, rules: seq<Rule>)
  datatype Provider = Provider(rulesets: seq<Ruleset>)
  datatype Report = Report(providers: seq<Provider>)

  datatype Finding = Finding(id: string, name: string)
  datatype Counts = Counts(passed: int, skipped: int, accepted: int, warning: int, failed: int, errored: int)
  datatype RulesetSummary = RulesetSummary(id: string, version: string, counts: Counts,
                                           failed: seq<Finding>, errored: seq<Finding>, warning: seq<Finding>)

  const SUMMARISED: set<RuleStatus> := {Passed, Skipped, Accepted, Warning, Failed, Errored}

  const TWO_31: int := 0x8000_0000

  /** The value of a 32-bit counter. */
  function Int32(x: int): int { (x + TWO_31) % (2 * TWO_31) - TWO_31 }

  /** Adding one to such a counter. */
  function Increment(n: int): int { if n == TWO_31 - 1 then -TWO_31 else n + 1 }

  lemma IncrementWraps(x: int)
    ensures Increment(Int32(x)) == Int32(x + 1)
  {
  }

  lemma Int32OfSmall(x: int)
    requires -TWO_31 <= x < 2 * TWO_31
    ensures Int32(x) == if x < TWO_31 then x else x - 2 * TWO_31
  {
  }

  predicate Shows(rule: Rule, status: RuleStatus) {
    exists k :: 0 <= k < |rule.checks| && rule.checks[k].status == status
  }

  /** The rules with a check of one status, in their order. */
  function Selected(rules: seq<Rule>, status: RuleStatus): seq<Rule> {
    if rules == [] then []
    else
      var last := rules[|rules| - 1];
      Selected(rules[..|rules| - 1], status) + if Shows(last, status) then [last] else []
  }

  function ToFinding(rule: Rule): Finding { Finding(rule.id, rule.name) }

  function Findings(rules: seq<Rule>, status: RuleStatus): (fs: seq<Finding>)
    ensures |fs| == |Selected(rules, status)|
  {
    var selected := Selected(rules, status);
    seq(|selected|, k requires 0 <= k < |selected| => ToFinding(selected[k]))
  }

  method GetRulesetFindingsByStatus(ruleset: Ruleset, status: RuleStatus) returns (findings: seq<Finding>)
    ensures findings == Findings(ruleset.rules, status)
  {
    findings := [];
    var rules := ruleset.rules;
    for i := 0 to |rules|
      invariant findings == Findings(rules[..i], status)
    {
      assert rules[..i + 1][..i] == rules[..i];
      if exists k :: 0 <= k < |rules[i].checks| && rules[i].checks[k].status == status {
        findings := findings + [ToFinding(rules[i])];
      }
    }
    assert rules[..|rules|] == rules;
  }

  method NumOfRulesWithStatus(ruleset: Ruleset, status: RuleStatus) returns (num: int)
    ensures num == Int32(|Selected(ruleset.rules, status)|)
  {
    num := 0;
    var rules := ruleset.rules;
    for i := 0 to |rules|
      invariant num == Int32(|Selected(rules[..i], status)|)
    {
      assert rules[..i + 1][..i] == rules[..i];
      var checks := rules[i].checks;
      var j := 0;
      while j < |checks|
        invariant 0 <= j <= |checks|
        invariant forall k :: 0 <= k < j ==> checks[k].status != status
      {
        if checks[j].status == status {
          IncrementWraps(|Selected(rules[..i], status)|);
          num := Increment(num);
          break;
        }
        j := j + 1;
      }
      assert Shows(rules[i], status) <==> j < |checks|;
    }
    assert rules[..|rules|] == rules;
  }

  /** The count of one status, or nothing for a status that the library does not list. */
  function CountOf(ruleset: Ruleset, statuses: seq<RuleStatus>, status: RuleStatus): int {
    if status in statuses then Int32(|Selected(ruleset.rules, status)|) else 0
  }

  function CountsOf(ruleset: Ruleset, statuses: seq<RuleStatus>): Counts {
    Counts(CountOf(ruleset, statuses, Passed), CountOf(ruleset, statuses, Skipped),
           CountOf(ruleset, statuses, Accepted), CountOf(ruleset, statuses, Warning),
           CountOf(ruleset, statuses, Failed), CountOf(ruleset, statuses, Errored))
  }

  /** `statuses` are the statuses that the rule library knows. */
  method RulesetSummaryCount(ruleset: Ruleset, statuses: seq<RuleStatus>) returns (summary: Counts)
    ensures summary == CountsOf(ruleset, statuses)
  {
    summary := Counts(0, 0, 0, 0, 0, 0);
    for i := 0 to |statuses|
      invariant summary == CountsOf(ruleset, statuses[..i])
    {
      var num := NumOfRulesWithStatus(ruleset, statuses[i]);
      match statuses[i] {
        case Passed => summary := summary.(passed := num);
        case Skipped => summary := summary.(skipped := num);
        case Accepted => summary := summary.(accepted := num);
        case Warning => summary := summary.(warning := num);
        case Failed => summary := summary.(failed := num);
        case Errored => summary := summary.(errored := num);
        case Other(_) =>
      }
      assert statuses[..i + 1] == statuses[..i] + [statuses[i]];
    }
    assert statuses[..|statuses|] == statuses;
  }

  function Summary(ruleset: Ruleset, statuses: seq<RuleStatus>): RulesetSummary {
    RulesetSummary(ruleset.id, ruleset.version, CountsOf(ruleset, statuses),
                   Findings(ruleset.rules, Failed), Findings(ruleset.rules, Errored), Findings(ruleset.rules, Warning))
  }

  /** All rulesets of a report, provider by provider. */
  function AllRulesets(providers: seq<Provider>): seq<Ruleset> {
    if providers == [] then []
    else AllRulesets(providers[..|providers| - 1]) + providers[|providers| - 1].rulesets
  }

  function Summaries(rulesets: seq<Ruleset>, statuses: seq<RuleStatus>): (s: seq<RulesetSummary>)
    ensures |s| == |rulesets|
  {
    seq(|rulesets|, k requires 0 <= k < |rulesets| => Summary(rulesets[k], statuses))
  }

  method CreateRulesetSummaries(report: Report, statuses: seq<RuleStatus>) returns (summaries: seq<RulesetSummary>)
    ensures summaries == Summaries(AllRulesets(report.providers), statuses)
  {
    summaries := [];
    var providers := report.providers;
    for i := 0 to |providers|
      invariant summaries == Summaries(AllRulesets(providers[..i]), statuses)
    {
      var rulesets := providers[i].rulesets;
      ghost var done := AllRulesets(providers[..i]);
      for j := 0 to |rulesets|
        invariant summaries == Summaries(done + rulesets[..j], statuses)
      {
        var counts := RulesetSummaryCount(rulesets[j], statuses);
        var failed := GetRulesetFindingsByStatus(rulesets[j], Failed);
        var errored := GetRulesetFindingsByStatus(rulesets[j], Errored);
        var warning := GetRulesetFindingsByStatus(rulesets[j], Warning);
        summaries := summaries +
          [RulesetSummary(rulesets[j].id, rulesets[j].version, counts, failed, errored, warning)];
        assert done + rulesets[..j + 1] == done + rulesets[..j] + [rulesets[j]];
      }
      assert rulesets[..|rulesets|] == rulesets;
      assert providers[..i + 1][..i] == providers[..i];
    }
    assert providers[..|providers|] == providers;
  }

  // ---------------------------------------------------------------- what a summary says

  ghost predicate HasCheck(rule: Rule, status: RuleStatus) {
    exists c :: c in rule.checks && c.status == status
  }

  /** `at` lists, in increasing order, the positions of the rules with a check of one status. */
  ghost predicate Positions(rules: seq<Rule>, status: RuleStatus, at: seq<nat>) {
    && (forall k :: 0 <= k < |at| ==> at[k] < |rules| && HasCheck(rules[at[k]], status))
    && (forall k, l :: 0 <= k < l < |at| ==> at[k] < at[l])
    && (forall i :: 0 <= i < |rules| && HasCheck(rules[i], status) ==> i in at)
  }

  lemma ShowsIff(rule: Rule, status: RuleStatus)
    ensures Shows(rule, status) <==> HasCheck(rule, status)
  {
    if c :| c in rule.checks && c.status == status {
      var k :| 0 <= k < |rule.checks| && rule.checks[k] == c;
    }
  }

  /** The same, as the findings are selected. */
  ghost predicate ShownAt(rules: seq<Rule>, status: RuleStatus, at: seq<nat>) {
    && (forall k :: 0 <= k < |at| ==> at[k] < |rules| && Shows(rules[at[k]], status))
    && (forall k, l :: 0 <= k < l < |at| ==> at[k] < at[l])
    && (forall i :: 0 <= i < |rules| && Shows(rules[i], status) ==> i in at)
  }

  lemma {:induction false} FindingsAreShown(rules: seq<Rule>, status: RuleStatus) returns (at: seq<nat>)
    ensures ShownAt(rules, status, at) && |at| == |Findings(rules, status)|
    ensures forall k :: 0 <= k < |at| ==> Findings(rules, status)[k] == ToFinding(rules[at[k]])
  {
    if rules == [] {
      at := [];
    } else {
      var n := |rules| - 1;
      at := FindingsAreShown(rules[..n], status);
      if Shows(rules[n], status) { at := at + [n]; }
    }
  }

  lemma ShownAreChecked(rules: seq<Rule>, status: RuleStatus, at: seq<nat>)
    requires ShownAt(rules, status, at)
    ensures Positions(rules, status, at)
  {
    forall i | 0 <= i < |rules|
      ensures Shows(rules[i], status) <==> HasCheck(rules[i], status)
    {
      ShowsIff(rules[i], status);
    }
  }

  /** Findings are the rules that show the status, each once and in the order of the report. */
  lemma FindingsKeepOrder(rules: seq<Rule>, status: RuleStatus) returns (at: seq<nat>)
    ensures Positions(rules, status, at) && |at| == |Findings(rules, status)|
    ensures forall k :: 0 <= k < |at| ==>
      var f, rule := Findings(rules, status)[k], rules[at[k]]; f.id == rule.id && f.name == rule.name
  {
    at := FindingsAreShown(rules, status);
    ShownAreChecked(rules, status, at);
  }

  /** A list of findings tells, by identifier and name, which rules have a check of one status. */
  ghost predicate Tells(rules: seq<Rule>, status: RuleStatus, findings: seq<Finding>) {
    exists at :: Positions(rules, status, at) && |at| == |findings|
      && forall k :: 0 <= k < |at| ==> findings[k].id == rules[at[k]].id && findings[k].name == rules[at[k]].name
  }

  /** A summary carries the ruleset's identifier and version, and the findings of three statuses,
      each under its own name. */
  lemma SummaryTells(ruleset: Ruleset, statuses: seq<RuleStatus>)
    ensures var s := Summary(ruleset, statuses);
            && s.id == ruleset.id && s.version == ruleset.version
            && Tells(ruleset.rules, Failed, s.failed)
            && Tells(ruleset.rules, Errored, s.errored)
            && Tells(ruleset.rules, Warning, s.warning)
  {
    var failed := FindingsKeepOrder(ruleset.rules, Failed);
    var errored := FindingsKeepOrder(ruleset.rules, Errored);
    var warning := FindingsKeepOrder(ruleset.rules, Warning);
  }

  /** The (rule, status) pairs that occur in a ruleset, for some statuses. */
  ghost function Pairs(rules: seq<Rule>, statuses: set<RuleStatus>): set<(int, RuleStatus)> {
    set i, s | 0 <= i < |rules| && s in statuses && HasCheck(rules[i], s) :: (i, s)
  }

  lemma PairsOfOneMoreRule(rules: seq<Rule>, rule: Rule, s: RuleStatus)
    ensures Pairs(rules + [rule], {s}) == Pairs(rules, {s}) + (if Shows(rule, s) then {(|rules|, s)} else {})
    ensures (|rules|, s) !in Pairs(rules, {s})
  {
    ShowsIff(rule, s);
    var all := rules + [rule];
    assert all[|rules|] == rule && forall i :: 0 <= i < |rules| ==> all[i] == rules[i];
  }

  lemma SelectedOneMore(rules: seq<Rule>, rule: Rule, s: RuleStatus)
    ensures |Selected(rules + [rule], s)| == |Selected(rules, s)| + if Shows(rule, s) then 1 else 0
    ensures |Pairs(rules + [rule], {s})| == |Pairs(rules, {s})| + if Shows(rule, s) then 1 else 0
  {
    assert (rules + [rule])[..|rules|] == rules;
    PairsOfOneMoreRule(rules, rule, s);
  }

  lemma {:induction false} PairsOfOneStatus(rules: seq<Rule>, s: RuleStatus)
    ensures |Pairs(rules, {s})| == |Selected(rules, s)|
  {
    if rules == [] {
      assert Pairs(rules, {s}) == {};
    } else {
      var init, last := rules[..|rules| - 1], rules[|rules| - 1];
      PairsOfOneStatus(init, s);
      SelectedOneMore(init, last, s);
      assert init + [last] == rules;
    }
  }

  lemma PairsOfOneMoreStatus(rules: seq<Rule>, statuses: set<RuleStatus>, s: RuleStatus)
    requires s !in statuses
    ensures |Pairs(rules, statuses + {s})| == |Pairs(rules, statuses)| + |Selected(rules, s)|
  {
    PairsOfOneStatus(rules, s);
    assert Pairs(rules, statuses + {s}) == Pairs(rules, statuses) + Pairs(rules, {s});
    assert Pairs(rules, statuses) * Pairs(rules, {s}) == {};
  }

  lemma SelectedCountsPairs(rules: seq<Rule>)
    ensures |Pairs(rules, SUMMARISED)| ==
            |Selected(rules, Passed)| + |Selected(rules, Skipped)| + |Selected(rules, Accepted)|
            + |Selected(rules, Warning)| + |Selected(rules, Failed)| + |Selected(rules, Errored)|
  {
    PairsOfOneStatus(rules, Passed);
    PairsOfOneMoreStatus(rules, {Passed}, Skipped);
    PairsOfOneMoreStatus(rules, {Passed} + {Skipped}, Accepted);
    PairsOfOneMoreStatus(rules, {Passed} + {Skipped} + {Accepted}, Warning);
    PairsOfOneMoreStatus(rules, {Passed} + {Skipped} + {Accepted} + {Warning}, Failed);
    PairsOfOneMoreStatus(rules, {Passed} + {Skipped} + {Accepted} + {Warning} + {Failed}, Errored);
    assert {Passed} + {Skipped} + {Accepted} + {Warning} + {Failed} + {Errored} == SUMMARISED;
  }

  lemma {:induction false} SelectedIsShorter(rules: seq<Rule>, status: RuleStatus)
    ensures |Selected(rules, status)| <= |rules|
  {
    if rules != [] { SelectedIsShorter(rules[..|rules| - 1], status); }
  }

  lemma CountDoesNotOverflow(ruleset: Ruleset, statuses: seq<RuleStatus>, status: RuleStatus)
    requires status in statuses && |ruleset.rules| < TWO_31
    ensures CountOf(ruleset, statuses, status) == |Selected(ruleset.rules, status)|
  {
    SelectedIsShorter(ruleset.rules, status);
    Int32OfSmall(|Selected(ruleset.rules, status)|);
  }

  /** Below 2^31 rules each counter is the number of rules with a check of its own status, and zero
      if the library does not list that status. */
  lemma CountersTell(ruleset: Ruleset, statuses: seq<RuleStatus>)
    requires |ruleset.rules| < 0x8000_0000
    ensures var counts, rules := Summary(ruleset, statuses).counts, ruleset.rules;
            && counts.passed == (if Passed in statuses then |Pairs(rules, {Passed})| else 0)
            && counts.skipped == (if Skipped in statuses then |Pairs(rules, {Skipped})| else 0)
            && counts.accepted == (if Accepted in statuses then |Pairs(rules, {Accepted})| else 0)
            && counts.warning == (if Warning in statuses then |Pairs(rules, {Warning})| else 0)
            && counts.failed == (if Failed in statuses then |Pairs(rules, {Failed})| else 0)
            && counts.errored == (if Errored in statuses then |Pairs(rules, {Errored})| else 0)
  {
    CounterTells(ruleset, statuses, Passed);
    CounterTells(ruleset, statuses, Skipped);
    CounterTells(ruleset, statuses, Accepted);
    CounterTells(ruleset, statuses, Warning);
    CounterTells(ruleset, statuses, Failed);
    CounterTells(ruleset, statuses, Errored);
  }

  lemma CounterTells(ruleset: Ruleset, statuses: seq<RuleStatus>, status: RuleStatus)
    requires |ruleset.rules| < TWO_31
    ensures CountOf(ruleset, statuses, status) == if status in statuses then |Pairs(ruleset.rules, {status})| else 0
  {
    PairsOfOneStatus(ruleset.rules, status);
    if status in statuses { CountDoesNotOverflow(ruleset, statuses, status); }
  }

  /** In a summary of fewer than 2^31 rules no counter overflows: the three findings lists are as
      long as their counters say, and the six counters add up to the pairs that occur. */
  lemma SummaryIsConsistent(ruleset: Ruleset, statuses: seq<RuleStatus>)
    requires SUMMARISED <= (set s | s in statuses)
    requires |ruleset.rules| < 0x8000_0000
    ensures var s := Summary(ruleset, statuses);
            && s.counts.failed == |s.failed| && s.counts.errored == |s.errored| && s.counts.warning == |s.warning|
            && s.counts.passed + s.counts.skipped + s.counts.accepted + s.counts.warning + s.counts.failed
               + s.counts.errored == |Pairs(ruleset.rules, SUMMARISED)|
  {
    SelectedCountsPairs(ruleset.rules);
    CountDoesNotOverflow(ruleset, statuses, Passed);
    CountDoesNotOverflow(ruleset, statuses, Skipped);
    CountDoesNotOverflow(ruleset, statuses, Accepted);
    CountDoesNotOverflow(ruleset, statuses, Warning);
    CountDoesNotOverflow(ruleset, statuses, Failed);
    CountDoesNotOverflow(ruleset, statuses, Errored);
  }

  /** A counter is right exactly when it stays below 2^31. */
  lemma CounterIsExactIff(ruleset: Ruleset, statuses: seq<RuleStatus>, status: RuleStatus)
    requires status in statuses
    ensures CountOf(ruleset, statuses, status) == |Selected(ruleset.rules, status)| <==>
            |Selected(ruleset.rules, status)| < 0x8000_0000
  {
  }

  function NumRulesets(providers: seq<Provider>): nat {
    if providers == [] then 0 else |providers[0].rulesets| + NumRulesets(providers[1..])
  }

  lemma {:induction false} NumRulesetsAdds(a: seq<Provider>, b: seq<Provider>)
    ensures NumRulesets(a + b) == NumRulesets(a) + NumRulesets(b)
  {
    if a == [] {
      assert a + b == b;
    } else {
      NumRulesetsAdds(a[1..], b);
      assert (a + b)[1..] == a[1..] + b;
    }
  }

  lemma {:induction false} AllRulesetsCount(providers: seq<Provider>)
    ensures |AllRulesets(providers)| == NumRulesets(providers)
  {
    if providers != [] {
      var init, last := providers[..|providers| - 1], providers[|providers| - 1];
      AllRulesetsCount(init);
      NumRulesetsAdds(init, [last]);
      assert init + [last] == providers && [last][1..] == [];
    }
  }

  lemma {:induction false} RulesetsFollowReport(providers: seq<Provider>, p: nat, r: nat)
    requires p < |providers| && r < |providers[p].rulesets|
    ensures var at := |AllRulesets(providers[..p])| + r;
            at < |AllRulesets(providers)| && AllRulesets(providers)[at] == providers[p].rulesets[r]
  {
    var n := |providers| - 1;
    if p < n {
      RulesetsFollowReport(providers[..n], p, r);
      assert providers[..n][..p] == providers[..p];
    } else {
      assert providers[..p] == providers[..n];
    }
  }

  lemma RulesetAt(providers: seq<Provider>, p: nat, r: nat)
    requires p < |providers| && r < |providers[p].rulesets|
    ensures var all, at := AllRulesets(providers), NumRulesets(providers[..p]) + r;
            |all| == NumRulesets(providers) && at < |all| && all[at] == providers[p].rulesets[r]
  {
    AllRulesetsCount(providers);
    AllRulesetsCount(providers[..p]);
    RulesetsFollowReport(providers, p, r);
  }

  lemma SummaryAt(rulesets: seq<Ruleset>, statuses: seq<RuleStatus>, at: nat, ruleset: Ruleset)
    requires at < |rulesets| && rulesets[at] == ruleset
    ensures Summaries(rulesets, statuses)[at] == Summary(ruleset, statuses)
  {
  }

  /** There are as many summaries as rulesets, and that of every ruleset stands behind those of all
      rulesets before it in the report. */
  lemma SummariesFollowReport(providers: seq<Provider>, statuses: seq<RuleStatus>, p: nat, r: nat)
    requires p < |providers| && r < |providers[p].rulesets|
    ensures var summaries, at := Summaries(AllRulesets(providers), statuses), NumRulesets(providers[..p]) + r;
            && |summaries| == NumRulesets(providers) && at < |summaries|
            && summaries[at] == Summary(providers[p].rulesets[r], statuses)
  {
    RulesetAt(providers, p, r);
    SummaryAt(AllRulesets(providers), statuses, NumRulesets(providers[..p]) + r, providers[p].rulesets[r]);
  }
}
