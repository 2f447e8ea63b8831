/** The affixation rule table (`MorphologySystem`): rules kept in insertion
    order and looked up by name, first applicable rule wins. */
module Morphology {

  /** `rule_type` is whatever the user typed; only "prefix" and "suffix" act. */
  datatype Rule = Rule(name: string, ruleType: string, marker: string, meaning: string)

  /** The rule would fire for a lookup of `ruleName`. */
  predicate Applies(rule: Rule, ruleName: string) {
    rule.name == ruleName && (rule.ruleType == "prefix" || rule.ruleType == "suffix")
  }

  /** What a firing rule makes of the base word: marker in front for a prefix,
      behind for a suffix. */
  function Affix(rule: Rule, base: string): (r: string)
    requires rule.ruleType == "prefix" || rule.ruleType == "suffix"
    ensures |r| == |rule.marker| + |base|
    ensures rule.ruleType == "prefix" ==> r[|rule.marker|..] == base && r[..|rule.marker|] == rule.marker
    ensures rule.ruleType == "suffix" ==> r[..|base|] == base && r[|base|..] == rule.marker
  {
    if rule.ruleType == "prefix" then rule.marker + base else base + rule.marker
  }

  /** Index `i` holds the first rule that fires for `ruleName`. */
  predicate FirstApplicable(rules: seq<Rule>, ruleName: string, i: int) {
    && 0 <= i < |rules|
    && Applies(rules[i], ruleName)
    && forall j :: 0 <= j < i ==> !Applies(rules[j], ruleName)
  }

  predicate NoneApplies(rules: seq<Rule>, ruleName: string) {
    forall j :: 0 <= j < |rules| ==> !Applies(rules[j], ruleName)
  }

  /** `add_rule`: one new rule at the end, everything before it untouched. */
  function AddRule(rules: seq<Rule>, name: string, ruleType: string, marker: string, meaning: string): (r: seq<Rule>)
    ensures |r| == |rules| + 1
    ensures r[..|rules|] == rules
    ensures r[|rules|] == Rule(name, ruleType, marker, meaning)
  {
    rules + [Rule(name, ruleType, marker, meaning)]
  }

  /** `apply_morphology`: the scan over the rules in insertion order. A
      same-named rule of another type is passed over, and a miss returns the
      base word. */
  function ApplyMorphology(rules: seq<Rule>, base: string, ruleName: string): (r: string)
    ensures NoneApplies(rules, ruleName) ==> r == base
    ensures forall i :: FirstApplicable(rules, ruleName, i) ==> r == Affix(rules[i], base)
  {
    if rules == [] then base
    else
      var rule := rules[0];
      if rule.name == ruleName && rule.ruleType == "prefix" then rule.marker + base
      else if rule.name == ruleName && rule.ruleType == "suffix" then base + rule.marker
      else
        SkipFirst(rules, ruleName);
        ApplyMorphology(rules[1..], base, ruleName)
  }

  /** Past a rule that does not fire, the lookup continues in the rest with
      every index one lower. */
  lemma SkipFirst(rules: seq<Rule>, ruleName: string)
    requires rules != [] && !Applies(rules[0], ruleName)
    ensures NoneApplies(rules, ruleName) ==> NoneApplies(rules[1..], ruleName)
    ensures forall i :: FirstApplicable(rules, ruleName, i) ==> FirstApplicable(rules[1..], ruleName, i - 1)
  {
    forall i | FirstApplicable(rules, ruleName, i)
      ensures FirstApplicable(rules[1..], ruleName, i - 1)
    {
      assert i != 0;
      forall j | 0 <= j < i - 1
        ensures !Applies(rules[1..][j], ruleName)
      {
        assert rules[1..][j] == rules[j + 1];
      }
    }
  }

  /** Exactly one of the two cases describes every lookup. */
  lemma {:induction false} LookupCases(rules: seq<Rule>, ruleName: string)
    ensures NoneApplies(rules, ruleName) || exists i :: FirstApplicable(rules, ruleName, i)
    decreases |rules|
  {
    if rules != [] && !Applies(rules[0], ruleName) {
      LookupCases(rules[1..], ruleName);
      if !NoneApplies(rules[1..], ruleName) {
        var i :| FirstApplicable(rules[1..], ruleName, i);
        assert FirstApplicable(rules, ruleName, i + 1);
      } else {
        forall j | 0 <= j < |rules|
          ensures !Applies(rules[j], ruleName)
        {
          if j > 0 {
            assert rules[j] == rules[1..][j - 1];
          }
        }
      }
    } else if rules != [] {
      assert FirstApplicable(rules, ruleName, 0);
    }
  }

  /** Rules after the first applicable one are never consulted. */
  lemma LaterRulesIgnored(rules: seq<Rule>, more: seq<Rule>, base: string, ruleName: string)
    requires !NoneApplies(rules, ruleName)
    ensures ApplyMorphology(rules + more, base, ruleName) == ApplyMorphology(rules, base, ruleName)
  {
    LookupCases(rules, ruleName);
    var i :| FirstApplicable(rules, ruleName, i);
    assert FirstApplicable(rules + more, ruleName, i) by {
      assert (rules + more)[i] == rules[i];
      forall j | 0 <= j < i
        ensures !Applies((rules + more)[j], ruleName)
      {
        assert (rules + more)[j] == rules[j];
      }
    }
  }

  /** A same-named rule of any other type does not stop the scan. */
  lemma OtherTypeSkipped(rule: Rule, rest: seq<Rule>, base: string)
    requires rule.ruleType != "prefix" && rule.ruleType != "suffix"
    ensures ApplyMorphology([rule] + rest, base, rule.name) == ApplyMorphology(rest, base, rule.name)
  {
    assert ([rule] + rest)[1..] == rest;
  }

  /** Effect of `add_rule` on every later lookup: a name that already finds a
      rule is shadowed from the new one; a name that found nothing now gets the
      new rule if it fires, and still the base word otherwise. */
  lemma AddRuleLookup(rules: seq<Rule>, rule: Rule, base: string, ruleName: string)
    ensures var after := ApplyMorphology(AddRule(rules, rule.name, rule.ruleType, rule.marker, rule.meaning), base, ruleName);
      && (!NoneApplies(rules, ruleName) ==> after == ApplyMorphology(rules, base, ruleName))
      && (NoneApplies(rules, ruleName) && Applies(rule, ruleName) ==> after == Affix(rule, base))
      && (NoneApplies(rules, ruleName) && !Applies(rule, ruleName) ==> after == base)
  {
    var added := AddRule(rules, rule.name, rule.ruleType, rule.marker, rule.meaning);
    assert added == rules + [rule];
    if !NoneApplies(rules, ruleName) {
      LaterRulesIgnored(rules, [rule], base, ruleName);
    } else if Applies(rule, ruleName) {
      assert FirstApplicable(added, ruleName, |rules|);
    } else {
      assert NoneApplies(added, ruleName);
    }
  }

  /** The three rules added when the user added none, in this order. */
  const DefaultRules: seq<Rule> := [
    Rule("negative", "prefix", "ma-", "否定"),
    Rule("past", "suffix", "-in", "完成體"),
    Rule("nominal", "suffix", "-an", "名詞化")
  ]

  /** The defaults go in only when the table is empty at the end of the stage. */
  function SeedDefaults(rules: seq<Rule>): (r: seq<Rule>)
    ensures rules != [] ==> r == rules
    ensures rules == [] ==> r == DefaultRules
  {
    if rules == [] then
      AddRule(AddRule(AddRule([], "negative", "prefix", "ma-", "否定"),
                      "past", "suffix", "-in", "完成體"),
              "nominal", "suffix", "-an", "名詞化")
    else rules
  }

  /** What the seeded table does: "ma-" in front for negative, "-in" and "-an"
      behind for past and nominal, and nothing for any other name. */
  lemma DefaultRulesApply(base: string, ruleName: string)
    ensures ApplyMorphology(DefaultRules, base, "negative") == "ma-" + base
    ensures ApplyMorphology(DefaultRules, base, "past") == base + "-in"
    ensures ApplyMorphology(DefaultRules, base, "nominal") == base + "-an"
    ensures ruleName !in {"negative", "past", "nominal"} ==> ApplyMorphology(DefaultRules, base, ruleName) == base
  {
    assert FirstApplicable(DefaultRules, "negative", 0);
    assert FirstApplicable(DefaultRules, "past", 1);
    assert FirstApplicable(DefaultRules, "nominal", 2);
  }

}
