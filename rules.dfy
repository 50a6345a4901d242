/** The rules engine: active rules matched against a transaction's description and vendor, in
    non-increasing priority order. Regular expressions and case mapping are parameters. */
module Rules {
  import opened Wrappers
  import opened Seqs
  import opened Sorting
  import Strings
  import opened Models

  /** A compiled regular expression (compiled case-insensitively). */
  datatype Pattern = Pattern(source: string)

  /** The `re` operations the engine uses: `re.compile(p, re.IGNORECASE)`, with `None` for a
      pattern that raises `re.error`, and `pattern.search(text)`, giving `group(0)` of the
      first match or `None`. */
  datatype RegexLib = RegexLib(compile: string -> Option<Pattern>, search: (Pattern, string) -> Option<string>)

  /** The result of a rule matching a transaction. */
  datatype RuleMatch = RuleMatch(rule: Rule, matchedText: string, categoryId: int)

  /** Rules ordered by priority, highest first: `a` sorts before `b` when its priority is higher. */
  predicate PriorityFirst(a: Rule, b: Rule) {
    a.priority > b.priority
  }

  lemma PriorityFirstIsStrictWeakOrder()
    ensures StrictWeakOrder(PriorityFirst)
  {
  }

  /** `sorted(rules, key=lambda r: r.priority, reverse=True)`. */
  function SortByPriority(rules: seq<Rule>): (r: seq<Rule>)
    ensures |r| == |rules|
  {
    SortBy(rules, PriorityFirst)
  }

  /** Non-increasing priority. */
  ghost predicate PriorityOrdered(rules: seq<Rule>) {
    forall i, j :: 0 <= i < j < |rules| ==> rules[i].priority >= rules[j].priority
  }

  /** The sort orders by priority, keeps every rule, and keeps rules of equal priority in their
      input order. */
  lemma SortByPriorityCorrect(rules: seq<Rule>, priority: int)
    ensures PriorityOrdered(SortByPriority(rules))
    ensures multiset(SortByPriority(rules)) == multiset(rules)
    ensures Filter(SortByPriority(rules), (r: Rule) => r.priority == priority)
         == Filter(rules, (r: Rule) => r.priority == priority)
  {
    PriorityFirstIsStrictWeakOrder();
    SortBySorted(rules, PriorityFirst);
    SortByPermutation(rules, PriorityFirst);
    SortByStable(rules, PriorityFirst, (r: Rule) => r.priority == priority);
  }

  /** The compiled-pattern slot a rule gets: its compiled regex, or `None` for a non-regex rule
      or a regex that does not compile. */
  function CompileRule(lib: RegexLib, rule: Rule): (p: Option<Pattern>)
    ensures p.Some? <==> rule.patternType == RegexPattern && lib.compile(rule.pattern).Some?
  {
    if rule.patternType == RegexPattern then lib.compile(rule.pattern) else None
  }

  /** The slots after compiling `rules` in order into `slots`: a later rule with the same id
      overwrites an earlier one's slot. */
  function CompileAll(lib: RegexLib, slots: map<Option<int>, Option<Pattern>>, rules: seq<Rule>): (r: map<Option<int>, Option<Pattern>>)
    decreases |rules|
  {
    if rules == [] then slots
    else CompileAll(lib, slots[rules[0].id := CompileRule(lib, rules[0])], rules[1..])
  }

  /** After compiling, the slots are the old ones plus one per rule id, and the slot of a rule
      whose id no later rule shares is that rule's own compilation. */
  lemma {:induction false} CompileAllSlots(lib: RegexLib, slots: map<Option<int>, Option<Pattern>>, rules: seq<Rule>)
    ensures CompileAll(lib, slots, rules).Keys == slots.Keys + set r | r in rules :: r.id
    ensures forall k :: 0 <= k < |rules| && (forall j :: k < j < |rules| ==> rules[j].id != rules[k].id)
              ==> CompileAll(lib, slots, rules)[rules[k].id] == CompileRule(lib, rules[k])
    ensures forall id :: id in slots && (forall r :: r in rules ==> r.id != id)
              ==> CompileAll(lib, slots, rules)[id] == slots[id]
    decreases |rules|
  {
    if rules != [] {
      var slots' := slots[rules[0].id := CompileRule(lib, rules[0])];
      CompileAllSlots(lib, slots', rules[1..]);
      assert forall r :: r in rules <==> r == rules[0] || r in rules[1..];
      forall k | 0 <= k < |rules| && (forall j :: k < j < |rules| ==> rules[j].id != rules[k].id)
        ensures CompileAll(lib, slots, rules)[rules[k].id] == CompileRule(lib, rules[k])
      {
        if k > 0 {
          assert rules[k] == rules[1..][k - 1];
          forall j | k - 1 < j < |rules| - 1
            ensures rules[1..][j].id != rules[1..][k - 1].id
          {
            assert rules[1..][j] == rules[j + 1];
          }
        } else {
          assert forall r :: r in rules[1..] ==> r.id != rules[0].id by {
            forall r | r in rules[1..]
              ensures r.id != rules[0].id
            {
              var j :| 0 <= j < |rules[1..]| && rules[1..][j] == r;
              assert rules[j + 1] == r;
            }
          }
        }
      }
    }
  }

  /** `_amount_in_range`: the absolute amount lies within the bounds, both inclusive, an absent
      bound not constraining. */
  function AmountInRange(amount: Cents, rule: Rule): (b: bool)
    ensures b <==> ((rule.minAmount.None? || rule.minAmount.value <= Abs(amount))
                    && (rule.maxAmount.None? || Abs(amount) <= rule.maxAmount.value))
  {
    var absAmount := Abs(amount);
    if rule.minAmount.Some? && absAmount < rule.minAmount.value then false
    else rule.maxAmount.None? || absAmount <= rule.maxAmount.value
  }

  /** `_check_pattern`: the matched text for one text, compared case-insensitively. */
  function CheckPattern(cm: Strings.CaseMap, lib: RegexLib, slots: map<Option<int>, Option<Pattern>>,
                        rule: Rule, text: string): (r: Option<string>)
    ensures rule.patternType == ExactPattern ==>
              (r.Some? <==> cm.upper(text) == cm.upper(rule.pattern)) && (r.Some? ==> r.value == text)
    ensures rule.patternType == ContainsPattern ==>
              (r.Some? <==> Strings.Contains(cm.upper(text), cm.upper(rule.pattern))) && (r.Some? ==> r.value == rule.pattern)
    ensures rule.patternType == RegexPattern ==>
              r == (if rule.id in slots && slots[rule.id].Some? then lib.search(slots[rule.id].value, text) else None)
  {
    match rule.patternType
    case ExactPattern =>
      if cm.upper(text) == cm.upper(rule.pattern) then Some(text) else None
    case ContainsPattern =>
      if Strings.Contains(cm.upper(text), cm.upper(rule.pattern)) then Some(rule.pattern) else None
    case RegexPattern =>
      var compiled := if rule.id in slots then slots[rule.id] else None;
      if compiled.Some? then lib.search(compiled.value, text) else None
  }

  /** The texts a rule is tried against: the description, then the vendor when it is neither
      `None` nor empty. */
  function TextsToCheck(description: string, vendorName: Option<string>): (texts: seq<string>)
    ensures |texts| >= 1 && texts[0] == description
    ensures |texts| == 2 <==> vendorName.Some? && vendorName.value != ""
    ensures |texts| <= 2
    ensures |texts| == 2 ==> texts[1] == vendorName.value
  {
    if vendorName.Some? && vendorName.value != "" then [description, vendorName.value] else [description]
  }

  /** `_match_pattern`: the first text that matches gives the matched text. */
  function MatchPattern(cm: Strings.CaseMap, lib: RegexLib, slots: map<Option<int>, Option<Pattern>>,
                        rule: Rule, description: string, vendorName: Option<string>): (r: Option<string>)
    ensures CheckPattern(cm, lib, slots, rule, description).Some? ==> r == CheckPattern(cm, lib, slots, rule, description)
    ensures CheckPattern(cm, lib, slots, rule, description).None? ==>
              r == (if vendorName.Some? && vendorName.value != "" then CheckPattern(cm, lib, slots, rule, vendorName.value) else None)
  {
    FirstSome(Map(TextsToCheck(description, vendorName), text => CheckPattern(cm, lib, slots, rule, text)))
  }

  /** The first present value of a sequence of options. */
  function FirstSome<T>(s: seq<Option<T>>): (r: Option<T>)
    ensures r.Some? ==> r in s
    ensures r.None? <==> forall i :: 0 <= i < |s| ==> s[i].None?
  {
    if s == [] then None else if s[0].Some? then s[0] else FirstSome(s[1..])
  }

  /** What the engine's loops report for one rule: a match when the rule is active, the amount is
      in range and the pattern matches. */
  function MatchOf(cm: Strings.CaseMap, lib: RegexLib, slots: map<Option<int>, Option<Pattern>>,
                   rule: Rule, description: string, vendorName: Option<string>, amount: Cents): (m: Option<RuleMatch>)
    ensures m.Some? <==> rule.isActive && AmountInRange(amount, rule)
                         && MatchPattern(cm, lib, slots, rule, description, vendorName).Some?
    ensures m.Some? ==> m.value.rule == rule && m.value.categoryId == rule.categoryId
                        && Some(m.value.matchedText) == MatchPattern(cm, lib, slots, rule, description, vendorName)
  {
    if !rule.isActive || !AmountInRange(amount, rule) then None
    else match MatchPattern(cm, lib, slots, rule, description, vendorName)
      case None => None
      case Some(text) => Some(RuleMatch(rule, text, rule.categoryId))
  }

  /** The matches of `find_all_matches`, in rule order. */
  function AllMatches(cm: Strings.CaseMap, lib: RegexLib, slots: map<Option<int>, Option<Pattern>>,
                      rules: seq<Rule>, description: string, vendorName: Option<string>, amount: Cents): (ms: seq<RuleMatch>)
    ensures |ms| <= |rules|
  {
    if rules == [] then []
    else
      var rest := AllMatches(cm, lib, slots, rules[1..], description, vendorName, amount);
      match MatchOf(cm, lib, slots, rules[0], description, vendorName, amount)
      case None => rest
      case Some(m) => [m] + rest
  }

  /** One step of the `find_all_matches` loop: the matches from rule `i` on are rule `i`'s match,
      if any, then the matches from rule `i + 1` on. */
  lemma AllMatchesStep(cm: Strings.CaseMap, lib: RegexLib, slots: map<Option<int>, Option<Pattern>>,
                       rules: seq<Rule>, i: nat, description: string, vendorName: Option<string>, amount: Cents)
    requires i < |rules|
    ensures var m := MatchOf(cm, lib, slots, rules[i], description, vendorName, amount);
            AllMatches(cm, lib, slots, rules[i..], description, vendorName, amount)
              == if m.Some? then [m.value] + AllMatches(cm, lib, slots, rules[i + 1..], description, vendorName, amount)
                 else AllMatches(cm, lib, slots, rules[i + 1..], description, vendorName, amount)
  {
    assert rules[i..][1..] == rules[i + 1..];
  }

  /** `AllMatches` holds exactly the active, in-range, matching rules, in rule order: it is the
      rules' matches with the non-matches dropped. */
  lemma {:induction false} AllMatchesExactly(cm: Strings.CaseMap, lib: RegexLib, slots: map<Option<int>, Option<Pattern>>,
                                             rules: seq<Rule>, description: string, vendorName: Option<string>, amount: Cents)
    ensures AllMatches(cm, lib, slots, rules, description, vendorName, amount)
         == Somes(Map(rules, r => MatchOf(cm, lib, slots, r, description, vendorName, amount)))
  {
    if rules != [] {
      AllMatchesExactly(cm, lib, slots, rules[1..], description, vendorName, amount);
      var f := r => MatchOf(cm, lib, slots, r, description, vendorName, amount);
      assert Map(rules, f)[1..] == Map(rules[1..], f);
    }
  }

  /** The present values of a sequence of options, in order. */
  function Somes<T(!new)>(s: seq<Option<T>>): (r: seq<T>)
    ensures |r| <= |s|
    ensures forall x :: x in r <==> Some(x) in s
  {
    if s == [] then []
    else if s[0].Some? then [s[0].value] + Somes(s[1..])
    else Somes(s[1..])
  }

  /** The first match is the head of all matches, and no match at all when there are none. */
  lemma {:induction false} FirstMatchIsHeadOfAll(cm: Strings.CaseMap, lib: RegexLib, slots: map<Option<int>, Option<Pattern>>,
                                                 rules: seq<Rule>, k: nat, description: string, vendorName: Option<string>, amount: Cents)
    requires k <= |rules|
    requires forall j :: 0 <= j < k ==> MatchOf(cm, lib, slots, rules[j], description, vendorName, amount).None?
    ensures k < |rules| && MatchOf(cm, lib, slots, rules[k], description, vendorName, amount).Some? ==>
              AllMatches(cm, lib, slots, rules, description, vendorName, amount)
              == [MatchOf(cm, lib, slots, rules[k], description, vendorName, amount).value]
                 + AllMatches(cm, lib, slots, rules[k + 1..], description, vendorName, amount)
    ensures AllMatches(cm, lib, slots, rules, description, vendorName, amount)
         == AllMatches(cm, lib, slots, rules[k..], description, vendorName, amount)
    decreases k
  {
    if k > 0 {
      FirstMatchIsHeadOfAll(cm, lib, slots, rules[1..], k - 1, description, vendorName, amount);
      assert rules[1..][k - 1..] == rules[k..];
      if k < |rules| {
        assert rules[1..][k - 1 + 1..] == rules[k + 1..];
      }
    } else {
      assert rules[0..] == rules;
    }
  }

  /** No rule yields a match exactly when there are no matches at all. */
  lemma {:induction false} NoMatchIffAllEmpty(cm: Strings.CaseMap, lib: RegexLib, slots: map<Option<int>, Option<Pattern>>,
                                              rules: seq<Rule>, description: string, vendorName: Option<string>, amount: Cents)
    ensures AllMatches(cm, lib, slots, rules, description, vendorName, amount) == []
        <==> forall j :: 0 <= j < |rules| ==> MatchOf(cm, lib, slots, rules[j], description, vendorName, amount).None?
  {
    if rules != [] {
      NoMatchIffAllEmpty(cm, lib, slots, rules[1..], description, vendorName, amount);
      assert forall j :: 1 <= j < |rules| ==> rules[j] == rules[1..][j - 1];
    }
  }

  /** A rule engine: rules kept in non-increasing priority order and the compiled-pattern slots,
      keyed by rule id. */
  class RulesEngine {
    var rules: seq<Rule>
    var compiled: map<Option<int>, Option<Pattern>>
    const lib: RegexLib
    const cm: Strings.CaseMap

    ghost predicate Valid()
      reads this
    {
      PriorityOrdered(rules)
    }

    /** `RulesEngine(rules)`. */
    constructor (initial: seq<Rule>, lib: RegexLib, cm: Strings.CaseMap)
      ensures Valid()
      ensures rules == SortByPriority(initial)
      ensures compiled == CompileAll(lib, map[], rules)
      ensures this.lib == lib && this.cm == cm
    {
      this.lib := lib;
      this.cm := cm;
      rules := SortByPriority(initial);
      compiled := map[];
      new;
      SortByPriorityCorrect(initial, 0);
      CompilePatterns();
    }

    /** `_compile_patterns`: fills one slot per rule, in rule order. */
    method CompilePatterns()
      modifies this
      ensures rules == old(rules) && compiled == CompileAll(lib, old(compiled), rules)
    {
      var i := 0;
      assert rules[0..] == rules;
      while i < |rules|
        invariant 0 <= i <= |rules| && rules == old(rules)
        invariant CompileAll(lib, compiled, rules[i..]) == CompileAll(lib, old(compiled), rules)
      {
        assert rules[i..][1..] == rules[i + 1..];
        compiled := compiled[rules[i].id := CompileRule(lib, rules[i])];
        i := i + 1;
      }
      assert rules[i..] == [];
    }

    /** `find_match`: the first rule, in order, that yields a match. */
    method FindMatch(description: string, vendorName: Option<string>, amount: Cents) returns (m: Option<RuleMatch>)
      ensures m.Some? ==>
                exists k :: (0 <= k < |rules|
                  && MatchOf(cm, lib, compiled, rules[k], description, vendorName, amount) == m
                  && forall j :: 0 <= j < k ==> MatchOf(cm, lib, compiled, rules[j], description, vendorName, amount).None?)
      ensures m.None? <==> forall k :: 0 <= k < |rules| ==> MatchOf(cm, lib, compiled, rules[k], description, vendorName, amount).None?
      ensures m == (var all := AllMatches(cm, lib, compiled, rules, description, vendorName, amount);
                    if all == [] then None else Some(all[0]))
    {
      var i := 0;
      while i < |rules|
        invariant 0 <= i <= |rules|
        invariant forall j :: 0 <= j < i ==> MatchOf(cm, lib, compiled, rules[j], description, vendorName, amount).None?
      {
        var rule := rules[i];
        if rule.isActive && AmountInRange(amount, rule) {
          var matched := MatchPattern(cm, lib, compiled, rule, description, vendorName);
          if matched.Some? {
            m := Some(RuleMatch(rule, matched.value, rule.categoryId));
            FirstMatchIsHeadOfAll(cm, lib, compiled, rules, i, description, vendorName, amount);
            return;
          }
        }
        i := i + 1;
      }
      NoMatchIffAllEmpty(cm, lib, compiled, rules, description, vendorName, amount);
      m := None;
    }

    /** `find_all_matches`: every rule that yields a match, in order. */
    method FindAllMatches(description: string, vendorName: Option<string>, amount: Cents) returns (ms: seq<RuleMatch>)
      ensures ms == AllMatches(cm, lib, compiled, rules, description, vendorName, amount)
    {
      var rs, slots := rules, compiled;
      ms := [];
      var i := 0;
      while i < |rs|
        invariant 0 <= i <= |rs|
        invariant ms + AllMatches(cm, lib, slots, rs[i..], description, vendorName, amount)
               == AllMatches(cm, lib, slots, rs, description, vendorName, amount)
      {
        AllMatchesStep(cm, lib, slots, rs, i, description, vendorName, amount);
        var m := TryRule(rs[i], slots, description, vendorName, amount);
        if m.Some? {
          AppendRegroup(ms, m.value, AllMatches(cm, lib, slots, rs[i + 1..], description, vendorName, amount));
          ms := ms + [m.value];
        }
        i := i + 1;
      }
      assert rs[|rs|..] == [];
    }

    /** The body of the `find_all_matches` loop for one rule: skipped when inactive or out of
        range, otherwise its pattern decides. */
    method TryRule(rule: Rule, slots: map<Option<int>, Option<Pattern>>, description: string,
                   vendorName: Option<string>, amount: Cents) returns (m: Option<RuleMatch>)
      ensures m == MatchOf(cm, lib, slots, rule, description, vendorName, amount)
    {
      m := None;
      if rule.isActive && AmountInRange(amount, rule) {
        var matched := MatchPattern(cm, lib, slots, rule, description, vendorName);
        if matched.Some? {
          m := Some(RuleMatch(rule, matched.value, rule.categoryId));
        }
      }
    }

    /** `add_rule`: appends, re-sorts (stably), and compiles the new rule into its slot. */
    method AddRule(rule: Rule)
      requires Valid()
      modifies this
      ensures Valid()
      ensures rules == SortByPriority(old(rules) + [rule])
      ensures compiled == old(compiled)[rule.id := CompileRule(lib, rule)]
    {
      SortByPriorityCorrect(rules + [rule], 0);
      rules := SortByPriority(rules + [rule]);
      compiled := compiled[rule.id := CompileRule(lib, rule)];
    }

    /** `remove_rule`: drops every rule with that id and evicts the slot. */
    method RemoveRule(ruleId: int)
      requires Valid()
      modifies this
      ensures Valid()
      ensures rules == Filter(old(rules), (r: Rule) => r.id != Some(ruleId))
      ensures compiled == old(compiled) - {Some(ruleId)}
    {
      FilterKeepsPriorityOrder(rules, (r: Rule) => r.id != Some(ruleId));
      rules := Filter(rules, (r: Rule) => r.id != Some(ruleId));
      compiled := compiled - {Some(ruleId)};
    }

    /** `update_rules`: replaces the rules, clears the slots and recompiles. */
    method UpdateRules(newRules: seq<Rule>)
      modifies this
      ensures Valid()
      ensures rules == SortByPriority(newRules)
      ensures compiled == CompileAll(lib, map[], rules)
    {
      SortByPriorityCorrect(newRules, 0);
      rules := SortByPriority(newRules);
      compiled := map[];
      CompilePatterns();
    }

    /** The `rules` property: the rules in priority order. A Dafny sequence is a value, so the
        caller's copy cannot alias the engine's list. */
    method Rules() returns (rs: seq<Rule>)
      ensures rs == rules
    {
      rs := rules;
    }
  }

  /** Filtering keeps the priority order. */
  lemma {:induction false} FilterKeepsPriorityOrder(rules: seq<Rule>, p: Rule -> bool)
    requires PriorityOrdered(rules)
    ensures PriorityOrdered(Filter(rules, p))
  {
    if rules != [] {
      FilterKeepsPriorityOrder(rules[1..], p);
      var rest := Filter(rules[1..], p);
      forall r | r in rest
        ensures rules[0].priority >= r.priority
      {
        FilterMember(rules[1..], p, r);
        var j :| 0 <= j < |rules[1..]| && rules[1..][j] == r;
        assert rules[j + 1] == r;
      }
    }
  }

  /** An added rule goes after the existing rules of its priority, which keep their order. */
  lemma AddedRuleFollowsEqualPriority(rules: seq<Rule>, rule: Rule)
    ensures Filter(SortByPriority(rules + [rule]), (r: Rule) => r.priority == rule.priority)
         == Filter(rules, (r: Rule) => r.priority == rule.priority) + [rule]
  {
    SortByPriorityCorrect(rules + [rule], rule.priority);
    FilterConcat(rules, [rule], (r: Rule) => r.priority == rule.priority);
  }

  /** A regex rule whose slot holds no compiled pattern (for instance because its pattern does
      not compile) never matches, whatever the text. */
  lemma UncompiledRegexNeverMatches(cm: Strings.CaseMap, lib: RegexLib, slots: map<Option<int>, Option<Pattern>>,
                                    rule: Rule, description: string, vendorName: Option<string>, amount: Cents)
    requires rule.patternType == RegexPattern
    requires rule.id in slots ==> slots[rule.id].None?
    ensures MatchOf(cm, lib, slots, rule, description, vendorName, amount).None?
  {
    assert CheckPattern(cm, lib, slots, rule, description).None?;
  }

  /** With distinct rule ids, compiling gives every rule its own compilation, so a regex that
      does not compile leaves only its own rule without a pattern. */
  lemma DistinctIdsCompileOwnPattern(lib: RegexLib, rules: seq<Rule>, k: nat)
    requires k < |rules|
    requires forall i, j :: 0 <= i < j < |rules| ==> rules[i].id != rules[j].id
    ensures rules[k].id in CompileAll(lib, map[], rules)
    ensures CompileAll(lib, map[], rules)[rules[k].id] == CompileRule(lib, rules[k])
  {
    CompileAllSlots(lib, map[], rules);
  }

  /** `create_rule_from_transaction`: a new, unsaved, active rule. */
  function CreateRuleFromTransaction(name: string, pattern: string, patternType: PatternType, categoryId: int,
                                     priority: int, minAmount: Option<Cents>, maxAmount: Option<Cents>,
                                     now: Instant): (r: Rule)
    ensures r.id.None? && r.isActive && r.createdAt == now
    ensures r.name == name && r.pattern == pattern && r.patternType == patternType
    ensures r.categoryId == categoryId && r.priority == priority
    ensures r.minAmount == minAmount && r.maxAmount == maxAmount
  {
    Rule(None, name, pattern, patternType, categoryId, minAmount, maxAmount, priority, true, now)
  }
}
