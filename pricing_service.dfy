/**
 * The pricing engine (backend/pricing/services/pricing_service.py): base
 * hourly prices, additive surcharge rules on the court line, and the price
 * breakdown of a whole booking. Prices are `real`; the engine's float
 * conversions are not modelled.
 */
module PricingService {
  import opened Wrappers
  import opened TimeOfDay
  import opened SeqFacts
  import opened ResourceModels
  import opened PricingModels

  /** The first active base price row of a category, if any. */
  function FindActiveBasePrice(prices: seq<BasePrice>, resourceType: string): (r: Option<BasePrice>)
    ensures r.Some? ==> r.value in prices && r.value.isActive && r.value.resourceType == resourceType
    ensures r.None? <==> forall i :: 0 <= i < |prices| ==> !(prices[i].isActive && prices[i].resourceType == resourceType)
  {
    if |prices| == 0 then None
    else if prices[0].isActive && prices[0].resourceType == resourceType then Some(prices[0])
    else FindActiveBasePrice(prices[1..], resourceType)
  }

  /** The hard-coded prices used when a category has no active row. */
  function DefaultPrice(resourceType: string): real
  {
    if resourceType == COURT_HOUR then 50.0
    else if resourceType == EQUIPMENT_HOUR then 10.0
    else if resourceType == COACH_HOUR then 75.0
    else 0.0
  }

  /** `get_base_price`: the active configured price, else the built-in default for the category. */
  function GetBasePrice(prices: seq<BasePrice>, resourceType: string): (r: real)
    ensures forall i :: (0 <= i < |prices| && prices[i].isActive && prices[i].resourceType == resourceType
                         && BasePricesValid(prices)) ==> r == CentsToReal(prices[i].price)
    ensures (forall i :: 0 <= i < |prices| ==> !(prices[i].isActive && prices[i].resourceType == resourceType)) ==>
      r == (if resourceType == COURT_HOUR then 50.0
            else if resourceType == EQUIPMENT_HOUR then 10.0
            else if resourceType == COACH_HOUR then 75.0
            else 0.0)
    ensures BasePricesValid(prices) ==> r >= 0.0
  {
    match FindActiveBasePrice(prices, resourceType)
    case Some(bp) => CentsToReal(bp.price)
    case None => DefaultPrice(resourceType)
  }

  /** `calculate_duration_hours`: the length of [startTime, endTime) in hours. */
  function DurationHours(startTime: Time, endTime: Time): (h: real)
    ensures h * 3600.0 == (endTime - startTime) as real
    ensures startTime < endTime ==> h > 0.0
  {
    (endTime - startTime) as real / 3600.0
  }

  /** `is_peak_hour`: the booking overlaps 18:00-21:00. */
  function IsPeakHour(startTime: Time, endTime: Time): (peak: bool)
    ensures peak <==> Overlaps(startTime, endTime, At(18, 0, 0), At(21, 0, 0))
  {
    startTime < At(21, 0, 0) && endTime > At(18, 0, 0)
  }

  /** The peak window the code tests closes at 21:00, one hour before its documented 22:00. */
  lemma PeakWindowClosesAt21()
    ensures IsPeakHour(At(20, 0, 0), At(21, 0, 0))
    ensures !IsPeakHour(At(21, 0, 0), At(22, 0, 0))
    ensures IsPeakHour(At(17, 0, 0), At(19, 0, 0))
    ensures !IsPeakHour(At(17, 0, 0), At(18, 0, 0))
  {
  }

  /** `is_weekend`: Saturday or Sunday. */
  function IsWeekend(date: Date): (w: bool)
    ensures w <==> Weekday(date) == 5 || Weekday(date) == 6
  {
    Weekday(date) >= 5
  }

  /** `is_indoor_court`: the court exists (active or not) and is of type INDOOR. */
  function IsIndoorCourt(courts: seq<Court>, courtId: int): (indoor: bool)
    ensures indoor <==> exists i :: 0 <= i < |courts| && FindCourt(courts, courtId) == Some(courts[i]) && courts[i].courtType == INDOOR
  {
    match FindCourt(courts, courtId)
    case Some(c) =>
      var i :| 0 <= i < |courts| && courts[i] == c;
      c.courtType == INDOOR
    case None => false
  }

  /** What a rule is evaluated against. */
  datatype PriceContext = PriceContext(courts: seq<Court>, date: Date, startTime: Time, endTime: Time, courtId: Option<int>)

  /** The rule's own test, by kind; INDOOR_COURT is only tried when a court id is given. */
  predicate KindApplies(rule: PricingRule, ctx: PriceContext)
  {
    if rule.ruleType == PEAK_HOUR then IsPeakHour(ctx.startTime, ctx.endTime)
    else if rule.ruleType == WEEKEND then IsWeekend(ctx.date)
    else if rule.ruleType == INDOOR_COURT && Truthy(ctx.courtId) then IsIndoorCourt(ctx.courts, ctx.courtId.value)
    else false
  }

  predicate Applies(rule: PricingRule, ctx: PriceContext)
  {
    rule.isActive && KindApplies(rule, ctx)
  }

  /** The filter `is_active=True`, keeping table order (see `ActiveRulesAppend`). */
  function ActiveRules(rules: seq<PricingRule>): (r: seq<PricingRule>)
    ensures forall k :: 0 <= k < |r| ==> r[k].isActive
    ensures forall x :: x in r <==> x in rules && x.isActive
    ensures multiset(r) <= multiset(rules)
  {
    if |rules| == 0 then []
    else
      var init := rules[..|rules| - 1];
      var last := rules[|rules| - 1];
      assert rules == init + [last];
      ActiveRules(init) + (if last.isActive then [last] else [])
  }

  /** The filter distributes over concatenation, so it keeps the relative order of the rules it keeps. */
  lemma {:induction false} ActiveRulesAppend(a: seq<PricingRule>, b: seq<PricingRule>)
    ensures ActiveRules(a + b) == ActiveRules(a) + ActiveRules(b)
  {
    if |b| == 0 {
      assert a + b == a;
    } else {
      var init := b[..|b| - 1];
      assert (a + b)[..|a + b| - 1] == a + init;
      ActiveRulesAppend(a, init);
    }
  }

  /**
   * `PricingRule.objects.filter(is_active=True)` as iterated: the active
   * rules in `Meta.ordering = ['rule_type']` order.
   */
  function QueriedRules(rules: seq<PricingRule>): (r: seq<PricingRule>)
    ensures SortedBy(r, RuleKind)
    ensures multiset(r) == multiset(ActiveRules(rules))
    ensures forall x :: x in r <==> x in rules && x.isActive
  {
    SortByMembers(ActiveRules(rules), RuleKind);
    SortBy(ActiveRules(rules), RuleKind)
  }

  /** What one rule adds to the percentage total (`percentage`) or to the fixed total (not `percentage`). */
  function Contribution(rule: PricingRule, ctx: PriceContext, percentage: bool): real
  {
    if Applies(rule, ctx) && rule.isPercentage == percentage then CentsToReal(rule.value) else 0.0
  }

  /** P (percentage) or F (fixed) over a list of rules. */
  function RuleSum(rules: seq<PricingRule>, ctx: PriceContext, percentage: bool): real
  {
    if |rules| == 0 then 0.0
    else RuleSum(rules[..|rules| - 1], ctx, percentage) + Contribution(rules[|rules| - 1], ctx, percentage)
  }

  /** `base * (1 + P/100) + F`. */
  function RuleAdjustedPrice(base: real, rules: seq<PricingRule>, ctx: PriceContext): real
  {
    base * (1.0 + RuleSum(rules, ctx, true) / 100.0) + RuleSum(rules, ctx, false)
  }

  /** One entry of `applied_rules`. */
  datatype AppliedRule = AppliedRule(ruleType: string, value: int, isPercentage: bool)

  function Summary(rule: PricingRule): AppliedRule
  {
    AppliedRule(RuleTypeLabel(rule.ruleType), rule.value, rule.isPercentage)
  }

  /** The applicable rules, summarised, in list order. */
  function AppliedRules(rules: seq<PricingRule>, ctx: PriceContext): (r: seq<AppliedRule>)
    ensures |r| <= |rules|
  {
    if |rules| == 0 then []
    else
      var last := rules[|rules| - 1];
      AppliedRules(rules[..|rules| - 1], ctx) + (if Applies(last, ctx) then [Summary(last)] else [])
  }

  lemma {:induction false} RuleSumAppend(a: seq<PricingRule>, b: seq<PricingRule>, ctx: PriceContext, percentage: bool)
    ensures RuleSum(a + b, ctx, percentage) == RuleSum(a, ctx, percentage) + RuleSum(b, ctx, percentage)
  {
    if |b| == 0 {
      assert a + b == a;
    } else {
      var ab := a + b;
      assert ab[..|ab| - 1] == a + b[..|b| - 1];
      RuleSumAppend(a, b[..|b| - 1], ctx, percentage);
    }
  }

  /** Removing the element at k takes it out of the multiset once. */
  lemma RemoveAtMultiset(a: seq<PricingRule>, b: seq<PricingRule>, k: int)
    requires multiset(a) == multiset(b) && |a| > 0
    requires 0 <= k < |b| && b[k] == a[|a| - 1]
    ensures multiset(a[..|a| - 1]) == multiset(b[..k] + b[k + 1..])
  {
    var x := a[|a| - 1];
    assert a == a[..|a| - 1] + [x];
    assert b == b[..k] + [x] + b[k + 1..];
    assert multiset(a) == multiset(a[..|a| - 1]) + multiset{x};
    assert multiset(b) == multiset(b[..k]) + multiset{x} + multiset(b[k + 1..]);
    assert multiset(b[..k] + b[k + 1..]) == multiset(b[..k]) + multiset(b[k + 1..]);
    assert multiset(a[..|a| - 1]) == multiset(a) - multiset{x};
    assert multiset(b[..k] + b[k + 1..]) == multiset(b) - multiset{x};
  }

  /** The sum is the sum without the rule at k plus that rule's contribution. */
  lemma RuleSumRemoveAt(b: seq<PricingRule>, k: int, ctx: PriceContext, percentage: bool)
    requires 0 <= k < |b|
    ensures RuleSum(b, ctx, percentage) == RuleSum(b[..k] + b[k + 1..], ctx, percentage) + Contribution(b[k], ctx, percentage)
  {
    var x := b[k];
    assert b == b[..k] + [x] + b[k + 1..];
    RuleSumAppend(b[..k], [x], ctx, percentage);
    RuleSumAppend(b[..k] + [x], b[k + 1..], ctx, percentage);
    RuleSumAppend(b[..k], b[k + 1..], ctx, percentage);
    assert RuleSum([x], ctx, percentage) == Contribution(x, ctx, percentage) by {
      assert [x][..0] == [];
    }
  }

  /** Additive stacking is order-independent: any permutation of the rules gives the same totals. */
  lemma {:induction false} RuleSumPermutation(a: seq<PricingRule>, b: seq<PricingRule>, ctx: PriceContext, percentage: bool)
    requires multiset(a) == multiset(b)
    ensures RuleSum(a, ctx, percentage) == RuleSum(b, ctx, percentage)
  {
    if |a| > 0 {
      var x := a[|a| - 1];
      assert x in multiset(b) by {
        assert x in multiset(a);
      }
      var k :| 0 <= k < |b| && b[k] == x;
      RemoveAtMultiset(a, b, k);
      RuleSumPermutation(a[..|a| - 1], b[..k] + b[k + 1..], ctx, percentage);
      RuleSumRemoveAt(b, k, ctx, percentage);
    } else {
      assert |b| == |multiset(b)| == 0;
    }
  }

  /** The rule-adjusted price does not depend on the order of the rules. */
  lemma PriceIsOrderIndependent(base: real, a: seq<PricingRule>, b: seq<PricingRule>, ctx: PriceContext)
    requires multiset(a) == multiset(b)
    ensures RuleAdjustedPrice(base, a, ctx) == RuleAdjustedPrice(base, b, ctx)
  {
    RuleSumPermutation(a, b, ctx, true);
    RuleSumPermutation(a, b, ctx, false);
  }

  /** Filtering out inactive rules first changes neither total: inactive rules never contribute. */
  lemma {:induction false} InactiveRulesNeverContribute(rules: seq<PricingRule>, ctx: PriceContext, percentage: bool)
    ensures RuleSum(ActiveRules(rules), ctx, percentage) == RuleSum(rules, ctx, percentage)
  {
    if |rules| > 0 {
      var init := rules[..|rules| - 1];
      InactiveRulesNeverContribute(init, ctx, percentage);
      ActiveRuleSumStep(rules, ctx, percentage);
    }
  }

  /** Filtering one more rule adds exactly that rule's contribution, which is zero for an inactive rule. */
  lemma ActiveRuleSumStep(rules: seq<PricingRule>, ctx: PriceContext, percentage: bool)
    requires |rules| > 0
    ensures RuleSum(ActiveRules(rules), ctx, percentage)
            == RuleSum(ActiveRules(rules[..|rules| - 1]), ctx, percentage) + Contribution(rules[|rules| - 1], ctx, percentage)
  {
    var last := rules[|rules| - 1];
    var ai := ActiveRules(rules[..|rules| - 1]);
    if last.isActive {
      assert ActiveRules(rules) == ai + [last];
      assert (ai + [last])[..|ai|] == ai;
    } else {
      assert ActiveRules(rules) == ai + [];
      assert ai + [] == ai;
    }
  }

  /** Filtering out inactive rules first does not change `applied_rules`. */
  lemma {:induction false} InactiveRulesNeverListed(rules: seq<PricingRule>, ctx: PriceContext)
    ensures AppliedRules(ActiveRules(rules), ctx) == AppliedRules(rules, ctx)
  {
    if |rules| > 0 {
      var init := rules[..|rules| - 1];
      var last := rules[|rules| - 1];
      InactiveRulesNeverListed(init, ctx);
      var ar := ActiveRules(rules);
      var ai := ActiveRules(init);
      if last.isActive {
        assert ar == ai + [last];
        assert ar[..|ar| - 1] == ai;
      } else {
        assert ar == ai;
      }
    }
  }

  /** With no applicable rule, the price is the base price. */
  lemma {:induction false} NoApplicableRuleKeepsBase(base: real, rules: seq<PricingRule>, ctx: PriceContext)
    requires forall i :: 0 <= i < |rules| ==> !Applies(rules[i], ctx)
    ensures RuleAdjustedPrice(base, rules, ctx) == base
    ensures AppliedRules(rules, ctx) == []
  {
    if |rules| > 0 {
      NoApplicableRuleKeepsBase(base, rules[..|rules| - 1], ctx);
    }
  }

  /** INDOOR_COURT never applies without a (truthy) court id. */
  lemma IndoorRuleNeedsCourt(rule: PricingRule, ctx: PriceContext)
    requires rule.ruleType == INDOOR_COURT && !Truthy(ctx.courtId)
    ensures !Applies(rule, ctx)
  {
  }

  /** Valid rules only add: both totals are non-negative. */
  lemma {:induction false} RuleSumNonNegative(rules: seq<PricingRule>, ctx: PriceContext, percentage: bool)
    requires RulesValid(rules)
    ensures RuleSum(rules, ctx, percentage) >= 0.0
  {
    if |rules| > 0 {
      var init := rules[..|rules| - 1];
      assert RulesValid(init);
      RuleSumNonNegative(init, ctx, percentage);
    }
  }

  /** With valid rules, the adjusted price is at least the base price. */
  lemma AdjustedPriceAtLeastBase(base: real, rules: seq<PricingRule>, ctx: PriceContext)
    requires RulesValid(rules) && base >= 0.0
    ensures RuleAdjustedPrice(base, rules, ctx) >= base
  {
    RuleSumNonNegative(rules, ctx, true);
    RuleSumNonNegative(rules, ctx, false);
    var p := RuleSum(rules, ctx, true);
    assert base * (1.0 + p / 100.0) == base + base * p / 100.0;
    assert base * p >= 0.0;
  }

  /** Membership in `applied_rules`: a summary is listed iff some rule producing it applies. */
  lemma {:induction false} AppliedRulesMembers(rules: seq<PricingRule>, ctx: PriceContext)
    ensures forall s :: s in AppliedRules(rules, ctx) <==> exists i :: 0 <= i < |rules| && Applies(rules[i], ctx) && Summary(rules[i]) == s
  {
    if |rules| > 0 {
      var init := rules[..|rules| - 1];
      AppliedRulesMembers(init, ctx);
      assert forall i :: 0 <= i < |init| ==> init[i] == rules[i];
    }
  }

  /** Labels of valid rule kinds are distinct. */
  lemma LabelsDistinct(a: string, b: string)
    requires ValidRuleType(a) && ValidRuleType(b) && a != b
    ensures RuleTypeLabel(a) != RuleTypeLabel(b)
  {
    assert "Peak Hour Surcharge"[0] != "Weekend Surcharge"[0];
    assert "Peak Hour Surcharge"[0] != "Indoor Court Premium"[0];
    assert "Weekend Surcharge"[0] != "Indoor Court Premium"[0];
  }

  /** With unique rule kinds, no summary is listed twice in `applied_rules`. */
  lemma {:induction false} AppliedRulesListedOnce(rules: seq<PricingRule>, ctx: PriceContext)
    requires RulesValid(rules)
    ensures Distinct(AppliedRules(rules, ctx))
  {
    if |rules| > 0 {
      var init := rules[..|rules| - 1];
      var last := rules[|rules| - 1];
      assert RulesValid(init);
      AppliedRulesListedOnce(init, ctx);
      AppliedRulesMembers(init, ctx);
      if Applies(last, ctx) {
        forall i | 0 <= i < |init| && Applies(init[i], ctx) ensures Summary(init[i]) != Summary(last) {
          assert init[i] == rules[i];
          LabelsDistinct(init[i].ruleType, last.ruleType);
        }
        assert Summary(last) !in AppliedRules(init, ctx);
      }
    }
  }

  /** The place of an applied-rule label: the place of the kind it names. */
  function LabelRank(text: string): nat
  {
    if text == "Indoor Court Premium" then 0
    else if text == "Peak Hour Surcharge" then 1
    else if text == "Weekend Surcharge" then 2
    else 3
  }

  lemma LabelRankOfKind(t: string)
    requires ValidRuleType(t)
    ensures LabelRank(RuleTypeLabel(t)) == KindRank(t)
  {
    assert INDOOR_COURT[0] != PEAK_HOUR[0] && INDOOR_COURT[0] != WEEKEND[0] && WEEKEND[0] != PEAK_HOUR[0];
    assert "Peak Hour Surcharge"[0] != "Weekend Surcharge"[0];
    assert "Peak Hour Surcharge"[0] != "Indoor Court Premium"[0];
    assert "Weekend Surcharge"[0] != "Indoor Court Premium"[0];
  }

  /** Each rule's kind has a strictly later place than the kinds before it. */
  predicate KindsAscending(rules: seq<PricingRule>)
  {
    forall i, j :: 0 <= i < j < |rules| ==> KindRank(rules[i].ruleType) < KindRank(rules[j].ruleType)
  }

  /** Each summary's label has a strictly later place than the labels before it. */
  predicate LabelsAscending(applied: seq<AppliedRule>)
  {
    forall i, j :: 0 <= i < j < |applied| ==> LabelRank(applied[i].ruleType) < LabelRank(applied[j].ruleType)
  }

  /** Checking the rules in a strict kind order lists their summaries in the same order. */
  lemma {:induction false} AppliedRulesKeepKindOrder(rules: seq<PricingRule>, ctx: PriceContext)
    requires KindsAscending(rules)
    requires forall i :: 0 <= i < |rules| ==> ValidRuleType(rules[i].ruleType)
    ensures LabelsAscending(AppliedRules(rules, ctx))
  {
    if |rules| > 0 {
      var init := rules[..|rules| - 1];
      var last := rules[|rules| - 1];
      assert forall i :: 0 <= i < |init| ==> init[i] == rules[i];
      AppliedRulesKeepKindOrder(init, ctx);
      AppliedRulesMembers(init, ctx);
      var ai := AppliedRules(init, ctx);
      if Applies(last, ctx) {
        LabelRankOfKind(last.ruleType);
        forall k | 0 <= k < |ai|
          ensures LabelRank(ai[k].ruleType) < LabelRank(Summary(last).ruleType)
        {
          assert ai[k] in ai;
          var m :| 0 <= m < |init| && Applies(init[m], ctx) && Summary(init[m]) == ai[k];
          LabelRankOfKind(init[m].ruleType);
        }
        var a := ai + [Summary(last)];
        assert AppliedRules(rules, ctx) == a;
        forall i, j | 0 <= i < j < |a|
          ensures LabelRank(a[i].ruleType) < LabelRank(a[j].ruleType)
        {
          assert a[i] == ai[i];
          if j < |ai| {
            assert a[j] == ai[j];
          } else {
            assert a[j] == Summary(last);
          }
        }
      }
    }
  }

  /**
   * `applied_rules` follows the query's kind order: under the table
   * constraints an indoor premium is listed before a peak-hour surcharge,
   * and both before a weekend surcharge, whatever the table order.
   */
  lemma AppliedRulesInKindOrder(rules: seq<PricingRule>, ctx: PriceContext)
    requires RulesValid(rules)
    ensures LabelsAscending(AppliedRules(QueriedRules(rules), ctx))
  {
    var q := QueriedRules(rules);
    RulesValidSubMultiset(rules, q);
    forall i, j | 0 <= i < j < |q|
      ensures KindRank(q[i].ruleType) < KindRank(q[j].ruleType)
    {
      assert StringLe(RuleKind(q[i]), RuleKind(q[j]));
      KindOrderIsRank(q[i].ruleType, q[j].ruleType);
    }
    AppliedRulesKeepKindOrder(q, ctx);
  }

  /** A summary is listed by `apply_pricing_rules` iff some rule of the table applies and has that summary. */
  lemma QueriedAppliedMembers(rules: seq<PricingRule>, ctx: PriceContext)
    ensures forall s :: s in AppliedRules(QueriedRules(rules), ctx) <==>
                        exists i :: 0 <= i < |rules| && Applies(rules[i], ctx) && Summary(rules[i]) == s
  {
    var q := QueriedRules(rules);
    AppliedRulesMembers(q, ctx);
    forall s | s in AppliedRules(q, ctx)
      ensures exists i :: 0 <= i < |rules| && Applies(rules[i], ctx) && Summary(rules[i]) == s
    {
      var k :| 0 <= k < |q| && Applies(q[k], ctx) && Summary(q[k]) == s;
      assert q[k] in q;
      var i :| 0 <= i < |rules| && rules[i] == q[k];
    }
    forall i | 0 <= i < |rules| && Applies(rules[i], ctx)
      ensures Summary(rules[i]) in AppliedRules(q, ctx)
    {
      assert rules[i] in q;
      var k :| 0 <= k < |q| && q[k] == rules[i];
    }
  }

  /** Extending a prefix of the active rules by one rule adds that rule's contributions and summary. */
  lemma RulePrefixStep(active: seq<PricingRule>, i: int, ctx: PriceContext)
    requires 0 <= i < |active| && active[i].isActive
    ensures RuleSum(active[..i + 1], ctx, true) == RuleSum(active[..i], ctx, true) + Contribution(active[i], ctx, true)
    ensures RuleSum(active[..i + 1], ctx, false) == RuleSum(active[..i], ctx, false) + Contribution(active[i], ctx, false)
    ensures AppliedRules(active[..i + 1], ctx)
            == AppliedRules(active[..i], ctx) + (if KindApplies(active[i], ctx) then [Summary(active[i])] else [])
    ensures Applies(active[i], ctx) == KindApplies(active[i], ctx)
  {
    assert active[..i + 1][..i] == active[..i];
  }

  /** The loop of `apply_pricing_rules` over the active rules: the two totals and the applied list. */
  method SumApplicableRules(active: seq<PricingRule>, ctx: PriceContext)
    returns (totalPercentage: real, totalFixed: real, applied: seq<AppliedRule>)
    requires forall k :: 0 <= k < |active| ==> active[k].isActive
    ensures totalPercentage == RuleSum(active, ctx, true)
    ensures totalFixed == RuleSum(active, ctx, false)
    ensures applied == AppliedRules(active, ctx)
  {
    applied := [];
    totalPercentage := 0.0;
    totalFixed := 0.0;
    var i := 0;
    while i < |active|
      invariant 0 <= i <= |active|
      invariant totalPercentage == RuleSum(active[..i], ctx, true)
      invariant totalFixed == RuleSum(active[..i], ctx, false)
      invariant applied == AppliedRules(active[..i], ctx)
    {
      var rule := active[i];
      RulePrefixStep(active, i, ctx);
      var shouldApply := false;
      if rule.ruleType == PEAK_HOUR {
        shouldApply := IsPeakHour(ctx.startTime, ctx.endTime);
      } else if rule.ruleType == WEEKEND {
        shouldApply := IsWeekend(ctx.date);
      } else if rule.ruleType == INDOOR_COURT && Truthy(ctx.courtId) {
        shouldApply := IsIndoorCourt(ctx.courts, ctx.courtId.value);
      }
      if shouldApply {
        applied := applied + [Summary(rule)];
        if rule.isPercentage {
          totalPercentage := totalPercentage + CentsToReal(rule.value);
        } else {
          totalFixed := totalFixed + CentsToReal(rule.value);
        }
      }
      i := i + 1;
    }
    assert active[..i] == active;
  }

  /** Filtering out inactive rules and reordering by kind leaves both totals as over the whole table. */
  lemma QueryOrderNeverChangesSums(rules: seq<PricingRule>, ctx: PriceContext, percentage: bool)
    ensures RuleSum(QueriedRules(rules), ctx, percentage) == RuleSum(rules, ctx, percentage)
  {
    RuleSumPermutation(QueriedRules(rules), ActiveRules(rules), ctx, percentage);
    InactiveRulesNeverContribute(rules, ctx, percentage);
  }

  /** The price adjusted by totals equal to the table's totals is the table's adjusted price. */
  lemma AdjustedByTotals(rules: seq<PricingRule>, base: real, ctx: PriceContext, totalPercentage: real, totalFixed: real)
    requires totalPercentage == RuleSum(rules, ctx, true) && totalFixed == RuleSum(rules, ctx, false)
    ensures base * (1.0 + totalPercentage / 100.0) + totalFixed == RuleAdjustedPrice(base, rules, ctx)
  {
  }

  /**
   * `apply_pricing_rules`: sums the percentage and fixed values of the active,
   * applicable rules, lists them in the order of the query, and adjusts the
   * base price.
   */
  method ApplyPricingRules(rules: seq<PricingRule>, base: real, ctx: PriceContext)
    returns (finalPrice: real, applied: seq<AppliedRule>)
    ensures finalPrice == RuleAdjustedPrice(base, rules, ctx)
    ensures applied == AppliedRules(QueriedRules(rules), ctx)
  {
    var active := QueriedRules(rules);
    assert forall k :: 0 <= k < |active| ==> active[k].isActive by {
      forall k | 0 <= k < |active| ensures active[k].isActive {
        assert active[k] in active;
      }
    }
    var totalPercentage, totalFixed;
    totalPercentage, totalFixed, applied := SumApplicableRules(active, ctx);
    QueryOrderNeverChangesSums(rules, ctx, true);
    QueryOrderNeverChangesSums(rules, ctx, false);
    AdjustedByTotals(rules, base, ctx, totalPercentage, totalFixed);
    finalPrice := base * (1.0 + totalPercentage / 100.0) + totalFixed;
  }

  /** One requested equipment line: an item id and a quantity. */
  datatype EquipmentRequest = EquipmentRequest(id: int, quantity: nat)

  datatype CourtCharge = CourtCharge(basePricePerHour: real, baseTotal: real, finalPrice: real, appliedRules: seq<AppliedRule>)
  datatype EquipmentCharge = EquipmentCharge(id: int, name: string, quantity: nat, pricePerHour: real, totalPrice: real)
  datatype CoachCharge = CoachCharge(id: int, name: string, pricePerHour: real, totalPrice: real)

  /** The breakdown `calculate_booking_price` returns. */
  datatype PriceBreakdown = PriceBreakdown(
    durationHours: real,
    court: CourtCharge,
    equipment: seq<EquipmentCharge>,
    coach: Option<CoachCharge>,
    totalPrice: real)

  /** `price_per_hour * duration`. */
  function HourlyCharge(perHour: real, hours: real): real
  {
    perHour * hours
  }

  /** `price_per_hour * duration * quantity`. */
  function LineTotal(perHour: real, hours: real, quantity: nat): real
  {
    HourlyCharge(perHour, hours) * quantity as real
  }

  /** The requested items whose id names an equipment row, in request order (see `KnownItemsAppend`). */
  function KnownItems(catalog: Catalog, items: seq<EquipmentRequest>): (r: seq<EquipmentRequest>)
    ensures forall x :: x in r <==> x in items && FindEquipment(catalog.equipment, x.id).Some?
    ensures forall k :: 0 <= k < |r| ==> FindEquipment(catalog.equipment, r[k].id).Some?
  {
    if |items| == 0 then []
    else
      var last := items[|items| - 1];
      KnownItems(catalog, items[..|items| - 1]) + (if FindEquipment(catalog.equipment, last.id).Some? then [last] else [])
  }

  /** The filter distributes over concatenation, so known items keep their request order. */
  lemma {:induction false} KnownItemsAppend(catalog: Catalog, a: seq<EquipmentRequest>, b: seq<EquipmentRequest>)
    ensures KnownItems(catalog, a + b) == KnownItems(catalog, a) + KnownItems(catalog, b)
  {
    if |b| == 0 {
      assert a + b == a;
    } else {
      assert (a + b)[..|a + b| - 1] == a + b[..|b| - 1];
      KnownItemsAppend(catalog, a, b[..|b| - 1]);
    }
  }

  /** The breakdown entry of a requested item naming a known row: that row's name, the requested quantity. */
  function ChargeFor(catalog: Catalog, perHour: real, hours: real, item: EquipmentRequest): EquipmentCharge
    requires FindEquipment(catalog.equipment, item.id).Some?
  {
    EquipmentCharge(item.id, FindEquipment(catalog.equipment, item.id).value.name, item.quantity, perHour,
                    LineTotal(perHour, hours, item.quantity))
  }

  /** The line for one requested item: none for an unknown id, else flat `base * hours * quantity`. */
  function EquipmentLine(catalog: Catalog, perHour: real, hours: real, item: EquipmentRequest): (r: seq<EquipmentCharge>)
    ensures |r| <= 1
    ensures |r| == 1 <==> FindEquipment(catalog.equipment, item.id).Some?
    ensures |r| == 1 ==> r[0] == EquipmentCharge(item.id, FindEquipment(catalog.equipment, item.id).value.name, item.quantity,
                                                 perHour, LineTotal(perHour, hours, item.quantity))
  {
    match FindEquipment(catalog.equipment, item.id)
    case Some(e) => [EquipmentCharge(e.id, e.name, item.quantity, perHour, LineTotal(perHour, hours, item.quantity))]
    case None => []
  }

  /**
   * The equipment lines of a breakdown, no rules applied: one line per
   * requested item with a known id, in request order, carrying that item's
   * id, row name and quantity at `perHour`.
   */
  function EquipmentCharges(catalog: Catalog, perHour: real, hours: real, items: seq<EquipmentRequest>): (r: seq<EquipmentCharge>)
    ensures |r| == |KnownItems(catalog, items)| <= |items|
    ensures forall k :: 0 <= k < |r| ==> r[k] == ChargeFor(catalog, perHour, hours, KnownItems(catalog, items)[k])
    ensures forall k :: 0 <= k < |r| ==> r[k].totalPrice == LineTotal(perHour, hours, r[k].quantity)
  {
    if |items| == 0 then []
    else
      var init := items[..|items| - 1];
      var rest := EquipmentCharges(catalog, perHour, hours, init);
      var line := EquipmentLine(catalog, perHour, hours, items[|items| - 1]);
      assert |KnownItems(catalog, init)| <= |init| by {
        KnownItemsBound(catalog, init);
      }
      rest + line
  }

  lemma {:induction false} KnownItemsBound(catalog: Catalog, items: seq<EquipmentRequest>)
    ensures |KnownItems(catalog, items)| <= |items|
  {
    if |items| > 0 {
      KnownItemsBound(catalog, items[..|items| - 1]);
    }
  }

  /** The sum of the line totals. */
  function ChargesTotal(charges: seq<EquipmentCharge>): real
  {
    if |charges| == 0 then 0.0 else ChargesTotal(charges[..|charges| - 1]) + charges[|charges| - 1].totalPrice
  }

  /** The coach line: only for a truthy id naming an active coach. */
  function CoachChargeFor(catalog: Catalog, perHour: real, hours: real, coachId: Option<int>): (r: Option<CoachCharge>)
    ensures r.Some? <==> Truthy(coachId) && FindActiveCoach(catalog.coaches, coachId.value).Some?
    ensures r.Some? ==> r.value == CoachCharge(coachId.value, FindActiveCoach(catalog.coaches, coachId.value).value.name,
                                               perHour, HourlyCharge(perHour, hours))
  {
    if Truthy(coachId) then
      match FindActiveCoach(catalog.coaches, coachId.value)
      case Some(c) => Some(CoachCharge(c.id, c.name, perHour, HourlyCharge(perHour, hours)))
      case None => None
    else None
  }

  function CoachTotal(coach: Option<CoachCharge>): real
  {
    if coach.Some? then coach.value.totalPrice else 0.0
  }

  /** The court line: the only line the rules apply to. */
  function CourtFinalPrice(config: PricingConfig, catalog: Catalog, date: Date, startTime: Time, endTime: Time, courtId: int): real
  {
    RuleAdjustedPrice(HourlyCharge(GetBasePrice(config.basePrices, COURT_HOUR), DurationHours(startTime, endTime)), config.rules,
                      PriceContext(catalog.courts, date, startTime, endTime, Some(courtId)))
  }

  /** The `total_price` of the breakdown. */
  function BookingPrice(config: PricingConfig, catalog: Catalog, date: Date, startTime: Time, endTime: Time,
                        courtId: int, items: seq<EquipmentRequest>, coachId: Option<int>): real
  {
    var hours := DurationHours(startTime, endTime);
    CourtFinalPrice(config, catalog, date, startTime, endTime, courtId)
    + ChargesTotal(EquipmentCharges(catalog, GetBasePrice(config.basePrices, EQUIPMENT_HOUR), hours, items))
    + CoachTotal(CoachChargeFor(catalog, GetBasePrice(config.basePrices, COACH_HOUR), hours, coachId))
  }

  /** One more request item adds that item's line, if any. */
  lemma EquipmentStep(catalog: Catalog, perHour: real, hours: real, items: seq<EquipmentRequest>, i: int)
    requires 0 <= i < |items|
    ensures EquipmentCharges(catalog, perHour, hours, items[..i + 1])
            == EquipmentCharges(catalog, perHour, hours, items[..i]) + EquipmentLine(catalog, perHour, hours, items[i])
  {
    assert items[..i + 1][..i] == items[..i];
  }

  lemma ChargesTotalSnoc(charges: seq<EquipmentCharge>, line: EquipmentCharge)
    ensures ChargesTotal(charges + [line]) == ChargesTotal(charges) + line.totalPrice
  {
    assert (charges + [line])[..|charges|] == charges;
  }

  /** The equipment loop of `calculate_booking_price`: one line per known item and their running sum. */
  method PriceEquipment(catalog: Catalog, perHour: real, hours: real, items: seq<EquipmentRequest>)
    returns (charges: seq<EquipmentCharge>, total: real)
    ensures charges == EquipmentCharges(catalog, perHour, hours, items)
    ensures total == ChargesTotal(charges)
  {
    charges := [];
    total := 0.0;
    var i := 0;
    while i < |items|
      invariant 0 <= i <= |items|
      invariant charges == EquipmentCharges(catalog, perHour, hours, items[..i])
      invariant total == ChargesTotal(charges)
    {
      var item := items[i];
      EquipmentStep(catalog, perHour, hours, items, i);
      match FindEquipment(catalog.equipment, item.id) {
        case Some(e) =>
          var lineTotal := LineTotal(perHour, hours, item.quantity);
          var line := EquipmentCharge(e.id, e.name, item.quantity, perHour, lineTotal);
          ChargesTotalSnoc(charges, line);
          charges := charges + [line];
          total := total + lineTotal;
        case None =>
      }
      i := i + 1;
    }
    assert items[..i] == items;
  }

  /** `calculate_booking_price`: the breakdown, built line by line. */
  method CalculateBookingPrice(config: PricingConfig, catalog: Catalog, date: Date, startTime: Time, endTime: Time,
                               courtId: int, items: seq<EquipmentRequest>, coachId: Option<int>)
    returns (breakdown: PriceBreakdown)
    ensures breakdown.durationHours == DurationHours(startTime, endTime)
    ensures breakdown.court.finalPrice == CourtFinalPrice(config, catalog, date, startTime, endTime, courtId)
    ensures breakdown.court.basePricePerHour == GetBasePrice(config.basePrices, COURT_HOUR)
    ensures breakdown.court.baseTotal == HourlyCharge(GetBasePrice(config.basePrices, COURT_HOUR), DurationHours(startTime, endTime))
    ensures breakdown.court.appliedRules
            == AppliedRules(QueriedRules(config.rules), PriceContext(catalog.courts, date, startTime, endTime, Some(courtId)))
    ensures breakdown.equipment
            == EquipmentCharges(catalog, GetBasePrice(config.basePrices, EQUIPMENT_HOUR), DurationHours(startTime, endTime), items)
    ensures breakdown.coach
            == CoachChargeFor(catalog, GetBasePrice(config.basePrices, COACH_HOUR), DurationHours(startTime, endTime), coachId)
    ensures breakdown.totalPrice == BookingPrice(config, catalog, date, startTime, endTime, courtId, items, coachId)
  {
    var hours := DurationHours(startTime, endTime);
    var courtBase := GetBasePrice(config.basePrices, COURT_HOUR);
    var courtBaseTotal := HourlyCharge(courtBase, hours);
    var courtFinal, applied := ApplyPricingRules(config.rules, courtBaseTotal,
                                                 PriceContext(catalog.courts, date, startTime, endTime, Some(courtId)));
    breakdown := PriceBreakdown(hours, CourtCharge(courtBase, courtBaseTotal, courtFinal, applied), [], None, courtFinal);

    var equipmentBase := GetBasePrice(config.basePrices, EQUIPMENT_HOUR);
    var charges, equipmentTotal := PriceEquipment(catalog, equipmentBase, hours, items);
    breakdown := breakdown.(equipment := charges, totalPrice := courtFinal + equipmentTotal);

    if Truthy(coachId) {
      match FindActiveCoach(catalog.coaches, coachId.value) {
        case Some(c) =>
          var coachBase := GetBasePrice(config.basePrices, COACH_HOUR);
          var coachTotal := HourlyCharge(coachBase, hours);
          breakdown := breakdown.(coach := Some(CoachCharge(c.id, c.name, coachBase, coachTotal)),
                                  totalPrice := breakdown.totalPrice + coachTotal);
        case None =>
      }
    }
  }

  /** An item that is not in the catalog adds no line and no charge. */
  lemma UnknownEquipmentSkipped(catalog: Catalog, perHour: real, hours: real, items: seq<EquipmentRequest>, item: EquipmentRequest)
    requires FindEquipment(catalog.equipment, item.id).None?
    ensures EquipmentCharges(catalog, perHour, hours, items + [item]) == EquipmentCharges(catalog, perHour, hours, items)
  {
    assert (items + [item])[..|items|] == items;
  }

  lemma {:induction false} ChargesTotalNonNegative(charges: seq<EquipmentCharge>)
    requires forall k :: 0 <= k < |charges| ==> charges[k].totalPrice >= 0.0
    ensures ChargesTotal(charges) >= 0.0
  {
    if |charges| > 0 {
      ChargesTotalNonNegative(charges[..|charges| - 1]);
    }
  }

  lemma HourlyChargeNonNegative(perHour: real, hours: real, quantity: nat)
    requires perHour >= 0.0 && hours >= 0.0
    ensures HourlyCharge(perHour, hours) >= 0.0
    ensures LineTotal(perHour, hours, quantity) >= 0.0
  {
  }

  /** Under a valid configuration, a booking with start <= end never has a negative price. */
  lemma BookingPriceNonNegative(config: PricingConfig, catalog: Catalog, date: Date, startTime: Time, endTime: Time,
                                courtId: int, items: seq<EquipmentRequest>, coachId: Option<int>)
    requires ConfigValid(config) && startTime <= endTime
    ensures BookingPrice(config, catalog, date, startTime, endTime, courtId, items, coachId) >= 0.0
  {
    var hours := DurationHours(startTime, endTime);
    var courtBase := GetBasePrice(config.basePrices, COURT_HOUR);
    var equipmentBase := GetBasePrice(config.basePrices, EQUIPMENT_HOUR);
    var coachBase := GetBasePrice(config.basePrices, COACH_HOUR);
    assert hours >= 0.0;
    HourlyChargeNonNegative(courtBase, hours, 0);
    HourlyChargeNonNegative(coachBase, hours, 0);
    AdjustedPriceAtLeastBase(HourlyCharge(courtBase, hours), config.rules,
                             PriceContext(catalog.courts, date, startTime, endTime, Some(courtId)));
    var charges := EquipmentCharges(catalog, equipmentBase, hours, items);
    forall k | 0 <= k < |charges| ensures charges[k].totalPrice >= 0.0 {
      HourlyChargeNonNegative(equipmentBase, hours, charges[k].quantity);
    }
    ChargesTotalNonNegative(charges);
  }

  lemma RuleSumOfThree(rules: seq<PricingRule>, ctx: PriceContext, percentage: bool)
    requires |rules| == 3
    ensures RuleSum(rules, ctx, percentage)
            == Contribution(rules[0], ctx, percentage) + Contribution(rules[1], ctx, percentage) + Contribution(rules[2], ctx, percentage)
  {
    var two := rules[..2];
    var one := two[..1];
    assert one[..0] == [];
    assert RuleSum(one, ctx, percentage) == Contribution(rules[0], ctx, percentage);
    assert RuleSum(two, ctx, percentage) == RuleSum(one, ctx, percentage) + Contribution(rules[1], ctx, percentage);
  }

  /** The configuration of the worked example: 200.00 per court hour, indoor 5%, peak 10%, weekend 15%. */
  function ExampleConfig(): PricingConfig
  {
    PricingConfig([BasePrice(COURT_HOUR, 20000, true)],
                  [NewRule(INDOOR_COURT, 500), NewRule(PEAK_HOUR, 1000), NewRule(WEEKEND, 1500)])
  }

  function ExampleCatalog(): Catalog
  {
    Catalog([Court(1, "Court 1", INDOOR, true)], [], [], [])
  }

  /** The example configuration meets the table constraints. */
  lemma ExampleConfigValid()
    ensures ConfigValid(ExampleConfig())
  {
    assert INDOOR_COURT[0] != PEAK_HOUR[0] && INDOOR_COURT[0] != WEEKEND[0] && WEEKEND[0] != PEAK_HOUR[0];
  }

  /** The court price of the example on a given day: the 200.00 base adjusted by the rule totals. */
  lemma ExampleCourtPrice(date: Date, percentage: real)
    requires percentage == RuleSum(ExampleConfig().rules, PriceContext(ExampleCatalog().courts, date, At(19, 0, 0), At(20, 0, 0), Some(1)), true)
    ensures BookingPrice(ExampleConfig(), ExampleCatalog(), date, At(19, 0, 0), At(20, 0, 0), 1, [], None)
            == 200.0 * (1.0 + percentage / 100.0)
  {
    var config := ExampleConfig();
    var ctx := PriceContext(ExampleCatalog().courts, date, At(19, 0, 0), At(20, 0, 0), Some(1));
    assert GetBasePrice(config.basePrices, COURT_HOUR) == 200.0;
    assert DurationHours(At(19, 0, 0), At(20, 0, 0)) == 1.0;
    assert Contribution(config.rules[0], ctx, false) == 0.0;
    assert Contribution(config.rules[1], ctx, false) == 0.0;
    assert Contribution(config.rules[2], ctx, false) == 0.0;
    RuleSumOfThree(config.rules, ctx, false);
  }

  /** The indoor and peak surcharges stack on a Monday (day 1): 200 * (1 + 15/100) = 230. */
  lemma StackedSurchargesWeekday()
    ensures BookingPrice(ExampleConfig(), ExampleCatalog(), 1, At(19, 0, 0), At(20, 0, 0), 1, [], None) == 230.0
  {
    var catalog := ExampleCatalog();
    var rules := ExampleConfig().rules;
    var ctx := PriceContext(catalog.courts, 1, At(19, 0, 0), At(20, 0, 0), Some(1));
    assert IsIndoorCourt(catalog.courts, 1) by {
      assert FindCourt(catalog.courts, 1) == Some(catalog.courts[0]);
    }
    assert !IsWeekend(1);
    assert IsPeakHour(At(19, 0, 0), At(20, 0, 0));
    assert Contribution(rules[0], ctx, true) == 5.0;
    assert Contribution(rules[1], ctx, true) == 10.0;
    assert Contribution(rules[2], ctx, true) == 0.0;
    RuleSumOfThree(rules, ctx, true);
    ExampleCourtPrice(1, 15.0);
  }

  /** All three surcharges stack on a Saturday (day 6): 200 * (1 + 30/100) = 260. */
  lemma StackedSurchargesWeekend()
    ensures BookingPrice(ExampleConfig(), ExampleCatalog(), 6, At(19, 0, 0), At(20, 0, 0), 1, [], None) == 260.0
  {
    var catalog := ExampleCatalog();
    var rules := ExampleConfig().rules;
    var ctx := PriceContext(catalog.courts, 6, At(19, 0, 0), At(20, 0, 0), Some(1));
    assert IsIndoorCourt(catalog.courts, 1) by {
      assert FindCourt(catalog.courts, 1) == Some(catalog.courts[0]);
    }
    assert IsWeekend(6);
    assert IsPeakHour(At(19, 0, 0), At(20, 0, 0));
    assert Contribution(rules[0], ctx, true) == 5.0;
    assert Contribution(rules[1], ctx, true) == 10.0;
    assert Contribution(rules[2], ctx, true) == 15.0;
    RuleSumOfThree(rules, ctx, true);
    ExampleCourtPrice(6, 30.0);
  }
  /** A rule table that holds the peak-hour rule before the indoor rule. */
  function PeakFirstRules(): seq<PricingRule>
  {
    [NewRule(PEAK_HOUR, 1000), NewRule(INDOOR_COURT, 500)]
  }

  /**
   * On a Monday evening on the indoor court both rules apply, and they are
   * listed indoor first, as the query orders them, not in table order.
   */
  lemma AppliedRulesOrderExample()
    ensures AppliedRules(QueriedRules(PeakFirstRules()), PriceContext(ExampleCatalog().courts, 1, At(19, 0, 0), At(20, 0, 0), Some(1)))
            == [AppliedRule("Indoor Court Premium", 500, true), AppliedRule("Peak Hour Surcharge", 1000, true)]
  {
    PeakFirstRulesQueried();
    IndoorThenPeakApplied();
  }

  lemma IndoorThenPeakApplied()
    ensures AppliedRules([NewRule(INDOOR_COURT, 500), NewRule(PEAK_HOUR, 1000)],
                         PriceContext(ExampleCatalog().courts, 1, At(19, 0, 0), At(20, 0, 0), Some(1)))
            == [AppliedRule("Indoor Court Premium", 500, true), AppliedRule("Peak Hour Surcharge", 1000, true)]
  {
    var peak, indoor := NewRule(PEAK_HOUR, 1000), NewRule(INDOOR_COURT, 500);
    var catalog := ExampleCatalog();
    var ctx := PriceContext(catalog.courts, 1, At(19, 0, 0), At(20, 0, 0), Some(1));
    assert IsIndoorCourt(catalog.courts, 1) by {
      assert FindCourt(catalog.courts, 1) == Some(catalog.courts[0]);
    }
    assert IsPeakHour(At(19, 0, 0), At(20, 0, 0));
    assert [indoor, peak][..1] == [indoor];
    assert [indoor][..0] == [];
    assert AppliedRules([indoor], ctx) == [Summary(indoor)];
  }

  /** The query returns the two rules of the table indoor first. */
  lemma PeakFirstRulesQueried()
    ensures QueriedRules(PeakFirstRules()) == [NewRule(INDOOR_COURT, 500), NewRule(PEAK_HOUR, 1000)]
  {
    PeakFirstRulesActive();
    PeakBeforeIndoorSorted();
  }

  lemma PeakFirstRulesActive()
    ensures ActiveRules(PeakFirstRules()) == PeakFirstRules()
  {
    var peak, indoor := NewRule(PEAK_HOUR, 1000), NewRule(INDOOR_COURT, 500);
    assert [peak, indoor] == [peak] + [indoor];
    ActiveRulesAppend([peak], [indoor]);
    assert [peak][..0] == [] && [indoor][..0] == [];
  }

  lemma PeakBeforeIndoorSorted()
    ensures SortBy([NewRule(PEAK_HOUR, 1000), NewRule(INDOOR_COURT, 500)], RuleKind)
            == [NewRule(INDOOR_COURT, 500), NewRule(PEAK_HOUR, 1000)]
  {
    var peak, indoor := NewRule(PEAK_HOUR, 1000), NewRule(INDOOR_COURT, 500);
    assert [peak, indoor][1..] == [indoor];
    assert SortBy([indoor], RuleKind) == [indoor] by {
      assert [indoor][1..] == [];
    }
    assert !StringLe(PEAK_HOUR, INDOOR_COURT) by {
      assert PEAK_HOUR[0] == 'P' && INDOOR_COURT[0] == 'I';
    }
    assert InsertBy(peak, [indoor], RuleKind) == [indoor, peak] by {
      assert [indoor][1..] == [];
    }
  }
}
