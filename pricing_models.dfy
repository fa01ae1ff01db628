/**
 * Pricing configuration: surcharge rules and base hourly prices
 * (backend/pricing/models.py). Decimal columns with two decimal places are
 * held as integer hundredths (cents).
 */
module PricingModels {
  import opened Wrappers
  import opened Numerals
  import opened SeqFacts

  const PEAK_HOUR := "PEAK_HOUR"
  const WEEKEND := "WEEKEND"
  const INDOOR_COURT := "INDOOR_COURT"

  const COURT_HOUR := "COURT_HOUR"
  const EQUIPMENT_HOUR := "EQUIPMENT_HOUR"
  const COACH_HOUR := "COACH_HOUR"

  /** The value of a two-decimal-place amount. */
  function CentsToReal(cents: int): real
  {
    cents as real / 100.0
  }

  /** A pricing rule row; `value` is a percentage or a fixed amount, in cents. */
  datatype PricingRule = PricingRule(
    ruleType: string,
    value: int,
    isPercentage: bool,
    description: string,
    isActive: bool)

  /** A rule created with only its kind and value: the field defaults apply. */
  function NewRule(ruleType: string, value: int): (r: PricingRule)
    ensures r.ruleType == ruleType && r.value == value
    ensures r.isPercentage && r.isActive && r.description == ""
  {
    PricingRule(ruleType, value, true, "", true)
  }

  predicate ValidRuleType(t: string)
  {
    t == PEAK_HOUR || t == WEEKEND || t == INDOOR_COURT
  }

  /** The value column: non-negative, at most 10 digits of which 2 are decimals. */
  predicate ValidAmount(cents: int)
  {
    0 <= cents < 10_000_000_000
  }

  /** The `unique=True` constraint on the rule kind. */
  predicate RulesUnique(rules: seq<PricingRule>)
  {
    forall i, j :: 0 <= i < j < |rules| ==> rules[i].ruleType != rules[j].ruleType
  }

  predicate RulesValid(rules: seq<PricingRule>)
  {
    && RulesUnique(rules)
    && (forall i :: 0 <= i < |rules| ==> ValidRuleType(rules[i].ruleType) && ValidAmount(rules[i].value))
  }

  /** The sort key of `Meta.ordering = ['rule_type']`. */
  function RuleKind(r: PricingRule): string { r.ruleType }

  /** The place of a valid kind when rules are ordered by kind. */
  function KindRank(t: string): nat
  {
    if t == INDOOR_COURT then 0 else if t == PEAK_HOUR then 1 else if t == WEEKEND then 2 else 3
  }

  /** Ordered by kind, the three kinds come as INDOOR_COURT, PEAK_HOUR, WEEKEND. */
  lemma KindOrderIsRank(a: string, b: string)
    requires ValidRuleType(a) && ValidRuleType(b) && a != b
    ensures StringLe(a, b) <==> KindRank(a) < KindRank(b)
  {
    assert INDOOR_COURT[0] == 'I' && PEAK_HOUR[0] == 'P' && WEEKEND[0] == 'W';
  }

  /** Under the uniqueness constraint no rule occurs twice. */
  lemma {:induction false} UniqueRuleOccursOnce(rules: seq<PricingRule>, x: PricingRule)
    requires RulesUnique(rules)
    ensures multiset(rules)[x] <= 1
  {
    if |rules| > 0 {
      var init := rules[..|rules| - 1];
      var last := rules[|rules| - 1];
      assert rules == init + [last];
      assert RulesUnique(init);
      UniqueRuleOccursOnce(init, x);
      if last == x {
        assert x !in init by {
          forall k | 0 <= k < |init| ensures init[k] != last {
            assert init[k] == rules[k];
          }
        }
      }
    }
  }

  lemma RepeatedRuleCountsTwice(rules: seq<PricingRule>, i: int, j: int)
    requires 0 <= i < j < |rules| && rules[i] == rules[j]
    ensures multiset(rules)[rules[i]] >= 2
  {
    var a, b := rules[..j], rules[j + 1..];
    assert rules == a + [rules[j]] + b;
    assert rules[i] == a[i];
    assert multiset(a)[rules[i]] >= 1;
  }

  /** Any selection of a valid rule table, in any order, is valid. */
  lemma RulesValidSubMultiset(s: seq<PricingRule>, t: seq<PricingRule>)
    requires RulesValid(s) && multiset(t) <= multiset(s)
    ensures RulesValid(t)
  {
    forall i | 0 <= i < |t|
      ensures ValidRuleType(t[i].ruleType) && ValidAmount(t[i].value)
    {
      assert t[i] in multiset(s);
    }
    forall i, j | 0 <= i < j < |t|
      ensures t[i].ruleType != t[j].ruleType
    {
      if t[i] == t[j] {
        RepeatedRuleCountsTwice(t, i, j);
        UniqueRuleOccursOnce(s, t[i]);
      } else {
        assert t[i] in multiset(s) && t[j] in multiset(s);
        var p :| 0 <= p < |s| && s[p] == t[i];
        var q :| 0 <= q < |s| && s[q] == t[j];
        assert p != q;
      }
    }
  }

  /** The rule kinds of a rule list, in order. */
  function RuleTypes(rules: seq<PricingRule>): (ts: seq<string>)
    ensures |ts| == |rules|
    ensures forall i :: 0 <= i < |rules| ==> ts[i] == rules[i].ruleType
  {
    seq(|rules|, i requires 0 <= i < |rules| => rules[i].ruleType)
  }

  /** With unique kinds drawn from the three choices, there are at most three rules, one per kind. */
  lemma AtMostOneRulePerKind(rules: seq<PricingRule>)
    requires RulesValid(rules)
    ensures |rules| <= 3
    ensures forall i, j :: 0 <= i < |rules| && 0 <= j < |rules| && rules[i].ruleType == rules[j].ruleType ==> i == j
  {
    var ts := RuleTypes(rules);
    assert Distinct(ts);
    DistinctCard(ts);
    var kinds := (set t | t in ts);
    assert kinds <= {PEAK_HOUR, WEEKEND, INDOOR_COURT};
    SubsetCard(kinds, {PEAK_HOUR, WEEKEND, INDOOR_COURT});
  }

  /** `get_rule_type_display()`: the choice label, or the raw value when it is not a choice. */
  function RuleTypeLabel(t: string): string
  {
    if t == PEAK_HOUR then "Peak Hour Surcharge"
    else if t == WEEKEND then "Weekend Surcharge"
    else if t == INDOOR_COURT then "Indoor Court Premium"
    else t
  }

  /** `str(Decimal)` of a two-decimal-place amount, such as "10.00" or "-0.50". */
  function DecimalText(cents: int): (s: string)
    ensures |s| >= 4 && s[|s| - 3] == '.' && IsDigit(s[|s| - 1])
    ensures s[0] != '$'
  {
    var a := if cents < 0 then -cents else cents;
    (if cents < 0 then "-" else "") + NatToString(a / 100) + "." + TwoDigits(a % 100)
  }

  /** Reads a two-decimal-place amount back. */
  function ParseDecimalText(s: string): Option<int>
  {
    if |s| < 4 || s[|s| - 3] != '.' || !AllDigits(s[|s| - 2..]) then None
    else
      var whole := s[..|s| - 3];
      var frac := DigitsValue(s[|s| - 2..]);
      if |whole| > 1 && whole[0] == '-' && AllDigits(whole[1..]) then Some(-(DigitsValue(whole[1..]) * 100 + frac))
      else if |whole| > 0 && AllDigits(whole) then Some(DigitsValue(whole) * 100 + frac)
      else None
  }

  lemma DecimalTextRoundTrip(cents: int)
    ensures ParseDecimalText(DecimalText(cents)) == Some(cents)
  {
    var a := if cents < 0 then -cents else cents;
    var digits := NatToString(a / 100);
    var two := TwoDigits(a % 100);
    var s := DecimalText(cents);
    NatToStringRoundTrip(a / 100);
    assert s[|s| - 2..] == two;
    if cents < 0 {
      assert s == "-" + digits + "." + two;
      assert s[..|s| - 3] == "-" + digits;
      assert s[..|s| - 3][1..] == digits;
    } else {
      assert s == digits + "." + two;
      assert s[..|s| - 3] == digits;
    }
  }

  /** The amount part of `PricingRule.__str__`: "<value>%" or "$<value>". */
  function AmountText(r: PricingRule): string
  {
    if r.isPercentage then DecimalText(r.value) + "%" else "$" + DecimalText(r.value)
  }

  /** `PricingRule.__str__`. */
  function RuleString(r: PricingRule): string
  {
    RuleTypeLabel(r.ruleType) + ": +" + AmountText(r)
  }

  /** Reads an amount part back as (value, is percentage). */
  function ParseAmount(s: string): Option<(int, bool)>
  {
    if |s| > 0 && s[0] == '$' then
      match ParseDecimalText(s[1..])
      case Some(v) => Some((v, false))
      case None => None
    else if |s| > 0 && s[|s| - 1] == '%' then
      match ParseDecimalText(s[..|s| - 1])
      case Some(v) => Some((v, true))
      case None => None
    else None
  }

  /**
   * A rule renders as its label, then ": +", then an amount that decodes to the
   * rule's value, with a trailing "%" for a percentage and a leading "$" for a fixed fee.
   */
  lemma RuleStringDecodes(r: PricingRule)
    ensures var prefix := RuleTypeLabel(r.ruleType) + ": +";
            && RuleString(r)[..|prefix|] == prefix
            && ParseAmount(RuleString(r)[|prefix|..]) == Some((r.value, r.isPercentage))
    ensures r.isPercentage <==> RuleString(r)[|RuleString(r)| - 1] == '%'
  {
    var prefix := RuleTypeLabel(r.ruleType) + ": +";
    var tail := AmountText(r);
    assert RuleString(r) == prefix + tail;
    assert RuleString(r)[|prefix|..] == tail;
    DecimalTextRoundTrip(r.value);
    var d := DecimalText(r.value);
    if r.isPercentage {
      assert tail[..|tail| - 1] == d;
    } else {
      assert tail[1..] == d;
      assert tail[|tail| - 1] == d[|d| - 1];
    }
  }

  /** A base price row: hourly price, in cents, of one resource category. */
  datatype BasePrice = BasePrice(resourceType: string, price: int, isActive: bool)

  predicate ValidPriceCategory(t: string)
  {
    t == COURT_HOUR || t == EQUIPMENT_HOUR || t == COACH_HOUR
  }

  predicate BasePricesValid(prices: seq<BasePrice>)
  {
    && (forall i, j :: 0 <= i < j < |prices| ==> prices[i].resourceType != prices[j].resourceType)
    && (forall i :: 0 <= i < |prices| ==> ValidPriceCategory(prices[i].resourceType) && ValidAmount(prices[i].price))
  }

  /** The two configuration tables the pricing engine reads. */
  datatype PricingConfig = PricingConfig(basePrices: seq<BasePrice>, rules: seq<PricingRule>)

  predicate ConfigValid(c: PricingConfig)
  {
    BasePricesValid(c.basePrices) && RulesValid(c.rules)
  }
}
