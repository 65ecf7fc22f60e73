/**
 * The type inferencer `matchDataType` (extractDataTypes.py:59-115).
 *
 * The identifier is lower-cased, then nine keyword rules are applied in a fixed
 * order. Every rule whose keyword list has a member occurring as a substring of
 * the lower-cased identifier overwrites the type accumulator, so the LAST
 * matching rule decides the type. The import accumulator is separate: only the
 * Duration and PostalAddress rules write it, and nothing resets it.
 */
module TypeInference {
  import opened Wrappers
  import opened Text

  /** The closed set of schema types the inferencer can produce. */
  datatype TypeName =
    | String | Boolean | Double | Integer | Currency
    | MonetaryAmount | DateTime | Duration | AccordParty | PostalAddress
  {
    /** The type name as it is written into the schema fragment. */
    function Name(): (n: string)
      ensures IsWord(n)
    {
      match this
      case String => "String"
      case Boolean => "Boolean"
      case Double => "Double"
      case Integer => "Integer"
      case Currency => "Currency"
      case MonetaryAmount => "MonetaryAmount"
      case DateTime => "DateTime"
      case Duration => "Duration"
      case AccordParty => "AccordParty"
      case PostalAddress => "PostalAddress"
    }
  }

  // The two import lines (extractDataTypes.py:101 and :112). Each is written as
  // a concatenation of short literals, with the same value as the source's
  // string, so that the verifier can show it holds no newline
  // (Formatting.ImportsAreSingleLines).
  const TimeImport: string :=
    "import " + "org.accordproject.time.*" + " from " + "https://models.accordproject.org/" + "time@0.2.0.cto"
  const AddressImport: string :=
    "import " + "org.accordproject.address.PostalAddress" + " from " + "https://models.accordproject.org/" + "address.cto"

  /**
   * One keyword rule: if any keyword occurs in the lower-cased name, the type
   * becomes `result`, and, when `sets` is present, the import becomes its value.
   */
  datatype Rule = Rule(keywords: seq<string>, result: TypeName, sets: Option<string>)

  /** The pair returned by `matchDataType`: the type and the import string ('' for none). */
  datatype Inference = Inference(typ: TypeName, imp: string)

  const BooleanRule: Rule :=
    Rule(["bool", "boolean", "true", "false", "exists", "is", "flag", "yesno", "does"], Boolean, None)
  const DoubleRule: Rule := Rule(["num", "min", "max", "number"], Double, None)
  const IntegerRule: Rule := Rule(["count"], Integer, None)
  const CurrencyRule: Rule := Rule(["currency", "usd", "dollar", "value", "money"], Currency, None)
  const MonetaryRule: Rule := Rule(["value", "amount", "sum"], MonetaryAmount, None)
  const DateRule: Rule := Rule(["date", "datetime"], DateTime, None)
  const DurationRule: Rule :=
    Rule(["dur", "duration", "time", "day", "month", "second", "minute", "week", "quarter"],
         Duration, Some(TimeImport))
  const PartyRule: Rule := Rule(["party", "buyer", "seller", "insured", "insurer"], AccordParty, None)
  const AddressRule: Rule :=
    Rule(["address", "postaladdress", "location"], PostalAddress, Some(AddressImport))

  /** The rules in the order the source applies them. */
  const Rules: seq<Rule> :=
    [BooleanRule, DoubleRule, IntegerRule, CurrencyRule, MonetaryRule,
     DateRule, DurationRule, PartyRule, AddressRule]

  /** The accumulators before any rule: type String, no import. */
  const Default: Inference := Inference(String, "")

  /** The list comprehension `[ele for ele in keywords if ele in s]`. */
  function Hits(keywords: seq<string>, s: string): (r: seq<string>)
    ensures |r| <= |keywords|
    ensures forall k :: k in r <==> k in keywords && Contains(k, s)
  {
    if keywords == [] then []
    else (if Contains(keywords[0], s) then [keywords[0]] else []) + Hits(keywords[1..], s)
  }

  /** The test `if len(res):` of one rule. */
  predicate Fires(rule: Rule, s: string) {
    |Hits(rule.keywords, s)| > 0
  }

  /** Some keyword of `keywords` is a substring of `s`. */
  ghost predicate Mentions(keywords: seq<string>, s: string) {
    exists k :: k in keywords && Contains(k, s)
  }

  /** A rule fires exactly when one of its keywords occurs in the name. */
  lemma FiresIffMentions(rule: Rule, s: string)
    ensures Fires(rule, s) <==> Mentions(rule.keywords, s)
  {
    if Mentions(rule.keywords, s) {
      var k :| k in rule.keywords && Contains(k, s);
      assert k in Hits(rule.keywords, s);
    }
    if Fires(rule, s) {
      assert Hits(rule.keywords, s)[0] in Hits(rule.keywords, s);
    }
  }

  /** One rule applied to the accumulators. */
  function Step(rule: Rule, s: string, acc: Inference): Inference {
    if Fires(rule, s) then
      Inference(rule.result, if rule.sets.Some? then rule.sets.value else acc.imp)
    else acc
  }

  /** The rules applied in order, each overwriting the accumulators it writes. */
  function Apply(rules: seq<Rule>, s: string, acc: Inference): Inference
    decreases |rules|
  {
    if rules == [] then acc else Apply(rules[1..], s, Step(rules[0], s, acc))
  }

  /** `matchDataType(variable_name)`: the rule table applied to the lower-cased name. */
  function MatchDataType(name: string): Inference {
    Apply(Rules, Lower(name), Default)
  }

  /**
   * Independent reference for the precedence: the index of the highest-numbered
   * rule that fires on `s`, or -1 when none does.
   */
  function LastFiring(rules: seq<Rule>, s: string): (r: int)
    ensures -1 <= r < |rules|
    ensures r >= 0 ==> Fires(rules[r], s)
    ensures forall j :: r < j < |rules| ==> !Fires(rules[j], s)
    decreases |rules|
  {
    if rules == [] then -1
    else if Fires(rules[|rules| - 1], s) then |rules| - 1
    else LastFiring(rules[..|rules| - 1], s)
  }

  /** When no rule fires, both accumulators are left alone. */
  lemma {:induction false} ApplyNoneFires(rules: seq<Rule>, s: string, acc: Inference)
    requires forall j :: 0 <= j < |rules| ==> !Fires(rules[j], s)
    ensures Apply(rules, s, acc) == acc
  {
    if rules != [] {
      assert !Fires(rules[0], s);
      ApplyNoneFires(rules[1..], s, acc);
    }
  }

  /** The type is that of the last rule that fires. */
  lemma {:induction false} ApplyLastTypeWins(rules: seq<Rule>, s: string, acc: Inference, i: nat)
    requires i < |rules| && Fires(rules[i], s)
    requires forall j :: i < j < |rules| ==> !Fires(rules[j], s)
    ensures Apply(rules, s, acc).typ == rules[i].result
  {
    if i == 0 {
      ApplyNoneFires(rules[1..], s, Step(rules[0], s, acc));
    } else {
      ApplyLastTypeWins(rules[1..], s, Step(rules[0], s, acc), i - 1);
    }
  }

  /** When no firing rule writes the import, the import is left alone. */
  lemma {:induction false} ApplyImportKept(rules: seq<Rule>, s: string, acc: Inference)
    requires forall j :: 0 <= j < |rules| && Fires(rules[j], s) ==> rules[j].sets.None?
    ensures Apply(rules, s, acc).imp == acc.imp
  {
    if rules != [] {
      assert Step(rules[0], s, acc).imp == acc.imp;
      ApplyImportKept(rules[1..], s, Step(rules[0], s, acc));
    }
  }

  /** The import is that of the last firing rule that writes one. */
  lemma {:induction false} ApplyLastImportWins(rules: seq<Rule>, s: string, acc: Inference, i: nat)
    requires i < |rules| && Fires(rules[i], s) && rules[i].sets.Some?
    requires forall j :: i < j < |rules| && Fires(rules[j], s) ==> rules[j].sets.None?
    ensures Apply(rules, s, acc).imp == rules[i].sets.value
  {
    if i == 0 {
      ApplyImportKept(rules[1..], s, Step(rules[0], s, acc));
    } else {
      ApplyLastImportWins(rules[1..], s, Step(rules[0], s, acc), i - 1);
    }
  }

  /** The fold agrees with the reference: the type of the last rule that fires, else the accumulator's. */
  lemma ApplyTypeIsLastFiring(rules: seq<Rule>, s: string, acc: Inference)
    ensures var r := LastFiring(rules, s);
      Apply(rules, s, acc).typ == if r < 0 then acc.typ else rules[r].result
  {
    var r := LastFiring(rules, s);
    if r < 0 {
      ApplyNoneFires(rules, s, acc);
    } else {
      ApplyLastTypeWins(rules, s, acc, r);
    }
  }

  /**
   * Last matching rule wins: the inferred type is the result of the
   * highest-numbered rule with a keyword in the lower-cased name, String if none.
   */
  lemma TypePrecedence(name: string)
    ensures var r := LastFiring(Rules, Lower(name));
      MatchDataType(name).typ == if r < 0 then String else Rules[r].result
  {
    ApplyTypeIsLastFiring(Rules, Lower(name), Default);
  }

  /** The same statement, for a rule index that the caller knows to be the last one firing. */
  lemma LastMatchingRuleWins(name: string, i: nat)
    requires i < |Rules| && Mentions(Rules[i].keywords, Lower(name))
    requires forall j :: i < j < |Rules| ==> !Mentions(Rules[j].keywords, Lower(name))
    ensures MatchDataType(name).typ == Rules[i].result
  {
    var s := Lower(name);
    FiresIffMentions(Rules[i], s);
    forall j | i < j < |Rules|
      ensures !Fires(Rules[j], s)
    {
      FiresIffMentions(Rules[j], s);
    }
    ApplyLastTypeWins(Rules, s, Default, i);
  }

  /** Type String with no import exactly when no keyword of any rule occurs. */
  lemma DefaultIffNoKeyword(name: string)
    ensures MatchDataType(name) == Inference(String, "")
        <==> forall j :: 0 <= j < |Rules| ==> !Mentions(Rules[j].keywords, Lower(name))
    ensures MatchDataType(name).typ == String
        <==> forall j :: 0 <= j < |Rules| ==> !Mentions(Rules[j].keywords, Lower(name))
  {
    var s := Lower(name);
    forall j | 0 <= j < |Rules|
      ensures Fires(Rules[j], s) <==> Mentions(Rules[j].keywords, s)
    {
      FiresIffMentions(Rules[j], s);
    }
    var r := LastFiring(Rules, s);
    TypePrecedence(name);
    if r < 0 {
      ApplyNoneFires(Rules, s, Default);
    } else {
      NoRuleGivesString(r);
    }
  }

  /** Every rule sets a type other than String. */
  lemma NoRuleGivesString(j: int)
    requires 0 <= j < |Rules|
    ensures Rules[j].result != String
  {
  }

  /**
   * The import rule: the address import iff an address keyword occurs;
   * otherwise the time import iff a duration keyword occurs; otherwise ''.
   * It does not depend on the Party rule, which may still decide the type.
   */
  lemma ImportRule(name: string)
    ensures var s := Lower(name); var imp := MatchDataType(name).imp;
      && (imp == AddressImport <==> Mentions(AddressRule.keywords, s))
      && (!Mentions(AddressRule.keywords, s) ==>
            (imp == TimeImport <==> Mentions(DurationRule.keywords, s)))
      && (!Mentions(AddressRule.keywords, s) && !Mentions(DurationRule.keywords, s) ==> imp == "")
  {
    var s := Lower(name);
    FiresIffMentions(AddressRule, s);
    FiresIffMentions(DurationRule, s);
    assert Rules[8] == AddressRule && Rules[6] == DurationRule;
    if Fires(AddressRule, s) {
      ApplyLastImportWins(Rules, s, Default, 8);
    } else if Fires(DurationRule, s) {
      ApplyLastImportWins(Rules, s, Default, 6);
    } else {
      ApplyImportKept(Rules, s, Default);
    }
  }

  /** The import is one of the two model imports or empty. */
  lemma ImportValues(name: string)
    ensures MatchDataType(name).imp in {"", TimeImport, AddressImport}
  {
    ImportRule(name);
  }

  /**
   * "value" is in both the Currency and the MonetaryAmount lists; the later
   * MonetaryAmount rule overrides, so a name containing "value" is never Currency.
   */
  lemma ValueIsNeverCurrency(name: string)
    requires Contains("value", Lower(name))
    ensures MatchDataType(name).typ != Currency
  {
    var s := Lower(name);
    FiresIffMentions(MonetaryRule, s);
    assert Rules[4] == MonetaryRule && Fires(Rules[4], s);
    TypePrecedence(name);
  }

  /** The result depends only on the lower-cased name. */
  lemma DependsOnlyOnLower(a: string, b: string)
    requires Lower(a) == Lower(b)
    ensures MatchDataType(a) == MatchDataType(b)
  {
  }

  /** Lower-casing the name first changes nothing. */
  lemma CaseInsensitive(name: string)
    ensures MatchDataType(Lower(name)) == MatchDataType(name)
  {
    LowerIdempotent(name);
  }
}
