/**
 * Worked identifiers for the type inferencer, each derived from the general
 * precedence and import lemmas: a winning rule that fires, and later rules
 * that do not (each keyword shown absent through a character the name lacks).
 */
module InferenceExamples {
  import opened Text
  import opened TypeInference

  /** No keyword of `ks` occurs in `s` when each keyword has a character `s` lacks. */
  lemma NotMentionedByChars(ks: seq<string>, s: string, cs: string)
    requires |cs| == |ks|
    requires forall i :: 0 <= i < |ks| ==> cs[i] in ks[i] && cs[i] !in s
    ensures !Mentions(ks, s)
  {
    forall k | k in ks
      ensures !Contains(k, s)
    {
      var i :| 0 <= i < |ks| && ks[i] == k;
      NotContainedByChar(k, s, cs[i]);
    }
  }

  /** `s` has none of the characters of `cs`. */
  ghost predicate Lacks(s: string, cs: string) {
    forall c :: c in cs ==> c !in s
  }

  /** A keyword found at a known position. */
  lemma MentionedAt(ks: seq<string>, s: string, i: nat, pos: nat)
    requires i < |ks| && OccursAt(ks[i], s, pos)
    ensures Mentions(ks, s)
  {
    assert ks[i] in ks && Contains(ks[i], s);
  }

  /** A name lacking these letters matches none of the rules after MonetaryAmount. */
  lemma NoRuleAfterMonetary(s: string)
    requires Lacks(s, "dihswqpb")
    ensures !Mentions(DateRule.keywords, s) && !Mentions(DurationRule.keywords, s)
    ensures !Mentions(PartyRule.keywords, s) && !Mentions(AddressRule.keywords, s)
  {
    assert !Mentions(DateRule.keywords, s) by { NotMentionedByChars(DateRule.keywords, s, "dd"); }
    assert !Mentions(DurationRule.keywords, s) by { NotMentionedByChars(DurationRule.keywords, s, "ddidhsiwq"); }
    assert !Mentions(PartyRule.keywords, s) by { NotMentionedByChars(PartyRule.keywords, s, "pbsii"); }
    assert !Mentions(AddressRule.keywords, s) by { NotMentionedByChars(AddressRule.keywords, s, "dpi"); }
  }

  /** A name whose last rule to fire is MonetaryAmount gets that type and no import. */
  lemma MonetaryWins(name: string)
    requires Mentions(MonetaryRule.keywords, Lower(name)) && Lacks(Lower(name), "dihswqpb")
    ensures MatchDataType(name) == Inference(MonetaryAmount, "")
  {
    NoRuleAfterMonetary(Lower(name));
    assert Rules[4] == MonetaryRule && Rules[5] == DateRule && Rules[6] == DurationRule;
    assert Rules[7] == PartyRule && Rules[8] == AddressRule;
    LastMatchingRuleWins(name, 4);
    ImportRule(name);
  }

  /** "contractvalue" has "value" and none of the letters that would let a later rule fire. */
  lemma ContractValueKeywords(s: string)
    requires s == "contractvalue"
    ensures Mentions(MonetaryRule.keywords, s) && Lacks(s, "dihswqpb")
  {
    MentionedAt(MonetaryRule.keywords, s, 0, 8);
  }

  /** "contractValue" matches Currency and MonetaryAmount through "value"; MonetaryAmount is later. */
  lemma ContractValueIsMonetaryAmount(name: string)
    requires name == "contractValue"
    ensures MatchDataType(name) == Inference(MonetaryAmount, "")
  {
    assert Lower(name) == "contractvalue";
    ContractValueKeywords(Lower(name));
    MonetaryWins(name);
  }

  /** "totalamount" has "amount" and none of the letters that would let a later rule fire. */
  lemma TotalAmountKeywords(s: string)
    requires s == "totalamount"
    ensures Mentions(MonetaryRule.keywords, s) && Lacks(s, "dihswqpb")
  {
    MentionedAt(MonetaryRule.keywords, s, 1, 5);
  }

  /** "totalAmount": contains "amount", so a monetary amount with no import. */
  lemma TotalAmountIsMonetaryAmount(name: string)
    requires name == "totalAmount"
    ensures MatchDataType(name) == Inference(MonetaryAmount, "")
  {
    assert Lower(name) == "totalamount";
    TotalAmountKeywords(Lower(name));
    MonetaryWins(name);
  }

  /** A name whose last rule to fire is Party gets that type; the import follows the Duration rule alone. */
  lemma PartyWins(name: string)
    requires Mentions(PartyRule.keywords, Lower(name)) && !Mentions(AddressRule.keywords, Lower(name))
    ensures MatchDataType(name).typ == AccordParty
    ensures MatchDataType(name).imp == if Mentions(DurationRule.keywords, Lower(name)) then TimeImport else ""
  {
    assert Rules[7] == PartyRule && Rules[8] == AddressRule;
    LastMatchingRuleWins(name, 7);
    ImportRule(name);
  }

  /** A name with "insured" at 2, none of these letters, and a "d" only in its last two letters. */
  lemma IsInsuredKeywords(s: string, pre: string)
    requires OccursAt("insured", s, 2) && Lacks(s, "aplmcwqt")
    requires s == pre + "ed" && 'd' !in pre
    ensures Mentions(PartyRule.keywords, s)
    ensures !Mentions(AddressRule.keywords, s) && !Mentions(DurationRule.keywords, s)
  {
    MentionedAt(PartyRule.keywords, s, 3, 2);
    NotMentionedByChars(AddressRule.keywords, s, "apl");
    // "dur" would need its "d" two places before the end
    NotContainedByCharBefore("dur", pre, "ed", 0);
    NotMentionedByChars(DurationRule.keywords[1..], s, "atamcmwq");
  }

  /** The letter facts about "isinsured" that the keyword lemma needs. */
  lemma IsInsuredLetters(s: string)
    requires s == "isinsured"
    ensures OccursAt("insured", s, 2) && Lacks(s, "aplmcwqt")
    ensures s == "isinsur" + "ed" && 'd' !in "isinsur"
  {
  }

  /** "isInsured" matches the Boolean rule ("is") and the Party rule ("insured"); Party is later. */
  lemma IsInsuredIsAccordParty(name: string)
    requires name == "isInsured"
    ensures MatchDataType(name) == Inference(AccordParty, "")
  {
    var s := Lower(name);
    assert s == "isinsured";
    IsInsuredLetters(s);
    IsInsuredKeywords(s, "isinsur");
    PartyWins(name);
  }

  /** A name with "buyer" at 0 and none of these letters. */
  lemma BuyerNameKeywords(s: string)
    requires OccursAt("buyer", s, 0) && Lacks(s, "dtosiwqpl")
    ensures Mentions(PartyRule.keywords, s)
    ensures !Mentions(AddressRule.keywords, s) && !Mentions(DurationRule.keywords, s)
  {
    MentionedAt(PartyRule.keywords, s, 1, 0);
    NotMentionedByChars(AddressRule.keywords, s, "dpl");
    NotMentionedByChars(DurationRule.keywords, s, "ddtdosiwq");
  }

  /** The letter facts about "buyername" that the keyword lemma needs. */
  lemma BuyerNameLetters(s: string)
    requires s == "buyername"
    ensures OccursAt("buyer", s, 0) && Lacks(s, "dtosiwqpl")
  {
  }

  /** "buyerName": contains "buyer", so the later Party rule makes it a party. */
  lemma BuyerNameIsAccordParty(name: string)
    requires name == "buyerName"
    ensures MatchDataType(name) == Inference(AccordParty, "")
  {
    var s := Lower(name);
    assert s == "buyername";
    BuyerNameLetters(s);
    BuyerNameKeywords(s);
    PartyWins(name);
  }

  /** A name with "party" at 0, "day" at 5 and none of these letters. */
  lemma PartyDayKeywords(s: string)
    requires OccursAt("party", s, 0) && OccursAt("day", s, 5) && Lacks(s, "eol")
    ensures Mentions(PartyRule.keywords, s) && Mentions(DurationRule.keywords, s)
    ensures !Mentions(AddressRule.keywords, s)
  {
    MentionedAt(PartyRule.keywords, s, 0, 0);
    MentionedAt(DurationRule.keywords, s, 3, 5);
    NotMentionedByChars(AddressRule.keywords, s, "eol");
  }

  /** The letter facts about "partyday" that the keyword lemma needs. */
  lemma PartyDayLetters(s: string)
    requires s == "partyday"
    ensures OccursAt("party", s, 0) && OccursAt("day", s, 5) && Lacks(s, "eol")
  {
  }

  /** "partyDay": the Party rule decides the type, but the Duration rule's import stays. */
  lemma PartyDayKeepsTimeImport(name: string)
    requires name == "partyDay"
    ensures MatchDataType(name) == Inference(AccordParty, TimeImport)
  {
    var s := Lower(name);
    assert s == "partyday";
    PartyDayLetters(s);
    PartyDayKeywords(s);
    PartyWins(name);
  }

  /** A name with "duration" at 7, none of these letters, and a "y" only in its first four letters. */
  lemma PaymentDurationKeywords(s: string, post: string)
    requires OccursAt("duration", s, 7) && Lacks(s, "bsl")
    requires s == "paym" + post && 'y' !in post
    ensures Mentions(DurationRule.keywords, s)
    ensures !Mentions(PartyRule.keywords, s) && !Mentions(AddressRule.keywords, s)
  {
    MentionedAt(DurationRule.keywords, s, 1, 7);
    // every letter of "party" may occur, but its "y" would have to stand at index 4 or later
    NotContainedByCharAfter("party", "paym", post, 4);
    NotMentionedByChars(PartyRule.keywords[1..], s, "bsss");
    NotMentionedByChars(AddressRule.keywords, s, "ssl");
  }

  /** The letter facts about "paymentduration" that the keyword lemma needs. */
  lemma PaymentDurationLetters(s: string)
    requires s == "paymentduration"
    ensures OccursAt("duration", s, 7) && Lacks(s, "bsl")
    ensures s == "paym" + "entduration" && 'y' !in "entduration"
  {
  }

  /** "paymentDuration": contains "duration", so a duration with the time import. */
  lemma PaymentDurationIsDuration(name: string)
    requires name == "paymentDuration"
    ensures MatchDataType(name) == Inference(Duration, TimeImport)
  {
    var s := Lower(name);
    assert s == "paymentduration";
    PaymentDurationLetters(s);
    PaymentDurationKeywords(s, "entduration");
    assert Rules[6] == DurationRule && Rules[7] == PartyRule && Rules[8] == AddressRule;
    LastMatchingRuleWins(name, 6);
    ImportRule(name);
  }
}
