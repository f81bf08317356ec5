/**
  The two fixed tables of main.py: the alias map `state_mapping` (lines 38-51)
  and the closed set `valid_states` (lines 53-90), with the canonical state
  name they define.
 */
module States {
  import Text

  /** `state_mapping`: twelve misspellings and variants and the name each stands for. */
  const Aliases: map<string, string> := map[
    "ORISSA" := "ODISHA",
    "UTTARANCHAL" := "UTTARAKHAND",
    "PONDICHERRY" := "PUDUCHERRY",
    "WEST  BENGAL" := "WEST BENGAL",
    "WESTBENGAL" := "WEST BENGAL",
    "WEST BANGAL" := "WEST BENGAL",
    "WEST BENGLI" := "WEST BENGAL",
    "CHHATISGARH" := "CHHATTISGARH",
    "JAMMU & KASHMIR" := "JAMMU AND KASHMIR",
    "DAMAN & DIU" := "DAMAN AND DIU",
    "DADRA & NAGAR HAVELI" := "DADRA AND NAGAR HAVELI",
    "THE DADRA AND NAGAR HAVELI AND DAMAN AND DIU" := "DADRA AND NAGAR HAVELI AND DAMAN AND DIU"
  ]

  /** `valid_states`: the 28 states and 8 union territories a row may name. */
  const ValidStates: set<string> := {
    "ANDHRA PRADESH",
    "ARUNACHAL PRADESH",
    "ASSAM",
    "BIHAR",
    "CHHATTISGARH",
    "GOA",
    "GUJARAT",
    "HARYANA",
    "HIMACHAL PRADESH",
    "JHARKHAND",
    "KARNATAKA",
    "KERALA",
    "MADHYA PRADESH",
    "MAHARASHTRA",
    "MANIPUR",
    "MEGHALAYA",
    "MIZORAM",
    "NAGALAND",
    "ODISHA",
    "PUNJAB",
    "RAJASTHAN",
    "SIKKIM",
    "TAMIL NADU",
    "TELANGANA",
    "TRIPURA",
    "UTTAR PRADESH",
    "UTTARAKHAND",
    "WEST BENGAL",
    "DELHI",
    "CHANDIGARH",
    "PUDUCHERRY",
    "LADAKH",
    "JAMMU AND KASHMIR",
    "LAKSHADWEEP",
    "ANDAMAN AND NICOBAR ISLANDS",
    "DADRA AND NAGAR HAVELI AND DAMAN AND DIU"
  }

  /** `.replace(state_mapping)`: one whole-value lookup; an unmapped value passes through. */
  function ResolveAlias(s: string): (r: string)
  {
    if s in Aliases then Aliases[s] else s
  }

  /** main.py:103-105: strip, upper-case, then resolve the alias. */
  function CanonicalState(s: string): string {
    ResolveAlias(Text.Upper(Text.Strip(s)))
  }

  predicate NameChar(c: char) {
    'A' <= c <= 'Z' || c == ' '
  }

  /** A name made of upper-case letters and spaces, with no space at either end. */
  predicate PlainName(s: string) {
    |s| > 0 && s[0] != ' ' && s[|s| - 1] != ' '
    && forall i :: 0 <= i < |s| ==> NameChar(s[i])
  }

  lemma PlainNameIsCanonical(s: string)
    requires PlainName(s)
    ensures Text.Trimmed(s) && Text.IsUpper(s) && !Text.AllDigits(s)
  {
  }

  /** Every valid name starts with a letter, so none of them is digits only. */
  lemma ValidStatesStartWithLetter()
    ensures forall s :: s in ValidStates ==> |s| > 0 && 'A' <= s[0] <= 'Z'
  {
  }

  /** The nine distinct alias targets. */
  ghost const AliasTargets: set<string> := {
    "ODISHA", "UTTARAKHAND", "PUDUCHERRY", "WEST BENGAL", "CHHATTISGARH",
    "JAMMU AND KASHMIR", "DAMAN AND DIU", "DADRA AND NAGAR HAVELI",
    "DADRA AND NAGAR HAVELI AND DAMAN AND DIU"
  }

  /** Every listed target is reached by some alias. */
  lemma AliasTargetsReached()
    ensures AliasTargets <= Aliases.Values
  {
    assert Aliases["ORISSA"] == "ODISHA";
    assert Aliases["UTTARANCHAL"] == "UTTARAKHAND";
    assert Aliases["PONDICHERRY"] == "PUDUCHERRY";
    assert Aliases["WESTBENGAL"] == "WEST BENGAL";
    assert Aliases["CHHATISGARH"] == "CHHATTISGARH";
    assert Aliases["JAMMU & KASHMIR"] == "JAMMU AND KASHMIR";
    assert Aliases["DAMAN & DIU"] == "DAMAN AND DIU";
    assert Aliases["DADRA & NAGAR HAVELI"] == "DADRA AND NAGAR HAVELI";
    assert Aliases["THE DADRA AND NAGAR HAVELI AND DAMAN AND DIU"] == "DADRA AND NAGAR HAVELI AND DAMAN AND DIU";
  }

  /** The twelve aliases map onto exactly the nine targets. */
  lemma AliasTargetsListed()
    ensures forall k :: k in Aliases ==> Aliases[k] in AliasTargets
    ensures Aliases.Values == AliasTargets
  {
    AliasTargetsReached();
  }

  lemma ShortTargetsArePlain()
    ensures PlainName("ODISHA") && PlainName("UTTARAKHAND") && PlainName("PUDUCHERRY")
    ensures PlainName("WEST BENGAL") && PlainName("CHHATTISGARH")
  {
  }

  lemma LongTargetsArePlain()
    ensures PlainName("JAMMU AND KASHMIR") && PlainName("DAMAN AND DIU")
    ensures PlainName("DADRA AND NAGAR HAVELI") && PlainName("DADRA AND NAGAR HAVELI AND DAMAN AND DIU")
  {
  }

  /** Every alias target is a plain upper-case, trimmed name. */
  lemma {:induction false} AliasTargetsArePlain()
    ensures forall k :: k in Aliases ==> PlainName(Aliases[k])
  {
    AliasTargetsListed();
    ShortTargetsArePlain();
    LongTargetsArePlain();
  }

  /** No alias target is itself an alias, so one lookup already reaches a fixed point. */
  lemma AliasTargetsAreNotKeys()
    ensures forall k :: k in Aliases ==> Aliases[k] !in Aliases
  {
  }

  /**
    Every alias target is a valid name except two: "DAMAN AND DIU" and
    "DADRA AND NAGAR HAVELI", the targets of "DAMAN & DIU" and
    "DADRA & NAGAR HAVELI", whose rows are therefore dropped after being renamed.
   */
  lemma StrandedAliasTargets()
    ensures forall k :: k in Aliases ==>
      (Aliases[k] in ValidStates <==> k != "DAMAN & DIU" && k != "DADRA & NAGAR HAVELI")
  {
  }

  /** No valid name is made of digits only, so the digit filter of main.py:108 never drops a valid row. */
  lemma {:induction false} ValidStatesAreNotDigits()
    ensures forall s :: s in ValidStates ==> !Text.AllDigits(s)
  {
    ValidStatesStartWithLetter();
    forall s | s in ValidStates
      ensures !Text.AllDigits(s)
    {
      Text.DigitsHaveNoLetters(s, 0);
    }
  }

  /**
    Canonicalizing a canonical state name changes nothing: `strip().upper()` is
    idempotent, an alias target is trimmed and upper-case, and it is not itself
    an alias.
   */
  lemma {:induction false} CanonicalStateIdempotent(s: string)
    ensures CanonicalState(CanonicalState(s)) == CanonicalState(s)
  {
    var u := Text.Upper(Text.Strip(s));
    Text.StripUpperIdempotent(s);
    if u in Aliases {
      var t := Aliases[u];
      AliasTargetsArePlain();
      AliasTargetsAreNotKeys();
      PlainNameIsCanonical(t);
      Text.StripTrimmed(t);
      Text.UpperOfUpper(t);
    }
  }

  /** A trimmed upper-case value only goes through the alias lookup. */
  lemma {:induction false} CanonicalOfPlain(s: string)
    requires Text.Trimmed(s) && Text.IsUpper(s)
    ensures CanonicalState(s) == ResolveAlias(s)
  {
    Text.StripTrimmed(s);
    Text.UpperOfUpper(s);
  }

  /** Surrounding blanks and lower case are normalized before the lookup: " orissa " becomes "ODISHA". */
  lemma {:induction false} OrissaExample()
    ensures CanonicalState(" orissa ") == "ODISHA"
  {
    assert " orissa "[1..] == "orissa ";
    assert Text.StripLeft(" orissa ") == "orissa ";
    assert "orissa "[..6] == "orissa";
    assert Text.StripRight("orissa ") == "orissa";
    assert Text.Upper("orissa") == "ORISSA";
  }

  /** The text "nan" of a missing cell becomes "NAN", which is neither an alias nor a valid name. */
  lemma {:induction false} NanExample()
    ensures Text.Upper(Text.Strip("nan")) == "NAN"
    ensures CanonicalState("nan") == "NAN" && "NAN" !in ValidStates
  {
    assert Text.StripLeft("nan") == "nan";
    assert "nan"[..3] == "nan";
    assert Text.StripRight("nan") == "nan";
    assert Text.Upper("nan") == "NAN";
  }

  /** Inner blanks are not collapsed; "WEST  BENGAL" (two spaces) is resolved by its own alias. */
  lemma {:induction false} WestBengalExample()
    ensures CanonicalState("WEST  BENGAL") == "WEST BENGAL"
  {
    CanonicalOfPlain("WEST  BENGAL");
  }

  /** "DAMAN & DIU" resolves to a name that is not valid, so its rows are dropped. */
  lemma {:induction false} DamanExample()
    ensures CanonicalState("DAMAN & DIU") == "DAMAN AND DIU"
    ensures CanonicalState("DAMAN & DIU") !in ValidStates
  {
    CanonicalOfPlain("DAMAN & DIU");
  }

  /** A digits-only value passes through unchanged. */
  lemma {:induction false} DigitsExample()
    ensures CanonicalState("12345") == "12345"
  {
    assert ResolveAlias("12345") == "12345";
    CanonicalOfPlain("12345");
  }

  lemma ExampleNamesAgainstValidStates()
    ensures "ODISHA" in ValidStates && "WEST BENGAL" in ValidStates
    ensures "DAMAN AND DIU" !in ValidStates
    ensures Text.AllDigits("12345") && "12345" !in ValidStates
  {
  }
}
