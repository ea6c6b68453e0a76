/**
 The incident-category marker classifier of the crime map
 (`getMarkerStyle`): a report's category text is lower-cased and searched
 for two keyword lists in a fixed priority order, and the first list that
 matches decides which of three (colour, label) pairs the map marker gets.
 */
module CrimeMap {
  import opened AsciiText

  /** The colour and legend label of one map marker. The source calls the
      second field `label`, which is a reserved word in Dafny. */
  datatype MarkerStyle = MarkerStyle(color: string, legend: string)

  const ViolentStyle := MarkerStyle("#ff4444", "Violent/Danger")
  const PropertyStyle := MarkerStyle("#ffbb33", "Property/Theft")
  const OtherStyle := MarkerStyle("#0099CC", "Other/Proactive")

  /** Keywords tested first, in the order the classifier tries them. */
  const ViolentKeywords: seq<string> := ["assault", "homicide", "weapon", "robbery"]

  /** Keywords tested only when no violent keyword matched. */
  const PropertyKeywords: seq<string> := ["theft", "burglary", "stolen", "property"]

  /** Some keyword of the list occurs in `t` as a substring. */
  ghost predicate HasKeyword(t: string, keywords: seq<string>) {
    exists k :: k in keywords && Occurs(k, t)
  }

  /** `t.includes(k0) || t.includes(k1) || ...`, left to right. */
  function MentionsAny(t: string, keywords: seq<string>): (r: bool)
    ensures r <==> HasKeyword(t, keywords)
  {
    if keywords == [] then false
    else Contains(t, keywords[0]) || MentionsAny(t, keywords[1..])
  }

  /** The category text, once lower-cased, mentions a violent keyword. */
  ghost predicate IsViolent(kind: string) {
    HasKeyword(Lower(kind), ViolentKeywords)
  }

  /** The category text, once lower-cased, mentions a property keyword. */
  ghost predicate IsPropertyRelated(kind: string) {
    HasKeyword(Lower(kind), PropertyKeywords)
  }

  /** `getMarkerStyle(type)`: violent keywords first, then property keywords,
      otherwise the default style. */
  function GetMarkerStyle(kind: string): (r: MarkerStyle)
    ensures r == ViolentStyle || r == PropertyStyle || r == OtherStyle
    ensures r == ViolentStyle <==> IsViolent(kind)
    ensures r == PropertyStyle <==> !IsViolent(kind) && IsPropertyRelated(kind)
    ensures r == OtherStyle <==> !IsViolent(kind) && !IsPropertyRelated(kind)
  {
    var t := Lower(kind);
    if MentionsAny(t, ViolentKeywords) then ViolentStyle
    else if MentionsAny(t, PropertyKeywords) then PropertyStyle
    else OtherStyle
  }

  /** The three styles are pairwise distinct in colour and in legend label, so a
      marker's colour always comes with its own label and never another's. */
  lemma StylesNeverMix(a: string, b: string)
    ensures GetMarkerStyle(a).color == GetMarkerStyle(b).color
        <==> GetMarkerStyle(a).legend == GetMarkerStyle(b).legend
  {}

  /** A violent keyword wins over any property keyword also present. */
  lemma ViolentTakesPriority(kind: string)
    requires IsViolent(kind) && IsPropertyRelated(kind)
    ensures GetMarkerStyle(kind) == ViolentStyle
  {}

  /** Inputs that differ only in ASCII letter case get the same marker. */
  lemma CaseInsensitive(x: string, y: string)
    requires DifferOnlyInCase(x, y)
    ensures GetMarkerStyle(x) == GetMarkerStyle(y)
  {
    LowerIgnoresCase(x, y);
  }

  /** The classification depends on nothing but the lower-cased text. */
  lemma DependsOnlyOnLowerCase(kind: string)
    ensures GetMarkerStyle(Lower(kind)) == GetMarkerStyle(kind)
  {
    LowerIdempotent(kind);
  }

  /** An empty category falls through to the default style. */
  lemma EmptyIsOther()
    ensures GetMarkerStyle("") == OtherStyle
  {}

  /** A violent keyword wins even when a property keyword is present too. */
  lemma RobberyTheftIsViolent()
    ensures GetMarkerStyle("robbery theft") == ViolentStyle
  {
    RobberyTheftMentions();
  }

  /** Substring, not whole-word, matching: "weapon" inside "WEAPONS". */
  lemma WeaponsViolationIsViolent()
    ensures GetMarkerStyle("WEAPONS VIOLATION") == ViolentStyle
  {
    WeaponsViolationMentions();
  }

  /** Substring matching: "property" at the start of "PROPERTY DAMAGE". */
  lemma PropertyDamageIsProperty()
    ensures GetMarkerStyle("PROPERTY DAMAGE") == PropertyStyle
  {
    PropertyDamageMentions();
  }

  /** Substring matching: "stolen" at the start of "STOLEN VEHICLE". */
  lemma StolenVehicleIsProperty()
    ensures GetMarkerStyle("STOLEN VEHICLE") == PropertyStyle
  {
    StolenVehicleMentions();
  }

  /** The example categories, lower-cased. */
  lemma LowerExamples()
    ensures Lower("robbery theft") == "robbery theft"
    ensures Lower("WEAPONS VIOLATION") == "weapons violation"
    ensures Lower("PROPERTY DAMAGE") == "property damage"
    ensures Lower("STOLEN VEHICLE") == "stolen vehicle"
  {}

  /** "robbery theft" mentions both a violent and a property keyword. */
  lemma RobberyTheftMentions()
    ensures IsViolent("robbery theft") && IsPropertyRelated("robbery theft")
  {
    LowerExamples();
    assert OccursAt("robbery", "robbery theft", 0);
    assert Occurs("robbery", "robbery theft");
    assert OccursAt("theft", "robbery theft", 8);
    assert Occurs("theft", "robbery theft");
  }

  /** "weapon" occurs inside "weapons violation". */
  lemma WeaponsViolationMentions()
    ensures IsViolent("WEAPONS VIOLATION")
  {
    LowerExamples();
    assert OccursAt("weapon", "weapons violation", 0);
    assert Occurs("weapon", "weapons violation");
  }

  /** "property damage" mentions a property keyword and no violent one. */
  lemma PropertyDamageMentions()
    ensures !IsViolent("PROPERTY DAMAGE") && IsPropertyRelated("PROPERTY DAMAGE")
  {
    var t := "property damage";
    LowerExamples();
    MissingCharacter("assault", t, 's');
    MissingCharacter("homicide", t, 'h');
    MissingCharacter("weapon", t, 'w');
    MissingCharacter("robbery", t, 'b');
    assert OccursAt("property", t, 0);
    assert Occurs("property", t);
  }

  /** "stolen vehicle" mentions a property keyword and no violent one. */
  lemma StolenVehicleMentions()
    ensures !IsViolent("STOLEN VEHICLE") && IsPropertyRelated("STOLEN VEHICLE")
  {
    var t := "stolen vehicle";
    LowerExamples();
    MissingCharacter("assault", t, 'a');
    MissingCharacter("homicide", t, 'm');
    MissingCharacter("weapon", t, 'w');
    MissingCharacter("robbery", t, 'r');
    assert OccursAt("stolen", t, 0);
    assert Occurs("stolen", t);
  }
}
