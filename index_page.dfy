/**
 * Keyboard navigation of src/pages/Index.tsx: a key "0" to "5" scrolls to the
 * section with that position, provided the section's ref is set.
 */
module IndexPage {
  import opened Wrappers
  import opened Decimal

  datatype Section = Hero | About | Experience | Skills | Projects | Contact

  /** The `sections` array, in page order. */
  const Sections: seq<Section> := [Hero, About, Experience, Skills, Projects, Contact]

  /** `/^[0-5]$/.test(key)`: exactly one character, a digit from 0 to 5. */
  predicate IsSectionKey(key: string) {
    |key| == 1 && '0' <= key[0] <= '5'
  }

  /** `parseInt(key, 10)` for a key that passed the test; other keys are ignored. */
  function SectionIndex(key: string): (r: Option<nat>)
    ensures r.Some? <==> IsSectionKey(key)
    ensures r.Some? ==> r.value < |Sections| && r.value == key[0] as int - '0' as int
  {
    if IsSectionKey(key) then ParseDecimal(key) else None
  }

  /**
   * `handleKeyPress`: the section scrolled into view, if any. `mounted` holds
   * the sections whose ref is not null.
   */
  function ScrollTarget(key: string, mounted: set<Section>): (r: Option<Section>)
    ensures r.Some? <==> IsSectionKey(key) && Sections[SectionIndex(key).value] in mounted
    ensures r.Some? ==> r.value == Sections[SectionIndex(key).value] && r.value in mounted
  {
    match SectionIndex(key)
    case None => None
    case Some(i) => if Sections[i] in mounted then Some(Sections[i]) else None
  }

  /** Keys map, in order, to hero, about, experience, skills, projects and contact. */
  lemma DigitKeysInOrder()
    ensures SectionIndex("0") == Some(0) && Sections[0] == Hero
    ensures SectionIndex("1") == Some(1) && Sections[1] == About
    ensures SectionIndex("2") == Some(2) && Sections[2] == Experience
    ensures SectionIndex("3") == Some(3) && Sections[3] == Skills
    ensures SectionIndex("4") == Some(4) && Sections[4] == Projects
    ensures SectionIndex("5") == Some(5) && Sections[5] == Contact
  {
  }

  /** "6", a letter and a two-character key such as "10" are ignored. */
  lemma OtherKeysIgnored(mounted: set<Section>)
    ensures ScrollTarget("6", mounted) == None
    ensures ScrollTarget("a", mounted) == None
    ensures ScrollTarget("10", mounted) == None
    ensures ScrollTarget("", mounted) == None
  {
  }

  /** The key of each section brings exactly that section into view when it is mounted. */
  lemma KeyReachesSection(k: nat, mounted: set<Section>)
    requires k < |Sections|
    ensures ScrollTarget(ToDecimal(k), mounted) == if Sections[k] in mounted then Some(Sections[k]) else None
  {
    assert ToDecimal(k) == [DigitChar(k)];
  }
}
