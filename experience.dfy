/**
 * The experience tabs of src/components/Experience.tsx: the selected tab id
 * and the record shown, kept in step by `handleTabChange`, which looks the id
 * up with `experiences.find`.
 */
module Experience {
  import opened Wrappers

  /** The fields of an experience record that the tab logic uses. */
  datatype Record = Record(id: int, company: string, position: string)

  const Experiences: seq<Record> := [
    Record(1, "FYERS", "Senior Software Engineer"),
    Record(2, "Plaza", "Software Development Engineer - Backend"),
    Record(3, "Quantum Dynamics Corp", "Back End Developer"),
    Record(4, "KorazÃ³n", "Backend Developer")
  ]

  predicate HasId(xs: seq<Record>, id: int) {
    exists i :: 0 <= i < |xs| && xs[i].id == id
  }

  predicate UniqueIds(xs: seq<Record>) {
    forall i, j :: 0 <= i < j < |xs| ==> xs[i].id != xs[j].id
  }

  /** No record before position `k` has the id. */
  predicate NoIdBefore(xs: seq<Record>, id: int, k: nat)
    requires k <= |xs|
  {
    forall j :: 0 <= j < k ==> xs[j].id != id
  }

  /** `xs.find(exp => exp.id === id)`: the first record with that id, or undefined. */
  function Find(xs: seq<Record>, id: int): (r: Option<Record>)
    ensures r.Some? <==> HasId(xs, id)
    ensures r.Some? ==> r.value in xs && r.value.id == id
    ensures r.Some? ==> exists k :: 0 <= k < |xs| && xs[k] == r.value && NoIdBefore(xs, id, k)
  {
    if xs == [] then None
    else if xs[0].id == id then Some(xs[0])
    else
      var r := Find(xs[1..], id);
      assert HasId(xs, id) ==> xs[0].id == id || HasId(xs[1..], id) by {
        if HasId(xs, id) {
          var i :| 0 <= i < |xs| && xs[i].id == id;
          if i > 0 { assert xs[1..][i - 1] == xs[i]; }
        }
      }
      assert HasId(xs[1..], id) ==> HasId(xs, id) by {
        if HasId(xs[1..], id) {
          var i :| 0 <= i < |xs[1..]| && xs[1..][i].id == id;
          assert xs[i + 1] == xs[1..][i];
        }
      }
      assert r.Some? ==> exists k :: 0 <= k < |xs| && xs[k] == r.value && NoIdBefore(xs, id, k) by {
        if r.Some? {
          var k :| 0 <= k < |xs[1..]| && xs[1..][k] == r.value && NoIdBefore(xs[1..], id, k);
          assert xs[k + 1] == r.value;
          assert NoIdBefore(xs, id, k + 1) by {
            forall j | 0 <= j < k + 1
              ensures xs[j].id != id
            {
              if j > 0 { assert xs[j] == xs[1..][j - 1]; }
            }
          }
        }
      }
      r
  }

  /** With unique ids the record found is the one at the id's position. */
  lemma FindUnique(xs: seq<Record>, k: nat)
    requires UniqueIds(xs) && k < |xs|
    ensures Find(xs, xs[k].id) == Some(xs[k])
  {
    var r := Find(xs, xs[k].id);
    var i :| 0 <= i < |xs| && xs[i] == r.value;
    assert i == k;
  }

  lemma ExperiencesUnique()
    ensures UniqueIds(Experiences)
  {
  }

  /** A tab button is highlighted exactly when its id is the selected one. */
  predicate Highlighted(selectedTab: int, exp: Record) {
    selectedTab == exp.id
  }

  /** The positions of the highlighted tab buttons. */
  function HighlightedTabs(xs: seq<Record>, selectedTab: int): set<nat> {
    set i: nat | i < |xs| && Highlighted(selectedTab, xs[i])
  }

  /** With unique ids, an existing selection highlights exactly one tab: the record with that id. */
  lemma ExactlyOneHighlighted(xs: seq<Record>, selectedTab: int)
    requires UniqueIds(xs) && HasId(xs, selectedTab)
    ensures exists k :: 0 <= k < |xs| && xs[k].id == selectedTab && HighlightedTabs(xs, selectedTab) == {k}
  {
    var k :| 0 <= k < |xs| && xs[k].id == selectedTab;
    assert HighlightedTabs(xs, selectedTab) == {k};
  }

  class Tabs {
    var selectedTab: int
    var currentExperience: Option<Record>

    /** The shown record belongs to the list and carries the selected id. */
    ghost predicate Valid()
      reads this
    {
      currentExperience.Some? && currentExperience.value in Experiences
      && currentExperience.value.id == selectedTab
    }

    constructor ()
      ensures selectedTab == 1 && currentExperience == Some(Experiences[0])
      ensures Valid()
    {
      selectedTab := 1;
      currentExperience := Find(Experiences, 1);
    }

    /** `handleTabChange`: switch to an existing id, ignore an unknown one. */
    method HandleTabChange(tabId: int)
      requires Valid()
      modifies this
      ensures Valid()
      ensures HasId(Experiences, tabId) ==>
        selectedTab == tabId && currentExperience == Find(Experiences, tabId)
      ensures !HasId(Experiences, tabId) ==>
        selectedTab == old(selectedTab) && currentExperience == old(currentExperience)
    {
      var newExperience := Find(Experiences, tabId);
      if newExperience.Some? {
        selectedTab := tabId;
        currentExperience := newExperience;
      }
    }
  }
}
