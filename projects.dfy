/**
 * The project cards of src/components/Projects.tsx: each card's animation
 * delay and file label come from its position, and the SOURCE link appears
 * only for a project with a repository link.
 */
module Projects {
  import opened Wrappers
  import opened Decimal

  datatype Project = Project(id: nat, title: string, link: string, github: Option<string>)

  const ProjectList: seq<Project> := [
    Project(1, "FIA (FYERS Intelligent Assistant)", "https://app.fyers.in/discover/screeners/fia", None),
    Project(2, "Funds Module", "https://app.fyers.in/funds", None)
  ]

  /** Milliseconds between the fade-ins of consecutive cards. */
  const StaggerStep: nat := 100

  /** `index * 100`, the card's `animationDelay` in milliseconds. */
  function StaggerDelay(index: nat): nat {
    index * StaggerStep
  }

  /** `${index * 100}ms`, the CSS value of that delay. */
  function DelayStyle(index: nat): string {
    ToDecimal(StaggerDelay(index)) + "ms"
  }

  /** The style string carries the delay: its digits read back as `index * 100`, followed by "ms". */
  lemma DelayStyleShowsDelay(index: nat)
    ensures |DelayStyle(index)| > 2 && DelayStyle(index)[|DelayStyle(index)| - 2..] == "ms"
    ensures ParseDecimal(DelayStyle(index)[..|DelayStyle(index)| - 2]) == Some(StaggerDelay(index))
  {
    var digits := ToDecimal(StaggerDelay(index));
    assert DelayStyle(index)[..|DelayStyle(index)| - 2] == digits;
    ParseToDecimal(StaggerDelay(index));
  }

  /** Later cards start strictly later, 100 ms per position. */
  lemma StaggerIncreasing(i: nat, j: nat)
    requires i < j
    ensures StaggerDelay(i) < StaggerDelay(j)
    ensures StaggerDelay(j) - StaggerDelay(i) == (j - i) * 100
  {
  }

  /** `project_{index + 1}.go`, a 1-based file name. */
  function FileLabel(index: nat): string {
    "project_" + ToDecimal(index + 1) + ".go"
  }

  /** The number in a card's label is its position plus one, so no two cards share a label. */
  lemma FileLabelsDistinct(i: nat, j: nat)
    ensures FileLabel(i)[8..|FileLabel(i)| - 3] == ToDecimal(i + 1)
    ensures ParseDecimal(FileLabel(i)[8..|FileLabel(i)| - 3]) == Some(i + 1)
    ensures FileLabel(i) == FileLabel(j) <==> i == j
  {
    ParseToDecimal(i + 1);
    var li := FileLabel(i);
    assert li[8..|li| - 3] == ToDecimal(i + 1);
    if FileLabel(i) == FileLabel(j) {
      var lj := FileLabel(j);
      assert lj[8..|lj| - 3] == ToDecimal(j + 1);
      ToDecimalInjective(i + 1, j + 1);
    }
  }

  /** `{project.github && <a>SOURCE</a>}`: shown for a non-empty repository link. */
  predicate ShowsSourceLink(p: Project) {
    Truthy(p.github)
  }

  /** Neither listed project has a repository link, so no card shows SOURCE. */
  lemma NoListedSourceLinks()
    ensures forall i :: 0 <= i < |ProjectList| ==> !ShowsSourceLink(ProjectList[i])
  {
  }
}
