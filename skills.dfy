/**
 * The skills section of src/components/Skills.tsx: the skill list, its split
 * into two columns with `slice(0, 4)` and `slice(4)`, and each bar's
 * percentage label and width.
 */
module Skills {
  import opened Wrappers
  import opened Decimal

  datatype Skill = Skill(name: string, level: nat, colorClass: string)

  const SkillList: seq<Skill> := [
    Skill("Go (Programming Language)", 90, "bg-skillbar-go"),
    Skill("AWS", 85, "bg-skillbar-aws"),
    Skill("Apache Kafka", 80, "bg-skillbar-kafka"),
    Skill("Node.js", 75, "bg-skillbar-nodejs"),
    Skill("TypeScript", 70, "bg-skillbar-typescript"),
    Skill("Redis", 85, "bg-skillbar-redis"),
    Skill("Django", 65, "bg-skillbar-django")
  ]

  /** Number of skills in the first column. */
  const FirstColumnSize: nat := 4

  /** `skills.slice(0, 4)`: JavaScript clamps the end to the length. */
  function FirstColumn<T>(xs: seq<T>): seq<T> {
    xs[..if |xs| < FirstColumnSize then |xs| else FirstColumnSize]
  }

  /** `skills.slice(4)`: empty when there are fewer than four. */
  function SecondColumn<T>(xs: seq<T>): seq<T> {
    xs[if |xs| < FirstColumnSize then |xs| else FirstColumnSize..]
  }

  /** The two columns list every skill exactly once, in order, the first holding min(4, n) of them. */
  lemma ColumnsPartition<T>(xs: seq<T>)
    ensures FirstColumn(xs) + SecondColumn(xs) == xs
    ensures |FirstColumn(xs)| == (if |xs| < 4 then |xs| else 4)
    ensures |SecondColumn(xs)| == |xs| - |FirstColumn(xs)|
    ensures multiset(FirstColumn(xs)) + multiset(SecondColumn(xs)) == multiset(xs)
  {
    assert FirstColumn(xs) + SecondColumn(xs) == xs;
  }

  /** `${skill.level}%`, used both as the percentage label and as the bar's CSS width. */
  function Percent(level: nat): string {
    ToDecimal(level) + "%"
  }

  function BarLabel(s: Skill): string {
    Percent(s.level)
  }

  function BarWidth(s: Skill): string {
    Percent(s.level)
  }

  /** Reading a CSS percentage back: digits followed by '%'. */
  function ParsePercent(w: string): Option<nat> {
    if |w| > 0 && w[|w| - 1] == '%' then ParseDecimal(w[..|w| - 1]) else None
  }

  /** Label and width of a bar both read back as the skill's level. */
  lemma BarShowsLevel(s: Skill)
    ensures ParsePercent(BarLabel(s)) == Some(s.level)
    ensures BarWidth(s) == BarLabel(s)
  {
    ParseToDecimal(s.level);
    assert BarLabel(s)[..|BarLabel(s)| - 1] == ToDecimal(s.level);
  }

  /** Every level in the list is a valid percentage. */
  lemma LevelsArePercentages()
    ensures forall i :: 0 <= i < |SkillList| ==> SkillList[i].level <= 100
  {
  }
}
