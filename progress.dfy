/**
 * The segmented progress bar of src/components/ui/progress.tsx: ten dots,
 * lit from the left as the value passes each multiple of ten, an indicator
 * shifted left by `100 - value` percent, and a default colour class.
 */
module Progress {
  import opened Wrappers

  const SegmentCount: nat := 10
  const DefaultColorClass: string := "bg-primary"

  /** `value || 0`: a missing value counts as 0. */
  function Effective(value: Option<int>): int {
    value.GetOr(0)
  }

  /** Segment `i` takes the colour when `(value || 0) >= (i + 1) * 10`. */
  predicate SegmentLit(value: Option<int>, i: nat) {
    Effective(value) >= (i + 1) * 10
  }

  function Segments(value: Option<int>): (r: seq<bool>)
    ensures |r| == SegmentCount
    ensures forall i :: 0 <= i < SegmentCount ==> r[i] == SegmentLit(value, i)
  {
    seq(SegmentCount, i requires 0 <= i => SegmentLit(value, i))
  }

  /** Number of lit entries. */
  function CountLit(s: seq<bool>): (n: nat)
    ensures n <= |s|
  {
    if s == [] then 0 else (if s[0] then 1 else 0) + CountLit(s[1..])
  }

  /** Lit segments form a prefix: a lit segment has only lit segments to its left. */
  lemma LitIsPrefix(value: Option<int>, i: nat, j: nat)
    requires i <= j < SegmentCount && Segments(value)[j]
    ensures Segments(value)[i]
  {
  }

  /** A sequence lit exactly on its first `k` positions has `k` lit entries. */
  lemma {:induction false} CountLitPrefix(s: seq<bool>, k: nat)
    requires k <= |s|
    requires forall i :: 0 <= i < |s| ==> (s[i] <==> i < k)
    ensures CountLit(s) == k
    decreases |s|
  {
    if s != [] {
      CountLitPrefix(s[1..], if k == 0 then 0 else k - 1);
    }
  }

  /** The number of lit segments is the value's whole tens, between 0 and 10. */
  lemma LitCount(value: Option<int>)
    ensures CountLit(Segments(value)) ==
      (if Effective(value) < 0 then 0 else if Effective(value) >= 100 then 10 else Effective(value) / 10)
  {
    var v := Effective(value);
    var k := if v < 0 then 0 else if v >= 100 then 10 else v / 10;
    forall i | 0 <= i < SegmentCount
      ensures Segments(value)[i] <==> i < k
    {
      assert Segments(value)[i] == (v >= (i + 1) * 10);
    }
    CountLitPrefix(Segments(value), k);
  }

  /** A missing value lights nothing and shifts the indicator fully out: offset 100. */
  lemma MissingValue()
    ensures CountLit(Segments(None)) == 0
    ensures IndicatorOffset(None) == 100
  {
    LitCount(None);
  }

  /** `translateX(-${100 - (value || 0)}%)`: how far left the indicator is shifted, in percent. */
  function IndicatorOffset(value: Option<int>): int {
    100 - Effective(value)
  }

  /** `colorClass || "bg-primary"`. */
  function ColorClass(colorClass: Option<string>): (r: string)
    ensures r != ""
    ensures r == DefaultColorClass || colorClass == Some(r)
    ensures Truthy(colorClass) ==> r == colorClass.value
    ensures !Truthy(colorClass) ==> r == DefaultColorClass
  {
    if Truthy(colorClass) then colorClass.value else DefaultColorClass
  }

  /** The indicator's shift mirrors the lit segments: for a value in 0..100 the bar lights the whole tens of what the shift leaves. */
  lemma OffsetMatchesSegments(v: int)
    requires 0 <= v <= 100
    ensures 0 <= IndicatorOffset(Some(v)) <= 100
    ensures CountLit(Segments(Some(v))) == (100 - IndicatorOffset(Some(v))) / 10
  {
    LitCount(Some(v));
  }
}
