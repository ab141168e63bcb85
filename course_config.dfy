/**
 * Course configuration: which subjects have Foundation/Higher papers, the
 * three grade-boundary tables, and the paper and grade choices offered to a
 * learner (lib/courseConfig.ts).
 */
module CourseConfig {

  /** The target paper of an enrollment: 'foundation', 'higher' or 'none'. */
  datatype Paper = Foundation | Higher | NoTier {
    function Name(): string {
      match this
      case Foundation => "foundation"
      case Higher => "higher"
      case NoTier => "none"
    }
  }

  const TwoTierSubjects: seq<string> :=
    ["maths", "englishlanguage", "chemistry", "physics", "biology", "combined-science", "english-literature"]

  const SingleTierSubjects: seq<string> := ["computerscience", "history", "geography", "business"]

  /** `hasTwoTiers`: membership in the two-tier list; every other slug is single-tier. */
  predicate HasTwoTiers(courseSlug: string) {
    courseSlug in TwoTierSubjects
  }

  /** No subject is listed both as two-tier and as single-tier. */
  lemma TierListsDisjoint()
    ensures forall s :: s in SingleTierSubjects ==> !HasTwoTiers(s)
  {
  }

  /**
   * Neither spelling of the computer-science slug is two-tier: the course
   * page queries 'computer-science', the configuration lists 'computerscience'.
   */
  lemma ComputerScienceIsSingleTier()
    ensures !HasTwoTiers("computer-science") && !HasTwoTiers("computerscience")
    ensures "computer-science" !in SingleTierSubjects
  {
  }

  /** One entry of a grade-boundary table: the lowest accuracy (percent) that earns `grade`. */
  datatype Boundary = Boundary(grade: int, minAccuracy: int)

  /**
   * A boundary table as a JavaScript object with integer keys enumerates
   * it: grades strictly ascending; this model's tables also have strictly
   * ascending boundaries starting at 0.
   */
  predicate IsTable(t: seq<Boundary>) {
    && |t| > 0
    && (forall i, j :: 0 <= i < j < |t| ==> t[i].grade < t[j].grade)
  }

  type Table = t: seq<Boundary> | IsTable(t) witness [Boundary(1, 0)]

  /** The grades a table can produce, lowest first (its keys). */
  function Grades(t: seq<Boundary>): (r: seq<int>)
    ensures |r| == |t| && forall i :: 0 <= i < |t| ==> r[i] == t[i].grade
  {
    seq(|t|, i requires 0 <= i < |t| => t[i].grade)
  }

  const FoundationBoundaries: Table :=
    [Boundary(1, 0), Boundary(2, 15), Boundary(3, 28), Boundary(4, 43), Boundary(5, 60)]

  const HigherBoundaries: Table :=
    [Boundary(4, 0), Boundary(5, 20), Boundary(6, 33), Boundary(7, 48), Boundary(8, 63), Boundary(9, 78)]

  const SingleBoundaries: Table :=
    [Boundary(1, 0), Boundary(2, 10), Boundary(3, 20), Boundary(4, 30), Boundary(5, 40),
     Boundary(6, 50), Boundary(7, 60), Boundary(8, 70), Boundary(9, 80)]

  /** Boundaries strictly increase with grade, and the lowest grade starts at 0%. */
  predicate BoundariesRise(t: seq<Boundary>) {
    && |t| > 0 && t[0].minAccuracy == 0
    && forall i, j :: 0 <= i < j < |t| ==> t[i].minAccuracy < t[j].minAccuracy
  }

  lemma TablesRise()
    ensures BoundariesRise(FoundationBoundaries)
    ensures BoundariesRise(HigherBoundaries)
    ensures BoundariesRise(SingleBoundaries)
  {
  }

  /** A choice in the paper picker. */
  datatype PaperOption = PaperOption(value: Paper, caption: string)

  /** `getTargetPaperOptions`: both papers for a two-tier subject, nothing otherwise. */
  function GetTargetPaperOptions(courseSlug: string): (r: seq<PaperOption>)
    ensures HasTwoTiers(courseSlug) ==> |r| == 2 && r[0].value == Foundation && r[1].value == Higher
    ensures !HasTwoTiers(courseSlug) ==> r == []
  {
    if HasTwoTiers(courseSlug) then
      [PaperOption(Foundation, "Foundation Paper (Grades 1-5)"), PaperOption(Higher, "Higher Paper (Grades 4-9)")]
    else []
  }

  /** The grade range a paper admits: Foundation 1-5, Higher 4-9, single tier 1-9. */
  function LowestGrade(paper: Paper): int {
    if paper == Higher then 4 else 1
  }

  function HighestGrade(paper: Paper): int {
    if paper == Foundation then 5 else 9
  }

  predicate StrictlyAscending(s: seq<int>) {
    forall i, j :: 0 <= i < j < |s| ==> s[i] < s[j]
  }

  /** `getTargetGradeOptions`: every grade of the paper's range, ascending, without repeats. */
  function GetTargetGradeOptions(paper: Paper): (r: seq<int>)
    ensures StrictlyAscending(r)
    ensures forall g :: g in r <==> LowestGrade(paper) <= g <= HighestGrade(paper)
  {
    if paper == Foundation then [1, 2, 3, 4, 5]
    else if paper == Higher then [4, 5, 6, 7, 8, 9]
    else [1, 2, 3, 4, 5, 6, 7, 8, 9]
  }

  /** Each table's keys are exactly the grades the matching paper offers as targets. */
  lemma TableKeysAreGradeOptions()
    ensures Grades(FoundationBoundaries) == GetTargetGradeOptions(Foundation)
    ensures Grades(HigherBoundaries) == GetTargetGradeOptions(Higher)
    ensures Grades(SingleBoundaries) == GetTargetGradeOptions(NoTier)
  {
    assert Grades(FoundationBoundaries) == [1, 2, 3, 4, 5];
    assert Grades(HigherBoundaries) == [4, 5, 6, 7, 8, 9];
    assert Grades(SingleBoundaries) == [1, 2, 3, 4, 5, 6, 7, 8, 9];
  }
}
