/**
 * The target-grade picker (components/SetTargetGradeModal.tsx): the
 * selected paper and grade, their initial values, and the grade
 * adjustment made when the paper changes.
 */
module TargetGrade {
  import opened Wrappers
  import opened CourseConfig
  import opened JsNumber

  /** `currentPaper || (hasTiers ? 'foundation' : 'none')`. */
  function InitialPaper(courseSlug: string, currentPaper: Option<Paper>): (p: Paper)
    ensures currentPaper.Some? ==> p == currentPaper.value
    ensures currentPaper.None? && HasTwoTiers(courseSlug) ==> p == Foundation
    ensures currentPaper.None? && !HasTwoTiers(courseSlug) ==> p == NoTier
  {
    match currentPaper
    case Some(p) => p
    case None => if HasTwoTiers(courseSlug) then Foundation else NoTier
  }

  /** `currentGrade || 4`: an absent grade and a grade of 0 both become 4. */
  function InitialGrade(currentGrade: Option<int>): (g: int)
    ensures currentGrade.Some? && currentGrade.value != 0 ==> g == currentGrade.value
    ensures currentGrade.None? || currentGrade.value == 0 ==> g == 4
  {
    if currentGrade.Some? && currentGrade.value != 0 then currentGrade.value else 4
  }

  /**
   * The grade after switching to `paper`: capped at 5 for Foundation,
   * raised to 4 for Higher, kept otherwise. A grade of 1..9 always lands
   * among the new paper's options.
   */
  function ClampGrade(paper: Paper, grade: int): (r: int)
    ensures paper == Foundation ==> r == Min(grade, 5)
    ensures paper == Higher ==> r == Max(grade, 4)
    ensures paper == NoTier ==> r == grade
    ensures 1 <= grade <= 9 ==> r in GetTargetGradeOptions(paper)
  {
    if paper == Foundation && grade > 5 then 5
    else if paper == Higher && grade < 4 then 4
    else grade
  }

  /** A grade that is already legal for the paper is left alone. */
  lemma ClampKeepsLegalGrade(paper: Paper, grade: int)
    requires grade in GetTargetGradeOptions(paper)
    ensures ClampGrade(paper, grade) == grade
  {
  }

  /** Changing to the same paper twice is changing to it once. */
  lemma ClampIdempotent(paper: Paper, grade: int)
    ensures ClampGrade(paper, ClampGrade(paper, grade)) == ClampGrade(paper, grade)
  {
  }

  /**
   * The initial state is not clamped: a stored Foundation target with
   * grade 7 opens with a grade the Foundation paper does not offer.
   */
  lemma InitialGradeNotClamped(courseSlug: string)
    ensures InitialGrade(Some(7)) !in GetTargetGradeOptions(InitialPaper(courseSlug, Some(Foundation)))
  {
  }

  class Picker {
    var selectedPaper: Paper
    var selectedGrade: int
    var saving: bool

    /** The selected grade is one the selected paper offers. */
    ghost predicate Legal()
      reads this
    {
      selectedGrade in GetTargetGradeOptions(selectedPaper)
    }

    /** `availableGrades`. */
    function AvailableGrades(): (r: seq<int>)
      reads this
      ensures forall g :: g in r <==> LowestGrade(selectedPaper) <= g <= HighestGrade(selectedPaper)
    {
      GetTargetGradeOptions(selectedPaper)
    }

    constructor (courseSlug: string, currentPaper: Option<Paper>, currentGrade: Option<int>)
      ensures selectedPaper == InitialPaper(courseSlug, currentPaper)
      ensures selectedGrade == InitialGrade(currentGrade)
      ensures !saving
    {
      selectedPaper := InitialPaper(courseSlug, currentPaper);
      selectedGrade := InitialGrade(currentGrade);
      saving := false;
    }

    /** `handlePaperChange`: set the paper, then pull the grade into its range. */
    method HandlePaperChange(paper: Paper)
      modifies this
      ensures selectedPaper == paper
      ensures selectedGrade == ClampGrade(paper, old(selectedGrade))
      ensures saving == old(saving)
      ensures 1 <= old(selectedGrade) <= 9 ==> Legal()
    {
      selectedPaper := paper;
      if paper == Foundation && selectedGrade > 5 {
        selectedGrade := 5;
      } else if paper == Higher && selectedGrade < 4 {
        selectedGrade := 4;
      }
    }

    /** A grade button: `setSelectedGrade(grade)` for one of `availableGrades`. */
    method SelectGrade(grade: int)
      modifies this
      ensures selectedGrade == grade
      ensures selectedPaper == old(selectedPaper) && saving == old(saving)
      ensures grade in old(AvailableGrades()) ==> Legal()
    {
      selectedGrade := grade;
    }

    /**
     * `handleSave`: hands the selection to the caller's save callback
     * (whose failure is `saveFails`) and closes the picker on success.
     */
    method HandleSave(saveFails: bool) returns (sentPaper: Paper, sentGrade: int, closed: bool)
      modifies this
      ensures sentPaper == selectedPaper && sentGrade == selectedGrade
      ensures closed == !saveFails
      ensures !saving
      ensures selectedPaper == old(selectedPaper) && selectedGrade == old(selectedGrade)
    {
      saving := true;
      sentPaper, sentGrade := selectedPaper, selectedGrade;
      closed := !saveFails;
      saving := false;
    }
  }

  /** Two changes to the same paper leave the same state as one. */
  method PaperChangeTwice(picker: Picker, paper: Paper)
    modifies picker
    ensures picker.selectedPaper == paper
    ensures picker.selectedGrade == ClampGrade(paper, old(picker.selectedGrade))
  {
    picker.HandlePaperChange(paper);
    picker.HandlePaperChange(paper);
    ClampIdempotent(paper, old(picker.selectedGrade));
  }
}
