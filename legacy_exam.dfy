/**
 * The earlier exam class (src/scheduler/exam.py): the same five stripped
 * fields and the same title-derived classifications as the current one,
 * without the assignment state (no proctor list, need or required proctor).
 */
module LegacyExam {
  import opened Outcomes
  import opened Text
  import EP = ExamProctor

  class Exam {
    const title: string
    const date: string
    const time: string
    const classroom: string
    const instructor: string

    /** Stores the five fields stripped of surrounding whitespace. */
    constructor(title: string, date: string, time: string, classroom: string, instructor: string)
      ensures this.title == Strip(title) && this.date == Strip(date) && this.time == Strip(time)
      ensures this.classroom == Strip(classroom) && this.instructor == Strip(instructor)
    {
      this.title := Strip(title);
      this.date := Strip(date);
      this.time := Strip(time);
      this.classroom := Strip(classroom);
      this.instructor := Strip(instructor);
    }

    /**
     * `code`: the leftmost run of three digits of the title, read as an
     * integer; a title without one raises ValueError.
     */
    function Code(): (r: Result<int, PyError>)
      ensures r.Ok? <==> exists i :: EP.RunAt(title, i)
      ensures r.Err? ==> r.error == ValueError
      ensures r.Ok? ==> 0 <= r.value <= 999 && exists i :: EP.LeftmostRun(title, i) && r.value == EP.RunValue(title, i)
    {
      EP.CourseCode(title)
    }

    /** `requires_phd_proctor`: the code is at least 500; raises with `code`. */
    function RequiresPhdProctor(): (r: Result<bool, PyError>)
      ensures r.Err? <==> Code().Err?
      ensures r.Ok? ==> (r.value <==> Code().value >= 500)
    {
      match Code()
      case Err(e) => Err(e)
      case Ok(code) => Ok(code >= 500)
    }

    /** `is_first_year_masters_exam`: a listed first-year code in a department title. */
    function IsFirstYearMastersExam(): (r: Result<bool, PyError>)
      ensures r.Err? <==> Code().Err?
      ensures r.Ok? ==> (r.value <==> Code().value in EP.FirstYearMastersCourses && Contains(title, EP.Department))
    {
      match Code()
      case Err(e) => Err(e)
      case Ok(code) => Ok(code in EP.FirstYearMastersCourses && Contains(title, EP.Department))
    }

    /** `is_second_year_masters_exam`: a department exam coded 500 or above that is not first-year. */
    function IsSecondYearMastersExam(): (r: Result<bool, PyError>)
      ensures r.Err? <==> Code().Err?
      ensures r.Ok? ==> (r.value <==> Code().value >= 500 && Contains(title, EP.Department) && !IsFirstYearMastersExam().value)
    {
      match Code()
      case Err(e) => Err(e)
      case Ok(code) => Ok(code >= 500 && Contains(title, EP.Department) && !IsFirstYearMastersExam().value)
    }

    /** `block`: the date and time, joined by a space. */
    function Block(): string {
      EP.BlockOf(date, time)
    }
  }

  /**
   * An earlier exam and a current one built from the same title, date and
   * time agree on the course code, on every classification and on the block:
   * the current class kept the earlier one's rules and added assignment state.
   */
  lemma {:induction false} AgreesWithCurrent(l: Exam, e: EP.Exam)
    requires l.title == e.title && l.date == e.date && l.time == e.time
    ensures l.Code() == EP.CourseCode(e.title)
    ensures l.RequiresPhdProctor() == EP.RequiresPhdProctor(e.title)
    ensures l.IsFirstYearMastersExam() == EP.IsFirstYearMastersExam(e.title)
    ensures l.IsSecondYearMastersExam() == EP.IsSecondYearMastersExam(e.title)
    ensures l.Block() == e.Block()
  {
  }

  /**
   * The earlier class's classifications obey the same rules: a masters exam
   * is first- or second-year, never both, exactly when it is a department
   * exam coded 500 or above, and either kind needs a PhD proctor.
   */
  lemma MastersKinds(l: Exam)
    requires l.Code().Ok?
    ensures !(l.IsFirstYearMastersExam().value && l.IsSecondYearMastersExam().value)
    ensures l.IsFirstYearMastersExam().value || l.IsSecondYearMastersExam().value
            <==> l.Code().value >= 500 && Contains(l.title, EP.Department)
    ensures l.IsFirstYearMastersExam().value ==> l.RequiresPhdProctor().value
  {
    EP.Classification(l.title);
  }
}
