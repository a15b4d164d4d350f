/**
 * Exams and proctors (src/scheduler/exam_proctor.py). An exam's course code
 * and the classifications derived from it are pure functions of its title;
 * the block is its date and time. Exams and proctors themselves are objects
 * whose assignment and constraint lists other components append to.
 */
module ExamProctor {
  import opened Outcomes
  import opened Text

  /** Course codes of the first-year masters programme. */
  const FirstYearMastersCourses: seq<int> := [503, 504, 505, 506, 509, 510, 515, 516]

  /** The department marker a masters exam's title carries. */
  const Department: string := "ECON"

  /** How many scripts Unicode 15.0 gives decimal digits. */
  const Scripts: nat := 68

  /**
   * The digit zero of script `k`, in ascending order, ASCII first: each
   * script's decimal digits are the ten code points from its zero.
   */
  function ZeroOf(k: nat): int
    requires k < Scripts
  {
    if k == 0 then 0x30
    else if k == 1 then 0x660
    else if k == 2 then 0x6F0
    else if k == 3 then 0x7C0
    else if k == 4 then 0x966
    else if k == 5 then 0x9E6
    else if k == 6 then 0xA66
    else if k == 7 then 0xAE6
    else if k == 8 then 0xB66
    else if k == 9 then 0xBE6
    else if k == 10 then 0xC66
    else if k == 11 then 0xCE6
    else if k == 12 then 0xD66
    else if k == 13 then 0xDE6
    else if k == 14 then 0xE50
    else if k == 15 then 0xED0
    else if k == 16 then 0xF20
    else if k == 17 then 0x1040
    else if k == 18 then 0x1090
    else if k == 19 then 0x17E0
    else if k == 20 then 0x1810
    else if k == 21 then 0x1946
    else if k == 22 then 0x19D0
    else if k == 23 then 0x1A80
    else if k == 24 then 0x1A90
    else if k == 25 then 0x1B50
    else if k == 26 then 0x1BB0
    else if k == 27 then 0x1C40
    else if k == 28 then 0x1C50
    else if k == 29 then 0xA620
    else if k == 30 then 0xA8D0
    else if k == 31 then 0xA900
    else if k == 32 then 0xA9D0
    else if k == 33 then 0xA9F0
    else if k == 34 then 0xAA50
    else if k == 35 then 0xABF0
    else if k == 36 then 0xFF10
    else if k == 37 then 0x104A0
    else if k == 38 then 0x10D30
    else if k == 39 then 0x11066
    else if k == 40 then 0x110F0
    else if k == 41 then 0x11136
    else if k == 42 then 0x111D0
    else if k == 43 then 0x112F0
    else if k == 44 then 0x11450
    else if k == 45 then 0x114D0
    else if k == 46 then 0x11650
    else if k == 47 then 0x116C0
    else if k == 48 then 0x11730
    else if k == 49 then 0x118E0
    else if k == 50 then 0x11950
    else if k == 51 then 0x11C50
    else if k == 52 then 0x11D50
    else if k == 53 then 0x11DA0
    else if k == 54 then 0x11F50
    else if k == 55 then 0x16A60
    else if k == 56 then 0x16AC0
    else if k == 57 then 0x16B50
    else if k == 58 then 0x1D7CE
    else if k == 59 then 0x1D7D8
    else if k == 60 then 0x1D7E2
    else if k == 61 then 0x1D7EC
    else if k == 62 then 0x1D7F6
    else if k == 63 then 0x1E140
    else if k == 64 then 0x1E2F0
    else if k == 65 then 0x1E4F0
    else if k == 66 then 0x1E950
    else 0x1FBF0
  }

  /**
   * The digit zero of the script whose decimal digit is code point `n`,
   * searching the scripts from `k` on, or -1 when `n` is no decimal digit.
   */
  function DigitZero(n: int, k: nat := 0): (z: int)
    requires k <= Scripts
    ensures z == -1 || z <= n < z + 10
    decreases Scripts - k
  {
    if k == Scripts then -1
    else if ZeroOf(k) <= n < ZeroOf(k) + 10 then ZeroOf(k)
    else DigitZero(n, k + 1)
  }

  /** What `\d` matches: a decimal digit of any script. */
  predicate IsDigit(c: char) {
    DigitZero(c as int) != -1
  }

  /** The value `int` gives a decimal digit. */
  function DigitValue(c: char): (d: int)
    requires IsDigit(c)
    ensures 0 <= d <= 9
  {
    c as int - DigitZero(c as int)
  }

  /** The ASCII digits are decimal digits with their usual values. */
  lemma AsciiDigit(c: char)
    requires '0' <= c <= '9'
    ensures IsDigit(c) && DigitValue(c) == c as int - '0' as int
  {
    assert ZeroOf(0) == '0' as int;
  }

  /** Three consecutive decimal digits start at index `i` of `s`. */
  predicate RunAt(s: string, i: int) {
    0 <= i && i + 3 <= |s| && IsDigit(s[i]) && IsDigit(s[i + 1]) && IsDigit(s[i + 2])
  }

  /** `i` is the leftmost start of a three-digit run in `s`. */
  predicate LeftmostRun(s: string, i: int) {
    RunAt(s, i) && forall j :: 0 <= j < i ==> !RunAt(s, j)
  }

  /** The decimal value of the three digits starting at `i`. */
  function RunValue(s: string, i: int): int
    requires RunAt(s, i)
  {
    100 * DigitValue(s[i]) + 10 * DigitValue(s[i + 1]) + DigitValue(s[i + 2])
  }

  /** The regular-expression search for `\d{3}`, scanning from index `from`. */
  function FirstRunFrom(s: string, from: nat): (r: Option<nat>)
    requires from <= |s|
    ensures r.Some? ==> from <= r.value && RunAt(s, r.value)
                        && forall j :: from <= j < r.value ==> !RunAt(s, j)
    ensures r.None? ==> forall j :: from <= j ==> !RunAt(s, j)
    decreases |s| - from
  {
    if from + 3 > |s| then None
    else if RunAt(s, from) then Some(from)
    else FirstRunFrom(s, from + 1)
  }

  /**
   * The course code of an exam title: the leftmost run of three digits read
   * as an integer; a title without one raises ValueError.
   */
  function CourseCode(title: string): (r: Result<int, PyError>)
    ensures r.Ok? <==> exists i :: RunAt(title, i)
    ensures r.Err? ==> r.error == ValueError
    ensures r.Ok? ==> 0 <= r.value <= 999
    ensures r.Ok? ==> exists i :: LeftmostRun(title, i) && r.value == RunValue(title, i)
  {
    match FirstRunFrom(title, 0)
    case None => Err(ValueError)
    case Some(i) => assert LeftmostRun(title, i); Ok(RunValue(title, i))
  }

  predicate HasCourseCode(title: string) {
    CourseCode(title).Ok?
  }

  function RequiresPhdProctor(title: string): Result<bool, PyError> {
    match CourseCode(title)
    case Err(e) => Err(e)
    case Ok(code) => Ok(code >= 500)
  }

  function IsFirstYearMastersExam(title: string): Result<bool, PyError> {
    match CourseCode(title)
    case Err(e) => Err(e)
    case Ok(code) => Ok(code in FirstYearMastersCourses && Contains(title, Department))
  }

  function IsSecondYearMastersExam(title: string): Result<bool, PyError> {
    match CourseCode(title)
    case Err(e) => Err(e)
    case Ok(code) =>
      Ok(code >= 500 && Contains(title, Department) && !IsFirstYearMastersExam(title).value)
  }

  /** The block (time slot) of an exam. */
  function BlockOf(date: string, time: string): string {
    date + " " + time
  }

  /** The blocks of a list of exams, in order. */
  function BlocksOf(es: seq<Exam>): (r: seq<string>)
    ensures |r| == |es| && forall i :: 0 <= i < |es| ==> r[i] == es[i].Block()
  {
    if es == [] then [] else BlocksOf(es[..|es| - 1]) + [es[|es| - 1].Block()]
  }

  /** Two leftmost runs of the same title are the same run. */
  lemma LeftmostRunUnique(s: string, i: int, j: int)
    requires LeftmostRun(s, i) && LeftmostRun(s, j)
    ensures i == j
  {
  }

  /**
   * Every classification raises exactly when the title has no course code;
   * otherwise, with `i` the leftmost three-digit run of the title, an exam
   * needs a PhD proctor exactly when the run reads at least 500, is a
   * first-year masters exam exactly when the run reads one of the listed
   * codes and the title names the department, and the masters exams (first
   * or second year, never both) are exactly the department's exams coded 500
   * or above. Either kind of masters exam therefore needs a PhD proctor.
   */
  lemma Classification(title: string)
    ensures CourseCode(title).Err? <==> forall i :: !RunAt(title, i)
    ensures CourseCode(title).Err? ==>
      && RequiresPhdProctor(title) == Err(ValueError)
      && IsFirstYearMastersExam(title) == Err(ValueError)
      && IsSecondYearMastersExam(title) == Err(ValueError)
    ensures forall i :: LeftmostRun(title, i) ==>
      && RequiresPhdProctor(title) == Ok(RunValue(title, i) >= 500)
      && IsFirstYearMastersExam(title)
         == Ok(RunValue(title, i) in FirstYearMastersCourses && Contains(title, Department))
    ensures HasCourseCode(title) ==>
      && !(IsFirstYearMastersExam(title).value && IsSecondYearMastersExam(title).value)
      && (IsFirstYearMastersExam(title).value || IsSecondYearMastersExam(title).value
          <==> CourseCode(title).value >= 500 && Contains(title, Department))
      && (IsFirstYearMastersExam(title).value ==> RequiresPhdProctor(title).value)
      && (IsSecondYearMastersExam(title).value ==> RequiresPhdProctor(title).value)
  {
    forall i | LeftmostRun(title, i)
      ensures CourseCode(title) == Ok(RunValue(title, i))
    {
      var j :| LeftmostRun(title, j) && CourseCode(title).value == RunValue(title, j);
      LeftmostRunUnique(title, i, j);
    }
  }

  /**
   * A block names its date and time unambiguously as long as dates hold no
   * space; exams with equal date and time always share a block.
   */
  lemma {:induction false} BlockDeterminesSlot(d1: string, t1: string, d2: string, t2: string)
    requires ' ' !in d1 && ' ' !in d2
    ensures BlockOf(d1, t1) == BlockOf(d2, t2) <==> d1 == d2 && t1 == t2
  {
    if BlockOf(d1, t1) == BlockOf(d2, t2) {
      var b := BlockOf(d1, t1);
      assert b[..|d1|] == d1 && b[|d1|] == ' ';
      assert b[..|d2|] == d2 && b[|d2|] == ' ';
      assert |d1| == |d2|;
      assert d1 == b[..|d1|] == d2;
      assert t1 == b[|d1| + 1..] == t2;
    }
  }

  /** Who an exam requires: the stored value may be a proctor object or a text. */
  datatype Specific = ByProctor(proctor: Proctor) | ByText(text: string)

  class Exam {
    const title: string
    const date: string
    const time: string
    const classroom: string
    var instructor: string
    var numberOfProctorsNeeded: int
    var requiresSpecificProctor: Option<Specific>
    var proctors: seq<Proctor>

    /** Stores the five fields stripped of surrounding whitespace; nothing is assigned yet. */
    constructor(title: string, date: string, time: string, classroom: string, instructor: string)
      ensures this.title == Strip(title) && this.date == Strip(date) && this.time == Strip(time)
      ensures this.classroom == Strip(classroom) && this.instructor == Strip(instructor)
      ensures numberOfProctorsNeeded == 0 && requiresSpecificProctor == None && proctors == []
    {
      this.title := Strip(title);
      this.date := Strip(date);
      this.time := Strip(time);
      this.classroom := Strip(classroom);
      new;
      this.instructor := Strip(instructor);
      numberOfProctorsNeeded := 0;
      requiresSpecificProctor := None;
      proctors := [];
    }

    function Block(): string {
      BlockOf(date, time)
    }
  }

  class Proctor {
    const name: string
    const email: string
    const totalProctoredBefore: int
    const proctorClass: int
    var unavailable: seq<string>
    var notPreferred: seq<string>
    var duties: seq<Exam>

    /** Stores name and email stripped, the counts unchanged, and no constraints or duties. */
    constructor(name: string, email: string, totalProctoredBefore: int, proctorClass: int)
      ensures this.name == Strip(name) && this.email == Strip(email)
      ensures this.totalProctoredBefore == totalProctoredBefore && this.proctorClass == proctorClass
      ensures unavailable == [] && notPreferred == [] && duties == []
    {
      this.name := Strip(name);
      this.email := Strip(email);
      this.totalProctoredBefore := totalProctoredBefore;
      this.proctorClass := proctorClass;
      new;
      unavailable := [];
      notPreferred := [];
      duties := [];
    }
  }
}
