/**
 * Reading and preparing the input data (src/scheduler/prep_data.py). The
 * exams sheet becomes a list of exam objects, one per classroom of each row;
 * the preparation step then appends blocked time slots to proctors and sets
 * how many proctors each exam needs, either by fixed rules or from sheets the
 * user fills in. Sheets arrive here as values: reading the spreadsheet files
 * is not modelled.
 */
module Preparation {
  import opened Outcomes
  import opened Text
  import opened ExamProctor
  import Assignment

  /*
   * ---------------------------------------------------------------------
   * Parsing the exams sheet (`Parser.parse_exams`)
   * ---------------------------------------------------------------------
   */

  /**
   * One row of the exams sheet. `classrooms` is `None` when the cell is empty
   * (pandas reads it as NaN, which has no `split`).
   */
  datatype ExamRow = ExamRow(title: string, date: string, slots: string, classrooms: Option<string>, instructors: string)

  /** The five text fields of an exam. */
  datatype ExamFields = ExamFields(title: string, date: string, time: string, classroom: string, instructor: string)

  function FieldsOf(e: Exam): ExamFields
    reads e
  {
    ExamFields(e.title, e.date, e.time, e.classroom, e.instructor)
  }

  /** The exams have the given fields, position by position. */
  ghost predicate HaveFields(es: seq<Exam>, fs: seq<ExamFields>)
    reads es
  {
    |es| == |fs| && forall i :: 0 <= i < |es| ==> FieldsOf(es[i]) == fs[i]
  }

  /** What the `Exam` constructor stores for one classroom of a row. */
  function NewFields(row: ExamRow, classroom: string): ExamFields {
    ExamFields(Strip(row.title), Strip(row.date), Strip(row.slots), Strip(classroom), Strip(row.instructors))
  }

  /** One exam per classroom, in the order the cell lists them. */
  function RowExams(row: ExamRow, classrooms: seq<string>): (fs: seq<ExamFields>)
    ensures |fs| == |classrooms|
    ensures forall k :: 0 <= k < |classrooms| ==> fs[k] == NewFields(row, classrooms[k])
  {
    if classrooms == [] then []
    else RowExams(row, classrooms[..|classrooms| - 1]) + [NewFields(row, classrooms[|classrooms| - 1])]
  }

  /**
   * A row without classrooms names another instructor of the exam parsed
   * just before: the exams whose stored title, date and time equal the row's
   * cells as read get ", " and the row's instructors appended.
   */
  predicate Continues(f: ExamFields, row: ExamRow) {
    f.title == row.title && f.date == row.date && f.time == row.slots
  }

  function Continued(f: ExamFields, row: ExamRow): ExamFields {
    if Continues(f, row) then f.(instructor := f.instructor + ", " + row.instructors) else f
  }

  function AddInstructors(fs: seq<ExamFields>, row: ExamRow): (r: seq<ExamFields>)
    ensures |r| == |fs| && forall i :: 0 <= i < |fs| ==> r[i] == Continued(fs[i], row)
  {
    if fs == [] then [] else AddInstructors(fs[..|fs| - 1], row) + [Continued(fs[|fs| - 1], row)]
  }

  /** The title cell of the last row whose classrooms were split, or "" before any. */
  function LastParsed(rows: seq<ExamRow>): string {
    if rows == [] then ""
    else if rows[|rows| - 1].classrooms.Some? then rows[|rows| - 1].title
    else LastParsed(rows[..|rows| - 1])
  }

  /**
   * One row of `parse_exams`, given the exams so far and the title last
   * parsed: split its classrooms cell, or continue the previous exam, or
   * re-raise the AttributeError of the missing cell.
   */
  function ParseStep(fs: seq<ExamFields>, last: string, row: ExamRow): Result<seq<ExamFields>, PyError> {
    if row.classrooms.Some? then Ok(fs + RowExams(row, Split(row.classrooms.value, '|')))
    else if last == row.title then Ok(AddInstructors(fs, row))
    else Err(AttributeError)
  }

  /** The exams `parse_exams` builds from `rows`, or the exception it raises. */
  function Parsed(rows: seq<ExamRow>): Result<seq<ExamFields>, PyError> {
    if rows == [] then Ok([])
    else
      var init := rows[..|rows| - 1];
      match Parsed(init)
      case Err(e) => Err(e)
      case Ok(fs) => ParseStep(fs, LastParsed(init), rows[|rows| - 1])
  }

  /** The number of exams the rows with classrooms produce. */
  function ClassroomCount(rows: seq<ExamRow>): nat {
    if rows == [] then 0
    else
      var row := rows[|rows| - 1];
      ClassroomCount(rows[..|rows| - 1]) + (if row.classrooms.Some? then |Split(row.classrooms.value, '|')| else 0)
  }

  /** A row without classrooms whose title is not the title last parsed. */
  predicate Orphan(rows: seq<ExamRow>, k: int)
    requires 0 <= k < |rows|
  {
    rows[k].classrooms.None? && LastParsed(rows[..k]) != rows[k].title
  }

  lemma OrphanInit(rows: seq<ExamRow>, k: int)
    requires 0 <= k < |rows| - 1
    ensures Orphan(rows, k) == Orphan(rows[..|rows| - 1], k)
  {
    assert rows[..k] == rows[..|rows| - 1][..k];
  }

  /**
   * Parsing fails exactly when some row lacks classrooms without continuing
   * the exam parsed last, and then raises AttributeError.
   */
  lemma {:induction false} ParsedFails(rows: seq<ExamRow>)
    ensures Parsed(rows).Err? <==> exists k :: 0 <= k < |rows| && Orphan(rows, k)
    ensures Parsed(rows).Err? ==> Parsed(rows).error == AttributeError
  {
    if rows != [] {
      var init := rows[..|rows| - 1];
      ParsedFails(init);
      FailsAtEnd(rows);
      if Parsed(init).Err? {
        var k :| 0 <= k < |init| && Orphan(init, k);
        OrphanInit(rows, k);
      } else if !Orphan(rows, |rows| - 1) {
        forall k | 0 <= k < |rows| ensures !Orphan(rows, k) {
          if k < |init| {
            OrphanInit(rows, k);
          }
        }
      }
    }
  }

  /** The last row fails parsing exactly when it is an orphan. */
  lemma FailsAtEnd(rows: seq<ExamRow>)
    requires rows != []
    ensures Parsed(rows).Err? <==> Parsed(rows[..|rows| - 1]).Err? || Orphan(rows, |rows| - 1)
    ensures Parsed(rows).Err? && Parsed(rows[..|rows| - 1]).Ok? ==> Parsed(rows).error == AttributeError
    ensures Parsed(rows[..|rows| - 1]).Err? ==> Parsed(rows) == Parsed(rows[..|rows| - 1])
  {
  }

  /** Otherwise parsing yields one exam per classroom of every row. */
  lemma {:induction false} ParsedCount(rows: seq<ExamRow>)
    ensures Parsed(rows).Ok? ==> |Parsed(rows).value| == ClassroomCount(rows)
  {
    if rows != [] {
      ParsedCount(rows[..|rows| - 1]);
    }
  }

  /**
   * Each piece of a `|`-separated classrooms cell becomes one exam: when the
   * cell joins classroom names that hold no `|` and no surrounding
   * whitespace, the new exams carry exactly those names, in order, and the
   * row's other cells stripped.
   */
  lemma RowClassrooms(row: ExamRow, names: seq<string>)
    requires |names| >= 1 && row.classrooms == Some(Join(names, '|'))
    requires forall k :: 0 <= k < |names| ==> '|' !in names[k] && Strip(names[k]) == names[k]
    ensures var fs := RowExams(row, Split(row.classrooms.value, '|'));
      && |fs| == |names|
      && forall k :: 0 <= k < |names| ==>
           fs[k] == ExamFields(Strip(row.title), Strip(row.date), Strip(row.slots), names[k], Strip(row.instructors))
  {
    SplitJoin(names, '|');
  }

  /**
   * A row without classrooms that repeats the cells of the row parsed just
   * before (whose cells carry no surrounding whitespace) appends its
   * instructors to every exam that row produced, and leaves the number of
   * exams and their other fields as they were.
   */
  lemma {:induction false} CarryOver(rows: seq<ExamRow>, row: ExamRow)
    requires Parsed(rows).Ok? && rows != [] && rows[|rows| - 1].classrooms.Some?
    requires var prev := rows[|rows| - 1];
      && row.classrooms.None? && row.title == prev.title && row.date == prev.date && row.slots == prev.slots
      && Strip(row.title) == row.title && Strip(row.date) == row.date && Strip(row.slots) == row.slots
    ensures var fs, fs' := Parsed(rows).value, Parsed(rows + [row]);
      var n := |Split(rows[|rows| - 1].classrooms.value, '|')|;
      && fs'.Ok? && |fs'.value| == |fs| && n <= |fs|
      && (forall i :: 0 <= i < |fs| ==>
            fs'.value[i].(instructor := fs[i].instructor) == fs[i])
      && forall i :: |fs| - n <= i < |fs| ==>
           fs'.value[i].instructor == fs[i].instructor + ", " + row.instructors
  {
    var rows' := rows + [row];
    assert rows'[..|rows'| - 1] == rows && rows'[|rows'| - 1] == row;
    assert LastParsed(rows) == row.title;
    LastRowContinued(rows, row);
  }

  /** The exams of the last parsed row are those a row repeating its cells continues. */
  lemma LastRowContinued(rows: seq<ExamRow>, row: ExamRow)
    requires Parsed(rows).Ok? && rows != [] && rows[|rows| - 1].classrooms.Some?
    requires var prev := rows[|rows| - 1];
      && row.title == prev.title && row.date == prev.date && row.slots == prev.slots
      && Strip(row.title) == row.title && Strip(row.date) == row.date && Strip(row.slots) == row.slots
    ensures var fs := Parsed(rows).value;
      var n := |Split(rows[|rows| - 1].classrooms.value, '|')|;
      n <= |fs| && forall i :: |fs| - n <= i < |fs| ==> Continues(fs[i], row)
  {
    var prev := rows[|rows| - 1];
    var ps := Split(prev.classrooms.value, '|');
    var fs0 := Parsed(rows[..|rows| - 1]).value;
    var fs := Parsed(rows).value;
    assert fs == fs0 + RowExams(prev, ps);
    forall i | |fs| - |ps| <= i < |fs| ensures Continues(fs[i], row) {
      assert fs[i] == RowExams(prev, ps)[i - |fs0|];
    }
  }

  /** Parsing one more row is one more `ParseStep`. */
  lemma ParsedNext(rows: seq<ExamRow>, k: nat)
    requires k < |rows| && Parsed(rows[..k]).Ok?
    ensures Parsed(rows[..k + 1]) == ParseStep(Parsed(rows[..k]).value, LastParsed(rows[..k]), rows[k])
    ensures LastParsed(rows[..k + 1]) == if rows[k].classrooms.Some? then rows[k].title else LastParsed(rows[..k])
  {
    assert rows[..k + 1][..k] == rows[..k] && rows[..k + 1][k] == rows[k];
  }

  /** Once a prefix of the rows fails, parsing the whole sheet fails the same way. */
  lemma {:induction false} ParsedPrefixFails(rows: seq<ExamRow>, k: nat)
    requires k <= |rows| && Parsed(rows[..k]).Err?
    ensures Parsed(rows) == Parsed(rows[..k])
    decreases |rows| - k
  {
    if k < |rows| {
      assert rows[..k + 1][..k] == rows[..k];
      ParsedPrefixFails(rows, k + 1);
    } else {
      assert rows[..k] == rows;
    }
  }

  /** What the `Exam` constructor leaves unset: no need, no specific proctor, no proctors. */
  predicate Blank(e: Exam)
    reads e
  {
    e.numberOfProctorsNeeded == 0 && e.requiresSpecificProctor == None && e.proctors == []
  }

  /**
   * `Parser.parse_exams`: builds a new exam per classroom of each row and
   * extends the instructors of the exams a continuation row refers to. A
   * missing sheet raises ValueError; an orphan continuation row re-raises
   * AttributeError, discarding the exams built so far.
   */
  method ParseExams(sheet: Option<seq<ExamRow>>) returns (r: Result<seq<Exam>, PyError>)
    ensures sheet.None? ==> r == Err(ValueError)
    ensures sheet.Some? ==> (r.Ok? <==> Parsed(sheet.value).Ok?)
    ensures sheet.Some? && r.Err? ==> r.error == Parsed(sheet.value).error
    ensures r.Ok? ==> sheet.Some? && HaveFields(r.value, Parsed(sheet.value).value)
    ensures r.Ok? ==> Distinct(r.value) && forall e :: e in r.value ==> fresh(e) && Blank(e)
  {
    if sheet.None? {
      return Err(ValueError);
    }
    var rows := sheet.value;
    var exams: seq<Exam> := [];
    var last := "";
    ghost var fs: seq<ExamFields> := [];
    var k := 0;
    while k < |rows|
      invariant 0 <= k <= |rows|
      invariant Parsed(rows[..k]) == Ok(fs) && last == LastParsed(rows[..k])
      invariant HaveFields(exams, fs) && Distinct(exams)
      invariant forall e :: e in exams ==> fresh(e) && Blank(e)
    {
      ParsedNext(rows, k);
      var next;
      next, fs, last := ParseRow(exams, fs, last, rows[k]);
      if next.Err? {
        ParsedPrefixFails(rows, k + 1);
        return Err(next.error);
      }
      exams := next.value;
      k := k + 1;
    }
    assert rows[..k] == rows;
    return Ok(exams);
  }

  /** One iteration of `parse_exams`: `ParseStep` carried out on the exam objects. */
  method ParseRow(exams: seq<Exam>, ghost fs: seq<ExamFields>, last: string, row: ExamRow)
    returns (r: Result<seq<Exam>, PyError>, ghost fs': seq<ExamFields>, last': string)
    requires HaveFields(exams, fs) && Distinct(exams)
    modifies set e | e in exams
    ensures r.Ok? <==> ParseStep(fs, last, row).Ok?
    ensures r.Err? ==> r.error == ParseStep(fs, last, row).error
    ensures r.Ok? ==> fs' == ParseStep(fs, last, row).value && HaveFields(r.value, fs') && Distinct(r.value)
    ensures last' == if row.classrooms.Some? then row.title else last
    ensures r.Ok? ==> forall e :: e in r.value ==> (e in exams && (Blank(e) <==> old(Blank(e)))) || (fresh(e) && Blank(e))
  {
    last' := last;
    if row.classrooms.Some? {
      var classrooms := Split(row.classrooms.value, '|');
      var news := NewExams(row, classrooms);
      Concatenated(exams, fs, news, RowExams(row, classrooms));
      r, fs' := Ok(exams + news), fs + RowExams(row, classrooms);
      last' := row.title;
    } else if last == row.title {
      fs' := ExtendInstructors(exams, fs, row);
      r := Ok(exams);
    } else {
      r, fs' := Err(AttributeError), fs;
    }
  }

  /** A new exam per classroom of `row`, in order. */
  method NewExams(row: ExamRow, classrooms: seq<string>) returns (news: seq<Exam>)
    ensures HaveFields(news, RowExams(row, classrooms)) && Distinct(news)
    ensures forall e :: e in news ==> fresh(e) && Blank(e)
  {
    news := [];
    var j := 0;
    while j < |classrooms|
      invariant 0 <= j <= |classrooms|
      invariant HaveFields(news, RowExams(row, classrooms[..j])) && Distinct(news)
      invariant forall e :: e in news ==> fresh(e) && Blank(e)
    {
      var e := new Exam(row.title, row.date, row.slots, classrooms[j], row.instructors);
      assert e !in news && HaveFields(news, RowExams(row, classrooms[..j]));
      assert classrooms[..j + 1][..j] == classrooms[..j];
      Concatenated(news, RowExams(row, classrooms[..j]), [e], [NewFields(row, classrooms[j])]);
      news := news + [e];
      j := j + 1;
    }
    assert classrooms[..j] == classrooms;
  }

  /** Lists of distinct exams with no exam in common join into one. */
  lemma Concatenated(a: seq<Exam>, fa: seq<ExamFields>, b: seq<Exam>, fb: seq<ExamFields>)
    requires HaveFields(a, fa) && HaveFields(b, fb) && Distinct(a) && Distinct(b)
    requires forall e :: e in a ==> e !in b
    ensures HaveFields(a + b, fa + fb) && Distinct(a + b)
  {
    forall i, j | 0 <= i < j < |a + b| ensures (a + b)[i] != (a + b)[j] {
      if j < |a| {
        assert (a + b)[i] == a[i] && (a + b)[j] == a[j];
      } else if i >= |a| {
        assert (a + b)[i] == b[i - |a|] && (a + b)[j] == b[j - |a|];
      } else {
        assert (a + b)[i] == a[i] && (a + b)[j] == b[j - |a|];
        assert a[i] in a && b[j - |a|] in b;
      }
    }
  }

  /** `exam.instructor += ", " + instructors` for every exam the row continues. */
  method ExtendInstructors(exams: seq<Exam>, ghost fs: seq<ExamFields>, row: ExamRow) returns (ghost fs': seq<ExamFields>)
    requires HaveFields(exams, fs) && Distinct(exams)
    modifies set e | e in exams
    ensures fs' == AddInstructors(fs, row) && HaveFields(exams, fs')
    ensures forall e :: e in exams ==> (Blank(e) <==> old(Blank(e)))
  {
    var j := 0;
    while j < |exams|
      invariant 0 <= j <= |exams|
      invariant forall i :: 0 <= i < |exams| ==>
        FieldsOf(exams[i]) == if i < j then Continued(fs[i], row) else fs[i]
      invariant forall e :: e in exams ==> (Blank(e) <==> old(Blank(e)))
    {
      var e := exams[j];
      if e.title == row.title && e.date == row.date && e.time == row.slots {
        e.instructor := e.instructor + ", " + row.instructors;
      }
      j := j + 1;
    }
    fs' := AddInstructors(fs, row);
  }

  /*
   * ---------------------------------------------------------------------
   * Preparing the data (`Prepper`)
   * ---------------------------------------------------------------------
   */

  /**
   * Whether the automatic rules block an exam's slot for proctors of class
   * `cls`: first-year masters exams for class 1, second-year ones for class 2.
   */
  predicate Restricts(title: string, cls: int)
    requires HasCourseCode(title)
  {
    (cls == 1 && IsFirstYearMastersExam(title).value) || (cls == 2 && IsSecondYearMastersExam(title).value)
  }

  /** How many leading exams have a course code: the automatic rules raise at the first that has none. */
  function AutoStop(es: seq<Exam>): (n: nat)
    ensures n <= |es| && forall i :: 0 <= i < n ==> HasCourseCode(es[i].title)
    ensures n < |es| ==> !HasCourseCode(es[n].title)
  {
    if es == [] || !HasCourseCode(es[0].title) then 0
    else
      var n := AutoStop(es[1..]);
      assert forall i :: 1 <= i < n + 1 ==> es[i] == es[1..][i - 1];
      1 + n
  }

  /**
   * The blocks `auto_add_constraints` appends to a proctor of class `cls`
   * listed `m` times: the block of every exam the rules restrict for the
   * class, in exam order, once per listing.
   */
  function AutoBlocks(es: seq<Exam>, cls: int, m: nat): seq<string>
    requires forall i :: 0 <= i < |es| ==> HasCourseCode(es[i].title)
  {
    if es == [] then []
    else
      var e := es[|es| - 1];
      AutoBlocks(es[..|es| - 1], cls, m) + if Restricts(e.title, cls) then Assignment.Copies(e.Block(), m) else []
  }

  /**
   * Only proctors of class 1 or 2 get blocks, and a block is appended exactly
   * when it is the block of an exam restricted for the proctor's class.
   */
  lemma {:induction false} AutoBlocksMembers(es: seq<Exam>, cls: int, m: nat)
    requires forall i :: 0 <= i < |es| ==> HasCourseCode(es[i].title)
    ensures cls != 1 && cls != 2 ==> AutoBlocks(es, cls, m) == []
    ensures forall b :: b in AutoBlocks(es, cls, m) <==>
      m > 0 && exists i :: 0 <= i < |es| && Restricts(es[i].title, cls) && es[i].Block() == b
  {
    if es != [] {
      var init := es[..|es| - 1];
      AutoBlocksMembers(init, cls, m);
      assert forall i :: 0 <= i < |init| ==> init[i] == es[i];
    }
  }

  /** `[p for p in ps if p.proctor_class == cls]` (`OfClassCount`). */
  function OfClass(ps: seq<Proctor>, cls: int): (r: seq<Proctor>)
    ensures forall q :: q in r ==> q in ps && q.proctorClass == cls
  {
    if ps == [] then []
    else OfClass(ps[..|ps| - 1], cls) + if ps[|ps| - 1].proctorClass == cls then [ps[|ps| - 1]] else []
  }

  /** Listing the proctors of one class keeps each of them as often as the full list has it, and no other. */
  lemma {:induction false} OfClassCount(ps: seq<Proctor>, cls: int, p: Proctor)
    ensures Assignment.Count(OfClass(ps, cls), p) == if p.proctorClass == cls then Assignment.Count(ps, p) else 0
  {
    if ps != [] {
      var q := ps[|ps| - 1];
      var tail := if q.proctorClass == cls then [q] else [];
      OfClassCount(ps[..|ps| - 1], cls, p);
      Assignment.CountAppend(OfClass(ps[..|ps| - 1], cls), tail, p);
      assert tail == [] || tail[..0] == [];
    }
  }

  /** The constraints sheet as read: the Name column and one column of cells per block header. */
  datatype ConstraintSheet = ConstraintSheet(names: seq<string>, columns: map<string, seq<int>>)

  /** Every column has a cell for every row. */
  predicate Rectangular(sheet: ConstraintSheet) {
    forall b :: b in sheet.columns ==> |sheet.columns[b]| == |sheet.names|
  }

  /** Strictly ascending by `<` on `str`. */
  predicate Increasing(s: seq<string>) {
    forall i, j :: 0 <= i < j < |s| ==> StrLess(s[i], s[j])
  }

  /** `b` put in its place in an ascending list, unless it is there already. */
  function InsertBlock(b: string, s: seq<string>): (r: seq<string>)
    requires Increasing(s)
    ensures Increasing(r) && forall x :: x in r <==> x == b || x in s
  {
    if s == [] then [b]
    else if b == s[0] then s
    else if StrLess(b, s[0]) then
      assert forall j :: 0 <= j < |s| ==> StrLess(b, s[j]) by {
        forall j | 0 <= j < |s| ensures StrLess(b, s[j]) {
          if j > 0 {
            StrLessTransitive(b, s[0], s[j]);
          }
        }
      }
      [b] + s
    else
      StrLessTotal(b, s[0]);
      var t := InsertBlock(b, s[1..]);
      assert forall x :: x in s[1..] ==> StrLess(s[0], x);
      [s[0]] + t
  }

  /** `sorted({exam.block for exam in exams})`: the distinct blocks in ascending order. */
  function AllBlocks(es: seq<Exam>): (bs: seq<string>)
    ensures Increasing(bs) && forall b :: b in bs <==> exists i :: 0 <= i < |es| && es[i].Block() == b
  {
    if es == [] then []
    else
      var bs := InsertBlock(es[|es| - 1].Block(), AllBlocks(es[..|es| - 1]));
      assert forall i :: 0 <= i < |es| - 1 ==> es[..|es| - 1][i] == es[i];
      bs
  }

  /** An ascending list is determined by its elements: `AllBlocks` is the one `sorted` returns. */
  lemma {:induction false} AscendingUnique(a: seq<string>, b: seq<string>)
    requires Increasing(a) && Increasing(b) && forall x :: x in a <==> x in b
    ensures a == b
    decreases |a|
  {
    SameMembersEmpty(a, b);
    if a != [] {
      if a[0] != b[0] {
        assert b[0] in a && a[0] in b;
        var i :| 0 <= i < |a| && a[i] == b[0];
        var j :| 0 <= j < |b| && b[j] == a[0];
        assert StrLess(a[0], b[0]) && StrLess(b[0], a[0]);
        StrLessTransitive(a[0], b[0], a[0]);
        StrLessIrreflexive(a[0]);
      }
      forall x ensures x in a[1..] <==> x in b[1..] {
        StrLessIrreflexive(x);
        if x in a[1..] {
          var i :| 1 <= i < |a| && a[i] == x;
          assert StrLess(a[0], x) && x in b;
          var j :| 0 <= j < |b| && b[j] == x;
          assert j != 0;
        }
        if x in b[1..] {
          var j :| 1 <= j < |b| && b[j] == x;
          assert StrLess(b[0], x) && x in a;
          var i :| 0 <= i < |a| && a[i] == x;
          assert i != 0;
        }
      }
      AscendingUnique(a[1..], b[1..]);
      assert a == [a[0]] + a[1..] && b == [b[0]] + b[1..];
    }
  }

  lemma SameMembersEmpty(a: seq<string>, b: seq<string>)
    requires forall x :: x in a <==> x in b
    ensures a == [] <==> b == []
  {
    if a != [] {
      assert a[0] in a;
    }
    if b != [] {
      assert b[0] in b;
    }
  }

  /** The first proctor whose name equals the sheet's cell, as the `for ... else` search finds it. */
  function NamedIn(ps: seq<Proctor>, name: string): (r: Option<nat>)
    ensures r.Some? ==> r.value < |ps| && ps[r.value].name == name && forall i :: 0 <= i < r.value ==> ps[i].name != name
    ensures r.None? ==> forall i :: 0 <= i < |ps| ==> ps[i].name != name
  {
    if ps == [] then None
    else if ps[0].name == name then Some(0)
    else match NamedIn(ps[1..], name)
      case None => None
      case Some(i) => Some(i + 1)
  }

  /** The first row whose name matches no proctor. */
  function FirstUnknown(names: seq<string>, ps: seq<Proctor>): (r: Option<nat>)
    ensures r.Some? ==> r.value < |names| && NamedIn(ps, names[r.value]).None?
                        && forall i :: 0 <= i < r.value ==> NamedIn(ps, names[i]).Some?
    ensures r.None? ==> forall i :: 0 <= i < |names| ==> NamedIn(ps, names[i]).Some?
  {
    if names == [] then None
    else if NamedIn(ps, names[0]).None? then Some(0)
    else match FirstUnknown(names[1..], ps)
      case None => None
      case Some(i) => Some(i + 1)
  }

  /** No row before `i` names an unknown proctor. */
  predicate KnownUpTo(names: seq<string>, ps: seq<Proctor>, i: nat) {
    var u := FirstUnknown(names, ps);
    u.None? || i <= u.value
  }

  /** A cell of the constraints sheet: a block column and a row. */
  datatype Cell = Cell(block: string, row: nat)

  /** The first `n` cells of column `b`, top to bottom. */
  function ColumnCells(b: string, n: nat): (cs: seq<Cell>)
    ensures |cs| == n && forall i :: 0 <= i < n ==> cs[i] == Cell(b, i)
  {
    if n == 0 then [] else ColumnCells(b, n - 1) + [Cell(b, n - 1)]
  }

  lemma ColumnCellsMembers(b: string, n: nat)
    ensures forall c :: c in ColumnCells(b, n) <==> c.block == b && c.row < n
  {
    var cs := ColumnCells(b, n);
    forall c: Cell | c.block == b && c.row < n ensures c in cs {
      assert cs[c.row] == c;
    }
  }

  /** Every cell is on the sheet and names a known proctor. */
  predicate Applies(cells: seq<Cell>, sheet: ConstraintSheet, ps: seq<Proctor>) {
    forall c :: c in cells ==>
      c.block in sheet.columns && c.row < |sheet.names| && NamedIn(ps, sheet.names[c.row]).Some?
  }

  /**
   * How far `manually_add_constraints` gets through the blocks: the cells it
   * applies, block by block and row by row, and the exception that stops it:
   * KeyError for a block without a column, ValueError at the first row naming
   * no proctor.
   */
  function ManualRun(blocks: seq<string>, sheet: ConstraintSheet, ps: seq<Proctor>): (run: (Option<PyError>, seq<Cell>))
    ensures run.0 in {None, Some(KeyError), Some(ValueError)}
    ensures Applies(run.1, sheet, ps)
  {
    if blocks == [] then (None, [])
    else
      var prev := ManualRun(blocks[..|blocks| - 1], sheet, ps);
      var b := blocks[|blocks| - 1];
      if prev.0.Some? then prev
      else if b !in sheet.columns then (Some(KeyError), prev.1)
      else match FirstUnknown(sheet.names, ps)
        case None => (None, prev.1 + ColumnCells(b, |sheet.names|))
        case Some(i) => (Some(ValueError), prev.1 + ColumnCells(b, i))
  }

  /** The blocks the applied cells add to proctor `p`'s list for cell value `v`, in order. */
  function Marked(cells: seq<Cell>, sheet: ConstraintSheet, ps: seq<Proctor>, p: Proctor, v: int): seq<string>
    requires Rectangular(sheet) && Applies(cells, sheet, ps)
  {
    if cells == [] then []
    else
      var c := cells[|cells| - 1];
      assert c in cells;
      Marked(cells[..|cells| - 1], sheet, ps, p, v)
        + if ps[NamedIn(ps, sheet.names[c.row]).value] == p && sheet.columns[c.block][c.row] == v then [c.block] else []
  }

  lemma MarkedNext(cells: seq<Cell>, c: Cell, sheet: ConstraintSheet, ps: seq<Proctor>, p: Proctor, v: int)
    requires Rectangular(sheet) && Applies(cells, sheet, ps)
    requires c.block in sheet.columns && c.row < |sheet.names| && NamedIn(ps, sheet.names[c.row]).Some?
    ensures Applies(cells + [c], sheet, ps)
    ensures Marked(cells + [c], sheet, ps, p, v) == Marked(cells, sheet, ps, p, v)
      + if ps[NamedIn(ps, sheet.names[c.row]).value] == p && sheet.columns[c.block][c.row] == v then [c.block] else []
  {
    assert (cells + [c])[..|cells|] == cells;
  }

  lemma {:induction false} MarkedAppend(a: seq<Cell>, b: seq<Cell>, sheet: ConstraintSheet, ps: seq<Proctor>, p: Proctor, v: int)
    requires Rectangular(sheet) && Applies(a, sheet, ps) && Applies(b, sheet, ps)
    ensures Applies(a + b, sheet, ps)
    ensures Marked(a + b, sheet, ps, p, v) == Marked(a, sheet, ps, p, v) + Marked(b, sheet, ps, p, v)
    decreases |b|
  {
    if b != [] {
      var init := b[..|b| - 1];
      MarkedAppend(a, init, sheet, ps, p, v);
      assert (a + b)[..|a + b| - 1] == a + init;
    } else {
      assert a + b == a;
    }
  }

  /**
   * A block lands in `p`'s list for value `v` exactly when one of the applied
   * cells of that block holds `v` on a row whose name first matches `p`.
   */
  lemma {:induction false} MarkedMembers(cells: seq<Cell>, sheet: ConstraintSheet, ps: seq<Proctor>, p: Proctor, v: int)
    requires Rectangular(sheet) && Applies(cells, sheet, ps)
    ensures forall b :: b in Marked(cells, sheet, ps, p, v) <==>
      exists c :: c in cells && c.block == b && ps[NamedIn(ps, sheet.names[c.row]).value] == p && sheet.columns[b][c.row] == v
  {
    if cells != [] {
      var init := cells[..|cells| - 1];
      MarkedMembers(init, sheet, ps, p, v);
      assert cells == init + [cells[|cells| - 1]];
    }
  }

  /** The cells of one more block, after those of the blocks before. */
  lemma MarkedStep(u0: seq<string>, u: seq<string>, u': seq<string>, done: seq<Cell>, cells: seq<Cell>,
                   sheet: ConstraintSheet, ps: seq<Proctor>, p: Proctor, v: int)
    requires Rectangular(sheet) && Applies(done, sheet, ps) && Applies(cells, sheet, ps)
    requires u == u0 + Marked(done, sheet, ps, p, v) && u' == u + Marked(cells, sheet, ps, p, v)
    ensures Applies(done + cells, sheet, ps) && u' == u0 + Marked(done + cells, sheet, ps, p, v)
  {
    MarkedAppend(done, cells, sheet, ps, p, v);
  }

  /** One more block of a run that has not stopped: its column, down to the first unknown name. */
  lemma ManualRunNext(blocks: seq<string>, k: nat, sheet: ConstraintSheet, ps: seq<Proctor>, done: seq<Cell>)
    requires k < |blocks| && ManualRun(blocks[..k], sheet, ps) == (None, done)
    ensures blocks[k] !in sheet.columns ==> ManualRun(blocks[..k + 1], sheet, ps) == (Some(KeyError), done)
    ensures blocks[k] in sheet.columns ==>
      var u := FirstUnknown(sheet.names, ps);
      ManualRun(blocks[..k + 1], sheet, ps)
        == (if u.None? then None else Some(ValueError), done + ColumnCells(blocks[k], if u.None? then |sheet.names| else u.value))
  {
    assert blocks[..k + 1][..k] == blocks[..k] && blocks[..k + 1][k] == blocks[k];
  }

  /** Every block has a column on the sheet. */
  predicate HasColumns(blocks: seq<string>, sheet: ConstraintSheet) {
    forall b :: b in blocks ==> b in sheet.columns
  }

  /**
   * The run stops with ValueError exactly when the first block has a column
   * and some row names no proctor; with KeyError exactly when the first block
   * has no column, or every name is known and some block has no column;
   * otherwise every cell of every block is applied.
   */
  lemma {:induction false} ManualOutcome(blocks: seq<string>, sheet: ConstraintSheet, ps: seq<Proctor>)
    ensures ManualRun(blocks, sheet, ps).0 == Some(ValueError) <==>
      blocks != [] && blocks[0] in sheet.columns && FirstUnknown(sheet.names, ps).Some?
    ensures ManualRun(blocks, sheet, ps).0 == Some(KeyError) <==>
      blocks != [] && (blocks[0] !in sheet.columns
        || (FirstUnknown(sheet.names, ps).None? && !HasColumns(blocks, sheet)))
    ensures ManualRun(blocks, sheet, ps).0 == None ==>
      forall c :: c in ManualRun(blocks, sheet, ps).1 <==> c.block in blocks && c.row < |sheet.names|
  {
    if blocks != [] {
      var init := blocks[..|blocks| - 1];
      ManualOutcome(init, sheet, ps);
      ManualOutcomeStep(blocks, sheet, ps);
      assert Outcome(blocks, sheet, ps);
    }
  }

  /** The three facts of `ManualOutcome`, for one list of blocks. */
  ghost predicate Outcome(blocks: seq<string>, sheet: ConstraintSheet, ps: seq<Proctor>) {
    var run, u := ManualRun(blocks, sheet, ps), FirstUnknown(sheet.names, ps);
    && (run.0 == Some(ValueError) <==> blocks != [] && blocks[0] in sheet.columns && u.Some?)
    && (run.0 == Some(KeyError) <==>
        blocks != [] && (blocks[0] !in sheet.columns || (u.None? && !HasColumns(blocks, sheet))))
    && (run.0 == None ==> forall c :: c in run.1 <==> c.block in blocks && c.row < |sheet.names|)
  }

  /** `ManualOutcome` for one more block, given it for the blocks before. */
  lemma ManualOutcomeStep(blocks: seq<string>, sheet: ConstraintSheet, ps: seq<Proctor>)
    requires blocks != [] && Outcome(blocks[..|blocks| - 1], sheet, ps)
    ensures Outcome(blocks, sheet, ps)
  {
    var init := blocks[..|blocks| - 1];
    if ManualRun(init, sheet, ps).0.Some? {
      StoppedStep(blocks, sheet, ps);
    } else if init == [] {
      FirstStep(blocks, sheet, ps);
    } else {
      FreshStep(blocks, sheet, ps);
    }
  }

  /** A run already stopped keeps its exception. */
  lemma StoppedStep(blocks: seq<string>, sheet: ConstraintSheet, ps: seq<Proctor>)
    requires blocks != [] && Outcome(blocks[..|blocks| - 1], sheet, ps)
    requires ManualRun(blocks[..|blocks| - 1], sheet, ps).0.Some?
    ensures Outcome(blocks, sheet, ps)
  {
    var init := blocks[..|blocks| - 1];
    assert init != [] && init[0] == blocks[0];
    if ManualRun(init, sheet, ps).0 == Some(KeyError) && blocks[0] in sheet.columns {
      var x :| x in init && x !in sheet.columns;
      assert x in blocks;
    }
  }

  /** The first block. */
  lemma FirstStep(blocks: seq<string>, sheet: ConstraintSheet, ps: seq<Proctor>)
    requires |blocks| == 1
    ensures Outcome(blocks, sheet, ps)
  {
    assert blocks[..0] == [];
    ColumnCellsMembers(blocks[0], |sheet.names|);
  }

  /** A later block, after a run that has not stopped. */
  lemma FreshStep(blocks: seq<string>, sheet: ConstraintSheet, ps: seq<Proctor>)
    requires |blocks| > 1 && Outcome(blocks[..|blocks| - 1], sheet, ps)
    requires ManualRun(blocks[..|blocks| - 1], sheet, ps).0 == None
    ensures Outcome(blocks, sheet, ps)
  {
    var init, b := blocks[..|blocks| - 1], blocks[|blocks| - 1];
    assert init[0] == blocks[0];
    assert blocks == init + [b];
    HasColumnsAppend(init, b, sheet);
    ColumnCellsMembers(b, |sheet.names|);
  }

  lemma HasColumnsAppend(init: seq<string>, b: string, sheet: ConstraintSheet)
    ensures HasColumns(init + [b], sheet) <==> HasColumns(init, sheet) && b in sheet.columns
  {
    assert forall x :: x in init + [b] <==> x in init || x == b;
  }

  /** A run that stops at a prefix of the blocks stops there on all of them. */
  lemma {:induction false} ManualRunStops(blocks: seq<string>, k: nat, sheet: ConstraintSheet, ps: seq<Proctor>)
    requires k <= |blocks| && ManualRun(blocks[..k], sheet, ps).0.Some?
    ensures ManualRun(blocks, sheet, ps) == ManualRun(blocks[..k], sheet, ps)
    decreases |blocks| - k
  {
    if k < |blocks| {
      assert blocks[..k + 1][..k] == blocks[..k];
      ManualRunStops(blocks, k + 1, sheet, ps);
    } else {
      assert blocks[..k] == blocks;
    }
  }

  /** The sheet of proctor numbers: an exam title, a classroom and the number needed, per row. */
  datatype NumberRow = NumberRow(title: string, classroom: string, need: int)

  /** The first exam whose stored title and classroom equal the row's cells. */
  function ExamAt(es: seq<Exam>, row: NumberRow): (r: Option<nat>)
    ensures r.Some? ==> r.value < |es| && es[r.value].title == row.title && es[r.value].classroom == row.classroom
                        && forall i :: 0 <= i < r.value ==> !(es[i].title == row.title && es[i].classroom == row.classroom)
    ensures r.None? ==> forall i :: 0 <= i < |es| ==> !(es[i].title == row.title && es[i].classroom == row.classroom)
  {
    if es == [] then None
    else if es[0].title == row.title && es[0].classroom == row.classroom then Some(0)
    else match ExamAt(es[1..], row)
      case None => None
      case Some(i) => Some(i + 1)
  }

  /** How many leading rows find their exam: `manually_add_proctor_numbers` raises at the first that does not. */
  function NumbersStop(es: seq<Exam>, rows: seq<NumberRow>): (n: nat)
    ensures n <= |rows| && forall j :: 0 <= j < n ==> ExamAt(es, rows[j]).Some?
    ensures n < |rows| ==> ExamAt(es, rows[n]).None?
  {
    if rows == [] || ExamAt(es, rows[0]).None? then 0
    else
      var n := NumbersStop(es, rows[1..]);
      assert forall j :: 1 <= j < n + 1 ==> rows[j] == rows[1..][j - 1];
      1 + n
  }

  /** Row `row` finds exam `e`: `e` is the first exam with the row's title and classroom. */
  predicate Finds(es: seq<Exam>, row: NumberRow, e: Exam) {
    var k := ExamAt(es, row);
    k.Some? && es[k.value] == e
  }

  /** The need exam `e` ends with: that of the last row that finds it, else `need0`. */
  function NeedAfter(es: seq<Exam>, rows: seq<NumberRow>, e: Exam, need0: int): int {
    if rows == [] then need0
    else
      var row := rows[|rows| - 1];
      if Finds(es, row, e) then row.need else NeedAfter(es, rows[..|rows| - 1], e, need0)
  }

  /** An exam no row finds keeps the need it had. */
  lemma {:induction false} NeedAfterNone(es: seq<Exam>, rows: seq<NumberRow>, e: Exam, need0: int)
    requires forall j :: 0 <= j < |rows| ==> !Finds(es, rows[j], e)
    ensures NeedAfter(es, rows, e, need0) == need0
  {
    if rows != [] {
      var init := rows[..|rows| - 1];
      assert forall j :: 0 <= j < |init| ==> init[j] == rows[j];
      NeedAfterNone(es, init, e, need0);
    }
  }

  /** Otherwise the last row that finds the exam decides its need. */
  lemma {:induction false} NeedAfterLast(es: seq<Exam>, rows: seq<NumberRow>, e: Exam, need0: int, j: nat)
    requires j < |rows| && Finds(es, rows[j], e)
    requires forall l :: j < l < |rows| ==> !Finds(es, rows[l], e)
    ensures NeedAfter(es, rows, e, need0) == rows[j].need
  {
    if j < |rows| - 1 {
      var init := rows[..|rows| - 1];
      assert init[j] == rows[j];
      assert forall l :: j < l < |init| ==> init[l] == rows[l];
      NeedAfterLast(es, init, e, need0, j);
    }
  }

  /**
   * `Prepper`: holds the parsed exams and proctors and adds constraints and
   * proctor numbers to them. The configuration it keeps only names the files
   * the manual steps read; their contents are parameters here.
   */
  class Prepper {
    const exams: seq<Exam>
    const proctors: seq<Proctor>

    constructor(exams: seq<Exam>, proctors: seq<Proctor>)
      ensures this.exams == exams && this.proctors == proctors
    {
      this.exams := exams;
      this.proctors := proctors;
    }

    /**
     * `auto_add_constraints`: the block of every first-year masters exam is
     * appended to each class-1 proctor's unavailable blocks, that of every
     * second-year one to each class-2 proctor's, in exam order. An exam
     * without a course code raises ValueError; the blocks of the exams before
     * it stay appended.
     */
    method AutoAddConstraints() returns (err: Option<PyError>)
      modifies proctors`unavailable
      ensures var n := AutoStop(exams);
        && err == (if n == |exams| then None else Some(ValueError))
        && forall p :: p in proctors ==>
             p.unavailable == old(p.unavailable) + AutoBlocks(exams[..n], p.proctorClass, Assignment.Count(proctors, p))
    {
      var ones := OfClass(proctors, 1);
      var twos := OfClass(proctors, 2);
      forall p | p in proctors
        ensures Assignment.Count(ones, p) == if p.proctorClass == 1 then Assignment.Count(proctors, p) else 0
        ensures Assignment.Count(twos, p) == if p.proctorClass == 2 then Assignment.Count(proctors, p) else 0
      {
        OfClassCount(proctors, 1, p);
        OfClassCount(proctors, 2, p);
      }
      ghost var u0 := map p | p in proctors :: p.unavailable;
      var k := 0;
      while k < |exams|
        invariant k <= AutoStop(exams)
        invariant forall p :: p in proctors ==> p in u0 && u0[p] == old(p.unavailable)
        invariant forall p :: p in proctors ==>
          p.unavailable == u0[p] + AutoBlocks(exams[..k], p.proctorClass, Assignment.Count(proctors, p))
      {
        if !HasCourseCode(exams[k].title) {
          return Some(ValueError);
        }
        AddExamAt(k, ones, twos, u0);
        k := k + 1;
      }
      assert exams[..k] == exams;
      return None;
    }

    /** Exam `k` of `auto_add_constraints`, after the exams before it. */
    method AddExamAt(k: nat, ones: seq<Proctor>, twos: seq<Proctor>, ghost u0: map<Proctor, seq<string>>)
      requires k < |exams| && k <= AutoStop(exams) && HasCourseCode(exams[k].title)
      requires forall q :: q in ones || q in twos ==> q in proctors
      requires forall p :: p in proctors ==>
        && Assignment.Count(ones, p) == (if p.proctorClass == 1 then Assignment.Count(proctors, p) else 0)
        && Assignment.Count(twos, p) == (if p.proctorClass == 2 then Assignment.Count(proctors, p) else 0)
      requires forall p :: p in proctors ==>
        p in u0 && p.unavailable == u0[p] + AutoBlocks(exams[..k], p.proctorClass, Assignment.Count(proctors, p))
      modifies proctors`unavailable
      ensures k + 1 <= AutoStop(exams)
      ensures forall p :: p in proctors ==>
        p.unavailable == u0[p] + AutoBlocks(exams[..k + 1], p.proctorClass, Assignment.Count(proctors, p))
    {
      ghost var before := map p | p in proctors :: p.unavailable;
      AddExamBlock(exams[k], ones, twos);
      forall p | p in proctors
        ensures p.unavailable == u0[p] + AutoBlocks(exams[..k + 1], p.proctorClass, Assignment.Count(proctors, p))
      {
        AutoBlocksNext(exams, k, p.proctorClass, Assignment.Count(proctors, p), u0[p], before[p], p.unavailable);
      }
    }

    /**
     * One exam of `auto_add_constraints`: a first-year masters exam blocks its
     * slot for the class-1 proctors, else a second-year one for the class-2
     * proctors.
     */
    method AddExamBlock(exam: Exam, ones: seq<Proctor>, twos: seq<Proctor>)
      requires HasCourseCode(exam.title)
      requires forall q :: q in ones || q in twos ==> q in proctors
      requires forall p :: p in proctors ==>
        && Assignment.Count(ones, p) == (if p.proctorClass == 1 then Assignment.Count(proctors, p) else 0)
        && Assignment.Count(twos, p) == (if p.proctorClass == 2 then Assignment.Count(proctors, p) else 0)
      modifies proctors`unavailable
      ensures forall p :: p in proctors ==>
        p.unavailable == old(p.unavailable)
          + if Restricts(exam.title, p.proctorClass) then Assignment.Copies(exam.Block(), Assignment.Count(proctors, p)) else []
    {
      Classification(exam.title);
      if IsFirstYearMastersExam(exam.title).value {
        AppendBlock(ones, exam.Block());
      } else if IsSecondYearMastersExam(exam.title).value {
        AppendBlock(twos, exam.Block());
      }
    }

    /** Appends `b` to the unavailable blocks of every listed proctor, once per listing. */
    method AppendBlock(group: seq<Proctor>, b: string)
      requires forall q :: q in group ==> q in proctors
      modifies proctors`unavailable
      ensures forall p :: p in proctors ==> p.unavailable == old(p.unavailable) + Assignment.Copies(b, Assignment.Count(group, p))
    {
      var j := 0;
      while j < |group|
        invariant 0 <= j <= |group|
        invariant forall p :: p in proctors ==> p.unavailable == old(p.unavailable) + Assignment.Copies(b, Assignment.Count(group[..j], p))
      {
        assert group[..j + 1][..j] == group[..j];
        assert group[j] in group;
        group[j].unavailable := group[j].unavailable + [b];
        j := j + 1;
      }
      assert group[..j] == group;
    }

    /**
     * `auto_add_proctor_numbers`: an exam in a classroom whose name contains
     * "V-" needs two proctors, any other exam one. The result depends on the
     * classroom alone, so running it again changes nothing.
     */
    method AutoAddProctorNumbers()
      modifies exams`numberOfProctorsNeeded
      ensures forall e :: e in exams ==>
        && (e.numberOfProctorsNeeded == 2 <==> Contains(e.classroom, "V-"))
        && (e.numberOfProctorsNeeded == 1 <==> !Contains(e.classroom, "V-"))
    {
      var k := 0;
      while k < |exams|
        invariant 0 <= k <= |exams|
        invariant forall i :: 0 <= i < k ==>
          exams[i].numberOfProctorsNeeded == if Contains(exams[i].classroom, "V-") then 2 else 1
      {
        var exam := exams[k];
        if Contains(exam.classroom, "V-") {
          exam.numberOfProctorsNeeded := 2;
        } else {
          exam.numberOfProctorsNeeded := 1;
        }
        k := k + 1;
      }
    }

    /**
     * `manually_add_constraints`: for each block of the exams in ascending
     * order and each row of the sheet, the first proctor with the row's name
     * gets the block appended to its unavailable blocks when the cell holds 1
     * and to its not-preferred blocks when it holds 2 (`ManualRun`,
     * `ManualOutcome`, `MarkedMembers`).
     */
    method ManuallyAddConstraints(sheet: ConstraintSheet) returns (err: Option<PyError>)
      requires Rectangular(sheet)
      modifies proctors`unavailable, proctors`notPreferred
      ensures var run := ManualRun(AllBlocks(exams), sheet, proctors);
        && err == run.0
        && forall p :: p in proctors ==>
             && p.unavailable == old(p.unavailable) + Marked(run.1, sheet, proctors, p, 1)
             && p.notPreferred == old(p.notPreferred) + Marked(run.1, sheet, proctors, p, 2)
    {
      var blocks := AllBlocks(exams);
      ghost var done: seq<Cell> := [];
      ghost var u0 := map p | p in proctors :: p.unavailable;
      ghost var n0 := map p | p in proctors :: p.notPreferred;
      var k := 0;
      while k < |blocks|
        invariant 0 <= k <= |blocks|
        invariant ManualRun(blocks[..k], sheet, proctors) == (None, done)
        invariant forall p :: p in proctors ==>
          && p.unavailable == u0[p] + Marked(done, sheet, proctors, p, 1)
          && p.notPreferred == n0[p] + Marked(done, sheet, proctors, p, 2)
      {
        var b := blocks[k];
        ManualRunNext(blocks, k, sheet, proctors, done);
        if b !in sheet.columns {
          ManualRunStops(blocks, k + 1, sheet, proctors);
          return Some(KeyError);
        }
        ghost var cells;
        err, cells := MarkBlock(sheet, b, done, u0, n0);
        done := done + cells;
        if err.Some? {
          ManualRunStops(blocks, k + 1, sheet, proctors);
          return;
        }
        k := k + 1;
      }
      assert blocks[..k] == blocks;
      return None;
    }

    /** `MarkColumn` for one more block, after the cells `done` of the blocks before. */
    method MarkBlock(sheet: ConstraintSheet, b: string, ghost done: seq<Cell>,
                     ghost u0: map<Proctor, seq<string>>, ghost n0: map<Proctor, seq<string>>)
      returns (err: Option<PyError>, ghost cells: seq<Cell>)
      requires Rectangular(sheet) && b in sheet.columns && Applies(done, sheet, proctors)
      requires forall p :: p in proctors ==> p in u0 && p in n0
      requires forall p :: p in proctors ==>
        && p.unavailable == u0[p] + Marked(done, sheet, proctors, p, 1)
        && p.notPreferred == n0[p] + Marked(done, sheet, proctors, p, 2)
      modifies proctors`unavailable, proctors`notPreferred
      ensures var u := FirstUnknown(sheet.names, proctors);
        && err == (if u.None? then None else Some(ValueError))
        && cells == ColumnCells(b, if u.None? then |sheet.names| else u.value)
      ensures Applies(done + cells, sheet, proctors)
      ensures forall p :: p in proctors ==>
        && p.unavailable == u0[p] + Marked(done + cells, sheet, proctors, p, 1)
        && p.notPreferred == n0[p] + Marked(done + cells, sheet, proctors, p, 2)
    {
      ghost var unavailable := map p | p in proctors :: p.unavailable;
      ghost var notPreferred := map p | p in proctors :: p.notPreferred;
      err, cells := MarkColumn(sheet, b);
      forall p | p in proctors
        ensures && p.unavailable == u0[p] + Marked(done + cells, sheet, proctors, p, 1)
                && p.notPreferred == n0[p] + Marked(done + cells, sheet, proctors, p, 2)
      {
        MarkedStep(u0[p], unavailable[p], p.unavailable, done, cells, sheet, proctors, p, 1);
        MarkedStep(n0[p], notPreferred[p], p.notPreferred, done, cells, sheet, proctors, p, 2);
      }

    }

    /** The rows of one block column, applied top to bottom until a name matches no proctor. */
    method MarkColumn(sheet: ConstraintSheet, b: string) returns (err: Option<PyError>, ghost cells: seq<Cell>)
      requires Rectangular(sheet) && b in sheet.columns
      modifies proctors`unavailable, proctors`notPreferred
      ensures var u := FirstUnknown(sheet.names, proctors);
        && err == (if u.None? then None else Some(ValueError))
        && cells == ColumnCells(b, if u.None? then |sheet.names| else u.value)
      ensures Applies(cells, sheet, proctors)
      ensures forall p :: p in proctors ==>
        && p.unavailable == old(p.unavailable) + Marked(cells, sheet, proctors, p, 1)
        && p.notPreferred == old(p.notPreferred) + Marked(cells, sheet, proctors, p, 2)
    {
      cells := [];
      ghost var u0 := map p | p in proctors :: p.unavailable;
      ghost var n0 := map p | p in proctors :: p.notPreferred;
      var i := 0;
      while i < |sheet.names|
        invariant 0 <= i <= |sheet.names| && cells == ColumnCells(b, i)
        invariant KnownUpTo(sheet.names, proctors, i)
        invariant Applies(cells, sheet, proctors)
        invariant forall p :: p in proctors ==>
          && p.unavailable == u0[p] + Marked(cells, sheet, proctors, p, 1)
          && p.notPreferred == n0[p] + Marked(cells, sheet, proctors, p, 2)
      {
        var found := FindProctor(sheet.names[i]);
        if found.None? {
          FirstUnknownAt(sheet.names, i);
          return Some(ValueError), cells;
        }
        var c := Cell(b, i);
        KnownNext(sheet.names, i);
        MarkCell(sheet, c, found.value, cells, u0, n0);
        cells := cells + [c];
        i := i + 1;
      }
      FirstUnknownAt(sheet.names, i);
      return None, cells;
    }

    /**
     * One cell: 1 blocks the column's block for the proctor the row names, 2
     * marks it not preferred; either way the lists are those of the cells so
     * far and this one.
     */
    method MarkCell(sheet: ConstraintSheet, c: Cell, k: nat, ghost cells: seq<Cell>,
                    ghost u0: map<Proctor, seq<string>>, ghost n0: map<Proctor, seq<string>>)
      requires Rectangular(sheet) && c.block in sheet.columns && c.row < |sheet.names|
      requires NamedIn(proctors, sheet.names[c.row]) == Some(k) && Applies(cells, sheet, proctors)
      requires forall p :: p in proctors ==> p in u0 && p in n0
      requires forall p :: p in proctors ==>
        && p.unavailable == u0[p] + Marked(cells, sheet, proctors, p, 1)
        && p.notPreferred == n0[p] + Marked(cells, sheet, proctors, p, 2)
      modifies proctors`unavailable, proctors`notPreferred
      ensures Applies(cells + [c], sheet, proctors)
      ensures forall p :: p in proctors ==>
        && p.unavailable == u0[p] + Marked(cells + [c], sheet, proctors, p, 1)
        && p.notPreferred == n0[p] + Marked(cells + [c], sheet, proctors, p, 2)
    {
      var proctor := proctors[k];
      var v := sheet.columns[c.block][c.row];
      if v == 1 {
        proctor.unavailable := proctor.unavailable + [c.block];
      } else if v == 2 {
        proctor.notPreferred := proctor.notPreferred + [c.block];
      }
      forall p | p in proctors
        ensures && Marked(cells + [c], sheet, proctors, p, 1) == Marked(cells, sheet, proctors, p, 1) + (if p == proctor && v == 1 then [c.block] else [])
                && Marked(cells + [c], sheet, proctors, p, 2) == Marked(cells, sheet, proctors, p, 2) + (if p == proctor && v == 2 then [c.block] else [])
      {
        MarkedNext(cells, c, sheet, proctors, p, 1);
        MarkedNext(cells, c, sheet, proctors, p, 2);
      }
    }

    /** A row whose name is known leaves the first unknown row further down. */
    lemma KnownNext(names: seq<string>, i: nat)
      requires i < |names| && KnownUpTo(names, proctors, i) && NamedIn(proctors, names[i]).Some?
      ensures KnownUpTo(names, proctors, i + 1)
    {
    }

    /** FirstUnknown finds the first row whose name no proctor has. */
    lemma FirstUnknownAt(names: seq<string>, i: nat)
      requires i <= |names| && KnownUpTo(names, proctors, i)
      requires i < |names| ==> NamedIn(proctors, names[i]).None?
      ensures FirstUnknown(names, proctors) == if i == |names| then None else Some(i)
    {
      var u := FirstUnknown(names, proctors);
      if u.Some? {
        assert u.value >= i;
      }
    }

    /** The `for ... else` search for the first proctor named `name`. */
    method FindProctor(name: string) returns (r: Option<nat>)
      ensures r == NamedIn(proctors, name)
    {
      var j := 0;
      while j < |proctors|
        invariant 0 <= j <= |proctors| && forall i :: 0 <= i < j ==> proctors[i].name != name
      {
        if proctors[j].name == name {
          return Some(j);
        }
        j := j + 1;
      }
      return None;
    }

    /**
     * `manually_add_proctor_numbers`: each row in turn sets the need of the
     * first exam with its title and classroom; a row that finds none raises
     * ValueError, the rows before it applied (`NeedAfterNone`,
     * `NeedAfterLast`).
     */
    method ManuallyAddProctorNumbers(rows: seq<NumberRow>) returns (err: Option<PyError>)
      modifies exams`numberOfProctorsNeeded
      ensures var n := NumbersStop(exams, rows);
        && err == (if n == |rows| then None else Some(ValueError))
        && forall e :: e in exams ==>
             e.numberOfProctorsNeeded == NeedAfter(exams, rows[..n], e, old(e.numberOfProctorsNeeded))
    {
      var j := 0;
      while j < |rows|
        invariant j <= NumbersStop(exams, rows)
        invariant forall e :: e in exams ==>
          e.numberOfProctorsNeeded == NeedAfter(exams, rows[..j], e, old(e.numberOfProctorsNeeded))
      {
        var found := FindExam(rows[j]);
        if found.None? {
          return Some(ValueError);
        }
        assert rows[..j + 1][..j] == rows[..j] && rows[..j + 1][j] == rows[j];
        exams[found.value].numberOfProctorsNeeded := rows[j].need;
        j := j + 1;
      }
      assert rows[..j] == rows;
      return None;
    }

    /** The `for ... else` search for the first exam a row of the numbers sheet names. */
    method FindExam(row: NumberRow) returns (r: Option<nat>)
      ensures r == ExamAt(exams, row)
    {
      var j := 0;
      while j < |exams|
        invariant 0 <= j <= |exams|
        invariant forall i :: 0 <= i < j ==> !(exams[i].title == row.title && exams[i].classroom == row.classroom)
      {
        if exams[j].title == row.title && exams[j].classroom == row.classroom {
          return Some(j);
        }
        j := j + 1;
      }
      return None;
    }
  }

  /** One more exam adds its restricted block, if any, to the blocks of the automatic constraints. */
  lemma AutoBlocksNext(es: seq<Exam>, k: nat, cls: int, m: nat, u0: seq<string>, u: seq<string>, u': seq<string>)
    requires k < |es| && forall i :: 0 <= i <= k ==> HasCourseCode(es[i].title)
    requires u == u0 + AutoBlocks(es[..k], cls, m)
    requires u' == u + if Restricts(es[k].title, cls) then Assignment.Copies(es[k].Block(), m) else []
    ensures u' == u0 + AutoBlocks(es[..k + 1], cls, m)
  {
    assert es[..k + 1][..k] == es[..k] && es[..k + 1][k] == es[k];
  }
}
