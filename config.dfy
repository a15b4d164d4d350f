/**
 * The validation of the configuration file (src/scheduler/config.py): the
 * log file name and the three spreadsheet names are relative paths with the
 * right suffix, and the exams and proctors spreadsheets differ. As in a
 * pydantic model, every field validator runs and their failures are
 * reported together, in field order; the check across fields runs only when
 * no field failed.
 */
module Config {
  import opened Outcomes
  import opened Text

  /** Why a value is refused; pydantic reports each as a ValueError. */
  datatype Refusal =
    | AbsolutePath(value: string)     // the name starts with "/"
    | WrongSuffix(value: string)      // the name lacks the required extension
    | SameSheets(value: string)       // exams_file and proctors_file are one file

  /** The fields of `config.yaml`, as read. */
  datatype Settings = Settings(logFileName: string, examsFile: string, proctorsFile: string,
                               examsFileForProctorNumbers: string)

  /** The fields, in declaration order, as pydantic names them in its errors. */
  datatype Field = LogFileName | ExamsFile | ProctorsFile | ExamsFileForProctorNumbers | Root

  datatype Failure = Failure(field: Field, refusal: Refusal)

  /**
   * `log_file_name_must_be_valid`: a relative `.log` or `.txt` name is
   * returned unchanged; an absolute name is refused as such before its
   * suffix is looked at.
   */
  function LogFileNameMustBeValid(v: string): (r: Result<string, Refusal>)
    ensures r.Ok? <==> !StartsWith(v, "/") && (EndsWith(v, ".log") || EndsWith(v, ".txt"))
    ensures r.Ok? ==> r.value == v
    ensures StartsWith(v, "/") ==> r == Err(AbsolutePath(v))
    ensures r.Err? && !StartsWith(v, "/") ==> r == Err(WrongSuffix(v))
  {
    if StartsWith(v, "/") then Err(AbsolutePath(v))
    else if !EndsWith(v, ".log") && !EndsWith(v, ".txt") then Err(WrongSuffix(v))
    else Ok(v)
  }

  /**
   * `file_must_be_valid`, shared by the three spreadsheet names: a relative
   * `.xlsx` name is returned unchanged; an absolute name is refused as such
   * before its suffix is looked at.
   */
  function FileMustBeValid(v: string): (r: Result<string, Refusal>)
    ensures r.Ok? <==> !StartsWith(v, "/") && EndsWith(v, ".xlsx")
    ensures r.Ok? ==> r.value == v
    ensures StartsWith(v, "/") ==> r == Err(AbsolutePath(v))
    ensures r.Err? && !StartsWith(v, "/") ==> r == Err(WrongSuffix(v))
  {
    if StartsWith(v, "/") then Err(AbsolutePath(v))
    else if !EndsWith(v, ".xlsx") then Err(WrongSuffix(v))
    else Ok(v)
  }

  /**
   * `exams_and_proctors_files_must_be_different`: the exams and proctors
   * spreadsheets must differ; the proctor-numbers spreadsheet is compared
   * with neither.
   */
  function ExamsAndProctorsFilesMustBeDifferent(s: Settings): (r: Result<Settings, Refusal>)
    ensures r.Ok? <==> s.examsFile != s.proctorsFile
    ensures r.Ok? ==> r.value == s
    ensures r.Err? ==> r.error == SameSheets(s.examsFile)
  {
    if s.examsFile == s.proctorsFile then Err(SameSheets(s.examsFile)) else Ok(s)
  }

  /** The failures of the field validators, in field order. */
  function FieldFailures(s: Settings): (fs: seq<Failure>)
    ensures fs == [] <==>
      && LogFileNameMustBeValid(s.logFileName).Ok?
      && FileMustBeValid(s.examsFile).Ok?
      && FileMustBeValid(s.proctorsFile).Ok?
      && FileMustBeValid(s.examsFileForProctorNumbers).Ok?
    ensures forall i :: 0 <= i < |fs| ==> fs[i].field != Root
  {
    FailureOf(LogFileName, LogFileNameMustBeValid(s.logFileName))
    + FailureOf(ExamsFile, FileMustBeValid(s.examsFile))
    + FailureOf(ProctorsFile, FileMustBeValid(s.proctorsFile))
    + FailureOf(ExamsFileForProctorNumbers, FileMustBeValid(s.examsFileForProctorNumbers))
  }

  function FailureOf(f: Field, r: Result<string, Refusal>): (fs: seq<Failure>)
    ensures fs == [] <==> r.Ok?
    ensures r.Err? ==> fs == [Failure(f, r.error)]
  {
    if r.Ok? then [] else [Failure(f, r.error)]
  }

  /**
   * Building `YAMLConfig`: the settings are accepted unchanged exactly when
   * every field validator and the root validator accept them. When a field
   * fails, the failures are those of the fields and the root validator is
   * skipped; otherwise the only possible failure is the root validator's.
   */
  function Validate(s: Settings): (r: Result<Settings, seq<Failure>>)
    ensures r.Ok? <==>
      && !StartsWith(s.logFileName, "/") && (EndsWith(s.logFileName, ".log") || EndsWith(s.logFileName, ".txt"))
      && !StartsWith(s.examsFile, "/") && EndsWith(s.examsFile, ".xlsx")
      && !StartsWith(s.proctorsFile, "/") && EndsWith(s.proctorsFile, ".xlsx")
      && !StartsWith(s.examsFileForProctorNumbers, "/") && EndsWith(s.examsFileForProctorNumbers, ".xlsx")
      && s.examsFile != s.proctorsFile
    ensures r.Ok? ==> r.value == s
    ensures r.Err? ==> r.error != []
    ensures r.Err? && FieldFailures(s) != [] ==> r.error == FieldFailures(s)
    ensures r.Err? && FieldFailures(s) == [] ==> r.error == [Failure(Root, SameSheets(s.examsFile))]
  {
    var fs := FieldFailures(s);
    if fs != [] then Err(fs)
    else match ExamsAndProctorsFilesMustBeDifferent(s)
      case Ok(v) => Ok(v)
      case Err(e) => Err([Failure(Root, e)])
  }

  /** A name ending in a non-empty suffix ends in that suffix's last character. */
  lemma SuffixLast(v: string, a: string)
    requires |a| > 0 && EndsWith(v, a)
    ensures v[|v| - 1] == a[|a| - 1]
  {
    assert v[|v| - |a|..][|a| - 1] == v[|v| - 1];
  }

  /** Suffixes whose last characters differ never end the same name. */
  lemma SuffixesExclusive(v: string, a: string, b: string)
    requires |a| > 0 && |b| > 0 && a[|a| - 1] != b[|b| - 1]
    ensures !(EndsWith(v, a) && EndsWith(v, b))
  {
    if EndsWith(v, a) {
      SuffixLast(v, a);
      if EndsWith(v, b) {
        SuffixLast(v, b);
      }
    }
  }

  /**
   * In an accepted configuration the log file is none of the spreadsheets,
   * so logging never writes over an input.
   */
  lemma LogIsNoSheet(s: Settings)
    requires Validate(s).Ok?
    ensures s.logFileName != s.examsFile
    ensures s.logFileName != s.proctorsFile
    ensures s.logFileName != s.examsFileForProctorNumbers
  {
    SuffixesExclusive(s.logFileName, ".log", ".xlsx");
    SuffixesExclusive(s.logFileName, ".txt", ".xlsx");
  }

  /**
   * The cross-field check is skipped once a field fails: equal exams and
   * proctors spreadsheets go unreported when either name is refused.
   */
  lemma RootSkippedOnFailure(s: Settings)
    requires FieldFailures(s) != []
    ensures forall i :: 0 <= i < |Validate(s).error| ==> Validate(s).error[i].field != Root
  {
  }
}
