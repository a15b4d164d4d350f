# Exam proctor scheduler — a Dafny model

This project models the core of `scheduler`, a tool that assigns proctors to
university exams. It covers the following parts:

- **Exams and proctors.** An exam's three-digit course code comes from its title.
  So does whether it needs a PhD proctor and whether it is a first- or
  second-year masters exam. Its block (time slot) is its date and time. There
  is also the older exam class of `exam.py`.
- **Data preparation.**
  - The exams sheet becomes exam objects, one per classroom.
  - Blocked slots are appended to proctors, either by the fixed masters rules
    or from a constraints sheet.
  - The number of proctors each exam needs is set, either by the classroom
    rule or from a numbers sheet.
- **Configuration.** `config.yaml` names a log file and three spreadsheets, and
  is validated before use.
- **The planner.**
  - It computes the duty quotas and sorts the exams.
  - It groups the exams into blocks and visits the blocks by demand.
  - For each exam it filters the available proctors, strictly first and then
    without the soft constraint.
  - It draws the picks at random and appends each exam and proctor to the
    other's list.
- **The simulator.** It sets up the quotas and blocks once. Then it runs the
  planner once per trial and records each trial's exit code and a copy of the
  state under the trial's number.

The model has three layers:

- Pure parts (classification, ordering, configuration) are functions with
  lemmas.
- Parts that update objects in place are classes: `Exam`, `Proctor`, `Planner`,
  `Prepper` and `Simulator`. Their methods have `modifies` clauses, and their
  loops carry invariants.
- Each method is proved against a value model. `Assignment` and `ExamOrdering`
  model the planner. `Parsed`, `AutoBlocks`, `ManualRun`/`Marked` and `NeedAfter`
  model data preparation. `Chain` and `Record` model the simulator. The
  properties that relate several steps are lemmas about these value models.

Python exceptions are `Result`/`Option` values, so the model keeps each error
path: `PyError`, one of `ValueError`, `TypeError`, `AttributeError`,
`ZeroDivisionError` or `KeyError`. `random.choices` is a nondeterministic
choice. Every possible pick sequence is allowed, and the properties hold for
all of them.

The model follows the code as written, including these behaviours:

- Picks are drawn *with* replacement (`random.choices`), so one proctor can
  be drawn twice for the same exam.
- The capacity test is a strict `>`.
- The relaxed availability scan appends duty blocks to `proctor.unavailable`
  itself. This happens because `constraints` aliases that list.
- `blocks` is never cleared. Every `set_blocks` call appends every exam again
  (`Simulation.BlocksAccumulate`).
- No state is reset between trials. Each trial starts from the state the
  previous one left.
- Blocks are ordered by the plain sum of `number_of_proctors_needed`. A block
  whose exam requires a specific proctor gets no extra weight.
- The specific-proctor filter compares `proctor.name` with the stored value.
  The preparation step stores a `Proctor` object there, and a name never
  equals one (`Assignment.NameEquals`). The value is therefore modelled as
  `Specific = ByProctor(Proctor) | ByText(string)`.
- Trials are neither scored nor ranked. The code contains no scoring.

## Model

| member | source | states |
|---|---|---|
| ExamProctor.CourseCode | src/scheduler/exam_proctor.py:29-44 | The code exists exactly when the title has a run of three Unicode decimal digits. It is the value of the leftmost such run, so it lies in 0..999. A title without a run gives ValueError. |
| ExamProctor.DigitValue | src/scheduler/exam_proctor.py:38-44 | A character matched by `\d` has a digit value 0..9, read from its script's digit zero, as `int()` reads it. |
| ExamProctor.Classification | src/scheduler/exam_proctor.py:3-75 | All three classifications raise ValueError exactly when the code is missing. PhD is needed iff the code is at least 500. First year iff the code is listed and the title contains "ECON". First and second year are never both true. Either holds iff the title contains "ECON" and the code is at least 500, and either implies PhD. |
| ExamProctor.BlockDeterminesSlot | src/scheduler/exam_proctor.py:78-84 | When dates contain no space, two blocks are equal iff their dates and times are equal. |
| ExamProctor.BlocksOf | src/scheduler/planner.py:90 | `[duty.block for duty in proctor.duties]`: the same length, with each entry the block of the duty at that position. |
| ExamProctor.Exam.constructor | src/scheduler/exam_proctor.py:7-26 | All five fields are stripped of surrounding whitespace. The need starts at 0, with no specific proctor and no proctors. |
| ExamProctor.Proctor.constructor | src/scheduler/exam_proctor.py:97-115 | Name and email are stripped. Both counts are stored unchanged. The constraint and duty lists start empty. |
| Text.StripSurrounds | src/scheduler/exam_proctor.py:19-23 | What `strip()` keeps has no whitespace at either end, and what it removes is whitespace on both sides. |
| Text.StripOf | src/scheduler/exam_proctor.py:19-23 | Stripping whitespace padding off a trimmed text gives that text back. |
| Text.StripIdempotent | src/scheduler/exam_proctor.py:19-23 | Stripping twice is stripping once. |
| Text.SplitJoin | src/scheduler/prep_data.py:85 | Splitting at the vertical bar text made by joining bar-free pieces with it gives back the pieces. |
| LegacyExam.Exam.constructor | src/scheduler/exam.py:7-23 | The five fields are stripped of surrounding whitespace. The class holds no assignment state. |
| LegacyExam.Exam.Code | src/scheduler/exam.py:26-41 | The code exists iff the title has a three-digit run. It is the value of the leftmost run, in 0..999. Otherwise ValueError. |
| LegacyExam.Exam.RequiresPhdProctor | src/scheduler/exam.py:44-50 | Raises exactly when the code does. Otherwise true iff the code is at least 500. |
| LegacyExam.Exam.IsFirstYearMastersExam | src/scheduler/exam.py:53-59 | Raises exactly when the code does. Otherwise true iff the code is in the first-year list and the title contains "ECON". |
| LegacyExam.Exam.IsSecondYearMastersExam | src/scheduler/exam.py:62-72 | Raises exactly when the code does. Otherwise true iff the code is at least 500, the title contains "ECON" and the exam is not first-year. |
| LegacyExam.AgreesWithCurrent | src/scheduler/exam.py:26-81 | An older exam and a current exam with the same title, date and time have the same code, classifications and block. |
| LegacyExam.MastersKinds | src/scheduler/exam.py:53-72 | In the older class, first and second year are exclusive. Either holds iff the exam is a department exam coded at least 500, and a first-year exam needs a PhD proctor. |
| Config.LogFileNameMustBeValid | src/scheduler/config.py:26-47 | Accepted, and returned unchanged, iff the name does not start with "/" and ends with ".log" or ".txt". The slash check comes first. |
| Config.FileMustBeValid | src/scheduler/config.py:51-68 | Accepted, and returned unchanged, iff the name does not start with "/" and ends with ".xlsx". The slash check comes first. |
| Config.ExamsAndProctorsFilesMustBeDifferent | src/scheduler/config.py:71-88 | Rejected iff exams_file equals proctors_file. The proctor-numbers file is not compared. |
| Config.Validate | src/scheduler/config.py:18-88 | The settings are accepted unchanged iff every field rule holds and the two sheets differ. Field failures are reported together, in field order, and the cross-field check is skipped after any of them. |
| Config.LogIsNoSheet | src/scheduler/config.py:39-68 | In an accepted configuration the log file is none of the three spreadsheets. |
| ExamOrdering.Quotas | src/scheduler/planner.py:22-27 | `min * n <= total < (min + 1) * n` and `max == min + 1`. ZeroDivisionError exactly when there are no proctors. |
| ExamOrdering.SpecificOrder | src/scheduler/planner.py:37-42 | The first sort gives AttributeError when a stored text is non-empty. Otherwise it gives TypeError when str and False keys mix. On success it returns a permutation that keeps the order when no proctor is required and lists names non-increasingly. |
| ExamOrdering.PhdOrder | src/scheduler/planner.py:43 | The second sort gives ValueError iff some title lacks a code. Otherwise it returns a permutation with every PhD exam first, stable within each group. |
| ExamOrdering.ExamOrderSpec | src/scheduler/planner.py:37-43 | Both sorts: the exact error conditions and their precedence. On success, a permutation with PhD exams first that keeps the first sort's order within each group. |
| ExamOrdering.ExamOrderIdempotent | src/scheduler/planner.py:37-43 | Sorting an already sorted list again gives it back unchanged. |
| ExamOrdering.ExamOrderErrorsIgnoreOrder | src/scheduler/planner.py:37-43 | Whether the sorts raise, and what, depends only on which exams are listed. |
| ExamOrdering.GroupKeys | src/scheduler/planner.py:44-47 | The block keys stay distinct and in insertion order, with new blocks after old ones, and they match the map's keys. |
| ExamOrdering.GroupContents | src/scheduler/planner.py:44-47 | Each block's list is its old list followed by that block's exams in list order. Nothing is cleared. |
| ExamOrdering.OrderKeysSorted | src/scheduler/planner.py:59-66 | The ordered keys are a permutation of the keys. Demand is non-increasing along them when the flag is set and non-decreasing otherwise. |
| ExamOrdering.OrderKeysStable | src/scheduler/planner.py:59-66 | The sort is stable: keys of equal demand keep their insertion order. |
| Assignment.VerdictQualifies | src/scheduler/planner.py:82-103 | A proctor is appended iff it passes every rule: capacity (`>`), block not unavailable, not a duty block, not not-preferred under all constraints, name match when a proctor is required, and class 3 for PhD exams that require no specific proctor. It is appended twice iff a required name matches and the PhD rule also admits it. |
| Assignment.AvailableExactly | src/scheduler/planner.py:81-104 | The returned list holds exactly the listed proctors that qualify. |
| Assignment.StrictWithinRelaxed | src/scheduler/planner.py:114-120 | Every proctor in the strict pool is also in the relaxed pool. |
| Assignment.AssignEffect | src/scheduler/planner.py:135-139 | A proctor picked n times gains n copies of the exam as duties, and nothing else changes. |
| Assignment.PicksQualify | src/scheduler/planner.py:114-139 | In any legal run, every pick is a listed proctor that passed the relaxed rules in the state at its exam's turn. |
| Assignment.NeverUnavailable | src/scheduler/planner.py:83-139 | No pick is for a block the proctor was marked unavailable for at the start, or for a block of a duty held at the exam's turn. |
| Assignment.PrefersBelowMinimum | src/scheduler/planner.py:121-134 | When at least `need` pool members are below the minimum, every pick of that exam is below the minimum. |
| Assignment.PicksPaired | src/scheduler/planner.py:135-139 | A proctor appears in an exam's appended list as often as that exam appears in the proctor's appended duties. |
| Assignment.UnstaffedUntouched | src/scheduler/planner.py:126-130 | An exam with no staffed job gains no proctor. |
| Assignment.RunKeepsSoft | src/scheduler/planner.py:85-90 | No pass changes any `not_preferred` list. |
| Assignment.RunGrowsHard | src/scheduler/planner.py:85-90 | A pass only appends to `unavailable`. |
| Planning.ExitCode | src/scheduler/simulator.py:21-29 | Exit code 0 iff the pass completed. |
| Planning.Choices | src/scheduler/planner.py:135-137 | `random.choices(select_from, k=need)` draws exactly max(need, 0) picks, each from the population. |
| Planning.Planner.constructor | src/scheduler/planner.py:8-20 | Stores both lists, quotas 0 and no blocks. |
| Planning.Planner.SetMinMaxDuties | src/scheduler/planner.py:22-27 | The quotas are the floor of the total need over the proctor count, and one more. ZeroDivisionError, with the quotas unchanged, when there are no proctors. |
| Planning.Planner.SetBlocks | src/scheduler/planner.py:29-47 | After the two sorts the list is the sorted order and each exam is appended to its block. When a sort raises, the blocks stay as they were and the list remains a permutation: unchanged when the first sort's key raises AttributeError; in the first sort's order when the second sort's key raises ValueError; only a permutation on TypeError. |
| Planning.Planner.SortExams | src/scheduler/planner.py:37-43 | The two in-place sorts: the permutation, the error, and on success the `ExamOrder` result. |
| Planning.Planner.GroupExams | src/scheduler/planner.py:44-47 | The grouping loop leaves the blocks as `GroupInto` gives them. |
| Planning.Planner.OrderedBlocksKeysSorted | src/scheduler/planner.py:49-66 | The returned keys are a permutation of the block keys, ordered by each block's total need in the requested direction. |
| Planning.Planner.GetAvailableProctors | src/scheduler/planner.py:68-104 | The returned list is the model's `Available` list. With all constraints no proctor changes. Otherwise each proctor within capacity has its duty blocks appended to `unavailable`. |
| Planning.Planner.ScanProctor | src/scheduler/planner.py:83-103 | One proctor's iteration gives its verdict, plus the in-place extension of `unavailable` in the relaxed scan. |
| Planning.Planner.StaffExam | src/scheduler/planner.py:114-139 | The strict scan runs, then the relaxed scan when the strict pool is short. The exam is staffed iff the pool is at least the need. The picks are legal draws from the below-minimum proctors, or from the pool. The duties and the exam's list gain exactly those picks. |
| Planning.Planner.Schedule | src/scheduler/planner.py:106-139 | The whole pass: the quotas, the sort and grouping, the blocks by demand, then a legal run that completes iff every job was staffed and otherwise stops at a job whose pool is short. Errors leave every proctor and exam list unchanged. With no proctors the exam order, blocks and quotas are unchanged too; after a sort error the quotas are set, the blocks are unchanged and the list is left as `SetBlocks` states. |
| Simulation.SameQuotas | src/scheduler/simulator.py:17-21 | Every trial computes the quotas of the starting exams' total need. |
| Simulation.ListsGrow | src/scheduler/simulator.py:19-27 | Trials only append: every exam's proctor list after trial i starts with its list from before the first trial. |
| Simulation.BlocksAccumulate | src/scheduler/simulator.py:17-21 | After trial i (counted from 0), block b holds its starting list plus i + 1 more copies of its exams. |
| Simulation.Record | src/scheduler/simulator.py:22-27 | Trial k is stored under key k, for every k in 1..n. Keys outside that range keep what they held, and no other key appears. |
| Simulation.Simulator.constructor | src/scheduler/simulator.py:9-14 | Stores the planner and the count, with no results yet. |
| Simulation.Simulator.Simulate | src/scheduler/simulator.py:16-29 | Setup runs once. The error paths record nothing and leave every proctor and exam list unchanged. With no proctors the exam order, blocks and quotas are unchanged too; after a sort error the quotas are set, the blocks are unchanged and the list is left as `SetBlocks` states. Otherwise there are exactly max(n, 0) trials, each following from the state the previous one left, with the results map equal to `Record` of them. |
| Simulation.Simulator.RunTrial | src/scheduler/simulator.py:21-27 | One trial: a `schedule` pass and a value copy of the exams, proctors and blocks it left, with its exit code. |
| Preparation.RowExams | src/scheduler/prep_data.py:85-95 | One exam per classroom, in the cell's order, each built from the row's fields and that classroom. |
| Preparation.ParsedFails | src/scheduler/prep_data.py:83-112 | Parsing fails, with AttributeError, iff some row lacks classrooms and its title is not the last title parsed. |
| Preparation.ParsedCount | src/scheduler/prep_data.py:83-96 | On success, the number of exams equals the number of classrooms over all rows. |
| Preparation.RowClassrooms | src/scheduler/prep_data.py:85-95 | A cell that joins clean classroom names with a vertical bar gives exactly those classrooms, in order. |
| Preparation.CarryOver | src/scheduler/prep_data.py:97-110 | A continuation row appends ", " and its instructors to the previous row's exams. The count and the other fields stay the same. |
| Preparation.ParseExams | src/scheduler/prep_data.py:70-114 | A missing sheet gives ValueError. Otherwise the result is exactly `Parsed`: new, distinct, blank exams with the parsed fields, or the error. |
| Preparation.AutoBlocksMembers | src/scheduler/prep_data.py:174-187 | Only class-1 and class-2 proctors get blocks. A block is appended iff it belongs to an exam the rules restrict for that class. |
| Preparation.OfClassCount | src/scheduler/prep_data.py:174-179 | The class filter keeps every proctor of that class as often as the list has it, and no other. |
| Preparation.Prepper.AutoAddConstraints | src/scheduler/prep_data.py:170-187 | Each proctor's `unavailable` becomes its old list followed by the restricted blocks of the exams in order. A title without a code raises ValueError after the blocks before it were appended. |
| Preparation.Prepper.AutoAddProctorNumbers | src/scheduler/prep_data.py:189-197 | Each exam needs 2 iff its classroom contains "V-", and 1 otherwise. The result depends only on the classroom, so the step is idempotent. |
| Preparation.AllBlocks | src/scheduler/prep_data.py:204 | The blocks are strictly ascending and are exactly the exams' blocks. |
| Preparation.AscendingUnique | src/scheduler/prep_data.py:204 | An ascending list is determined by its members, so the result is the one `sorted(set)` gives. |
| Preparation.ManualOutcome | src/scheduler/prep_data.py:199-219 | ValueError iff the first block has a column and some row names no proctor. KeyError iff the first block has no column, or every name is known and some block has no column. Otherwise every cell of every block is applied. |
| Preparation.MarkedMembers | src/scheduler/prep_data.py:206-219 | A block lands in a proctor's list for value v iff an applied cell of that block holds v on a row whose name first matches that proctor. |
| Preparation.ManualRunStops | src/scheduler/prep_data.py:208-214 | A run that raises at some block raises there for the whole list. |
| Preparation.Prepper.ManuallyAddConstraints | src/scheduler/prep_data.py:199-219 | The error is `ManualRun`'s. Each proctor's `unavailable` gains exactly the blocks of the applied cells holding 1, and `not_preferred` those holding 2, in order. |
| Preparation.Prepper.FindProctor | src/scheduler/prep_data.py:208-214 | The `for ... else` search finds the first proctor with that name, or none. |
| Preparation.NeedAfterNone | src/scheduler/prep_data.py:226-235 | An exam that no row finds keeps the need it had. |
| Preparation.NeedAfterLast | src/scheduler/prep_data.py:226-235 | An exam that some row finds ends with the need of the last row that finds it. |
| Preparation.Prepper.ManuallyAddProctorNumbers | src/scheduler/prep_data.py:221-235 | The rows are applied in turn up to the first row that matches no exam, which raises ValueError. Every exam ends with `NeedAfter` of the applied rows. |
| Preparation.Prepper.FindExam | src/scheduler/prep_data.py:226-232 | Finds the first exam with the row's title and classroom, or none. |

## Left out

- Spreadsheet input and output: `read_excels`, `clean_exams_df`, `clean_proctors_df`, `parse_proctors`, the `pd.read_excel` calls, `produce_output_excels` and `src/scheduler/input.py`. Sheets are values here: `ExamRow`, `ConstraintSheet` and `NumberRow`.
- `manually_add_specific_proctors` reads the console in a loop, and `prepare` only calls the modelled steps in turn. Neither is modelled.
- The YAML loading of `parse_and_validate_configs` and the import-time `YAML_CONFIG`. Pydantic's coercion of non-string YAML values to `str` is not modelled: every field is a string here.
- `src/scheduler/cli.py` (command line, logging set-up, file system) and `src/scheduler/proctor.py` are not part of this model.
- Logging calls and the `__repr__` texts.
- Planning.Choices: only which picks are possible is modelled, not the uniform distribution of `random.choices`.
- Planning.Choices: requires a non-empty population when k > 0. `random.choices` raises IndexError there, but `schedule` never gets there because the pool holds at least `need` proctors.
- Planning.Planner.constructor: requires the proctor list to hold no proctor twice. The code accepts any list, but the parser builds one object per row.
- Planning.ExitCode: this is an assumption. The `schedule()` shown takes no argument and returns `None`, while `simulate` calls `schedule(i)` and records its result as an exit code. The model takes 0 for a completed pass and 1 for the early return at planner.py:126-130, which is a nonzero code.
- Planning.Planner.SetBlocks: when the first sort raises TypeError partway through, CPython leaves the list in an unspecified order of its elements. The model fixes one such order and promises only the permutation.
- Simulation.Simulator.Simulate: `deepcopy` is replaced by value copies, `Copy` and `Trial`. The planner's exam list is copied by value, so a caller holding the same Python list object would not see the planner's sorts.
- Fairness scoring and ranking of trials: the code contains none.
- Preparation.ParseExams: a NaN cell other than Classrooms, and non-string cells, are not modelled. Every cell other than Classrooms is a string.
- Preparation.Prepper.ManuallyAddProctorNumbers: the sheet's need is an integer here. A float or NaN cell from pandas is not modelled.
