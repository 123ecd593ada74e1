/**
 * The task form's validation schema (a zod object schema in the app).
 *
 * Each field is a chain of checks, every check a predicate with its own
 * message. zod runs every check of a field and reports each one that fails,
 * in declaration order; a field whose value is not even of the right type
 * (a storyPoints text that coerces to NaN) gets only the type error. The
 * object is accepted only when no field has an issue.
 *
 * Dates are calendar day numbers; "today" is a parameter.
 */
module TasksSchema {
  import opened Wrappers

  datatype Priority = Urgent | High | Normal | Low

  /**
   * A storyPoints value after `z.coerce.number()`, which applies JavaScript's
   * `Number(text)`: NaN when that is NaN (text such as "abc"); otherwise the
   * number. Empty or blank text, what an untouched number input sends,
   * becomes 0 and arrives as `Number(0.0)`.
   */
  datatype NumberInput = Number(value: real) | NaN

  /** A dueDate string as the calendar day it names, or a string `new Date` cannot parse. */
  datatype DateInput = Day(day: int) | InvalidDate

  /** What the form submits, before validation. */
  datatype RawTask = RawTask(
    taskName: string,
    priority: string,
    storyPoints: NumberInput,
    assignee: string,
    dueDate: DateInput)

  /** `TaskFormData`: what the schema hands on when every field is valid. */
  datatype TaskFormData = TaskFormData(
    taskName: string,
    priority: Priority,
    storyPoints: int,
    assignee: string,
    dueDate: int)

  datatype Field = TaskNameField | PriorityField | StoryPointsField | AssigneeField | DueDateField

  /** Either the validated record, or the error messages of every field that failed. */
  datatype Validation = Accepted(data: TaskFormData) | Rejected(errors: map<Field, seq<string>>)

  const TaskNameMinMessage := "Task Name must be at least 5 characters."
  const TaskNameMaxMessage := "Task Name must be at most 30 characters."
  const PriorityMessage := "Priority must be one of: Urgent, High, Normal, Low."
  const NumberTypeMessage := "Expected number, received nan"
  const StoryPointsIntMessage := "Story Points must be a whole number (no fractions or decimals) and above 0."
  const StoryPointsPositiveMessage := "Story Points must be a positive number above 0."
  const StoryPointsMinMessage := "Story Points must be at least 1."
  const StoryPointsMaxMessage := "Story Points must be at most 20."
  const AssigneeRegexMessage := "Assignee must contain only letters and spaces."
  const AssigneeRequiredMessage := "Assignee is required."
  const DueDateMessage := "Due Date must be a valid date in the future."

  /** One refinement of a field: the predicate it checks and the message it reports. */
  datatype Check<-T> = Check(holds: T -> bool, message: string)

  /**
   * Runs every check of a chain on `v` and collects the messages of the
   * failing ones, in order.
   */
  function Issues<T>(checks: seq<Check<T>>, v: T): (msgs: seq<string>)
    ensures |msgs| <= |checks|
    ensures msgs == [] <==> forall i :: 0 <= i < |checks| ==> checks[i].holds(v)
    ensures forall i :: 0 <= i < |checks| && !checks[i].holds(v) ==> checks[i].message in msgs
    ensures forall m :: m in msgs ==> exists i :: 0 <= i < |checks| && !checks[i].holds(v) && checks[i].message == m
  {
    if |checks| == 0 then []
    else
      var rest := Issues(checks[1..], v);
      assert forall i :: 1 <= i < |checks| ==> checks[i] == checks[1..][i - 1];
      (if checks[0].holds(v) then [] else [checks[0].message]) + rest
  }

  // ---------------------------------------------------------------------
  // The rules, stated plainly, one predicate per field.

  predicate TaskNameOk(s: string) { 5 <= |s| <= 30 }

  function PriorityName(p: Priority): string
  {
    match p
    case Urgent => "Urgent"
    case High => "High"
    case Normal => "Normal"
    case Low => "Low"
  }

  /** `z.enum`: the priority whose name is exactly `s`, if there is one. */
  function ParsePriority(s: string): (r: Option<Priority>)
    ensures r.Some? ==> PriorityName(r.value) == s
  {
    if s == "Urgent" then Some(Urgent)
    else if s == "High" then Some(High)
    else if s == "Normal" then Some(Normal)
    else if s == "Low" then Some(Low)
    else None
  }

  /** Every priority's name parses back to that priority, and nothing else parses. */
  lemma ParsePriorityRoundTrip(p: Priority, s: string)
    ensures ParsePriority(PriorityName(p)) == Some(p)
    ensures ParsePriority(s).Some? <==> s in {"Urgent", "High", "Normal", "Low"}
  {
  }

  predicate IsWhole(x: real) { x.Floor as real == x }

  predicate StoryPointsOk(n: NumberInput) { n.Number? && IsWhole(n.value) && 1.0 <= n.value <= 20.0 }

  predicate IsAsciiLetter(c: char) { 'a' <= c <= 'z' || 'A' <= c <= 'Z' }

  /** The characters JavaScript's `\s` matches: ECMAScript white space and line terminators. */
  predicate IsJsWhitespace(c: char)
  {
    var n := c as int;
    (0x09 <= n <= 0x0D) || n == 0x20 || n == 0xA0 || n == 0x1680 ||
    (0x2000 <= n <= 0x200A) || n == 0x2028 || n == 0x2029 || n == 0x202F ||
    n == 0x205F || n == 0x3000 || n == 0xFEFF
  }

  /** `/^[a-zA-Z\s]+$/`: at least one character, each a letter or white space. */
  predicate MatchesLettersAndSpaces(s: string)
  {
    |s| > 0 && forall i :: 0 <= i < |s| ==> IsAsciiLetter(s[i]) || IsJsWhitespace(s[i])
  }

  predicate AssigneeOk(s: string) { MatchesLettersAndSpaces(s) && |s| >= 1 }

  /** An unparseable date compares false with everything, so it is never accepted. */
  predicate DueDateOk(d: DateInput, today: int) { d.Day? && d.day >= today }

  predicate FieldOk(raw: RawTask, today: int, f: Field)
  {
    match f
    case TaskNameField => TaskNameOk(raw.taskName)
    case PriorityField => ParsePriority(raw.priority).Some?
    case StoryPointsField => StoryPointsOk(raw.storyPoints)
    case AssigneeField => AssigneeOk(raw.assignee)
    case DueDateField => DueDateOk(raw.dueDate, today)
  }

  // ---------------------------------------------------------------------
  // The check chains, field by field.

  function TaskNameIssues(s: string): (msgs: seq<string>)
    ensures msgs == [] <==> TaskNameOk(s)
    ensures |s| < 5 ==> msgs == [TaskNameMinMessage]
    ensures |s| > 30 ==> msgs == [TaskNameMaxMessage]
  {
    var checks := [Check((x: string) => |x| >= 5, TaskNameMinMessage),
                   Check((x: string) => |x| <= 30, TaskNameMaxMessage)];
    assert checks[1..][1..] == [];
    assert checks[0].holds(s) == (|s| >= 5) && checks[1].holds(s) == (|s| <= 30);
    Issues(checks, s)
  }

  /** The enum carries its own error map, so any failure reports the one message. */
  function PriorityIssues(s: string): (msgs: seq<string>)
    ensures msgs == [] <==> ParsePriority(s).Some?
    ensures msgs != [] ==> msgs == [PriorityMessage]
  {
    if ParsePriority(s).Some? then [] else [PriorityMessage]
  }

  function StoryPointsIssues(n: NumberInput): (msgs: seq<string>)
    ensures msgs == [] <==> StoryPointsOk(n)
    ensures n.NaN? ==> msgs == [NumberTypeMessage]
    ensures n.Number? && !IsWhole(n.value) ==> StoryPointsIntMessage in msgs
    ensures n.Number? && n.value <= 0.0 ==> StoryPointsPositiveMessage in msgs && StoryPointsMinMessage in msgs
    ensures n.Number? && n.value < 1.0 ==> StoryPointsMinMessage in msgs
    ensures n.Number? && n.value > 20.0 ==> StoryPointsMaxMessage in msgs
    ensures n.Number? && IsWhole(n.value) && n.value > 20.0 ==> msgs == [StoryPointsMaxMessage]
  {
    match n
    case NaN => [NumberTypeMessage]
    case Number(x) =>
      var checks := [Check(IsWhole, StoryPointsIntMessage),
                     Check((y: real) => y > 0.0, StoryPointsPositiveMessage),
                     Check((y: real) => y >= 1.0, StoryPointsMinMessage),
                     Check((y: real) => y <= 20.0, StoryPointsMaxMessage)];
      assert checks[0].holds(x) == IsWhole(x) && checks[1].holds(x) == (x > 0.0);
      assert checks[2].holds(x) == (x >= 1.0) && checks[3].holds(x) == (x <= 20.0);
      assert IsWhole(x) && x > 20.0 ==> Issues(checks, x) == [StoryPointsMaxMessage] by {
        if IsWhole(x) && x > 20.0 {
          assert Issues(checks[3..], x) == [StoryPointsMaxMessage] by {
            assert checks[3..][1..] == [];
          }
          assert checks[2..][0] == checks[2] && checks[2..][1..] == checks[3..];
          assert Issues(checks[2..], x) == Issues(checks[3..], x);
          assert checks[1..][0] == checks[1] && checks[1..][1..] == checks[2..];
          assert Issues(checks[1..], x) == Issues(checks[2..], x);
        }
      }
      Issues(checks, x)
  }

  function AssigneeIssues(s: string): (msgs: seq<string>)
    ensures msgs == [] <==> AssigneeOk(s)
    ensures |s| == 0 ==> msgs == [AssigneeRegexMessage, AssigneeRequiredMessage]
    ensures |s| > 0 && !MatchesLettersAndSpaces(s) ==> msgs == [AssigneeRegexMessage]
  {
    var checks := [Check(MatchesLettersAndSpaces, AssigneeRegexMessage),
                   Check((x: string) => |x| >= 1, AssigneeRequiredMessage)];
    assert checks[1..][1..] == [];
    assert checks[0].holds(s) == MatchesLettersAndSpaces(s) && checks[1].holds(s) == (|s| >= 1);
    Issues(checks, s)
  }

  function DueDateIssues(d: DateInput, today: int): (msgs: seq<string>)
    ensures msgs == [] <==> DueDateOk(d, today)
    ensures msgs != [] ==> msgs == [DueDateMessage]
  {
    var checks := [Check((x: DateInput) => DueDateOk(x, today), DueDateMessage)];
    assert checks[1..] == [];
    assert checks[0].holds(d) == DueDateOk(d, today);
    Issues(checks, d)
  }

  function FieldIssues(raw: RawTask, today: int, f: Field): (msgs: seq<string>)
    ensures msgs == [] <==> FieldOk(raw, today, f)
  {
    match f
    case TaskNameField => TaskNameIssues(raw.taskName)
    case PriorityField => PriorityIssues(raw.priority)
    case StoryPointsField => StoryPointsIssues(raw.storyPoints)
    case AssigneeField => AssigneeIssues(raw.assignee)
    case DueDateField => DueDateIssues(raw.dueDate, today)
  }

  predicate AllFieldsOk(raw: RawTask, today: int)
  {
    TaskNameOk(raw.taskName) && ParsePriority(raw.priority).Some? &&
    StoryPointsOk(raw.storyPoints) && AssigneeOk(raw.assignee) && DueDateOk(raw.dueDate, today)
  }

  /**
   * `tasksSchema` applied to a submission: all or nothing. On success the
   * fields are handed on unchanged, storyPoints as the whole number it is;
   * on failure exactly the failing fields carry messages.
   */
  function Validate(raw: RawTask, today: int): (r: Validation)
    ensures r.Accepted? <==> AllFieldsOk(raw, today)
    ensures r.Accepted? ==>
      && r.data.taskName == raw.taskName
      && PriorityName(r.data.priority) == raw.priority
      && raw.storyPoints == Number(r.data.storyPoints as real)
      && r.data.assignee == raw.assignee
      && raw.dueDate == Day(r.data.dueDate)
    ensures r.Rejected? ==>
      forall f :: (f in r.errors <==> !FieldOk(raw, today, f)) && (f in r.errors ==> r.errors[f] != [])
    ensures r.Rejected? ==> forall f :: f in r.errors ==> r.errors[f] == FieldIssues(raw, today, f)
  {
    if AllFieldsOk(raw, today) then
      Accepted(TaskFormData(raw.taskName, ParsePriority(raw.priority).value,
                            raw.storyPoints.value.Floor, raw.assignee, raw.dueDate.day))
    else
      Rejected(map f | f in {TaskNameField, PriorityField, StoryPointsField, AssigneeField, DueDateField}
                         && FieldIssues(raw, today, f) != [] :: FieldIssues(raw, today, f))
  }

  /** The form data a validated record came from. */
  function ToRaw(data: TaskFormData): RawTask
  {
    RawTask(data.taskName, PriorityName(data.priority), Number(data.storyPoints as real),
            data.assignee, Day(data.dueDate))
  }

  /** Validating the data of an accepted submission again accepts it unchanged. */
  lemma ValidateIdempotent(raw: RawTask, today: int)
    requires Validate(raw, today).Accepted?
    ensures Validate(ToRaw(Validate(raw, today).data), today) == Validate(raw, today)
  {
  }

  /** A submission that breaks exactly one rule is rejected with errors on that field only. */
  lemma SingleFieldFailure(raw: RawTask, today: int, g: Field)
    requires !FieldOk(raw, today, g)
    requires forall f :: f != g ==> FieldOk(raw, today, f)
    ensures Validate(raw, today).Rejected?
    ensures Validate(raw, today).errors.Keys == {g}
  {
  }

  // ---------------------------------------------------------------------
  // How the due date is compared as the code is written.

  const MillisPerDay := 86400000
  const MillisPerMinute := 60000

  /**
   * `new Date("YYYY-MM-DD")` is midnight UTC of day `d`; `setHours(0, 0, 0, 0)`
   * then moves it to the start of the LOCAL day containing that instant.
   * `offsetMinutes` is `getTimezoneOffset()`: positive west of UTC.
   */
  function LocalDayOfUtcMidnight(d: int, offsetMinutes: int): (r: int)
    ensures r * MillisPerDay <= d * MillisPerDay - offsetMinutes * MillisPerMinute < (r + 1) * MillisPerDay
    ensures 0 < offsetMinutes < 24 * 60 ==> r == d - 1
    ensures -24 * 60 < offsetMinutes <= 0 ==> r == d
  {
    (d * MillisPerDay - offsetMinutes * MillisPerMinute) / MillisPerDay
  }

  /** The refine callback as written: local day of the parsed date against today's local day. */
  predicate DueDateOkAsWritten(d: DateInput, today: int, offsetMinutes: int)
    ensures DueDateOkAsWritten(d, today, offsetMinutes) <==>
      d.Day? && d.day * MillisPerDay - offsetMinutes * MillisPerMinute >= today * MillisPerDay
  {
    d.Day? && LocalDayOfUtcMidnight(d.day, offsetMinutes) >= today
  }

  /** West of UTC the parsed date lands on the previous local day, so a due date of today is refused. */
  lemma TodayRefusedWestOfUtc(today: int, offsetMinutes: int)
    requires 0 < offsetMinutes < 24 * 60
    ensures !DueDateOkAsWritten(Day(today), today, offsetMinutes)
    ensures DueDateOk(Day(today), today)
  {
  }

  /** At UTC and east of it the code as written agrees with the intended day comparison. */
  lemma AsWrittenAgreesEastOfUtc(d: DateInput, today: int, offsetMinutes: int)
    requires -24 * 60 < offsetMinutes <= 0
    ensures DueDateOkAsWritten(d, today, offsetMinutes) <==> DueDateOk(d, today)
  {
  }
}
