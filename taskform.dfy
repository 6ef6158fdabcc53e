/**
 * The task dialog of components/TaskForm.tsx: the values the form starts
 * from, the title rule, and the record `onSubmitForm` hands to the board.
 *
 * Date inputs hold "" or a calendar day "YYYY-MM-DD". Turning a date into
 * that text (`toISOString().split("T")[0]`) and back (`new Date(text)`) are
 * the parameters `formatDay` and `toDate`.
 */
module TaskForm {

  import opened Types
  import opened Text

  datatype Mode = Create | Edit

  /** `Partial<Task>` as far as the form reads it: every field may be missing. */
  datatype InitialData = InitialData(
    projectId: Option<string>,
    title: Option<string>,
    priority: Option<Priority>,
    status: Option<Status>,
    dueDate: Option<Date>,
    startDate: Option<Date>)

  /** The initial data the board passes for a task being edited. */
  function InitialOf(t: Task): InitialData {
    InitialData(Some(t.projectId), Some(t.title), Some(t.priority), Some(t.status), t.dueDate, t.startDate)
  }

  /** The form's own fields; the date fields are the text of the date inputs. */
  datatype FormValues = FormValues(
    projectId: string,
    title: string,
    priority: Priority,
    dueDate: string,
    startDate: string)

  /** A date field of the form: the formatted day when a date is given, otherwise "". */
  function DayText(d: Option<Date>, formatDay: Date -> string): string {
    match d
    case Some(v) => formatDay(v)
    case None => ""
  }

  /**
   * The default values, and the values `reset` puts back whenever the initial
   * data changes: missing text fields become "", a missing priority MEDIUM.
   */
  function DefaultValues(init: Option<InitialData>, formatDay: Date -> string): (v: FormValues)
    ensures init.None? ==> v == FormValues("", "", Medium, "", "")
    ensures init.Some? ==>
              && v.projectId == init.value.projectId.GetOr("")
              && v.title == init.value.title.GetOr("")
              && v.priority == init.value.priority.GetOr(Medium)
    ensures init.Some? && init.value.dueDate.Some? ==> v.dueDate == formatDay(init.value.dueDate.value)
    ensures (init.None? || init.value.dueDate.None?) ==> v.dueDate == ""
    ensures init.Some? && init.value.startDate.Some? ==> v.startDate == formatDay(init.value.startDate.value)
    ensures (init.None? || init.value.startDate.None?) ==> v.startDate == ""
  {
    match init
    case None => FormValues("", "", Medium, "", "")
    case Some(d) =>
      FormValues(d.projectId.GetOr(""), d.title.GetOr(""), d.priority.GetOr(Medium),
                 DayText(d.dueDate, formatDay), DayText(d.startDate, formatDay))
  }

  /** A date input's text as a date: "" is no date at all. */
  function DateOf(text: string, toDate: string -> Date): Option<Date> {
    if text == "" then None else Some(toDate(text))
  }

  /** `onSubmitForm`'s record: trimmed title, status fixed by the mode, no description. */
  function SubmittedData(v: FormValues, mode: Mode, init: Option<InitialData>, toDate: string -> Date): (d: TaskData)
    ensures d.projectId == v.projectId && d.priority == v.priority
    ensures d.title == Trim(v.title)
    ensures mode == Create ==> d.status == Todo
    ensures mode == Edit && init.Some? && init.value.status.Some? ==> d.status == init.value.status.value
    ensures mode == Edit && (init.None? || init.value.status.None?) ==> d.status == Todo
    ensures d.description.None?
    ensures d.dueDate.None? <==> v.dueDate == ""
    ensures d.startDate.None? <==> v.startDate == ""
    ensures v.dueDate != "" ==> d.dueDate == Some(toDate(v.dueDate))
    ensures v.startDate != "" ==> d.startDate == Some(toDate(v.startDate))
  {
    var status := match mode
      case Create => Todo
      case Edit => if init.Some? then init.value.status.GetOr(Todo) else Todo;
    TaskData(v.projectId, Trim(v.title), None, v.priority, status,
             DateOf(v.dueDate, toDate), DateOf(v.startDate, toDate))
  }

  /** What the dialog tells its owner. */
  datatype FormEvent = Submitted(data: TaskData) | Closed

  /** `onSubmitForm`: `onSubmit(taskData)` and then `onClose()`. */
  function OnSubmitForm(v: FormValues, mode: Mode, init: Option<InitialData>, toDate: string -> Date): (events: seq<FormEvent>)
    ensures |events| == 2 && events[1] == Closed
    ensures events[0].Submitted? && events[0].data == SubmittedData(v, mode, init, toDate)
  {
    [Submitted(SubmittedData(v, mode, init, toDate)), Closed]
  }

  /**
   * Opening the dialog on a task and saving it untouched submits the task's
   * data, less its description, and then closes the dialog, provided its
   * title has no outer white space and its dates survive the trip through the
   * date inputs.
   */
  lemma EditUntouchedKeepsData(t: Task, formatDay: Date -> string, toDate: string -> Date)
    requires t.title == Trim(t.title)
    requires t.dueDate.Some? ==> formatDay(t.dueDate.value) != "" && toDate(formatDay(t.dueDate.value)) == t.dueDate.value
    requires t.startDate.Some? ==> formatDay(t.startDate.value) != "" && toDate(formatDay(t.startDate.value)) == t.startDate.value
    ensures SubmittedData(DefaultValues(Some(InitialOf(t)), formatDay), Edit, Some(InitialOf(t)), toDate)
            == DataOf(t).(description := None)
    ensures OnSubmitForm(DefaultValues(Some(InitialOf(t)), formatDay), Edit, Some(InitialOf(t)), toDate)
            == [Submitted(DataOf(t).(description := None)), Closed]
  {
    var init := Some(InitialOf(t));
    var v := DefaultValues(init, formatDay);
    var d := SubmittedData(v, Edit, init, toDate);
    assert d.title == t.title by {
      assert v.title == t.title;
    }
    assert d.dueDate == t.dueDate by {
      DateFieldRoundTrip(t.dueDate, formatDay, toDate);
    }
    assert d.startDate == t.startDate by {
      DateFieldRoundTrip(t.startDate, formatDay, toDate);
    }
    assert d.status == t.status;
  }

  /** A date shown in a date input and read back is the same date, when the day text round-trips. */
  lemma DateFieldRoundTrip(d: Option<Date>, formatDay: Date -> string, toDate: string -> Date)
    requires d.Some? ==> formatDay(d.value) != "" && toDate(formatDay(d.value)) == d.value
    ensures DateOf(DayText(d, formatDay), toDate) == d
  {
  }

  /**
   * The title rule: `required` and `minLength: 3`, both on the text as typed;
   * the length is JavaScript's, in UTF-16 code units.
   */
  predicate TitleAccepted(title: string) {
    title != "" && Utf16Length(title) >= 3
  }

  /**
   * A title is accepted exactly when it has three code units: any title of
   * three characters is, and for titles within the Basic Multilingual Plane
   * that is the same as three characters.
   */
  lemma TitleAcceptedIffLongEnough(title: string)
    ensures TitleAccepted(title) <==> Utf16Length(title) >= 3
    ensures |title| >= 3 ==> TitleAccepted(title)
    ensures (forall i :: 0 <= i < |title| ==> title[i] as int < 0x1_0000) ==> (TitleAccepted(title) <==> |title| >= 3)
  {
  }

  /** A character outside the Basic Multilingual Plane counts twice: a two-character title can pass. */
  lemma AstralCharacterCountsTwice()
    ensures |"a\U{1F600}"| == 2
    ensures TitleAccepted("a\U{1F600}")
  {
    assert "a\U{1F600}"[1..] == "\U{1F600}";
    assert "\U{1F600}"[1..] == "";
  }

  /**
   * The rule looks at the untrimmed text, so an accepted title can be
   * submitted shorter than three characters: "  a" passes and is sent as "a".
   */
  lemma AcceptedTitleCanBeSubmittedShort()
    ensures TitleAccepted("  a")
    ensures Trim("  a") == "a"
  {
    assert !IsSpace('a') && IsSpace(' ');
    assert TrimStart("a") == "a";
    assert " a"[1..] == "a";
    assert TrimStart(" a") == "a";
    assert "  a"[1..] == " a";
    assert TrimStart("  a") == "a";
    assert TrimEnd("a") == "a";
  }

  /** A title with no white space at its ends is submitted as typed, so it still meets the rule. */
  lemma TrimmedTitleSubmittedAsTyped(title: string)
    requires TitleAccepted(title)
    requires !IsSpace(title[0]) && !IsSpace(title[|title| - 1])
    ensures Trim(title) == title
    ensures TitleAccepted(Trim(title))
  {
    assert TrimStart(title) == title;
    assert TrimEnd(title) == title;
  }
}
