/**
 * The task form: the due-date display text, the state of the form's fields,
 * the quick due-date chips, the completed toggle, and validation of a submit.
 */
module TaskForm {
  import opened Wrappers
  import opened Text
  import opened Dates
  import DueMeta

  /**
   * The values a submit hands on, and that the API sends. The title is
   * optional because the task list also sends the title of a stored task,
   * which may be missing.
   */
  datatype TaskFormValues = TaskFormValues(
    title: Option<string>,
    description: Option<string>,
    dueDate: Option<string>,
    completed: bool)

  /** The values an edit screen starts the form from; every one is optional. */
  datatype TaskFormInitialValues = TaskFormInitialValues(
    title: Option<string>,
    description: Option<string>,
    dueDate: Option<string>,
    completed: Option<bool>)

  /** Shown when the form has no due date. */
  const NoDueDisplay := "Không có hạn"
  /** The error shown under a blank title. */
  const TitleRequired := "Vui lòng nhập tiêu đề"

  /**
   * `formatDueDisplay(date)`: the same prefix rules as the task list's
   * classifier, written out again in the form, followed by the time of day.
   */
  function FormatDueDisplay(date: Instant, today: int): string {
    var diffDays := date.day - today;
    var prefix :=
      if diffDays < 0 then DueMeta.LatePrefix + NatToString(-diffDays) + DueMeta.DaysSuffix
      else if diffDays == 0 then DueMeta.TodayPrefix
      else if diffDays == 1 then DueMeta.TomorrowPrefix
      else DueMeta.LaterPrefix + NatToString(diffDays) + DueMeta.DaysSuffix;
    prefix + DueMeta.Bullet + date.time
  }

  /** The form's copy of the prefix rules agrees with the task list's for every date and every day. */
  lemma FormatDueDisplayAgrees(date: Instant, today: int)
    ensures FormatDueDisplay(date, today) == DueMeta.LabelFor(date, today)
  {
  }

  /** The date a form starts with and the text shown for it. */
  datatype InitialDue = InitialDue(date: Option<Instant>, display: string)

  /**
   * `getInitialDue(dueDateIso)`: a missing or empty string, or one that does
   * not parse, gives no date and "Không có hạn"; otherwise the parsed date
   * and its display text.
   */
  function GetInitialDue(dueDateIso: Option<string>, env: DateEnv): (r: InitialDue)
    ensures r.date.None? <==> dueDateIso.None? || dueDateIso.value == "" || env.parse(dueDateIso.value).None?
    ensures r.date.None? ==> r.display == NoDueDisplay
    ensures r.date.Some? ==> r.date == env.parse(dueDateIso.value) && r.display == FormatDueDisplay(r.date.value, env.now.day)
  {
    if dueDateIso.None? || dueDateIso.value == "" then InitialDue(None, NoDueDisplay)
    else
      match env.parse(dueDateIso.value)
      case None => InitialDue(None, NoDueDisplay)
      case Some(d) => InitialDue(Some(d), FormatDueDisplay(d, env.now.day))
  }

  /**
   * A task opened for editing shows, under its due date, exactly the label the
   * task list shows for it, and "Không có hạn" exactly when the list shows none.
   */
  lemma InitialDueMatchesList(dueDate: Option<string>, env: DateEnv)
    ensures DueMeta.GetDueMeta(dueDate, env).dueLabel.Some? <==> GetInitialDue(dueDate, env).date.Some?
    ensures DueMeta.GetDueMeta(dueDate, env).dueLabel.Some? ==>
      DueMeta.GetDueMeta(dueDate, env).dueLabel.value == GetInitialDue(dueDate, env).display
    ensures DueMeta.GetDueMeta(dueDate, env).dueLabel.None? ==> GetInitialDue(dueDate, env).display == NoDueDisplay
  {
  }

  /** `initialValues?.dueDate`. */
  function InitialDueDate(initial: Option<TaskFormInitialValues>): Option<string> {
    if initial.Some? then initial.value.dueDate else None
  }

  /** `initialValues?.title ?? ""`: `??` replaces only a missing value, so an empty title stays empty. */
  function InitialTitle(initial: Option<TaskFormInitialValues>): string {
    if initial.Some? then initial.value.title.GetOr("") else ""
  }

  /** `initialValues?.description ?? ""`. */
  function InitialDescription(initial: Option<TaskFormInitialValues>): string {
    if initial.Some? then initial.value.description.GetOr("") else ""
  }

  /** `initialValues?.completed ?? false`. */
  function InitialCompleted(initial: Option<TaskFormInitialValues>): bool {
    if initial.Some? then initial.value.completed.GetOr(false) else false
  }

  /** A form opened without initial values starts with an empty title, no due date and not completed. */
  lemma DefaultsWithoutInitialValues(env: DateEnv)
    ensures InitialTitle(None) == "" && InitialDescription(None) == "" && !InitialCompleted(None)
    ensures GetInitialDue(InitialDueDate(None), env) == InitialDue(None, NoDueDisplay)
  {
  }

  /**
   * The payload of a valid submit: the title trimmed, the description trimmed
   * or dropped when it is blank, the due date as its ISO string, and
   * `completed` as it stands.
   */
  function SubmitPayload(title: string, description: string, dueDate: Option<Instant>, completed: bool): (v: TaskFormValues)
    ensures v.title == Some(Trim(title))
    ensures v.description.None? <==> IsBlank(description)
    ensures v.description.Some? ==> v.description.value == Trim(description)
    ensures v.dueDate.Some? <==> dueDate.Some?
    ensures dueDate.Some? ==> v.dueDate == Some(dueDate.value.iso)
    ensures v.completed == completed
  {
    TrimEmptyIffBlank(description);
    var d := Trim(description);
    TaskFormValues(
      Some(Trim(title)),
      if d == "" then None else Some(d),
      if dueDate.Some? then Some(dueDate.value.iso) else None,
      completed)
  }

  /** The state of one task form. */
  class TaskFormState {
    var title: string
    var description: string
    var dueDate: Option<Instant>
    var dueDisplay: string
    var pickerVisible: bool
    var completed: bool
    var titleError: Option<string>
    var formError: Option<string>
    var loading: bool

    /** The form's first render, from the optional initial values. */
    constructor (initial: Option<TaskFormInitialValues>, env: DateEnv)
      ensures title == InitialTitle(initial) && description == InitialDescription(initial)
      ensures dueDate == GetInitialDue(InitialDueDate(initial), env).date
      ensures dueDisplay == GetInitialDue(InitialDueDate(initial), env).display
      ensures completed == InitialCompleted(initial)
      ensures !pickerVisible && titleError.None? && formError.None? && !loading
    {
      var due := GetInitialDue(InitialDueDate(initial), env);
      title := InitialTitle(initial);
      description := InitialDescription(initial);
      dueDate := due.date;
      dueDisplay := due.display;
      pickerVisible := false;
      completed := InitialCompleted(initial);
      titleError := None;
      formError := None;
      loading := false;
    }

    /** The effect that re-reads changed initial values; errors, picker and loading are left alone. */
    method SyncInitialValues(initial: Option<TaskFormInitialValues>, env: DateEnv)
      modifies this
      ensures title == InitialTitle(initial) && description == InitialDescription(initial)
      ensures dueDate == GetInitialDue(InitialDueDate(initial), env).date
      ensures dueDisplay == GetInitialDue(InitialDueDate(initial), env).display
      ensures completed == InitialCompleted(initial)
      ensures pickerVisible == old(pickerVisible) && titleError == old(titleError)
      ensures formError == old(formError) && loading == old(loading)
    {
      var due := GetInitialDue(InitialDueDate(initial), env);
      title := InitialTitle(initial);
      description := InitialDescription(initial);
      dueDate := due.date;
      dueDisplay := due.display;
      completed := InitialCompleted(initial);
    }

    /** The "no due date" chip. */
    method SelectNoDue()
      modifies this`dueDate, this`dueDisplay
      ensures dueDate.None? && dueDisplay == NoDueDisplay
    {
      dueDate := None;
      dueDisplay := NoDueDisplay;
    }

    /** The "today" chip: due now, shown as due today. */
    method SelectToday(env: DateEnv)
      modifies this`dueDate, this`dueDisplay
      ensures dueDate == Some(env.now)
      ensures dueDisplay == DueMeta.TodayPrefix + DueMeta.Bullet + env.now.time
    {
      dueDate := Some(env.now);
      dueDisplay := FormatDueDisplay(env.now, env.now.day);
    }

    /** The "tomorrow" chip: due on the next calendar day, labelled with tomorrow's own time. */
    method SelectTomorrow(env: DateEnv)
      requires TomorrowFollowsNow(env)
      modifies this`dueDate, this`dueDisplay
      ensures dueDate == Some(env.tomorrow)
      ensures dueDisplay == DueMeta.TomorrowPrefix + DueMeta.Bullet + env.tomorrow.time
    {
      dueDate := Some(env.tomorrow);
      dueDisplay := FormatDueDisplay(env.tomorrow, env.now.day);
    }

    /** The button that opens the date picker. */
    method OpenPicker()
      modifies this`pickerVisible
      ensures pickerVisible
    {
      pickerVisible := true;
    }

    /** A date confirmed in the picker closes it and becomes the due date. */
    method HandleConfirm(date: Instant, env: DateEnv)
      modifies this`pickerVisible, this`dueDate, this`dueDisplay
      ensures !pickerVisible && dueDate == Some(date)
      ensures dueDisplay == FormatDueDisplay(date, env.now.day)
    {
      pickerVisible := false;
      dueDate := Some(date);
      dueDisplay := FormatDueDisplay(date, env.now.day);
    }

    /** Cancelling the picker closes it and keeps the due date. */
    method HandleCancelPicker()
      modifies this`pickerVisible
      ensures !pickerVisible
    {
      pickerVisible := false;
    }

    /** The "mark as completed" row flips `completed`. */
    method ToggleCompleted()
      modifies this`completed
      ensures completed == !old(completed)
    {
      completed := !completed;
    }

    /**
     * Pressing submit clears both errors; a blank title sets the title error
     * and stops. Otherwise loading starts and the payload is fixed from the
     * values at the press: it is what the delayed submit will hand on.
     */
    method HandleSubmit() returns (pending: Option<TaskFormValues>)
      modifies this`titleError, this`formError, this`loading
      ensures formError.None?
      ensures pending.None? <==> IsBlank(title)
      ensures pending.None? ==> titleError == Some(TitleRequired) && loading == old(loading)
      ensures pending.Some? ==>
        titleError.None? && loading && pending.value == SubmitPayload(title, description, dueDate, completed)
    {
      titleError := None;
      formError := None;
      TrimEmptyIffBlank(title);
      if Trim(title) == "" {
        titleError := Some(TitleRequired);
        return None;
      }
      loading := true;
      pending := Some(SubmitPayload(title, description, dueDate, completed));
    }

    /** The delayed part of a submit: loading ends, and the payload goes to `onSubmit` when there is one. */
    method SubmitTimerFired(pending: TaskFormValues, hasOnSubmit: bool) returns (submitted: Option<TaskFormValues>)
      modifies this`loading
      ensures !loading
      ensures submitted == if hasOnSubmit then Some(pending) else None
    {
      loading := false;
      submitted := if hasOnSubmit then Some(pending) else None;
    }
  }
}
