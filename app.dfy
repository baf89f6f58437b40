/**
 * The root component: which screen is shown, given the boot flag, the session
 * token and user, the requested screen and the task being edited, and the
 * transitions between screens.
 */
module App {
  import opened Wrappers
  import opened TaskItem
  import DueMeta

  /** The screens the app can be asked to show. */
  datatype Screen = Login | Signup | TaskList | CreateTask | EditTask

  /** The user kept in storage next to the token. */
  datatype StoredUser = StoredUser(email: string, displayName: Option<string>)

  /** What the root renders. */
  datatype View =
    | BootingView
    | SignupView
    | LoginView
    | TaskListView(userName: string)
    | CreateTaskView
    | EditTaskView(task: Task)

  /** `if (token)`: a token counts only when it is a non-empty string. */
  predicate HasToken(token: Option<string>) {
    token.Some? && token.value != ""
  }

  /** `user?.displayName || user?.email || "bạn"`: never empty. */
  function DisplayName(user: Option<StoredUser>): (name: string)
    ensures name != ""
    ensures user.Some? && user.value.displayName.Some? && user.value.displayName.value != "" ==>
      name == user.value.displayName.value
    ensures user.Some? && (user.value.displayName.None? || user.value.displayName.value == "") && user.value.email != "" ==>
      name == user.value.email
    ensures user.None? || ((user.value.displayName.None? || user.value.displayName.value == "") && user.value.email == "") ==>
      name == DueMeta.DefaultName
  {
    if user.Some? && user.value.displayName.Some? && user.value.displayName.value != "" then user.value.displayName.value
    else if user.Some? && user.value.email != "" then user.value.email
    else DueMeta.DefaultName
  }

  /** The root's render: booting first, then the auth flow without a token, then the app flow with its fallback. */
  function Render(screen: Screen, token: Option<string>, user: Option<StoredUser>, booting: bool, editingTask: Option<Task>): View {
    if booting then BootingView
    else if !HasToken(token) then (if screen == Signup then SignupView else LoginView)
    else if screen == TaskList then TaskListView(DisplayName(user))
    else if screen == CreateTask then CreateTaskView
    else if screen == EditTask && editingTask.Some? then EditTaskView(editingTask.value)
    else TaskListView(DisplayName(user))
  }

  /**
   * Once booted, the task screens are reachable only with a token, and the
   * auth screens only without one: then the sign-up screen is shown when it
   * was asked for, and the login screen for every other request.
   */
  lemma TaskViewsNeedToken(screen: Screen, token: Option<string>, user: Option<StoredUser>, booting: bool, editingTask: Option<Task>)
    ensures var v := Render(screen, token, user, booting, editingTask);
      (v.BootingView? <==> booting) &&
      (v.TaskListView? || v.CreateTaskView? || v.EditTaskView? <==> !booting && HasToken(token)) &&
      (v.SignupView? || v.LoginView? <==> !booting && !HasToken(token))
    ensures !booting && !HasToken(token) ==>
      Render(screen, token, user, booting, editingTask) == (if screen == Signup then SignupView else LoginView)
  {
  }

  /** The edit screen is shown only for the task being edited, and only when there is one. */
  lemma EditViewShowsEditingTask(screen: Screen, token: Option<string>, user: Option<StoredUser>, booting: bool, editingTask: Option<Task>)
    ensures var v := Render(screen, token, user, booting, editingTask);
      v.EditTaskView? <==> !booting && HasToken(token) && screen == EditTask && editingTask.Some?
    ensures var v := Render(screen, token, user, booting, editingTask);
      v.EditTaskView? ==> v.task == editingTask.value
  {
  }

  /**
   * With a token, every requested screen other than the create and edit
   * screens, the auth screens included, shows the task list under the user's
   * display name: so does an edit request without a task.
   */
  lemma FallbackIsTaskList(screen: Screen, token: Option<string>, user: Option<StoredUser>, editingTask: Option<Task>)
    requires HasToken(token)
    requires screen != CreateTask && !(screen == EditTask && editingTask.Some?)
    ensures Render(screen, token, user, false, editingTask) == TaskListView(DisplayName(user))
  {
  }

  /** The state of the root component. */
  class AppState {
    var screen: Screen
    var token: Option<string>
    var user: Option<StoredUser>
    var booting: bool
    var editingTask: Option<Task>

    constructor ()
      ensures screen == Login && token.None? && user.None? && booting && editingTask.None?
      ensures View() == BootingView
    {
      screen := Login;
      token := None;
      user := None;
      booting := true;
      editingTask := None;
    }

    /** What the root renders now. */
    function View(): View
      reads this
    {
      Render(screen, token, user, booting, editingTask)
    }

    /**
     * The boot effect, given what storage returned (reading storage never
     * fails: a failed read is reported as nothing stored). A non-empty token
     * restores the session, with the stored user when there is one, and opens
     * the task list; booting ends either way.
     */
    method Boot(storedToken: Option<string>, storedUser: Option<StoredUser>)
      modifies this`screen, this`token, this`user, this`booting
      ensures !booting
      ensures HasToken(storedToken) ==>
        token == storedToken && screen == TaskList && user == (if storedUser.Some? then storedUser else old(user))
      ensures !HasToken(storedToken) ==> token == old(token) && screen == old(screen) && user == old(user)
      ensures HasToken(storedToken) ==> View() == TaskListView(DisplayName(user))
    {
      if HasToken(storedToken) {
        token := storedToken;
        if storedUser.Some? {
          user := storedUser;
        }
        screen := TaskList;
      }
      booting := false;
    }

    /** `handleAuthSuccess`: the session is kept (and saved) and the task list opens. */
    method AuthSuccess(newToken: string, userInfo: StoredUser)
      modifies this`screen, this`token, this`user
      ensures token == Some(newToken) && user == Some(userInfo) && screen == TaskList
      ensures !booting && newToken != "" ==> View() == TaskListView(DisplayName(Some(userInfo)))
    {
      token := Some(newToken);
      user := Some(userInfo);
      screen := TaskList;
    }

    /** `handleLogout`: the session is dropped (and cleared from storage) and the login screen opens; the task being edited stays. */
    method Logout()
      modifies this`screen, this`token, this`user
      ensures token.None? && user.None? && screen == Login
      ensures !booting ==> View() == LoginView
    {
      token := None;
      user := None;
      screen := Login;
    }

    /** The login screen's link to signup. */
    method GoSignup()
      modifies this`screen
      ensures screen == Signup
    {
      screen := Signup;
    }

    /** The signup screen's link back to login. */
    method GoLogin()
      modifies this`screen
      ensures screen == Login
    {
      screen := Login;
    }

    /** The task list's create button. */
    method OpenCreateTask()
      modifies this`screen
      ensures screen == CreateTask
    {
      screen := CreateTask;
    }

    /** `onEditTask`: remembers the task and opens the edit screen, which then shows exactly that task. */
    method OpenEditTask(task: Task)
      modifies this`screen, this`editingTask
      ensures editingTask == Some(task) && screen == EditTask
      ensures !booting && HasToken(token) ==> View() == EditTaskView(task)
    {
      editingTask := Some(task);
      screen := EditTask;
    }

    /** `onDone` and `onBack` of the create and edit screens. */
    method BackToTaskList()
      modifies this`screen
      ensures screen == TaskList
      ensures !booting && HasToken(token) ==> View() == TaskListView(DisplayName(user))
    {
      screen := TaskList;
    }
  }
}
