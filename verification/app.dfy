/**
 * The top-level component: which screen is shown, the login error and
 * signup message it holds, and the handlers that move between screens.
 */
module App {
  import opened Wrappers
  import opened Storage
  import opened Users
  import StudentDashboard

  /**
   * The four screens. The student screen carries its dashboard component's
   * state, which exists only while that screen is shown: it is created by a
   * fresh load whenever the screen is entered and dropped when it is left.
   */
  datatype View = LoginView | SignupView | StudentView(dash: StudentDashboard.Dashboard) | AdminView

  /** The in-memory state of the application together with the persisted store. */
  datatype State = State(view: View, loginError: string, signupMessage: string, store: Store)

  const MissingCredentials: string := "Please enter username and password."
  const InvalidCredentials: string := "Invalid username or password."
  const MissingSignupFields: string := "Please fill out both fields."
  const ReservedUsername: string := "Username \"admin\" is reserved."
  const DuplicateUsername: string := "Username already exists. Please choose another one."
  const SignupSucceeded: string := "Signup successful! You can login now."

  /** A page load: the login screen with no messages, over whatever the browser has stored. */
  function Boot(st: Store): (r: State)
    ensures r.view == LoginView && r.loginError == "" && r.signupMessage == ""
    ensures r.store == st
  {
    State(LoginView, "", "", st)
  }

  /** True when the pair is the hardcoded administrator account. */
  predicate IsAdmin(username: string, password: string)
  {
    username == AdminUsername && password == AdminPassword
  }

  /** True when some stored record matches both fields exactly. */
  predicate HasAccount(users: seq<User>, username: string, password: string)
  {
    exists i :: 0 <= i < |users| && users[i] == User(username, password)
  }

  /**
   * Login. The error is cleared first. Empty fields set the missing-fields
   * error; the administrator pair opens the admin screen whatever is stored;
   * otherwise a stored record matching both fields opens the student screen
   * and no match sets the invalid-credentials error. Failures keep the
   * login screen; nothing is written to the store. The handler's only
   * caller is the login form, which exists only on the login screen.
   */
  function HandleLogin(s: State, username: string, password: string): (r: State)
    requires s.view == LoginView
    ensures r.store == s.store && r.signupMessage == s.signupMessage
    ensures username == "" || password == "" ==> r == s.(loginError := MissingCredentials)
    ensures username != "" && password != "" && IsAdmin(username, password) ==>
      r.view == AdminView && r.loginError == ""
    ensures username != "" && password != "" && !IsAdmin(username, password) ==>
      (r.view.StudentView? <==> HasAccount(s.store.users, username, password))
    ensures username != "" && password != "" && !IsAdmin(username, password)
            && !HasAccount(s.store.users, username, password) ==>
      r.view == LoginView && r.loginError == InvalidCredentials
    ensures r.view.StudentView? ==> r.view.dash == StudentDashboard.Mount(s.store) && r.loginError == ""
  {
    var s := s.(loginError := "");
    if username == "" || password == "" then
      s.(loginError := MissingCredentials)
    else if IsAdmin(username, password) then
      s.(view := AdminView)
    else if FindUser(s.store.users, username, password).None? then
      s.(loginError := InvalidCredentials)
    else
      s.(view := StudentView(StudentDashboard.Mount(s.store)))
  }

  /**
   * Signup. Empty fields, the reserved name and an already stored username
   * are each rejected with their own message and leave the store as it was;
   * otherwise the record is appended to the stored list. The screen and the
   * login error never change.
   */
  function HandleSignup(s: State, username: string, password: string): (r: State)
    ensures r.view == s.view && r.loginError == s.loginError
    ensures r.store == s.store.(users := r.store.users)
    ensures username == "" || password == "" ==>
      r.signupMessage == MissingSignupFields && r.store == s.store
    ensures username != "" && password != "" && username == AdminUsername ==>
      r.signupMessage == ReservedUsername && r.store == s.store
    ensures username != "" && password != "" && username != AdminUsername
            && (exists i :: 0 <= i < |s.store.users| && s.store.users[i].username == username) ==>
      r.signupMessage == DuplicateUsername && r.store == s.store
    ensures r.signupMessage == SignupSucceeded <==> r.store.users != s.store.users
    ensures r.store.users != s.store.users ==>
      && username != "" && password != "" && username != AdminUsername
      && (forall i :: 0 <= i < |s.store.users| ==> s.store.users[i].username != username)
      && r.store.users == s.store.users + [User(username, password)]
    ensures username != "" && password != "" && username != AdminUsername
            && (forall i :: 0 <= i < |s.store.users| ==> s.store.users[i].username != username) ==>
      r.signupMessage == SignupSucceeded && r.store.users == s.store.users + [User(username, password)]
    ensures ValidUsers(s.store.users) ==> ValidUsers(r.store.users)
  {
    if username == "" || password == "" then
      s.(signupMessage := MissingSignupFields)
    else if username == AdminUsername then
      s.(signupMessage := ReservedUsername)
    else if UsernameTaken(s.store.users, username) then
      s.(signupMessage := DuplicateUsername)
    else
      var updated := s.store.users + [User(username, password)];
      s.(store := s.store.(users := updated), signupMessage := SignupSucceeded)
  }

  /** Logout from either dashboard: back to the login screen, messages and store untouched. */
  function HandleLogout(s: State): (r: State)
    ensures r.view == LoginView
    ensures r.store == s.store && r.loginError == s.loginError && r.signupMessage == s.signupMessage
  {
    s.(view := LoginView)
  }

  /** The "Create one" link: clear the signup message and show the signup screen. */
  function SwitchToSignup(s: State): (r: State)
    ensures r.view == SignupView && r.signupMessage == ""
    ensures r.store == s.store && r.loginError == s.loginError
  {
    s.(view := SignupView, signupMessage := "")
  }

  /** The "Login here" link: clear the login error and show the login screen. */
  function SwitchToLogin(s: State): (r: State)
    ensures r.view == LoginView && r.loginError == ""
    ensures r.store == s.store && r.signupMessage == s.signupMessage
  {
    s.(view := LoginView, loginError := "")
  }
}
