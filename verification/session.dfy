/**
 * The whole application as one state machine: every user action is an
 * event, each event is handled atomically, and an event whose control is
 * not on the current screen does nothing.
 */
module Session {
  import opened Wrappers
  import opened Storage
  import opened StudentDashboard
  import opened App

  /** The user actions, one per control, plus a reload of the page. */
  datatype Event =
    | SubmitLogin(username: string, password: string)
    | ShowSignup
    | SubmitSignup(username: string, password: string)
    | ShowLogin
    | Logout
    | EditName(value: string)
    | EditEmail(value: string)
    | EditAge(value: string)
    | PressSaveProfile
    | PressUpdateProgress
    | PressJoin(program: Program)
    | Reload

  /** The dashboard after a handler, written back into the application state. */
  function Apply(s: State, o: Outcome): State
  {
    s.(view := StudentView(o.dash), store := o.store)
  }

  /** True when the screen shows the control the event comes from; a reload is always possible. */
  predicate OnScreen(v: View, e: Event)
  {
    match e
    case Reload => true
    case SubmitLogin(_, _) => v.LoginView?
    case ShowSignup => v.LoginView?
    case SubmitSignup(_, _) => v.SignupView?
    case ShowLogin => v.SignupView?
    case Logout => v.StudentView? || v.AdminView?
    case _ => v.StudentView?
  }

  /**
   * One event on the student screen. Logout leaves for the login screen; a
   * form edit changes only its own input; the three buttons run their
   * handlers on the mounted dashboard and the store. Any other event does
   * nothing.
   */
  function DashboardStep(s: State, d: Dashboard, e: Event): (r: State)
    requires s.view == StudentView(d)
    ensures !OnScreen(s.view, e) || e.Reload? ==> r == s
    ensures e.Logout? ==> r == HandleLogout(s)
    ensures e.EditName? ==> r == s.(view := StudentView(d.(name := e.value)))
    ensures e.EditEmail? ==> r == s.(view := StudentView(d.(email := e.value)))
    ensures e.EditAge? ==> r == s.(view := StudentView(d.(age := e.value)))
    ensures e.PressSaveProfile? ==> r == Apply(s, SaveProfile(d, s.store))
    ensures e.PressUpdateProgress? ==> r == Apply(s, UpdateProgress(d, s.store))
    ensures e.PressJoin? ==> r == Apply(s, JoinProgram(d, s.store, e.program.Title()))
    ensures r.loginError == s.loginError && r.signupMessage == s.signupMessage
  {
    match e
    case Logout => HandleLogout(s)
    case EditName(v) => s.(view := StudentView(d.(name := v)))
    case EditEmail(v) => s.(view := StudentView(d.(email := v)))
    case EditAge(v) => s.(view := StudentView(d.(age := v)))
    case PressSaveProfile => Apply(s, SaveProfile(d, s.store))
    case PressUpdateProgress => Apply(s, UpdateProgress(d, s.store))
    case PressJoin(p) => Apply(s, JoinProgram(d, s.store, p.Title()))
    case _ => s
  }

  /**
   * One event, routed to the handler of the control it comes from. A reload
   * resets the screen and both messages but keeps the store; an event whose
   * control is not on the current screen does nothing.
   */
  function Step(s: State, e: Event): (r: State)
    ensures e.Reload? ==> r == Boot(s.store)
    ensures !OnScreen(s.view, e) ==> r == s
    ensures s.view.LoginView? && e.SubmitLogin? ==> r == HandleLogin(s, e.username, e.password)
    ensures s.view.LoginView? && e.ShowSignup? ==> r == SwitchToSignup(s)
    ensures s.view.SignupView? && e.SubmitSignup? ==> r == HandleSignup(s, e.username, e.password)
    ensures s.view.SignupView? && e.ShowLogin? ==> r == SwitchToLogin(s)
    ensures (s.view.StudentView? || s.view.AdminView?) && e.Logout? ==> r == HandleLogout(s)
    ensures s.view.StudentView? && !e.Reload? ==> r == DashboardStep(s, s.view.dash, e)
  {
    if e.Reload? then Boot(s.store)
    else
      match s.view
      case LoginView =>
        (match e
         case SubmitLogin(u, p) => HandleLogin(s, u, p)
         case ShowSignup => SwitchToSignup(s)
         case _ => s)
      case SignupView =>
        (match e
         case SubmitSignup(u, p) => HandleSignup(s, u, p)
         case ShowLogin => SwitchToLogin(s)
         case _ => s)
      case StudentView(d) => DashboardStep(s, d, e)
      case AdminView => if e.Logout? then HandleLogout(s) else s
  }

  /** A sequence of events, handled in order. */
  function Run(s: State, events: seq<Event>): State
    decreases |events|
  {
    if events == [] then s else Run(Step(s, events[0]), events[1..])
  }

  /** Every persisted joined program comes from one of the program cards. */
  predicate FromCatalogue(joined: seq<string>)
  {
    forall i :: 0 <= i < |joined| ==> joined[i] in ProgramTitles
  }

  /**
   * What every reachable state satisfies: the store is valid, its joined
   * list names catalogue programs only, and a mounted dashboard agrees with
   * the store.
   */
  predicate Inv(s: State)
  {
    && Valid(s.store)
    && FromCatalogue(s.store.joinedPrograms)
    && (s.view.StudentView? ==> InSync(s.view.dash, s.store))
  }

  /** The persisted lists only ever grow at their end. */
  predicate Grows(before: Store, after: Store)
  {
    before.users <= after.users && before.joinedPrograms <= after.joinedPrograms
  }

  /** A fresh browser satisfies the invariant. */
  lemma InitialInv()
    ensures Inv(Boot(EmptyStore))
  {
  }

  /** One event keeps the invariant and only appends to the persisted lists. */
  lemma StepPreservesInv(s: State, e: Event)
    requires Inv(s)
    ensures Inv(Step(s, e))
    ensures Grows(s.store, Step(s, e).store)
  {
  }

  /**
   * Any sequence of events keeps the invariant; the stored user list and
   * the stored joined list are prefixes of their later values.
   */
  lemma {:induction false} RunPreservesInv(s: State, events: seq<Event>)
    requires Inv(s)
    ensures Inv(Run(s, events))
    ensures Grows(s.store, Run(s, events).store)
    decreases |events|
  {
    if events != [] {
      StepPreservesInv(s, events[0]);
      RunPreservesInv(Step(s, events[0]), events[1..]);
    }
  }

  /** The joined list never holds more than the three catalogue programs. */
  lemma JoinedAtMostThree(s: State)
    requires Inv(s)
    ensures |s.store.joinedPrograms| <= 3
  {
    DistinctBound(s.store.joinedPrograms, ProgramTitles);
  }

  /**
   * A successful signup, the link back to login and a login with the same
   * credentials reach the student screen.
   */
  lemma SignupThenLogin(s: State, username: string, password: string)
    requires s.view == SignupView
    requires username != "" && password != "" && username != AdminUsername
    requires forall i :: 0 <= i < |s.store.users| ==> s.store.users[i].username != username
    ensures Run(s, [SubmitSignup(username, password), ShowLogin, SubmitLogin(username, password)]).view.StudentView?
  {
    var s1 := HandleSignup(s, username, password);
    var s2 := SwitchToLogin(s1);
    var n := |s.store.users|;
    assert s2.store.users[n] == User(username, password);
    assert HasAccount(s2.store.users, username, password);
    var events := [SubmitSignup(username, password), ShowLogin, SubmitLogin(username, password)];
    assert Run(s, events) == Run(s1, events[1..]);
    assert Run(s1, events[1..]) == Run(s2, events[2..]);
    assert Run(s2, events[2..]) == HandleLogin(s2, username, password) by {
      assert events[2..][1..] == [];
    }
  }

  /**
   * An account, once stored, stays usable: after any sequence of events,
   * logging in with its credentials from the login screen reaches the
   * student screen.
   */
  lemma AccountsPersist(s: State, username: string, password: string, events: seq<Event>)
    requires Inv(s)
    requires HasAccount(s.store.users, username, password)
    requires Run(s, events).view == LoginView
    ensures HandleLogin(Run(s, events), username, password).view.StudentView?
  {
    RunPreservesInv(s, events);
    var t := Run(s, events);
    var i :| 0 <= i < |s.store.users| && s.store.users[i] == User(username, password);
    assert t.store.users[i] == User(username, password);
  }
}
