/** Concrete walk-throughs of the application, stated over whole event sequences. */
module Scenarios {
  import opened Storage
  import opened StudentDashboard
  import opened App
  import opened Session

  /** Handling a non-empty sequence is handling its first event, then the rest. */
  lemma RunFirst(s: State, e: Event, rest: seq<Event>)
    ensures Run(s, [e] + rest) == Run(Step(s, e), rest)
  {
  }

  /** The store after alice has signed up on a fresh browser. */
  const AliceStore: Store := EmptyStore.(users := [User("alice", "pw1")])

  /** On a fresh browser, the signup link followed by signup("alice","pw1") succeeds. */
  lemma AliceSignsUp()
    ensures Run(Boot(EmptyStore), [ShowSignup, SubmitSignup("alice", "pw1")])
         == State(SignupView, "", SignupSucceeded, AliceStore)
  {
    var s1 := State(SignupView, "", "", EmptyStore);
    var s2 := State(SignupView, "", SignupSucceeded, AliceStore);
    assert Step(Boot(EmptyStore), ShowSignup) == s1;
    assert Step(s1, SubmitSignup("alice", "pw1")) == s2;
    RunFirst(Boot(EmptyStore), ShowSignup, [SubmitSignup("alice", "pw1")]);
    RunFirst(s1, SubmitSignup("alice", "pw1"), []);
  }

  /** After that signup, the "Login here" link and login("alice","pw1") open the student screen. */
  lemma AliceLogsIn()
    ensures Run(State(SignupView, "", SignupSucceeded, AliceStore),
                [ShowLogin, SubmitLogin("alice", "pw1")])
         == State(StudentView(Mount(AliceStore)), "", SignupSucceeded, AliceStore)
  {
    var s2 := State(SignupView, "", SignupSucceeded, AliceStore);
    var s3 := State(LoginView, "", SignupSucceeded, AliceStore);
    assert Step(s2, ShowLogin) == s3;
    assert AliceStore.users[0] == User("alice", "pw1");
    assert HasAccount(AliceStore.users, "alice", "pw1");
    RunFirst(s2, ShowLogin, [SubmitLogin("alice", "pw1")]);
    RunFirst(s3, SubmitLogin("alice", "pw1"), []);
  }

  /** From alice's dashboard, logout followed by login("alice","wrong") is refused on the login screen. */
  lemma AliceWrongPasswordRefused()
    ensures Run(State(StudentView(Mount(AliceStore)), "", SignupSucceeded, AliceStore),
                [Logout, SubmitLogin("alice", "wrong")])
         == State(LoginView, InvalidCredentials, SignupSucceeded, AliceStore)
  {
    var s4 := State(StudentView(Mount(AliceStore)), "", SignupSucceeded, AliceStore);
    var s5 := State(LoginView, "", SignupSucceeded, AliceStore);
    assert Step(s4, Logout) == s5;
    assert !HasAccount(AliceStore.users, "alice", "wrong");
    assert !IsAdmin("alice", "wrong");
    RunFirst(s4, Logout, [SubmitLogin("alice", "wrong")]);
    RunFirst(s5, SubmitLogin("alice", "wrong"), []);
  }

  /**
   * On a fresh browser, a student who presses Join on the fitness challenge
   * twice is warned the second time and has exactly one joined program,
   * both in memory and in the store.
   */
  lemma JoinFitnessTwice()
    ensures var d := Mount(EmptyStore);
      var once := JoinProgram(d, EmptyStore, FitnessChallenge.Title());
      var twice := JoinProgram(once.dash, once.store, FitnessChallenge.Title());
      && once.alert == JoinedProgram("Fitness Challenge")
      && twice.alert == AlreadyJoined
      && twice.dash.joined == twice.store.joinedPrograms == ["Fitness Challenge"]
  {
  }
}
