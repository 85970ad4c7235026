/**
 * The student dashboard component: its state from mount to unmount, the
 * load from the store on mount, and the three button handlers.
 */
module StudentDashboard {
  import opened Wrappers
  import opened Storage

  /** Shown in "Your Saved Information" for a field with no saved value. */
  const Placeholder: string := "\U{2014}"

  /** The three wellness progress bars, in percent. They are never persisted. */
  datatype Progress = Progress(mental: nat, fitness: nat, nutrition: nat)

  const InitialProgress: Progress := Progress(60, 80, 50)
  const FullProgress: Progress := Progress(100, 100, 100)

  /** The three program cards, each with a Join button. */
  datatype Program = FitnessChallenge | MindfulnessProgram | NutritionGuide
  {
    /** The name the card's button passes to the join handler. */
    function Title(): string
    {
      match this
      case FitnessChallenge => "Fitness Challenge"
      case MindfulnessProgram => "Mindfulness Program"
      case NutritionGuide => "Nutrition Guide"
    }
  }

  const ProgramTitles: set<string> :=
    {FitnessChallenge.Title(), MindfulnessProgram.Title(), NutritionGuide.Title()}

  /**
   * The component's state: the three profile form inputs, the three
   * displayed saved values, the progress bars and the in-memory list of
   * joined programs.
   */
  datatype Dashboard = Dashboard(
    name: string, email: string, age: string,
    savedName: string, savedEmail: string, savedAge: string,
    progress: Progress,
    joined: seq<string>)

  /** The alert each handler raises, as a tag instead of its text. */
  datatype Alert = FillAllFields | ProfileSaved | ProgressUpdated | AlreadyJoined | JoinedProgram(title: string)

  /** A handler's effect: the new component state, the new store, the alert. */
  datatype Outcome = Outcome(dash: Dashboard, store: Store, alert: Alert)

  /** The form input a stored value pre-fills: the value when truthy, else empty. */
  function Prefill(o: Option<string>): string
  {
    if Truthy(o) then o.value else ""
  }

  /** The displayed saved value for a stored value: the value when truthy, else the placeholder. */
  function Shown(o: Option<string>): string
  {
    if Truthy(o) then o.value else Placeholder
  }

  /**
   * The component's initial state followed by the load effect: a truthy
   * stored profile value fills both its input and its display, anything
   * else leaves the input empty and the display on the placeholder; the
   * joined list is the stored one; progress starts from its defaults.
   */
  function Mount(st: Store): (d: Dashboard)
    ensures Truthy(st.userName) ==> d.name == d.savedName == st.userName.value
    ensures Truthy(st.userEmail) ==> d.email == d.savedEmail == st.userEmail.value
    ensures Truthy(st.userAge) ==> d.age == d.savedAge == st.userAge.value
    ensures !Truthy(st.userName) ==> d.name == "" && d.savedName == Placeholder
    ensures !Truthy(st.userEmail) ==> d.email == "" && d.savedEmail == Placeholder
    ensures !Truthy(st.userAge) ==> d.age == "" && d.savedAge == Placeholder
    ensures d.joined == st.joinedPrograms
    ensures d.progress == InitialProgress
  {
    Dashboard(
      Prefill(st.userName), Prefill(st.userEmail), Prefill(st.userAge),
      Shown(st.userName), Shown(st.userEmail), Shown(st.userAge),
      InitialProgress,
      st.joinedPrograms)
  }

  /**
   * The mounted component agrees with the store: each displayed saved value
   * is what a fresh load would show, and the in-memory joined list is the
   * persisted one.
   */
  predicate InSync(d: Dashboard, st: Store)
  {
    && d.savedName == Shown(st.userName)
    && d.savedEmail == Shown(st.userEmail)
    && d.savedAge == Shown(st.userAge)
    && d.joined == st.joinedPrograms
  }

  /** True when some profile input is empty, which blocks saving. */
  predicate MissingField(d: Dashboard)
  {
    d.name == "" || d.email == "" || d.age == ""
  }

  /**
   * Save Profile: with any input empty, raise the warning and change
   * nothing; otherwise display and persist all three inputs.
   */
  function SaveProfile(d: Dashboard, st: Store): (r: Outcome)
    ensures MissingField(d) <==> r.alert == FillAllFields
    ensures MissingField(d) ==> r.dash == d && r.store == st
    ensures !MissingField(d) ==> r.alert == ProfileSaved
    ensures !MissingField(d) ==>
      && r.dash.savedName == d.name && r.dash.savedEmail == d.email && r.dash.savedAge == d.age
      && r.store.userName == Some(d.name) && r.store.userEmail == Some(d.email) && r.store.userAge == Some(d.age)
    ensures r.dash.name == d.name && r.dash.email == d.email && r.dash.age == d.age
    ensures r.dash.progress == d.progress && r.dash.joined == d.joined
    ensures r.store.users == st.users && r.store.joinedPrograms == st.joinedPrograms
    ensures InSync(d, st) ==> InSync(r.dash, r.store)
  {
    if MissingField(d) then
      Outcome(d, st, FillAllFields)
    else
      Outcome(
        d.(savedName := d.name, savedEmail := d.email, savedAge := d.age),
        st.(userName := Some(d.name), userEmail := Some(d.email), userAge := Some(d.age)),
        ProfileSaved)
  }

  /** Update Progress: all three bars jump to 100; nothing is persisted. */
  function UpdateProgress(d: Dashboard, st: Store): (r: Outcome)
    ensures r.dash.progress.mental == 100 && r.dash.progress.fitness == 100 && r.dash.progress.nutrition == 100
    ensures r.dash == d.(progress := r.dash.progress)
    ensures r.store == st && r.alert == ProgressUpdated
  {
    Outcome(d.(progress := FullProgress), st, ProgressUpdated)
  }

  /**
   * Join: a program already in the in-memory list raises a warning and
   * changes nothing; any other is appended, and the extended list is both
   * kept and persisted.
   */
  function JoinProgram(d: Dashboard, st: Store, program: string): (r: Outcome)
    ensures program in d.joined <==> r.alert == AlreadyJoined
    ensures program in d.joined ==> r.dash == d && r.store == st
    ensures program !in d.joined ==>
      && r.alert == JoinedProgram(program)
      && r.dash.joined == d.joined + [program]
      && r.store.joinedPrograms == r.dash.joined
    ensures program in r.dash.joined && d.joined <= r.dash.joined
    ensures Distinct(d.joined) ==> Distinct(r.dash.joined)
    ensures r.dash == d.(joined := r.dash.joined)
    ensures r.store == st.(joinedPrograms := r.store.joinedPrograms)
    ensures InSync(d, st) ==> InSync(r.dash, r.store)
  {
    if program in d.joined then
      Outcome(d, st, AlreadyJoined)
    else
      var updated := d.joined + [program];
      Outcome(d.(joined := updated), st.(joinedPrograms := updated), JoinedProgram(program))
  }

  /**
   * A saved profile survives the component's unmount: a dashboard mounted
   * on the store a successful save wrote shows and pre-fills exactly the
   * saved values.
   */
  lemma SaveThenRemount(d: Dashboard, st: Store)
    requires !MissingField(d)
    ensures var m := Mount(SaveProfile(d, st).store);
      && m.savedName == d.name && m.savedEmail == d.email && m.savedAge == d.age
      && m.name == d.name && m.email == d.email && m.age == d.age
  {
  }

  /** Pressing Join twice for the same program has the effect of pressing it once. */
  lemma JoinIdempotent(d: Dashboard, st: Store, program: string)
    ensures var once := JoinProgram(d, st, program);
      var twice := JoinProgram(once.dash, once.store, program);
      twice.dash == once.dash && twice.store == once.store && twice.alert == AlreadyJoined
  {
  }
}
