# Student Health & Wellness app: a Dafny model of its decision logic

The application is a single-page client with four screens: login, signup,
student dashboard and admin dashboard. All of its state lives in the
browser's persisted key-value store. This project pulls the decision logic
out of the component file `src/App.jsx` and models it as a pure state
machine over an abstract store:

- `Storage` (`storage.dfy`): the persisted keys `users`, `userName`,
  `userEmail`, `userAge` and `joinedPrograms` as one typed record. It also
  defines the validity the application's own writes keep.
- `Users` (`users.dfy`): the two searches over the stored user list, `find`
  on username and password and `some` on username.
- `StudentDashboard` (`dashboard.dfy`): the dashboard component's state,
  the load on mount with its "—" placeholder, and the Save Profile, Update
  Progress and Join handlers.
- `App` (`app.dfy`): the top-level component. It holds the screen, the login
  error, the signup message, the login and signup handlers, logout and the
  two links between login and signup.
- `Session` (`session.dfy`): every user action as an event. An event is
  handled only on the screen that shows its control; anywhere else it does
  nothing. The module also holds traces of events, the reachable-state
  invariant and the lemmas over traces.
- `Scenarios` (`scenarios.dfy`): concrete walk-throughs.

The student screen carries the dashboard's component state. Entering the
screen mounts a fresh dashboard loaded from the store, and leaving it drops
that state, as React does when the component unmounts. The profile is a
single shared record, not keyed by the logged-in user, exactly as the
application stores it. Passwords are plain text, as in the application.

The invariant `Session.Inv` says four things. Stored usernames are non-empty,
pairwise distinct and never "admin". Stored passwords are non-empty. The
joined list has no repetitions and names only catalogue programs. A mounted
dashboard shows what the store holds.

## Model

| member | source | states |
|---|---|---|
| Users.FindUser | src/App.jsx:389-392 | Gives the first record matching both username and password. It gives none exactly when no record matches. |
| Users.UsernameTaken | src/App.jsx:413-414 | True exactly when some stored record has the given username, compared case-sensitively. |
| App.HandleLogin | src/App.jsx:375-400 | An empty field sets "Please enter username and password." and changes nothing else. ("admin","admin123") opens the admin screen whatever is stored. Any other pair opens the student screen exactly when a stored record matches both fields. Otherwise it sets "Invalid username or password." and stays on login. The store is never written. |
| App.HandleSignup | src/App.jsx:402-425 | Empty fields, "admin" and an already stored username each set their own message and leave the store unchanged. Non-empty fields with a username that is neither "admin" nor stored always succeed: the success message is set and exactly (username, password) is appended at the end. Success is exactly the case where the user list changes. The user list stays valid, and the screen never changes. |
| App.HandleLogout | src/App.jsx:427-429 | Returns to the login screen. The store and both messages are kept. |
| App.SwitchToSignup | src/App.jsx:437-440 | Shows the signup screen with its message cleared. The store and the login error are kept. |
| App.SwitchToLogin | src/App.jsx:448-451 | Shows the login screen with its error cleared. The store and the signup message are kept. |
| StudentDashboard.Mount | src/App.jsx:119-157 | A truthy stored profile value fills both its input and its display. A missing or empty one leaves the input empty and shows "—". The joined list is the stored one, and progress starts at 60/80/50. |
| StudentDashboard.SaveProfile | src/App.jsx:159-174 | Rejected exactly when name, email or age is empty, and then nothing changes. Otherwise all three are displayed and stored exactly as entered. Nothing else changes, and display-store agreement is kept. |
| StudentDashboard.UpdateProgress | src/App.jsx:176-182 | All three progress values become 100. Nothing else changes, and nothing is persisted. |
| StudentDashboard.JoinProgram | src/App.jsx:184-193 | A program already joined raises the warning and changes nothing. Any other is appended at the end, and the persisted list equals the in-memory one. The list only grows, stays repetition-free and afterwards contains the program. |
| StudentDashboard.SaveThenRemount | src/App.jsx:142-171 | After a successful save, a dashboard mounted later displays and pre-fills exactly the saved values. |
| StudentDashboard.JoinIdempotent | src/App.jsx:185-188 | Joining the same program a second time warns and leaves both the dashboard and the store as after the first join. |
| App.Boot | src/App.jsx:370-373 | A page load shows the login screen with both messages empty, over the store as it is. |
| Session.DashboardStep | src/App.jsx:199-312 | On the student screen, Logout returns to login. Each form edit changes only its own input. Save, Update Progress and the three Join buttons run their handlers on the mounted dashboard and the store. Events from other screens do nothing, and both messages are kept. |
| Session.Step | src/App.jsx:431-457 | Each event runs the handler of its control only when the current screen shows that control; otherwise the state is unchanged. A reload resets the screen and both messages but keeps the store. |
| Session.InitialInv | src/App.jsx:370-373 | A fresh page load on an empty store satisfies the invariant. |
| Session.StepPreservesInv | src/App.jsx:431-457 | Every event, dispatched by the screen showing its control, keeps the invariant. The stored user list and the stored joined list are prefixes of their new values. |
| Session.RunPreservesInv | src/App.jsx:159-457 | Over any sequence of events the invariant holds. Users and joined programs are only ever appended, never removed or reordered. |
| Session.JoinedAtMostThree | src/App.jsx:280-316 | In every reachable state at most three programs are joined, one per program card. |
| Session.SignupThenLogin | src/App.jsx:375-425 | From the signup screen, with non-empty fields and a username that is neither "admin" nor already stored: the signup, the "Login here" link and a login with the same credentials reach the student screen. |
| Session.AccountsPersist | src/App.jsx:389-399 | Once an account is stored, logging in with it after any sequence of events reaches the student screen. |
| Scenarios.AliceSignsUp | src/App.jsx:402-425 | On an empty store, the signup link and signup("alice","pw1") store exactly that one account and report success. They stay on the signup screen. |
| Scenarios.AliceLogsIn | src/App.jsx:375-400 | From there, the "Login here" link and login("alice","pw1") open the student screen loaded from that store. |
| Scenarios.AliceWrongPasswordRefused | src/App.jsx:389-397 | From alice's dashboard, logout and login("alice","wrong") stay on the login screen with "Invalid username or password.". The store is unchanged. |
| Scenarios.JoinFitnessTwice | src/App.jsx:184-193 | Joining "Fitness Challenge" twice warns the second time. Exactly one program is then joined, both in memory and in the store. |

`App.HandleLogin` requires the login screen. Its only caller is the login
form, which is rendered only on that screen (src/App.jsx:433-442).

## Left out

- Rendering, CSS, the "Join"/"Joined" button labels and the static admin
  dashboard markup (src/App.jsx:335-367): presentation only.
- The text of `alert` pop-ups and `preventDefault`: UI side effects. Each
  dashboard handler returns an `Alert` tag instead.
- `localStorage` and JSON encoding: the store is a typed record, and
  malformed stored JSON is not modelled. A missing `users` or
  `joinedPrograms` key reads as an empty list, so both are plain sequences.
- `trim` on the login and signup inputs (src/App.jsx:23, 74): inputs are
  taken as already trimmed. JavaScript's whitespace set is not modelled.
- The browser's `required` check on the login and signup inputs: the model
  lets an empty field reach the handler, whose own check then rejects it.
- React's `useState`/`useEffect` scheduling: each handler is one atomic
  transition, and the load on mount happens as the student screen is
  entered.
- Writes from another tab open on the same store: only one actor is
  modelled. In the application, the next login, signup or dashboard mount
  would read such writes, because each of those reads the store afresh
  (src/App.jsx:389, 413, 135-157). A join from a dashboard mounted before
  them would overwrite the other tab's joined list, because a join persists
  the in-memory list (src/App.jsx:189-191).
