/**
 * The two searches the login and signup handlers run over the stored user
 * list: `users.find` on both fields and `users.some` on the username.
 */
module Users {
  import opened Wrappers
  import opened Storage

  /**
   * The position of the first record whose username and password both equal
   * the given ones, which is the record `users.find` returns; `None` when no
   * record matches.
   */
  function FindUser(users: seq<User>, username: string, password: string): (r: Option<nat>)
    ensures r.Some? ==> r.value < |users| && users[r.value] == User(username, password)
    ensures r.Some? ==> forall j :: 0 <= j < r.value ==> users[j] != User(username, password)
    ensures r.None? <==> forall j :: 0 <= j < |users| ==> users[j] != User(username, password)
  {
    if |users| == 0 then None
    else if users[0] == User(username, password) then Some(0)
    else
      match FindUser(users[1..], username, password)
      case None => None
      case Some(k) => Some(k + 1)
  }

  /** Whether some record carries the username, case-sensitively: `users.some`. */
  function UsernameTaken(users: seq<User>, username: string): (taken: bool)
    ensures taken <==> exists i :: 0 <= i < |users| && users[i].username == username
  {
    if |users| == 0 then false
    else if users[0].username == username then true
    else
      var rest := UsernameTaken(users[1..], username);
      assert rest <==> exists i :: 1 <= i < |users| && users[i].username == username by {
        if rest {
          var k :| 0 <= k < |users| - 1 && users[1..][k].username == username;
          assert users[k + 1].username == username;
        }
      }
      rest
  }
}
