/**
 * The browser's persisted key space, as the application uses it. Each key
 * becomes one typed field; JSON encoding of the list-valued keys is not
 * modelled.
 */
module Storage {
  import opened Wrappers

  /** A student account. The password is kept and compared in plain text. */
  datatype User = User(username: string, password: string)

  /**
   * The five persisted keys. `users` and `joinedPrograms` are always read
   * with "[]" as the fallback, so an absent key and an empty list behave
   * alike and both are the empty sequence here. The three profile keys keep
   * the difference between absent (`None`) and present.
   */
  datatype Store = Store(
    users: seq<User>,
    userName: Option<string>,
    userEmail: Option<string>,
    userAge: Option<string>,
    joinedPrograms: seq<string>)

  /** A browser that has never used the application. */
  const EmptyStore: Store := Store([], None, None, None, [])

  /** The hardcoded administrator credentials; they are never stored. */
  const AdminUsername: string := "admin"
  const AdminPassword: string := "admin123"

  /** JavaScript truthiness of a value read from the store: present and non-empty. */
  predicate Truthy(o: Option<string>)
  {
    o.Some? && o.value != ""
  }

  /** No element occurs twice. */
  predicate Distinct<T(==)>(s: seq<T>)
  {
    forall i, j :: 0 <= i < j < |s| ==> s[i] != s[j]
  }

  /**
   * The user list as signup builds it: every record has a non-empty
   * username and password, no username is the reserved administrator name,
   * and usernames are pairwise distinct.
   */
  predicate ValidUsers(users: seq<User>)
  {
    && (forall i :: 0 <= i < |users| ==>
          users[i].username != "" && users[i].password != "" && users[i].username != AdminUsername)
    && (forall i, j :: 0 <= i < j < |users| ==> users[i].username != users[j].username)
  }

  /** What the application's own writes keep true of the store. */
  predicate Valid(st: Store)
  {
    ValidUsers(st.users) && Distinct(st.joinedPrograms)
  }

  /** The elements of a sequence, as a set. */
  function Elements<T>(s: seq<T>): set<T>
  {
    set x | x in s
  }

  /** A sequence without repetitions has as many elements as its set. */
  lemma {:induction false} DistinctCardinality<T>(s: seq<T>)
    requires Distinct(s)
    ensures |Elements(s)| == |s|
  {
    if s != [] {
      var t := s[1..];
      assert Distinct(t) by {
        forall i, j | 0 <= i < j < |t| ensures t[i] != t[j] {
          assert t[i] == s[i + 1] && t[j] == s[j + 1];
        }
      }
      DistinctCardinality(t);
      assert s[0] !in Elements(t) by {
        forall k | 0 <= k < |t| ensures t[k] != s[0] {
          assert t[k] == s[k + 1];
        }
      }
      assert Elements(s) == {s[0]} + Elements(t) by {
        assert s == [s[0]] + t;
      }
    }
  }

  /** A repetition-free sequence drawn from a finite set is no longer than the set. */
  lemma DistinctBound<T>(s: seq<T>, pool: set<T>)
    requires Distinct(s)
    requires forall i :: 0 <= i < |s| ==> s[i] in pool
    ensures |s| <= |pool|
  {
    DistinctCardinality(s);
    assert Elements(s) <= pool;
    SubsetCardinality(Elements(s), pool);
  }

  lemma {:induction false} SubsetCardinality<T>(a: set<T>, b: set<T>)
    requires a <= b
    ensures |a| <= |b|
    decreases b
  {
    if a != {} {
      var x :| x in a;
      SubsetCardinality(a - {x}, b - {x});
    }
  }
}
