/**
 * POST /auth/login: the account lookup by username or email and the
 * password check. The check itself (bcrypt) is a parameter, `Matches`; the
 * token the handler signs on success is not modelled, only the id it names.
 */
module AuthQueries {
  import opened Tables
  import opened Ranking

  /** `login` names the user, as their username or as their email. */
  predicate Names(u: User, login: string)
  {
    u.username == login || u.email == login
  }

  /** The ids of the users a login string names (WHERE username = ? OR email = ?). */
  function Named(users: map<int, User>, login: string): (r: set<int>)
    ensures forall k :: k in r <==> k in users && Names(users[k], login)
  {
    set k | k in users && Names(users[k], login)
  }

  /**
   * The row `.get()` returns when several match: taken here to be the one
   * with the smallest id, the first in a scan of the table.
   */
  function First(candidates: set<int>): (k: int)
    requires candidates != {}
    ensures k in candidates
    ensures forall j :: j in candidates ==> k <= j
  {
    HasLeast(candidates);
    var k :| k in candidates && forall j :: j in candidates ==> k <= j;
    k
  }

  /**
   * The handler: both fields must be non-empty (400); an unknown login and a
   * wrong password both answer the same 401; otherwise the id of the
   * account signed in.
   */
  function Login(users: map<int, User>, login: string, password: string,
                 Matches: (string, string) -> bool): (r: Result<int>)
    ensures login == [] || password == [] <==> r == Err(Invalid)
    ensures login != [] && password != [] && Named(users, login) == {} ==> r == Err(BadCredentials)
    ensures r.Ok? ==> r.value in users && Names(users[r.value], login)
                      && Matches(password, users[r.value].passwordHash)
    ensures r.Ok? ==> forall k :: k in users && Names(users[k], login) ==> r.value <= k
  {
    if login == [] || password == [] then Err(Invalid)
    else if Named(users, login) == {} then Err(BadCredentials)
    else
      var k := First(Named(users, login));
      if Matches(password, users[k].passwordHash) then Ok(k) else Err(BadCredentials)
  }

  /**
   * A non-empty login is refused only with 401, whether the account is
   * unknown or the password is wrong, and it succeeds exactly when the
   * first account the login names accepts the password.
   */
  lemma LoginOutcomes(users: map<int, User>, login: string, password: string,
                      Matches: (string, string) -> bool)
    requires login != [] && password != []
    ensures var r := Login(users, login, password, Matches);
            && (r.Err? ==> r.failure == BadCredentials && r.failure.Status() == 401)
            && (r.Ok? <==> Named(users, login) != {} &&
                           Matches(password, users[First(Named(users, login))].passwordHash))
  {
  }

  /**
   * With usernames unique and emails unique, a login string still names two
   * accounts when it is one user's username and another user's email.
   */
  lemma TwoAccountsNamed()
    ensures var a := User("ann", "bob@x", "h1", Member, 10, 1);
            var b := User("bob@x", "b@x", "h2", Member, 10, 1);
            Named(map[1 := a, 2 := b], "bob@x") == {1, 2}
  {
    var a := User("ann", "bob@x", "h1", Member, 10, 1);
    var b := User("bob@x", "b@x", "h2", Member, 10, 1);
    assert Names(a, "bob@x") && Names(b, "bob@x");
  }
}
