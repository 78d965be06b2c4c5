/** The lightweight in-memory user table: one index by username and one by
    email, with no uniqueness check. */
module Database {
  import opened Common
  import opened Users

  class InMemoryDB {
    var byUsername: map<string, User>
    var byEmail: map<string, User>

    constructor ()
      ensures byUsername == map[] && byEmail == map[]
    {
      byUsername := map[];
      byEmail := map[];
    }

    /** Indexes `user` under its username and its email, overwriting whatever
        either index held under those keys, and returns it. */
    method AddUser(user: User) returns (added: User)
      modifies this
      ensures added == user
      ensures byUsername == old(byUsername)[user.username := user]
      ensures byEmail == old(byEmail)[user.email := user]
      ensures GetUserByUsername(user.username) == Some(user) && GetUserByEmail(user.email) == Some(user)
    {
      byUsername := byUsername[user.username := user];
      byEmail := byEmail[user.email := user];
      added := user;
    }

    function GetUserByUsername(username: string): (r: Option<User>)
      reads this
      ensures r.None? <==> username !in byUsername
      ensures r.Some? ==> r.value == byUsername[username] && r.value in byUsername.Values
    {
      if username in byUsername then Some(byUsername[username]) else None
    }

    function GetUserByEmail(email: string): (r: Option<User>)
      reads this
      ensures r.None? <==> email !in byEmail
      ensures r.Some? ==> r.value == byEmail[email] && r.value in byEmail.Values
    {
      if email in byEmail then Some(byEmail[email]) else None
    }

    /** Empties both indexes. */
    method Reset()
      modifies this
      ensures byUsername == map[] && byEmail == map[]
      ensures forall key :: GetUserByUsername(key).None? && GetUserByEmail(key).None?
    {
      byUsername := map[];
      byEmail := map[];
    }
  }

  /** Two users with the same username and different emails: the username
      index keeps only the second, while the first stays reachable by email. */
  method OverwriteOnSameUsername(db: InMemoryDB, first: User, second: User)
    returns (byName: Option<User>, firstByEmail: Option<User>)
    requires first.username == second.username && first.email != second.email
    modifies db
    ensures byName == Some(second) && firstByEmail == Some(first)
  {
    var _ := db.AddUser(first);
    var _ := db.AddUser(second);
    byName := db.GetUserByUsername(first.username);
    firstByEmail := db.GetUserByEmail(first.email);
  }

  /** Adding a user leaves the entries under every other key as they were. */
  method AddKeepsOthers(db: InMemoryDB, user: User, name: string, email: string)
    returns (before: (Option<User>, Option<User>), after: (Option<User>, Option<User>))
    requires name != user.username && email != user.email
    modifies db
    ensures before == after
  {
    before := (db.GetUserByUsername(name), db.GetUserByEmail(email));
    var _ := db.AddUser(user);
    after := (db.GetUserByUsername(name), db.GetUserByEmail(email));
  }
}
