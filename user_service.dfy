/** Account lookups and registration over the user repository. The repository
    is modelled as its table in insertion order: a filtered `.first()` is the
    earliest matching row. */
module Users {
  import opened Common

  datatype Role = Volunteer | Attendant | Lifeguard | HeadLifeguard | AquaticSupervisor

  datatype Status = Active | Disabled

  datatype User = User(id: UserId, username: string, email: string, hashedPassword: string, role: Role, status: Status)

  /** The registration payload. */
  datatype UserCreate = UserCreate(username: string, email: string, password: string)

  /** The column a repository query filters on. */
  datatype Query = ById(id: UserId) | ByEmail(email: string) | ByUsername(username: string)

  predicate Matches(u: User, q: Query)
  {
    match q
    case ById(id) => u.id == id
    case ByEmail(email) => u.email == email
    case ByUsername(username) => u.username == username
  }

  /** `query(User).filter(...).first()`: the earliest row matching `q`. */
  function First(users: seq<User>, q: Query): (r: Option<User>)
    ensures r.None? <==> forall i :: 0 <= i < |users| ==> !Matches(users[i], q)
    ensures r.Some? ==> r.value in users && Matches(r.value, q)
    decreases |users|
  {
    if users == [] then None
    else if Matches(users[0], q) then Some(users[0])
    else
      var r := First(users[1..], q);
      assert forall i :: 1 <= i < |users| ==> users[i] == users[1..][i - 1];
      r
  }

  /** The row found is the earliest match: every row before it fails `q`. */
  lemma {:induction false} FirstIsEarliest(users: seq<User>, q: Query)
    requires First(users, q).Some?
    ensures exists i :: 0 <= i < |users| && users[i] == First(users, q).value
                        && forall j :: 0 <= j < i ==> !Matches(users[j], q)
    decreases |users|
  {
    if !Matches(users[0], q) {
      FirstIsEarliest(users[1..], q);
      var i :| 0 <= i < |users[1..]| && users[1..][i] == First(users[1..], q).value
               && forall j :: 0 <= j < i ==> !Matches(users[1..][j], q);
      assert users[i + 1] == First(users, q).value;
      assert forall j :: 0 <= j < i + 1 ==> !Matches(users[j], q) by {
        forall j | 0 <= j < i + 1
          ensures !Matches(users[j], q)
        {
          if j > 0 { assert users[j] == users[1..][j - 1]; }
        }
      }
    } else {
      assert users[0] == First(users, q).value;
    }
  }

  /** Appending a row changes a lookup only when nothing earlier matched. */
  lemma {:induction false} FirstAppend(users: seq<User>, u: User, q: Query)
    ensures First(users + [u], q) == if First(users, q).Some? then First(users, q) else if Matches(u, q) then Some(u) else None
    decreases |users|
  {
    if users != [] {
      assert (users + [u])[0] == users[0];
      assert (users + [u])[1..] == users[1..] + [u];
      FirstAppend(users[1..], u, q);
    }
  }

  /** `get_by_identifier`: by email when the identifier contains '@', by username otherwise. */
  function GetByIdentifier(users: seq<User>, identifier: string): (r: Option<User>)
    ensures '@' in identifier ==> r.Some? ==> r.value in users && r.value.email == identifier
    ensures '@' !in identifier ==> r.Some? ==> r.value in users && r.value.username == identifier
    ensures r.None? ==> forall u :: u in users ==>
                          && ('@' in identifier ==> u.email != identifier)
                          && ('@' !in identifier ==> u.username != identifier)
  {
    if '@' in identifier then First(users, ByEmail(identifier)) else First(users, ByUsername(identifier))
  }

  const AccountExists := "Account already exists"

  /** `_ensure_unique`: an empty email or username skips its check. */
  function EnsureUnique(users: seq<User>, email: string, username: string): (r: Option<string>)
    ensures r.Some? <==>
              || (email != "" && exists u :: u in users && u.email == email)
              || (username != "" && exists u :: u in users && u.username == username)
    ensures r.Some? ==> r.value == AccountExists
  {
    if email != "" && First(users, ByEmail(email)).Some? then Some(AccountExists)
    else if username != "" && First(users, ByUsername(username)).Some? then Some(AccountExists)
    else None
  }

  /** Every row with `id` gets `hashed` as its password hash. */
  function WithPassword(users: seq<User>, id: UserId, hashed: string): (r: seq<User>)
    ensures |r| == |users|
    ensures forall i :: 0 <= i < |users| ==> r[i] == if users[i].id == id then users[i].(hashedPassword := hashed) else users[i]
  {
    seq(|users|, i requires 0 <= i < |users| => if users[i].id == id then users[i].(hashedPassword := hashed) else users[i])
  }

  /** Distinct ids, and distinct non-empty emails and usernames. */
  predicate Unique(users: seq<User>)
  {
    forall i, j :: 0 <= i < j < |users| ==>
      && users[i].id != users[j].id
      && (users[i].email != "" ==> users[i].email != users[j].email)
      && (users[i].username != "" ==> users[i].username != users[j].username)
  }

  class UserService {
    /** The password hasher, a foreign library: an arbitrary function here. */
    const hash: string -> string
    var users: seq<User>

    constructor (hash: string -> string)
      ensures this.hash == hash && users == []
    {
      this.hash := hash;
      users := [];
    }

    function Ids(): set<UserId>
      reads this
    {
      set u | u in users :: u.id
    }

    /** `repo.get(user_id)` */
    function GetById(id: UserId): (r: Option<User>)
      reads this
      ensures r.Some? ==> r.value in users && r.value.id == id
      ensures r.None? ==> id !in Ids()
    {
      First(users, ById(id))
    }

    /** `create_user`: refuses a taken email or username, otherwise stores a
        new row with a fresh id, the hashed password and the model's default
        role and status, and returns it. */
    method CreateUser(data: UserCreate) returns (r: Result<User, string>)
      modifies this
      ensures EnsureUnique(old(users), data.email, data.username).Some? ==>
                r == Failure(AccountExists) && users == old(users)
      ensures EnsureUnique(old(users), data.email, data.username).None? ==>
                && r.Success? && r.value.id !in old(Ids())
                && r.value == User(r.value.id, data.username, data.email, hash(data.password), Lifeguard, Active)
                && users == old(users) + [r.value]
      ensures r.Success? && data.username != "" ==> First(users, ByUsername(data.username)) == Some(r.value)
      ensures r.Success? && data.email != "" ==> First(users, ByEmail(data.email)) == Some(r.value)
      ensures Unique(old(users)) ==> Unique(users)
    {
      var taken := EnsureUnique(users, data.email, data.username);
      if taken.Some? {
        return Failure(taken.value);
      }
      NatFreshExists(Ids());
      var id :| id !in Ids();
      var u := User(id, data.username, data.email, hash(data.password), Lifeguard, Active);
      FirstAppend(users, u, ByUsername(data.username));
      FirstAppend(users, u, ByEmail(data.email));
      AppendKeepsUnique(users, u);
      users := users + [u];
      r := Success(u);
    }

    /** Replaces the stored password hash of the user with `id`. */
    method SetPassword(id: UserId, newPassword: string)
      modifies this
      ensures users == WithPassword(old(users), id, hash(newPassword))
    {
      users := WithPassword(users, id, hash(newPassword));
    }
  }

  /** A row whose id, email and username are all new keeps the table unique. */
  lemma AppendKeepsUnique(users: seq<User>, u: User)
    requires forall v :: v in users ==> v.id != u.id
    requires EnsureUnique(users, u.email, u.username).None?
    ensures Unique(users) ==> Unique(users + [u])
  {
    if Unique(users) {
      var all := users + [u];
      forall i, j | 0 <= i < j < |all|
        ensures all[i].id != all[j].id
        ensures all[i].email != "" ==> all[i].email != all[j].email
        ensures all[i].username != "" ==> all[i].username != all[j].username
      {
        if j == |users| {
          assert all[i] in users && all[j] == u;
        } else {
          assert all[i] == users[i] && all[j] == users[j];
        }
      }
    }
  }

  /** A finite set of ids always leaves one unused. */
  lemma NatFreshExists(used: set<UserId>)
    ensures exists n: UserId :: n !in used
  {
    var m := MaxNat(used);
    assert m + 1 !in used;
  }

  ghost function MaxNat(used: set<UserId>): (m: nat)
    ensures forall n :: n in used ==> n <= m
    decreases |used|
  {
    if used == {} then 0
    else
      var n :| n in used;
      var rest := MaxNat(used - {n});
      assert forall x :: x in used ==> x == n || x in used - {n};
      if n > rest then n else rest
  }
}
