/** The `users` table: the user record, the password digest and the
    data-access operations over the table. */
module Users {
  import opened Wrappers
  import Seqs

  /** A password digest. The salt is the random value bcrypt draws; the digest
      is idealised as one that can be checked against exactly the secret that
      produced it. */
  datatype PasswordHash = PasswordHash(salt: int, secret: string)

  /** Hash a plaintext password with the given salt. */
  function SetPassword(plain: string, salt: int): (h: PasswordHash)
    ensures h.salt == salt
    ensures CheckPassword(plain, h)
    ensures forall other :: other != plain ==> !CheckPassword(other, h)
  {
    PasswordHash(salt, plain)
  }

  /** Check a plaintext password against a stored digest. */
  predicate CheckPassword(plain: string, h: PasswordHash) {
    h.secret == plain
  }

  /** One row of the `users` table; the password column holds a digest. */
  datatype User = User(id: int, name: string, username: string, email: string, password: PasswordHash)

  /** The signup payload. */
  datatype UserCreate = UserCreate(name: string, username: string, email: string, password: string)

  /** The login payload. */
  datatype UserLogin = UserLogin(username: string, email: string, password: string)

  /** Ids are positive, below the next auto-increment value, and distinct. */
  predicate UserIdsValid(users: seq<User>, nextId: int) {
    && 1 <= nextId
    && (forall i :: 0 <= i < |users| ==> 1 <= users[i].id < nextId)
    && (forall i, j :: 0 <= i < j < |users| ==> users[i].id != users[j].id)
  }

  /** Every stored user. */
  function GetAllUsers(users: seq<User>): (r: seq<User>)
    ensures |r| == |users|
    ensures forall u :: u in r <==> u in users
  {
    users
  }

  /** The first user whose email OR whose username equals the payload's. */
  function GetUserByData(users: seq<User>, data: UserCreate): (r: Option<User>)
    ensures r.Some? ==> r.value in users
    ensures r.Some? ==> r.value.email == data.email || r.value.username == data.username
    ensures r.None? <==> forall u :: u in users ==> u.email != data.email && u.username != data.username
  {
    Seqs.First(users, (u: User) => u.email == data.email || u.username == data.username)
  }

  /** The first user whose username AND email both match. */
  function GetUserByUsernameAndEmail(users: seq<User>, username: string, email: string): (r: Option<User>)
    ensures r.Some? ==> r.value in users && r.value.username == username && r.value.email == email
    ensures r.None? <==> forall u :: u in users ==> u.username != username || u.email != email
  {
    Seqs.First(users, (u: User) => u.username == username && u.email == email)
  }

  /** The lookup a login payload drives: username AND email. */
  function GetUser(users: seq<User>, login: UserLogin): (r: Option<User>)
    ensures r.Some? ==> r.value in users && r.value.username == login.username && r.value.email == login.email
    ensures r.None? <==> forall u :: u in users ==> u.username != login.username || u.email != login.email
  {
    GetUserByUsernameAndEmail(users, login.username, login.email)
  }

  /** The first user with the given username, whatever the email. */
  function GetUserByUsername(users: seq<User>, username: string): (r: Option<User>)
    ensures r.Some? ==> r.value in users && r.value.username == username
    ensures r.None? <==> forall u :: u in users ==> u.username != username
  {
    Seqs.First(users, (u: User) => u.username == username)
  }

  /** The user with the given id. */
  function GetUserById(users: seq<User>, id: int): (r: Option<User>)
    ensures r.Some? ==> r.value in users && r.value.id == id
    ensures r.None? <==> forall u :: u in users ==> u.id != id
  {
    Seqs.First(users, (u: User) => u.id == id)
  }

  /** Ids are the primary key: looking a stored user up by their id yields
      exactly that user. */
  lemma {:induction false} GetUserByIdFindsStoredUser(users: seq<User>, nextId: int, i: nat)
    requires UserIdsValid(users, nextId) && i < |users|
    ensures GetUserById(users, users[i].id) == Some(users[i])
  {
    var r := GetUserById(users, users[i].id);
    assert users[i] in users;
    var k :| 0 <= k < |users| && users[k] == r.value;
    assert users[k].id == users[i].id;
  }

  /** The `users` table as the data-access object sees it. */
  class UserTable {
    var users: seq<User>
    var nextId: int

    ghost predicate Valid()
      reads this
    {
      UserIdsValid(users, nextId)
    }

    constructor()
      ensures Valid() && users == [] && nextId == 1
    {
      users := [];
      nextId := 1;
    }

    /** Insert one user; the password is stored as its digest. */
    method CreateUser(form: UserCreate, salt: int) returns (u: User)
      requires Valid()
      modifies this
      ensures Valid()
      ensures u.id == old(nextId) && nextId == old(nextId) + 1
      ensures u.name == form.name && u.username == form.username && u.email == form.email
      ensures u.password == SetPassword(form.password, salt)
      ensures users == old(users) + [u]
      ensures forall v :: v in old(users) ==> v.id != u.id
    {
      u := User(nextId, form.name, form.username, form.email, SetPassword(form.password, salt));
      users := users + [u];
      nextId := nextId + 1;
    }
  }
}
