/** The contact service: the guards in front of every change to the contacts
    table, the request operation, the five status transitions and the search. */
module ContactService {
  import opened Wrappers
  import opened Contacts
  import opened ContactDao
  import Users

  const FillRequiredFields: string := "Fill required fields to add contact."
  const CannotAddYourself: string := "Can not add yourself as a contact."
  const AlreadyInContacts: string := "User is already in your contact list."
  const UserDoesNotExist: string := "User does not exists."
  const ContactDoesNotExist: string := "Contact does not exist."
  const NoSearchCriteria: string := "No search criteria present."

  /** Ids are integers and 0 is falsy, so an id of 0 counts as missing. */
  function HasEmptyFields(c: ContactForm): (r: Outcome<Error>)
    ensures r.Fail? <==> c.currentUserId == 0 || c.friendId == 0
    ensures r.Fail? ==> r.error == Http(400, FillRequiredFields)
  {
    if c.currentUserId == 0 || c.friendId == 0 then Fail(Http(400, FillRequiredFields)) else Pass
  }

  function IsSelfContact(c: ContactForm): (r: Outcome<Error>)
    ensures r.Fail? <==> c.currentUserId == c.friendId
    ensures r.Fail? ==> r.error == Http(400, CannotAddYourself)
  {
    if c.currentUserId == c.friendId then Fail(Http(400, CannotAddYourself)) else Pass
  }

  function CheckContactExists(edges: seq<Edge>, c: ContactForm): (r: Outcome<Error>)
    ensures r.Fail? <==> ContactExists(edges, c)
    ensures r.Fail? ==> r.error == Http(400, AlreadyInContacts)
  {
    if ContactExists(edges, c) then Fail(Http(400, AlreadyInContacts)) else Pass
  }

  function DoesUserExist(users: seq<Users.User>, c: ContactForm): (r: Outcome<Error>)
    ensures r.Fail? <==> forall u :: u in users ==> u.id != c.friendId
    ensures r.Fail? ==> r.error == Http(400, UserDoesNotExist)
  {
    if Users.GetUserById(users, c.friendId).None? then Fail(Http(400, UserDoesNotExist)) else Pass
  }

  function CheckContactExistsById(edges: seq<Edge>, user: int, contactId: int): (r: Outcome<Error>)
    ensures r.Fail? <==> !ContactExistsById(edges, user, contactId)
    ensures r.Fail? ==> r.error == Http(400, ContactDoesNotExist)
  {
    if !ContactExistsById(edges, user, contactId) then Fail(Http(400, ContactDoesNotExist)) else Pass
  }

  /** The guards of a contact request, in order: empty fields, self-contact,
      live contact, unknown friend. The first that fails decides the error. */
  function AddContactCheck(edges: seq<Edge>, users: seq<Users.User>, c: ContactForm): Outcome<Error> {
    if HasEmptyFields(c).Fail? then HasEmptyFields(c)
    else if IsSelfContact(c).Fail? then IsSelfContact(c)
    else if CheckContactExists(edges, c).Fail? then CheckContactExists(edges, c)
    else DoesUserExist(users, c)
  }

  /** A contact request as a function of the table before it. Each guard's
      error is stated under the condition that the earlier guards passed; on
      any failure the rows are unchanged, and on success exactly one REQUESTED
      row with the next id is appended. */
  function AddContactStep(edges: seq<Edge>, nextId: int, users: seq<Users.User>, c: ContactForm, now: int): (s: Step)
    ensures c.currentUserId == 0 || c.friendId == 0 ==>
      s == Step(Failure(Http(400, FillRequiredFields)), edges)
    ensures c.currentUserId != 0 && c.friendId != 0 && c.currentUserId == c.friendId ==>
      s == Step(Failure(Http(400, CannotAddYourself)), edges)
    ensures c.currentUserId != 0 && c.friendId != 0 && c.currentUserId != c.friendId &&
            LiveBetween(edges, c.currentUserId, c.friendId) ==>
      s == Step(Failure(Http(400, AlreadyInContacts)), edges)
    ensures c.currentUserId != 0 && c.friendId != 0 && c.currentUserId != c.friendId &&
            !LiveBetween(edges, c.currentUserId, c.friendId) &&
            (forall u :: u in users ==> u.id != c.friendId) ==>
      s == Step(Failure(Http(400, UserDoesNotExist)), edges)
    ensures s.result.Success? <==>
      c.currentUserId != 0 && c.friendId != 0 && c.currentUserId != c.friendId &&
      !LiveBetween(edges, c.currentUserId, c.friendId) &&
      (exists u :: u in users && u.id == c.friendId)
    ensures s.result.Failure? ==> s.edges == edges
    ensures s.result.Success? ==>
      s.result.value == NewRow(nextId, c, Some(REQUESTED), now) && s.edges == edges + [s.result.value]
  {
    if c.currentUserId != c.friendId then ContactExistsForDistinctUsers(edges, c); StepOf(edges, nextId, users, c, now)
    else StepOf(edges, nextId, users, c, now)
  }

  function StepOf(edges: seq<Edge>, nextId: int, users: seq<Users.User>, c: ContactForm, now: int): Step {
    match AddContactCheck(edges, users, c)
    case Fail(e) => Step(Failure(e), edges)
    case Pass =>
      var row := NewRow(nextId, c, Some(REQUESTED), now);
      Step(Success(row), edges + [row])
  }

  /** A status transition as a function of the table before it: it succeeds
      exactly when a live row with that id has the acting user as a party; it
      then rewrites that row only, and otherwise leaves every row unchanged. */
  function TransitionStep(edges: seq<Edge>, user: int, contactId: int, target: Status, now: int): (s: Step)
    ensures s.result.Failure? <==> !ContactExistsById(edges, user, contactId)
    ensures s.result.Failure? ==> s == Step(Failure(Http(400, ContactDoesNotExist)), edges)
    ensures s.result.Success? ==>
      var i := SelectForUpdate(edges, ById(contactId), user).value;
      SelectForUpdate(edges, ById(contactId), user).Some? &&
      edges[i].id == contactId && Participates(edges[i], user) &&
      s.result.value == Transitioned(edges[i], target, now) &&
      |s.edges| == |edges| && s.edges[i] == s.result.value &&
      forall j :: 0 <= j < |edges| && j != i ==> s.edges[j] == edges[j]
  {
    match CheckContactExistsById(edges, user, contactId)
    case Fail(e) => Step(Failure(e), edges)
    case Pass => UpdateStatusStep(edges, ById(contactId), target, user, now)
  }

  /** At most one live row per unordered pair of users. */
  predicate LiveUnique(edges: seq<Edge>) {
    forall i, j :: 0 <= i < j < |edges| && IsLive(edges[i].status) && IsLive(edges[j].status) ==>
      !SamePair(edges[i], edges[j])
  }

  /** A contact request never creates a second live row for a pair. */
  lemma {:induction false} AddContactPreservesLiveUnique(
    edges: seq<Edge>, nextId: int, users: seq<Users.User>, c: ContactForm, now: int)
    requires LiveUnique(edges)
    ensures LiveUnique(AddContactStep(edges, nextId, users, c, now).edges)
  {
    var s := AddContactStep(edges, nextId, users, c, now);
    if s.result.Success? {
      var row := s.result.value;
      forall i, j | 0 <= i < j < |s.edges| && IsLive(s.edges[i].status) && IsLive(s.edges[j].status)
        ensures !SamePair(s.edges[i], s.edges[j])
      {
        if j == |edges| {
          assert s.edges[i] == edges[i] && s.edges[j] == row;
          assert edges[i] in edges;
          assert !LiveBetween(edges, c.currentUserId, c.friendId);
        } else {
          assert s.edges[i] == edges[i] && s.edges[j] == edges[j];
        }
      }
    }
  }

  /** With distinct ids, the row a transition's gate admits is the row the
      update selects, and that row is live. */
  lemma SelectedRowIsLive(edges: seq<Edge>, user: int, contactId: int)
    requires IdsUnique(edges)
    requires ContactExistsById(edges, user, contactId)
    ensures SelectForUpdate(edges, ById(contactId), user).Some?
    ensures IsLive(edges[SelectForUpdate(edges, ById(contactId), user).value].status)
  {
    var e :| e in edges && Participates(e, user) && e.id == contactId && IsLive(e.status);
    var m :| 0 <= m < |edges| && edges[m] == e;
    var i := SelectForUpdate(edges, ById(contactId), user).value;
    assert edges[i].id == edges[m].id;
    assert i == m;
  }

  /** A transition never creates a second live row for a pair: it can only make
      a row live that was live already. */
  lemma {:induction false} TransitionPreservesLiveUnique(
    edges: seq<Edge>, user: int, contactId: int, target: Status, now: int)
    requires IdsUnique(edges) && LiveUnique(edges)
    ensures LiveUnique(TransitionStep(edges, user, contactId, target, now).edges)
    ensures IdsUnique(TransitionStep(edges, user, contactId, target, now).edges)
  {
    var s := TransitionStep(edges, user, contactId, target, now);
    if s.result.Success? {
      SelectedRowIsLive(edges, user, contactId);
      var k := SelectForUpdate(edges, ById(contactId), user).value;
      assert forall x :: 0 <= x < |edges| ==> SamePair(s.edges[x], edges[x]) || s.edges[x] == edges[x];
      assert forall x :: 0 <= x < |edges| ==> s.edges[x].id == edges[x].id;
      forall i, j | 0 <= i < j < |s.edges| && IsLive(s.edges[i].status) && IsLive(s.edges[j].status)
        ensures !SamePair(s.edges[i], s.edges[j])
      {
        assert IsLive(edges[i].status) && IsLive(edges[j].status);
        assert !SamePair(edges[i], edges[j]);
      }
    }
  }

  /** Only a live row can move: when the row with that id is in an excluded
      status (PENDING, REJECTED, BLOCKED or REMOVED), every transition on it
      fails for every user and changes nothing. In particular unblocking a
      BLOCKED row always fails. */
  lemma TransitionOnlyFromLive(edges: seq<Edge>, user: int, j: nat, target: Status, now: int)
    requires IdsUnique(edges)
    requires j < |edges| && !IsLive(edges[j].status)
    ensures TransitionStep(edges, user, edges[j].id, target, now) ==
      Step(Failure(Http(400, ContactDoesNotExist)), edges)
  {
    forall e | e in edges && e.id == edges[j].id
      ensures e == edges[j]
    {
      var m :| 0 <= m < |edges| && edges[m] == e;
      assert edges[m].id == edges[j].id;
    }
  }

  /** Appending a row with the next id and then transitioning that id
      rewrites exactly the appended row. */
  lemma TransitionOfLastRow(edges: seq<Edge>, nextId: int, row: Edge, user: int, target: Status, now: int)
    requires IdsValid(edges, nextId)
    requires row.id == nextId && Participates(row, user) && IsLive(row.status)
    ensures TransitionStep(edges + [row], user, nextId, target, now) ==
      Step(Success(Transitioned(row, target, now)), edges + [Transitioned(row, target, now)])
  {
    var all := edges + [row];
    assert all[|edges|] == row;
    assert ContactExistsById(all, user, nextId);
    var s := TransitionStep(all, user, nextId, target, now);
    var i := SelectForUpdate(all, ById(nextId), user).value;
    assert forall x :: 0 <= x < |edges| ==> all[x].id < nextId;
    assert i == |edges|;
    assert s.edges == edges + [Transitioned(row, target, now)];
  }

  /** Duplicate suppression: once A has requested B, a second request in
      either direction fails with the "already in your contact list" error. */
  lemma RequestBlocksRepeatInBothDirections(
    edges: seq<Edge>, nextId: int, users: seq<Users.User>, a: int, b: int, t1: int, t2: int)
    requires AddContactStep(edges, nextId, users, ContactForm(a, b), t1).result.Success?
    ensures
      var s1 := AddContactStep(edges, nextId, users, ContactForm(a, b), t1);
      AddContactStep(s1.edges, nextId + 1, users, ContactForm(a, b), t2).result == Failure(Http(400, AlreadyInContacts)) &&
      AddContactStep(s1.edges, nextId + 1, users, ContactForm(b, a), t2).result == Failure(Http(400, AlreadyInContacts))
  {
    var s1 := AddContactStep(edges, nextId, users, ContactForm(a, b), t1);
    var row := s1.result.value;
    assert row in s1.edges;
    assert LiveBetween(s1.edges, a, b) && LiveBetween(s1.edges, b, a);
  }

  /** The end-to-end life of a relationship: A requests B; B accepts, which
      stamps the acceptance date; A removes it, which clears the date; and A
      can then request B again, getting a new row with a new id. */
  lemma {:induction false} RequestAcceptRemoveRequestAgain(
    edges: seq<Edge>, nextId: int, users: seq<Users.User>, a: int, b: int,
    t1: int, t2: int, t3: int, t4: int)
    requires IdsValid(edges, nextId)
    requires a != 0 && b != 0 && a != b
    requires exists u :: u in users && u.id == b
    requires !LiveBetween(edges, a, b)
    ensures
      var s1 := AddContactStep(edges, nextId, users, ContactForm(a, b), t1);
      var s2 := TransitionStep(s1.edges, b, nextId, ACCEPTED, t2);
      var s3 := TransitionStep(s2.edges, a, nextId, REMOVED, t3);
      var s4 := AddContactStep(s3.edges, nextId + 1, users, ContactForm(a, b), t4);
      && s1.result.Success? && s1.result.value.id == nextId
      && s1.result.value.status == REQUESTED && s1.result.value.currentUserId == a
      && s2.result.Success? && s2.result.value.status == ACCEPTED && s2.result.value.dateAdded == Some(t2)
      && s3.result.Success? && s3.result.value.status == REMOVED && s3.result.value.dateAdded.None?
      && s4.result.Success? && s4.result.value.id == nextId + 1 && s4.result.value.status == REQUESTED
  {
    var c := ContactForm(a, b);
    var s1 := AddContactStep(edges, nextId, users, c, t1);
    var r1 := s1.result.value;
    TransitionOfLastRow(edges, nextId, r1, b, ACCEPTED, t2);
    var r2 := Transitioned(r1, ACCEPTED, t2);
    TransitionOfLastRow(edges, nextId, r2, a, REMOVED, t3);
    var r3 := Transitioned(r2, REMOVED, t3);
    var s3 := TransitionStep(TransitionStep(s1.edges, b, nextId, ACCEPTED, t2).edges, a, nextId, REMOVED, t3);
    assert s3.edges == edges + [r3];
    assert forall e :: e in s3.edges ==> e == r3 || e in edges;
    assert !IsLive(r3.status);
  }

  /** A search needs some criterion; it then succeeds exactly when the id
      branch finds a row, which it returns whoever it belongs to. */
  function SearchContact(edges: seq<Edge>, criteria: Option<ContactSearch>): (r: Result<Edge, Error>)
    ensures criteria.None? ==> r == Failure(Http(400, NoSearchCriteria))
    ensures (criteria.Some? && criteria.value.id.None? && criteria.value.userId.None? &&
             criteria.value.username.None?) ==> r == Failure(Http(400, NoSearchCriteria))
    ensures r.Success? ==> criteria.Some? && r.value in edges && Some(r.value.id) == criteria.value.id && r.value.id != 0
    ensures criteria.Some? && criteria.value.id.Some? && criteria.value.id.value != 0 ==>
      (r.Success? <==> exists e :: e in edges && e.id == criteria.value.id.value) &&
      (r.Failure? ==> r.error == Http(400, ContactDoesNotExist))
    ensures criteria.Some? && (criteria.value.id.None? || criteria.value.id.value == 0) &&
            criteria.value.username.Some? && criteria.value.username.value != "" ==>
      r == Failure(Internal(MissingColumnMessage))
    ensures (criteria.Some? && (criteria.value.id.Some? || criteria.value.userId.Some? || criteria.value.username.Some?) &&
             (criteria.value.id.None? || criteria.value.id.value == 0) &&
             (criteria.value.username.None? || criteria.value.username.value == "")) ==>
      r == Failure(Http(400, ContactDoesNotExist))
  {
    if criteria.None? then Failure(Http(400, NoSearchCriteria))
    else if criteria.value.id.None? && criteria.value.userId.None? && criteria.value.username.None? then
      Failure(Http(400, NoSearchCriteria))
    else
      match ContactDao.SearchContact(edges, criteria.value)
      case Failure(e) => Failure(e)
      case Success(None) => Failure(Http(400, ContactDoesNotExist))
      case Success(Some(found)) => Success(found)
  }

  /** The contact service over its two tables. */
  class ContactService {
    const dao: ContactTable
    const userDao: Users.UserTable

    ghost predicate Valid()
      reads this, dao
    {
      dao.Valid() && LiveUnique(dao.edges)
    }

    constructor(dao: ContactTable, userDao: Users.UserTable)
      requires dao.Valid() && LiveUnique(dao.edges)
      ensures Valid() && this.dao == dao && this.userDao == userDao
    {
      this.dao := dao;
      this.userDao := userDao;
    }

    /** Request a contact: run the four guards in order, then insert. */
    method AddContact(c: ContactForm, now: int) returns (r: Result<Edge, Error>)
      requires Valid()
      modifies dao
      ensures Valid()
      ensures Step(r, dao.edges) == AddContactStep(old(dao.edges), old(dao.nextId), userDao.users, c, now)
      ensures dao.nextId == if r.Success? then old(dao.nextId) + 1 else old(dao.nextId)
    {
      var g := HasEmptyFields(c);
      if g.Fail? { return Failure(g.error); }
      g := IsSelfContact(c);
      if g.Fail? { return Failure(g.error); }
      g := CheckContactExists(dao.edges, c);
      if g.Fail? { return Failure(g.error); }
      g := DoesUserExist(userDao.users, c);
      if g.Fail? { return Failure(g.error); }
      AddContactPreservesLiveUnique(dao.edges, dao.nextId, userDao.users, c, now);
      var row := dao.CreateContact(c, now);
      r := Success(row);
    }

    /** The shape every transition shares: the gate, then the update by id. */
    method ChangeStatus(user: Users.User, contactId: int, target: Status, now: int) returns (r: Result<Edge, Error>)
      requires Valid()
      modifies dao
      ensures Valid() && dao.nextId == old(dao.nextId)
      ensures Step(r, dao.edges) == TransitionStep(old(dao.edges), user.id, contactId, target, now)
    {
      var g := CheckContactExistsById(dao.edges, user.id, contactId);
      if g.Fail? { return Failure(g.error); }
      TransitionPreservesLiveUnique(dao.edges, user.id, contactId, target, now);
      r := dao.UpdateContactStatus(ById(contactId), target, user.id, now);
    }

    method RemoveContact(user: Users.User, contactId: int, now: int) returns (r: Result<Edge, Error>)
      requires Valid()
      modifies dao
      ensures Valid() && dao.nextId == old(dao.nextId)
      ensures Step(r, dao.edges) == TransitionStep(old(dao.edges), user.id, contactId, REMOVED, now)
    {
      r := ChangeStatus(user, contactId, REMOVED, now);
    }

    method BlockContact(user: Users.User, contactId: int, now: int) returns (r: Result<Edge, Error>)
      requires Valid()
      modifies dao
      ensures Valid() && dao.nextId == old(dao.nextId)
      ensures Step(r, dao.edges) == TransitionStep(old(dao.edges), user.id, contactId, BLOCKED, now)
    {
      r := ChangeStatus(user, contactId, BLOCKED, now);
    }

    method AcceptContact(user: Users.User, contactId: int, now: int) returns (r: Result<Edge, Error>)
      requires Valid()
      modifies dao
      ensures Valid() && dao.nextId == old(dao.nextId)
      ensures Step(r, dao.edges) == TransitionStep(old(dao.edges), user.id, contactId, ACCEPTED, now)
    {
      r := ChangeStatus(user, contactId, ACCEPTED, now);
    }

    method RejectContact(user: Users.User, contactId: int, now: int) returns (r: Result<Edge, Error>)
      requires Valid()
      modifies dao
      ensures Valid() && dao.nextId == old(dao.nextId)
      ensures Step(r, dao.edges) == TransitionStep(old(dao.edges), user.id, contactId, REJECTED, now)
    {
      r := ChangeStatus(user, contactId, REJECTED, now);
    }

    /** Unblocking moves a row to PENDING. */
    method UnblockContact(user: Users.User, contactId: int, now: int) returns (r: Result<Edge, Error>)
      requires Valid()
      modifies dao
      ensures Valid() && dao.nextId == old(dao.nextId)
      ensures Step(r, dao.edges) == TransitionStep(old(dao.edges), user.id, contactId, PENDING, now)
    {
      r := ChangeStatus(user, contactId, PENDING, now);
    }
  }
}
