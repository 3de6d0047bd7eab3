/** The data-access layer of the `contacts` table: the queries are functions
    over the table's rows, and the table itself is a class whose methods insert
    and rewrite rows. */
module ContactDao {
  import opened Wrappers
  import opened Contacts
  import Seqs

  /** Row ids are positive, below the next auto-increment value, and distinct. */
  predicate IdsValid(edges: seq<Edge>, nextId: int) {
    && 1 <= nextId
    && (forall i :: 0 <= i < |edges| ==> 1 <= edges[i].id < nextId)
    && IdsUnique(edges)
  }

  predicate IdsUnique(edges: seq<Edge>) {
    forall i, j :: 0 <= i < j < |edges| ==> edges[i].id != edges[j].id
  }

  /** The duplicate check, written as the query writes it: a live row that has
      the form's current user on one side and its friend on one side. */
  predicate ContactExists(edges: seq<Edge>, c: ContactForm) {
    exists e :: e in edges &&
      (e.currentUserId == c.currentUserId || e.friendId == c.currentUserId) &&
      (e.friendId == c.friendId || e.currentUserId == c.friendId) &&
      IsLive(e.status)
  }

  /** True when some live row joins `a` and `b`, in either direction. */
  predicate LiveBetween(edges: seq<Edge>, a: int, b: int) {
    exists e :: e in edges && IsLive(e.status) &&
      ((e.currentUserId == a && e.friendId == b) || (e.currentUserId == b && e.friendId == a))
  }

  /** For two different users the duplicate check is exactly "a live row joins
      them in either direction"; rows in an excluded status never count. */
  lemma ContactExistsForDistinctUsers(edges: seq<Edge>, c: ContactForm)
    requires c.currentUserId != c.friendId
    ensures ContactExists(edges, c) <==> LiveBetween(edges, c.currentUserId, c.friendId)
  {
    if ContactExists(edges, c) {
      var e :| e in edges &&
        (e.currentUserId == c.currentUserId || e.friendId == c.currentUserId) &&
        (e.friendId == c.friendId || e.currentUserId == c.friendId) &&
        IsLive(e.status);
      assert (e.currentUserId == c.currentUserId && e.friendId == c.friendId) ||
             (e.currentUserId == c.friendId && e.friendId == c.currentUserId);
    }
  }

  /** A live row with that id in which `user` takes part. */
  predicate ContactExistsById(edges: seq<Edge>, user: int, contactId: int) {
    exists e :: e in edges && Participates(e, user) && e.id == contactId && IsLive(e.status)
  }

  /** Every row the user initiated, whatever its status. */
  function GetAllContacts(edges: seq<Edge>, user: int): (r: seq<Edge>)
    ensures forall e :: e in r <==> e in edges && e.currentUserId == user
    ensures forall e :: multiset(r)[e] == if e.currentUserId == user then multiset(edges)[e] else 0
  {
    Seqs.Filter(edges, (e: Edge) => e.currentUserId == user)
  }

  /** The user's outgoing requests still awaiting an answer. */
  function GetRequestsSent(edges: seq<Edge>, user: int): (r: seq<Edge>)
    ensures forall e :: e in r <==> e in edges && e.currentUserId == user && e.status == REQUESTED
    ensures forall e :: multiset(r)[e] == if e.currentUserId == user && e.status == REQUESTED then multiset(edges)[e] else 0
  {
    Seqs.Filter(edges, (e: Edge) => e.currentUserId == user && e.status == REQUESTED)
  }

  /** The requests other users sent to this user that await an answer. */
  function GetContactRequestsToMe(edges: seq<Edge>, user: int): (r: seq<Edge>)
    ensures forall e :: e in r <==> e in edges && e.friendId == user && e.status == REQUESTED
    ensures forall e :: multiset(r)[e] == if e.friendId == user && e.status == REQUESTED then multiset(edges)[e] else 0
  {
    Seqs.Filter(edges, (e: Edge) => e.friendId == user && e.status == REQUESTED)
  }

  /** Every row in the given status, whichever users it joins. */
  function WithStatus(edges: seq<Edge>, status: Status): (r: seq<Edge>)
    ensures forall e :: e in r <==> e in edges && e.status == status
    ensures forall e :: multiset(r)[e] == if e.status == status then multiset(edges)[e] else 0
  {
    Seqs.Filter(edges, (e: Edge) => e.status == status)
  }

  /** The message of the exception the username search raises: its join names
      columns the contacts table does not have. */
  const MissingColumnMessage: string := "type object 'Contact' has no attribute 'requester_id'"

  /** Search by criteria: a non-zero id selects the row with that id, whoever it
      belongs to; otherwise a non-empty username reaches a query that fails;
      otherwise nothing is found. */
  function SearchContact(edges: seq<Edge>, criteria: ContactSearch): (r: Result<Option<Edge>, Error>)
    ensures (criteria.id.Some? && criteria.id.value != 0) ==>
      r.Success? && (r.value.Some? ==> r.value.value in edges && Some(r.value.value.id) == criteria.id) &&
      (r.value.None? <==> forall e :: e in edges ==> Some(e.id) != criteria.id)
    ensures (criteria.id.None? || criteria.id.value == 0) && criteria.username.Some? && criteria.username.value != "" ==>
      r == Failure(Internal(MissingColumnMessage))
    ensures (criteria.id.None? || criteria.id.value == 0) && (criteria.username.None? || criteria.username.value == "") ==>
      r == Success(None)
  {
    if criteria.id.Some? && criteria.id.value != 0 then
      Success(Seqs.First(edges, (e: Edge) => e.id == criteria.id.value))
    else if criteria.username.Some? && criteria.username.value != "" then
      Failure(Internal(MissingColumnMessage))
    else
      Success(None)
  }

  /** How `update_contact_status` names its row: by the pair of users of a
      contact form, or by id (restricted to rows the acting user takes part in). */
  datatype ContactIdentifier = ByForm(form: ContactForm) | ById(contactId: int)

  /** The index of the row an update selects, if any. */
  function SelectForUpdate(edges: seq<Edge>, identifier: ContactIdentifier, user: int): (r: Option<nat>)
    ensures r.Some? ==> r.value < |edges|
    ensures identifier.ById? ==>
      (r.Some? ==> edges[r.value].id == identifier.contactId && Participates(edges[r.value], user)) &&
      (r.None? <==> forall e :: e in edges ==> e.id != identifier.contactId || !Participates(e, user))
    ensures identifier.ByForm? ==>
      (r.Some? ==> edges[r.value].currentUserId == identifier.form.currentUserId &&
                   edges[r.value].friendId == identifier.form.friendId) &&
      (r.None? <==> forall e :: e in edges ==>
         e.currentUserId != identifier.form.currentUserId || e.friendId != identifier.form.friendId)
  {
    match identifier
    case ByForm(f) =>
      Seqs.FirstIndex(edges, (e: Edge) => e.currentUserId == f.currentUserId && e.friendId == f.friendId)
    case ById(k) =>
      Seqs.FirstIndex(edges, (e: Edge) => (e.currentUserId == user || e.friendId == user) && e.id == k)
  }

  /** The message of the exception raised when no row is selected. */
  const ContactNotFound: string := "Contact not found."

  /** The result of an operation on the table together with the rows afterwards. */
  datatype Step = Step(result: Result<Edge, Error>, edges: seq<Edge>)

  /** A status update as a function of the rows before it: when no row is
      selected it fails and changes nothing; otherwise exactly the selected row
      takes the new status, its timestamps follow the effect table, and every
      other row is unchanged. */
  function UpdateStatusStep(edges: seq<Edge>, identifier: ContactIdentifier, target: Status, user: int, now: int): (s: Step)
    ensures SelectForUpdate(edges, identifier, user).None? ==>
      s == Step(Failure(Internal(ContactNotFound)), edges)
    ensures SelectForUpdate(edges, identifier, user).Some? ==>
      var i := SelectForUpdate(edges, identifier, user).value;
      s.result.Success? && s.result.value == Transitioned(edges[i], target, now) &&
      |s.edges| == |edges| && s.edges[i] == s.result.value &&
      forall j :: 0 <= j < |edges| && j != i ==> s.edges[j] == edges[j]
  {
    match SelectForUpdate(edges, identifier, user)
    case None => Step(Failure(Internal(ContactNotFound)), edges)
    case Some(i) => Step(Success(Transitioned(edges[i], target, now)), edges[i := Transitioned(edges[i], target, now)])
  }

  /** A row of a status listing, annotated with the user on the other side. */
  datatype ListedContact = ListedContact(contact: Edge, otherUser: int)

  /** The `contacts` table. */
  class ContactTable {
    var edges: seq<Edge>
    var nextId: int

    ghost predicate Valid()
      reads this
    {
      IdsValid(edges, nextId)
    }

    constructor()
      ensures Valid() && edges == [] && nextId == 1
    {
      edges := [];
      nextId := 1;
    }

    /** Insert one REQUESTED row between the form's users, stamped `now`, with a
        fresh id; no existing row changes. */
    method CreateContact(c: ContactForm, now: int) returns (r: Edge)
      requires Valid()
      modifies this
      ensures Valid()
      ensures r == NewRow(old(nextId), c, Some(REQUESTED), now)
      ensures edges == old(edges) + [r] && nextId == old(nextId) + 1
      ensures forall e :: e in old(edges) ==> e.id != r.id
    {
      r := NewRow(nextId, c, Some(REQUESTED), now);
      edges := edges + [r];
      nextId := nextId + 1;
    }

    /** Rewrite the status of the selected row in place. */
    method UpdateContactStatus(identifier: ContactIdentifier, target: Status, user: int, now: int)
      returns (r: Result<Edge, Error>)
      requires Valid()
      modifies this
      ensures Valid() && nextId == old(nextId)
      ensures Step(r, edges) == UpdateStatusStep(old(edges), identifier, target, user, now)
    {
      var found := SelectForUpdate(edges, identifier, user);
      if found.None? {
        return Failure(Internal(ContactNotFound));
      }
      var i := found.value;
      var contact := edges[i];
      if target == ACCEPTED {
        contact := contact.(dateAdded := Some(now));
      } else if target == BLOCKED || target == REMOVED {
        contact := contact.(dateAdded := None);
      }
      contact := contact.(lastUpdated := now, status := target);
      edges := edges[i := contact];
      r := Success(contact);
    }

    /** Every row in `status`, each annotated with its other party: the friend
        when `user` initiated the row, the initiator otherwise. */
    method GetContacts(user: int, status: Status) returns (result: seq<ListedContact>)
      ensures |result| == |WithStatus(edges, status)|
      ensures forall k :: 0 <= k < |result| ==> result[k].contact == WithStatus(edges, status)[k]
      ensures forall k :: 0 <= k < |result| ==> result[k].contact.status == status
      ensures forall k :: 0 <= k < |result| ==>
        (result[k].contact.currentUserId == user ==> result[k].otherUser == result[k].contact.friendId) &&
        (result[k].contact.currentUserId != user ==> result[k].otherUser == result[k].contact.currentUserId)
    {
      var data := WithStatus(edges, status);
      result := [];
      for i := 0 to |data|
        invariant |result| == i
        invariant forall k :: 0 <= k < i ==> result[k].contact == data[k]
        invariant forall k :: 0 <= k < i ==>
          (data[k].currentUserId == user ==> result[k].otherUser == data[k].friendId) &&
          (data[k].currentUserId != user ==> result[k].otherUser == data[k].currentUserId)
      {
        var contact := data[i];
        var other: int;
        if contact.currentUserId == user {
          other := contact.friendId;
        } else {
          other := contact.currentUserId;
        }
        result := result + [ListedContact(contact, other)];
      }
    }
  }
}
