/** The contact record (one row of the `contacts` table), its status enum and
    the two request shapes that name contacts. */
module Contacts {
  import opened Wrappers

  /** The relationship status of a contact row. */
  datatype Status = PENDING | REQUESTED | ACCEPTED | REJECTED | BLOCKED | REMOVED

  /** Statuses the data-access layer ignores when it asks whether a relationship
      is still in force; a pair whose rows all carry one of these may be added again. */
  const ExcludedStatuses: seq<Status> := [REMOVED, REJECTED, PENDING, BLOCKED]

  /** A row is live when its status is not excluded. */
  predicate IsLive(s: Status)
    ensures IsLive(s) <==> s == REQUESTED || s == ACCEPTED
  {
    var ex := ExcludedStatuses;
    assert s in ex <==> s == ex[0] || s == ex[1] || s == ex[2] || s == ex[3];
    s !in ex
  }

  /** One contact row: `currentUserId` initiated the relationship with `friendId`.
      `dateAdded` is the nullable acceptance time; times are integer seconds. */
  datatype Edge = Edge(
    id: int,
    currentUserId: int,
    friendId: int,
    status: Status,
    dateAdded: Option<int>,
    lastUpdated: int)

  /** The payload that creates a contact. */
  datatype ContactForm = ContactForm(currentUserId: int, friendId: int)

  /** Search criteria; every field is optional. */
  datatype ContactSearch = ContactSearch(id: Option<int>, userId: Option<int>, username: Option<string>)

  /** The column default of `status`. */
  const DefaultStatus: Status := PENDING

  /** A freshly inserted row. The columns the caller leaves out take the table's
      defaults: `status` PENDING, `dateAdded` null. */
  function NewRow(id: int, form: ContactForm, status: Option<Status>, now: int): (e: Edge)
    ensures e.id == id
    ensures e.currentUserId == form.currentUserId && e.friendId == form.friendId
    ensures status.None? ==> e.status == PENDING
    ensures status.Some? ==> e.status == status.value
    ensures e.dateAdded.None? && e.lastUpdated == now
  {
    Edge(id, form.currentUserId, form.friendId,
         match status case Some(s) => s case None => DefaultStatus,
         None, now)
  }

  /** True when `user` is one of the two users of the row. */
  predicate Participates(e: Edge, user: int) {
    e.currentUserId == user || e.friendId == user
  }

  /** True when the two rows join the same unordered pair of users. */
  predicate SamePair(a: Edge, b: Edge) {
    (a.currentUserId == b.currentUserId && a.friendId == b.friendId) ||
    (a.currentUserId == b.friendId && a.friendId == b.currentUserId)
  }

  /** What a status change does to the acceptance date. */
  datatype DateEffect = SetToNow | Clear | Keep

  /** The acceptance-date effect of each target status. */
  function EffectOf(target: Status): DateEffect {
    match target
    case ACCEPTED => SetToNow
    case BLOCKED => Clear
    case REMOVED => Clear
    case _ => Keep
  }

  /** The row after a status change to `target` at time `now`. */
  function Transitioned(e: Edge, target: Status, now: int): (r: Edge)
    ensures r.status == target && r.lastUpdated == now
    ensures r.id == e.id && r.currentUserId == e.currentUserId && r.friendId == e.friendId
    ensures target == ACCEPTED ==> r.dateAdded == Some(now)
    ensures target == BLOCKED || target == REMOVED ==> r.dateAdded.None?
    ensures target == REJECTED || target == PENDING || target == REQUESTED ==> r.dateAdded == e.dateAdded
  {
    var date := match EffectOf(target)
      case SetToNow => Some(now)
      case Clear => None
      case Keep => e.dateAdded;
    Edge(e.id, e.currentUserId, e.friendId, target, date, now)
  }
}
