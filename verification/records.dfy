/** Row shapes of the tables the route handlers read and write, with the
    column defaults that the GroupMember and EventUser models declare. */
module Records {

  datatype Option<T> = None | Some(value: T)

  type UserId = nat
  type GroupId = nat
  type EventId = nat
  type VenueId = nat

  // The string values the handlers compare `status` and `role` against.
  const PENDING: string := "pending"
  const ACCEPTED: string := "accepted"
  const MEMBER: string := "member"
  const CO_HOST: string := "co-host"
  const ORGANIZER: string := "organizer"

  /** One GroupMember row. Both columns are non-null strings; nothing restricts
      them to a fixed set of values, and (userId, groupId) is not declared unique. */
  datatype GroupMember = GroupMember(userId: UserId, groupId: GroupId, status: string, role: string)

  /** One EventUser row; (userId, eventId) is not declared unique. */
  datatype EventUser = EventUser(userId: UserId, eventId: EventId, status: string)

  /** A Group row without its id (the id is the key of the Groups table).
      `description` is None when the column was never written. */
  datatype Group = Group(
    organizerId: UserId,
    name: string,
    description: Option<string>,
    kind: string,
    isPrivate: bool,
    city: string,
    state: string,
    previewImage: string)

  /** An Event row without its id; the FLOAT `price` column is not modelled. */
  datatype Event = Event(
    groupId: GroupId,
    venueId: Option<VenueId>,
    capacity: int,
    name: string,
    kind: string,
    startDate: string,
    endDate: string,
    description: string)

  datatype Image = Image(
    url: string,
    preview: bool,
    groupId: Option<GroupId>,
    eventId: Option<EventId>,
    venueId: Option<VenueId>)

  /** Request bodies, after the field-presence validators have run. */
  datatype GroupBody = GroupBody(
    name: string,
    description: string,
    kind: string,
    isPrivate: bool,
    city: string,
    state: string,
    previewImage: string)

  datatype EventBody = EventBody(
    name: string,
    kind: string,
    capacity: int,
    description: string,
    startDate: string,
    endDate: string,
    venueId: Option<VenueId>)

  /** The roles the event handlers accept for managing events and attendance. */
  predicate ManagesEvents(role: string) {
    role == ORGANIZER || role == CO_HOST
  }

  /** `GroupMember.create` with `status` and `role` possibly left out:
      a column that is not supplied takes its declared default. */
  function NewGroupMember(userId: UserId, groupId: GroupId, status: Option<string>, role: Option<string>): (m: GroupMember)
    ensures m.userId == userId && m.groupId == groupId
    ensures status.None? ==> m.status == PENDING
    ensures role.None? ==> m.role == MEMBER
    ensures status.Some? ==> m.status == status.value
    ensures role.Some? ==> m.role == role.value
  {
    GroupMember(
      userId, groupId,
      match status case Some(s) => s case None => PENDING,
      match role case Some(r) => r case None => MEMBER)
  }

  /** `EventUser.create`: an omitted `status` takes its default. */
  function NewEventUser(userId: UserId, eventId: EventId, status: Option<string>): (a: EventUser)
    ensures a.userId == userId && a.eventId == eventId
    ensures status.None? ==> a.status == PENDING
    ensures status.Some? ==> a.status == status.value
  {
    EventUser(userId, eventId, match status case Some(s) => s case None => PENDING)
  }
}
