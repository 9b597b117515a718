/** The events router's handlers that write (or try to write) the database,
    as methods over it. Each checks, reads and writes in the handler's order
    and is proved to answer and leave the tables exactly as its rule in
    EventRules says. */
module EventRoutes {
  import opened Records
  import opened Store
  import opened Database
  import EventRules

  /** POST /:eventId/images. */
  method AddEventImage(db: Db, caller: Option<UserId>, groupId: GroupId, eventId: EventId, url: string, preview: bool)
    returns (r: Outcome<Image>)
    requires db.Valid()
    modifies db
    ensures db.Valid()
    ensures Step(r, db.Snapshot()) == EventRules.AddEventImage(old(db.Snapshot()), caller, groupId, eventId, url, preview)
  {
    if eventId !in db.events { return NotFound; }
    if groupId !in db.groups { return NotFound; }
    if caller.None? { return Fault(NullUser); }
    var own := FindMember(db.members, caller.value, db.events[eventId].groupId);
    if own.None? { return Unauthorized; }
    // `Image.create`: the name is not imported in this file
    r := Fault(UndefinedName);
  }

  /** PUT /:eventId. */
  method EditEvent(db: Db, caller: Option<UserId>, groupId: GroupId, eventId: EventId, body: EventBody)
    returns (r: Outcome<Event>)
    requires db.Valid()
    modifies db
    ensures db.Valid()
    ensures Step(r, db.Snapshot()) == EventRules.EditEvent(old(db.Snapshot()), caller, groupId, eventId, body)
  {
    if eventId !in db.events { return NotFound; }
    if groupId !in db.groups { return NotFound; }
    if caller.None? { return Fault(NullUser); }
    var event := db.events[eventId];
    var own := FindMember(db.members, caller.value, event.groupId);
    if own.None? { return Fault(NullRecord); }
    if !ManagesEvents(db.members[own.value].role) { return Unauthorized; }
    event := EventRules.Revised(event, body);
    db.events := db.events[eventId := event];
    r := Ok(event);
  }

  /** DELETE /:eventId. */
  method DeleteEvent(db: Db, caller: Option<UserId>, groupId: GroupId, eventId: EventId) returns (r: Outcome<()>)
    requires db.Valid()
    modifies db
    ensures db.Valid()
    ensures Step(r, db.Snapshot()) == EventRules.DeleteEvent(old(db.Snapshot()), caller, groupId, eventId)
  {
    if eventId !in db.events { return NotFound; }
    if groupId !in db.groups { return NotFound; }
    if caller.None? { return Fault(NullUser); }
    var own := FindMember(db.members, caller.value, db.events[eventId].groupId);
    if own.None? { return Fault(NullRecord); }
    if !ManagesEvents(db.members[own.value].role) { return Unauthorized; }
    if EventHasImages(db.images, eventId) { return Fault(ForeignKey); }
    db.events := db.events - {eventId};
    r := Ok(());
  }

  /** POST /. */
  method CreateEvent(db: Db, caller: UserId, groupId: GroupId, body: EventBody) returns (r: Outcome<(EventId, Event)>)
    requires db.Valid()
    modifies db
    ensures db.Valid()
    ensures Step(r, db.Snapshot()) == EventRules.CreateEvent(old(db.Snapshot()), caller, groupId, body)
  {
    if groupId !in db.groups { return NotFound; }
    var own := FindMember(db.members, caller, groupId);
    if own.None? { return Fault(NullRecord); }
    if !ManagesEvents(db.members[own.value].role) { return Unauthorized; }
    var id := db.nextEventId;
    var event := Event(groupId, body.venueId, body.capacity, body.name, body.kind, body.startDate, body.endDate, body.description);
    db.events := db.events[id := event];
    db.nextEventId := id + 1;
    r := Ok((id, event));
  }

  /** POST /:eventId/attendees. */
  method RequestAttendance(db: Db, caller: Option<UserId>, groupId: GroupId, eventId: EventId) returns (r: Outcome<EventUser>)
    requires db.Valid()
    modifies db
    ensures db.Valid()
    ensures Step(r, db.Snapshot()) == EventRules.RequestAttendance(old(db.Snapshot()), caller, groupId, eventId)
  {
    if caller.None? { return Fault(NullUser); }
    var userId := caller.value;
    if eventId !in db.events { return NotFound; }
    if groupId !in db.groups { return NotFound; }
    var own := FindMember(db.members, userId, groupId);
    if own.None? { return Unauthorized; }
    var existing := FindAttendance(db.attendances, userId, eventId);
    if existing.Some? && db.attendances[existing.value].status == PENDING { return BadRequest; }
    if existing.Some? && db.attendances[existing.value].status == ACCEPTED { return BadRequest; }
    var row := NewEventUser(userId, eventId, Some(PENDING));
    db.attendances := db.attendances + [row];
    r := Ok(row);
  }

  /** PUT /:eventId/attendees. */
  method ChangeAttendance(db: Db, caller: Option<UserId>, groupId: GroupId, eventId: EventId, attendeeId: UserId, status: string)
    returns (r: Outcome<EventUser>)
    requires db.Valid()
    modifies db
    ensures db.Valid()
    ensures Step(r, db.Snapshot()) == EventRules.ChangeAttendance(old(db.Snapshot()), caller, groupId, eventId, attendeeId, status)
  {
    if caller.None? { return Fault(NullUser); }
    if eventId !in db.events { return NotFound; }
    if status == PENDING { return BadRequest; }
    var attendance := FindAttendance(db.attendances, attendeeId, eventId);
    if attendance.None? { return NotFound; }
    var own := FindMember(db.members, caller.value, groupId);
    if own.None? { return Fault(NullRecord); }
    if !ManagesEvents(db.members[own.value].role) { return Unauthorized; }
    var row := db.attendances[attendance.value].(status := status);
    db.attendances := db.attendances[attendance.value := row];
    r := Ok(row);
  }

  /** DELETE /:eventId/attendees. */
  method RemoveAttendance(db: Db, caller: Option<UserId>, groupId: GroupId, eventId: EventId, attendeeId: UserId)
    returns (r: Outcome<()>)
    requires db.Valid()
    modifies db
    ensures db.Valid()
    ensures Step(r, db.Snapshot()) == EventRules.RemoveAttendance(old(db.Snapshot()), caller, groupId, eventId, attendeeId)
  {
    if caller.None? { return Fault(NullUser); }
    var userId := caller.value;
    if eventId !in db.events { return NotFound; }
    var attendance := FindAttendance(db.attendances, attendeeId, eventId);
    if attendance.None? { return NotFound; }
    var own := FindMember(db.members, userId, groupId);
    var isUser := userId == attendeeId;
    if own.None? { return Fault(NullRecord); }
    var isOrganizer := db.members[own.value].role == ORGANIZER;
    if !isUser && !isOrganizer { return Unauthorized; }
    db.attendances := RemoveAt(db.attendances, attendance.value);
    r := Ok(());
  }
}
