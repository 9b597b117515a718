/** The handlers of the events router (mounted under /groups/:groupId/events),
    as functions from the tables before a request to the answer and the
    tables after it. Routes without `requireAuth` take the caller as an
    Option: None is a request without a session, whose `req.user` is null.
    The file imports neither `Image`, `User` nor `Op`; reaching one of them
    is a Fault(UndefinedName). */
module EventRules {
  import opened Records
  import opened Store

  /** An existing attendance row in one of these statuses blocks a new request. */
  predicate BlocksRequest(status: string) {
    status == PENDING || status == ACCEPTED
  }

  /** GET /: the events whose `groupId` is the one in the URL; the group itself
      is not looked up, so an unknown group gives an empty answer. */
  function ListEvents(t: Tables, groupId: GroupId): (r: map<EventId, Event>)
    ensures forall e :: e in r <==> e in t.events && t.events[e].groupId == groupId
    ensures forall e :: e in r ==> r[e] == t.events[e]
  {
    map e | e in t.events && t.events[e].groupId == groupId :: t.events[e]
  }

  /** GET /:eventId: the event by id, or null; the group in the URL is not consulted. */
  function GetEvent(t: Tables, groupId: GroupId, eventId: EventId): (r: Option<Event>)
    ensures r.Some? <==> eventId in t.events
    ensures r.Some? ==> r.value == t.events[eventId]
  {
    if eventId in t.events then Some(t.events[eventId]) else None
  }

  /** POST /:eventId/images: the event, then the URL group, must exist; the
      caller needs a membership row (any status, any role) in the event's own
      group. Past those checks the handler calls `Image.create`, and `Image`
      is not imported: no image is ever stored. */
  function AddEventImage(t: Tables, caller: Option<UserId>, groupId: GroupId, eventId: EventId, url: string, preview: bool): (s: Step<Image>)
    ensures s.after == t && !s.out.Ok?
    ensures eventId !in t.events ==> s.out == NotFound
    ensures eventId in t.events && groupId !in t.groups ==> s.out == NotFound
    ensures eventId in t.events && groupId in t.groups && caller.None? ==> s.out == Fault(NullUser)
    ensures eventId in t.events && groupId in t.groups && caller.Some? ==>
            (s.out == Unauthorized <==> !HasMemberRow(t.members, caller.value, t.events[eventId].groupId))
    ensures eventId in t.events && groupId in t.groups && caller.Some? && s.out != Unauthorized ==>
            s.out == Fault(UndefinedName)
  {
    if eventId !in t.events then Step(NotFound, t)
    else if groupId !in t.groups then Step(NotFound, t)
    else if caller.None? then Step(Fault(NullUser), t)
    else if FindMember(t.members, caller.value, t.events[eventId].groupId).None? then Step(Unauthorized, t)
    else Step(Fault(UndefinedName), t)
  }

  /** An Event row after PUT /:eventId: the body overwrites every validated
      column; the group stays. `venueId` is not validated, and `update` skips
      a field whose value is undefined, so an absent venue id keeps the
      stored venue. */
  function Revised(e: Event, body: EventBody): (r: Event)
    ensures r == Event(e.groupId, if body.venueId.Some? then body.venueId else e.venueId,
                       body.capacity, body.name, body.kind, body.startDate, body.endDate, body.description)
  {
    var venue := match body.venueId case Some(_) => body.venueId case None => e.venueId;
    e.(venueId := venue, capacity := body.capacity, name := body.name, kind := body.kind,
       startDate := body.startDate, endDate := body.endDate, description := body.description)
  }

  /** PUT /:eventId: the event, then the URL group, must exist; the caller's
      row is looked up in the event's own group and its role must be
      organizer or co-host. A caller without that row faults on `.role`. */
  function EditEvent(t: Tables, caller: Option<UserId>, groupId: GroupId, eventId: EventId, body: EventBody): (s: Step<Event>)
    ensures !s.out.Ok? ==> s.after == t
    ensures eventId !in t.events ==> s.out == NotFound
    ensures eventId in t.events && groupId !in t.groups ==> s.out == NotFound
    ensures eventId in t.events && groupId in t.groups && caller.None? ==> s.out == Fault(NullUser)
    ensures eventId in t.events && groupId in t.groups && caller.Some?
            && !HasMemberRow(t.members, caller.value, t.events[eventId].groupId)
            ==> s.out == Fault(NullRecord)
    ensures s.out.Ok? <==>
            && eventId in t.events && groupId in t.groups && caller.Some?
            && var role := RoleOf(t.members, caller.value, t.events[eventId].groupId);
            && role.Some? && ManagesEvents(role.value)
    ensures eventId in t.events && groupId in t.groups && caller.Some?
            && RoleOf(t.members, caller.value, t.events[eventId].groupId).Some?
            && !ManagesEvents(RoleOf(t.members, caller.value, t.events[eventId].groupId).value)
            ==> s.out == Unauthorized
    ensures s.out.Ok? ==> s.out.value == Revised(t.events[eventId], body)
    ensures s.out.Ok? ==> s.after == t.(events := t.events[eventId := s.out.value])
    ensures t.Valid() ==> s.after.Valid()
  {
    if eventId !in t.events then Step(NotFound, t)
    else if groupId !in t.groups then Step(NotFound, t)
    else if caller.None? then Step(Fault(NullUser), t)
    else match RoleOf(t.members, caller.value, t.events[eventId].groupId)
      case None => Step(Fault(NullRecord), t)
      case Some(role) =>
        if !ManagesEvents(role) then Step(Unauthorized, t)
        else
          var event := Revised(t.events[eventId], body);
          Step(Ok(event), t.(events := t.events[eventId := event]))
  }

  /** DELETE /:eventId: the same checks as the edit; the event row goes and its
      attendance rows stay. The Images migration declares a foreign key to
      Events with no `onDelete` action, so `destroy` fails while an image of
      the event exists. */
  function DeleteEvent(t: Tables, caller: Option<UserId>, groupId: GroupId, eventId: EventId): (s: Step<()>)
    ensures !s.out.Ok? ==> s.after == t
    ensures eventId !in t.events ==> s.out == NotFound
    ensures eventId in t.events && groupId !in t.groups ==> s.out == NotFound
    ensures eventId in t.events && groupId in t.groups && caller.None? ==> s.out == Fault(NullUser)
    ensures eventId in t.events && groupId in t.groups && caller.Some?
            && !HasMemberRow(t.members, caller.value, t.events[eventId].groupId)
            ==> s.out == Fault(NullRecord)
    ensures eventId in t.events && groupId in t.groups && caller.Some?
            && RoleOf(t.members, caller.value, t.events[eventId].groupId).Some?
            && !ManagesEvents(RoleOf(t.members, caller.value, t.events[eventId].groupId).value)
            ==> s.out == Unauthorized
    ensures eventId in t.events && groupId in t.groups && caller.Some?
            && RoleOf(t.members, caller.value, t.events[eventId].groupId).Some?
            && ManagesEvents(RoleOf(t.members, caller.value, t.events[eventId].groupId).value)
            && EventHasImages(t.images, eventId)
            ==> s.out == Fault(ForeignKey)
    ensures s.out.Ok? <==>
            && eventId in t.events && groupId in t.groups && caller.Some?
            && var role := RoleOf(t.members, caller.value, t.events[eventId].groupId);
            && role.Some? && ManagesEvents(role.value)
            && !EventHasImages(t.images, eventId)
    ensures s.out.Ok? ==> s.after == t.(events := t.events - {eventId})
    ensures t.Valid() ==> s.after.Valid()
  {
    if eventId !in t.events then Step(NotFound, t)
    else if groupId !in t.groups then Step(NotFound, t)
    else if caller.None? then Step(Fault(NullUser), t)
    else match RoleOf(t.members, caller.value, t.events[eventId].groupId)
      case None => Step(Fault(NullRecord), t)
      case Some(role) =>
        if !ManagesEvents(role) then Step(Unauthorized, t)
        else if EventHasImages(t.images, eventId) then Step(Fault(ForeignKey), t)
        else Step(Ok(()), t.(events := t.events - {eventId}))
  }

  /** POST /: the URL group must exist and the caller's role in it must be
      organizer or co-host; the new event belongs to the URL group. The venue
      id is stored as given. */
  function CreateEvent(t: Tables, caller: UserId, groupId: GroupId, body: EventBody): (s: Step<(EventId, Event)>)
    ensures !s.out.Ok? ==> s.after == t
    ensures groupId !in t.groups ==> s.out == NotFound
    ensures groupId in t.groups && !HasMemberRow(t.members, caller, groupId) ==> s.out == Fault(NullRecord)
    ensures s.out.Ok? <==>
            && groupId in t.groups
            && RoleOf(t.members, caller, groupId).Some?
            && ManagesEvents(RoleOf(t.members, caller, groupId).value)
    ensures groupId in t.groups && RoleOf(t.members, caller, groupId).Some?
            && !ManagesEvents(RoleOf(t.members, caller, groupId).value)
            ==> s.out == Unauthorized
    ensures s.out.Ok? ==> s.out.value.0 == t.nextEventId
    ensures s.out.Ok? ==> s.out.value.1 == Event(groupId, body.venueId, body.capacity, body.name, body.kind,
                                                 body.startDate, body.endDate, body.description)
    ensures s.out.Ok? ==> s.after == t.(events := t.events[s.out.value.0 := s.out.value.1], nextEventId := t.nextEventId + 1)
    ensures s.out.Ok? && t.Valid() ==> s.out.value.0 !in t.events
    ensures t.Valid() ==> s.after.Valid()
  {
    if groupId !in t.groups then Step(NotFound, t)
    else match RoleOf(t.members, caller, groupId)
      case None => Step(Fault(NullRecord), t)
      case Some(role) =>
        if !ManagesEvents(role) then Step(Unauthorized, t)
        else
          var id := t.nextEventId;
          var event := Event(groupId, body.venueId, body.capacity, body.name, body.kind, body.startDate, body.endDate, body.description);
          Step(Ok((id, event)), t.(events := t.events[id := event], nextEventId := id + 1))
  }

  /** The rows the attendee list selects, as the two branches are written:
      a caller who is neither organizer nor co-host gets every row of the
      event, an organizer or co-host gets the rows not pending. */
  function AttendeeSelection(rows: seq<EventUser>, eventId: EventId, callerRole: string): (r: seq<EventUser>)
    ensures forall a :: a in r <==> a in rows && a.eventId == eventId && (ManagesEvents(callerRole) ==> a.status != PENDING)
    ensures forall a :: multiset(r)[a] ==
                        if a.eventId == eventId && (ManagesEvents(callerRole) ==> a.status != PENDING) then multiset(rows)[a] else 0
  {
    if !ManagesEvents(callerRole) then Filter(rows, (a: EventUser) => a.eventId == eventId)
    else Filter(rows, (a: EventUser) => a.eventId == eventId && a.status != PENDING)
  }

  /** GET /:eventId/attendees. A caller without a row in the URL group gets an
      error object built but not returned, and then faults on `.role`; a caller
      with a row reaches a query that names `User` and `Op` (not imported) and a
      response that names `attendees` outside the block declaring it. */
  function ListAttendees(t: Tables, caller: Option<UserId>, groupId: GroupId, eventId: EventId): (r: Outcome<seq<EventUser>>)
    ensures !r.Ok?
    ensures caller.None? ==> r == Fault(NullUser)
    ensures caller.Some? && eventId !in t.events ==> r == NotFound
    ensures caller.Some? && eventId in t.events && groupId !in t.groups ==> r == NotFound
    ensures caller.Some? && eventId in t.events && groupId in t.groups ==>
            r == (if HasMemberRow(t.members, caller.value, groupId) then Fault(UndefinedName) else Fault(NullRecord))
  {
    if caller.None? then Fault(NullUser)
    else
      var role := RoleOf(t.members, caller.value, groupId);
      if eventId !in t.events then NotFound
      else if groupId !in t.groups then NotFound
      else match role
        case None => Fault(NullRecord)
        case Some(r) =>
          var selected := AttendeeSelection(t.attendances, eventId, r);
          Fault(UndefinedName)
  }

  /** POST /:eventId/attendees: the event, then the URL group, must exist, and
      the caller needs a membership row in the URL group (any status, any role).
      The caller's first attendance row for the event blocks the request only
      when it is pending or accepted; otherwise one pending row is appended. */
  function RequestAttendance(t: Tables, caller: Option<UserId>, groupId: GroupId, eventId: EventId): (s: Step<EventUser>)
    ensures !s.out.Ok? ==> s.after == t
    ensures caller.None? ==> s.out == Fault(NullUser)
    ensures caller.Some? && eventId !in t.events ==> s.out == NotFound
    ensures caller.Some? && eventId in t.events && groupId !in t.groups ==> s.out == NotFound
    ensures s.out == Unauthorized <==>
            caller.Some? && eventId in t.events && groupId in t.groups && !HasMemberRow(t.members, caller.value, groupId)
    ensures caller.Some? && eventId in t.events && groupId in t.groups && HasMemberRow(t.members, caller.value, groupId)
            && FindAttendance(t.attendances, caller.value, eventId).Some?
            && BlocksRequest(t.attendances[FindAttendance(t.attendances, caller.value, eventId).value].status)
            ==> s.out == BadRequest
    ensures s.out.Ok? <==>
            && caller.Some? && eventId in t.events && groupId in t.groups
            && HasMemberRow(t.members, caller.value, groupId)
            && var k := FindAttendance(t.attendances, caller.value, eventId);
            && (k.None? || !BlocksRequest(t.attendances[k.value].status))
    ensures s.out.Ok? ==> s.out.value == EventUser(caller.value, eventId, PENDING)
    ensures s.out.Ok? ==> s.after == t.(attendances := t.attendances + [s.out.value])
    ensures t.Valid() ==> s.after.Valid()
  {
    if caller.None? then Step(Fault(NullUser), t)
    else if eventId !in t.events then Step(NotFound, t)
    else if groupId !in t.groups then Step(NotFound, t)
    else if FindMember(t.members, caller.value, groupId).None? then Step(Unauthorized, t)
    else
      var k := FindAttendance(t.attendances, caller.value, eventId);
      if k.Some? && t.attendances[k.value].status == PENDING then Step(BadRequest, t)
      else if k.Some? && t.attendances[k.value].status == ACCEPTED then Step(BadRequest, t)
      else
        var row := NewEventUser(caller.value, eventId, Some(PENDING));
        Step(Ok(row), t.(attendances := t.attendances + [row]))
  }

  /** PUT /:eventId/attendees: the event must exist; the value "pending" is
      refused before anything else is looked up; then the attendee's row, then
      the caller's role in the URL group (organizer or co-host). Any other
      string is written into the row's `status`. */
  function ChangeAttendance(t: Tables, caller: Option<UserId>, groupId: GroupId, eventId: EventId, attendeeId: UserId, status: string): (s: Step<EventUser>)
    ensures !s.out.Ok? ==> s.after == t
    ensures caller.None? ==> s.out == Fault(NullUser)
    ensures caller.Some? && eventId !in t.events ==> s.out == NotFound
    ensures caller.Some? && eventId in t.events && status == PENDING ==> s.out == BadRequest
    ensures caller.Some? && eventId in t.events && status != PENDING && !HasAttendanceRow(t.attendances, attendeeId, eventId)
            ==> s.out == NotFound
    ensures caller.Some? && eventId in t.events && status != PENDING && HasAttendanceRow(t.attendances, attendeeId, eventId)
            && !HasMemberRow(t.members, caller.value, groupId)
            ==> s.out == Fault(NullRecord)
    ensures caller.Some? && eventId in t.events && status != PENDING && HasAttendanceRow(t.attendances, attendeeId, eventId)
            && RoleOf(t.members, caller.value, groupId).Some?
            && !ManagesEvents(RoleOf(t.members, caller.value, groupId).value)
            ==> s.out == Unauthorized
    ensures s.out.Ok? <==>
            && caller.Some? && eventId in t.events && status != PENDING
            && HasAttendanceRow(t.attendances, attendeeId, eventId)
            && RoleOf(t.members, caller.value, groupId).Some?
            && ManagesEvents(RoleOf(t.members, caller.value, groupId).value)
    ensures s.out.Ok? ==>
            && FindAttendance(t.attendances, attendeeId, eventId).Some?
            && var k := FindAttendance(t.attendances, attendeeId, eventId).value;
            && s.out.value == EventUser(attendeeId, eventId, status)
            && s.after == t.(attendances := t.attendances[k := s.out.value])
    ensures t.Valid() ==> s.after.Valid()
  {
    if caller.None? then Step(Fault(NullUser), t)
    else if eventId !in t.events then Step(NotFound, t)
    else if status == PENDING then Step(BadRequest, t)
    else match FindAttendance(t.attendances, attendeeId, eventId)
      case None => Step(NotFound, t)
      case Some(k) =>
        match RoleOf(t.members, caller.value, groupId)
        case None => Step(Fault(NullRecord), t)
        case Some(role) =>
          if !ManagesEvents(role) then Step(Unauthorized, t)
          else
            var row := t.attendances[k].(status := status);
            Step(Ok(row), t.(attendances := t.attendances[k := row]))
  }

  /** DELETE /:eventId/attendees: the event, then the attendee's row, must
      exist; the caller's row in the URL group is read for its role before the
      "is it me" test can help, so a caller without one faults. Allowed to the
      attendee and to an organizer. */
  function RemoveAttendance(t: Tables, caller: Option<UserId>, groupId: GroupId, eventId: EventId, attendeeId: UserId): (s: Step<()>)
    ensures !s.out.Ok? ==> s.after == t
    ensures caller.None? ==> s.out == Fault(NullUser)
    ensures caller.Some? && eventId !in t.events ==> s.out == NotFound
    ensures caller.Some? && eventId in t.events && !HasAttendanceRow(t.attendances, attendeeId, eventId) ==> s.out == NotFound
    ensures caller.Some? && eventId in t.events && HasAttendanceRow(t.attendances, attendeeId, eventId)
            && !HasMemberRow(t.members, caller.value, groupId)
            ==> s.out == Fault(NullRecord)
    ensures caller.Some? && eventId in t.events && HasAttendanceRow(t.attendances, attendeeId, eventId)
            && RoleOf(t.members, caller.value, groupId).Some?
            && caller.value != attendeeId && RoleOf(t.members, caller.value, groupId).value != ORGANIZER
            ==> s.out == Unauthorized
    ensures s.out.Ok? <==>
            && caller.Some? && eventId in t.events
            && HasAttendanceRow(t.attendances, attendeeId, eventId)
            && HasMemberRow(t.members, caller.value, groupId)
            && (caller.value == attendeeId || RoleOf(t.members, caller.value, groupId) == Some(ORGANIZER))
    ensures s.out.Ok? ==>
            && FindAttendance(t.attendances, attendeeId, eventId).Some?
            && s.after == t.(attendances := RemoveAt(t.attendances, FindAttendance(t.attendances, attendeeId, eventId).value))
    ensures t.Valid() ==> s.after.Valid()
  {
    if caller.None? then Step(Fault(NullUser), t)
    else if eventId !in t.events then Step(NotFound, t)
    else match FindAttendance(t.attendances, attendeeId, eventId)
      case None => Step(NotFound, t)
      case Some(k) =>
        match RoleOf(t.members, caller.value, groupId)
        case None => Step(Fault(NullRecord), t)
        case Some(role) =>
          if caller.value != attendeeId && role != ORGANIZER then Step(Unauthorized, t)
          else Step(Ok(()), t.(attendances := RemoveAt(t.attendances, k)))
  }
}
