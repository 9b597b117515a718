/** The handlers whose code departs from what its own names and messages say
    it means, rewritten to do that, with the intended property proved about
    each rewrite. The as-written rules stay in GroupRules and EventRules. */
module Corrections {
  import opened Records
  import opened Store
  import GroupRules
  import EventRules
  import Lifecycle

  /** PUT /groups/:id with the caller's row looked up in the group being
      updated. */
  function UpdateGroup(t: Tables, caller: UserId, groupId: GroupId, body: GroupBody): (s: Step<Group>)
    ensures !s.out.Ok? ==> s.after == t
    ensures RoleOf(t.members, caller, groupId).None? ==> s.out == Fault(NullRecord)
    ensures RoleOf(t.members, caller, groupId).Some? && RoleOf(t.members, caller, groupId).value != ORGANIZER
            ==> s.out == Unauthorized
    ensures RoleOf(t.members, caller, groupId) == Some(ORGANIZER) && groupId !in t.groups ==> s.out == Fault(NullRecord)
    ensures s.out.Ok? <==> groupId in t.groups && RoleOf(t.members, caller, groupId) == Some(ORGANIZER)
    ensures s.out.Ok? ==> s.out.value == GroupRules.Revised(t.groups[groupId], body)
    ensures s.out.Ok? ==> s.after == t.(groups := t.groups[groupId := s.out.value])
  {
    match RoleOf(t.members, caller, groupId)
    case None => Step(Fault(NullRecord), t)
    case Some(role) =>
      if role != ORGANIZER then Step(Unauthorized, t)
      else if groupId !in t.groups then Step(Fault(NullRecord), t)
      else
        var group := GroupRules.Revised(t.groups[groupId], body);
        Step(Ok(group), t.(groups := t.groups[groupId := group]))
  }

  /** On the tables where the written lookup lets user 1 update group 2, the
      corrected handler refuses: user 1 has no row in group 2. */
  lemma UpdateGroupWrongKeyClosed(body: GroupBody)
    ensures GroupRules.UpdateGroup(Lifecycle.WrongKeyTables(), 1, 2, body).out.Ok?
    ensures UpdateGroup(Lifecycle.WrongKeyTables(), 1, 2, body).out == Fault(NullRecord)
  {
    Lifecycle.UpdateGroupWrongKeyWitness(body);
  }

  /** PUT /groups/:id/members with the privilege test the right way round:
      organizers and co-hosts decide, only an organizer grants "co-host", and
      granting it writes the role column. Only those two defects are
      corrected: an organizer can still make a pending member co-host in one
      step, although the API description asks for an accepted member first. */
  function UpdateMembership(t: Tables, caller: UserId, groupId: GroupId, memberId: UserId, status: string): (s: Step<GroupMember>)
    ensures !s.out.Ok? ==> s.after == t
    ensures s.out.Ok? <==>
            && groupId in t.groups
            && HasMemberRow(t.members, memberId, groupId)
            && RoleOf(t.members, caller, groupId).Some?
            && ManagesEvents(RoleOf(t.members, caller, groupId).value)
            && (status == CO_HOST ==> RoleOf(t.members, caller, groupId).value == ORGANIZER)
    ensures s.out.Ok? ==>
            && FindMember(t.members, memberId, groupId).Some?
            && var k := FindMember(t.members, memberId, groupId).value;
            && s.after == t.(members := t.members[k := s.out.value])
            && s.out.value.userId == memberId && s.out.value.groupId == groupId
            && (status == CO_HOST ==> s.out.value == t.members[k].(role := CO_HOST))
            && (status != CO_HOST ==> s.out.value == t.members[k].(status := status))
  {
    if groupId !in t.groups then Step(NotFound, t)
    else match FindMember(t.members, memberId, groupId)
      case None => Step(NotFound, t)
      case Some(k) =>
        match RoleOf(t.members, caller, groupId)
        case None => Step(Fault(NullRecord), t)
        case Some(role) =>
          if status == CO_HOST && role != ORGANIZER then Step(Unauthorized, t)
          else if !ManagesEvents(role) then Step(Unauthorized, t)
          else
            var row := if status == CO_HOST then t.members[k].(role := CO_HOST) else t.members[k].(status := status);
            Step(Ok(row), t.(members := t.members[k := row]))
  }

  /** A caller holding a plain role cannot change any membership, their own
      included. */
  lemma PlainMemberCannotApprove(t: Tables, caller: UserId, groupId: GroupId, memberId: UserId, status: string)
    requires RoleOf(t.members, caller, groupId) == Some(MEMBER)
    ensures !UpdateMembership(t, caller, groupId, memberId, status).out.Ok?
  {
  }

  /** A member promoted to co-host by the corrected handler passes the role
      test of the event handlers in that group. */
  lemma PromotionGrantsEventRights(t: Tables, caller: UserId, groupId: GroupId, memberId: UserId, body: EventBody)
    requires UpdateMembership(t, caller, groupId, memberId, CO_HOST).out.Ok?
    ensures var t' := UpdateMembership(t, caller, groupId, memberId, CO_HOST).after;
            && RoleOf(t'.members, memberId, groupId) == Some(CO_HOST)
            && EventRules.CreateEvent(t', memberId, groupId, body).out.Ok?
  {
    var s := UpdateMembership(t, caller, groupId, memberId, CO_HOST);
    var k := FindMember(t.members, memberId, groupId).value;
    var rows := s.after.members;
    assert IsMemberRow(rows[k], memberId, groupId);
    var j := FindMember(rows, memberId, groupId).value;
    assert j == k;
  }

  /** POST /:eventId/attendees where any existing row for the pair, whatever
      its status, refuses the request. */
  function RequestAttendance(t: Tables, caller: Option<UserId>, groupId: GroupId, eventId: EventId): (s: Step<EventUser>)
    ensures !s.out.Ok? ==> s.after == t
    ensures s.out.Ok? <==>
            && caller.Some? && eventId in t.events && groupId in t.groups
            && HasMemberRow(t.members, caller.value, groupId)
            && !HasAttendanceRow(t.attendances, caller.value, eventId)
    ensures s.out.Ok? ==> s.after == t.(attendances := t.attendances + [EventUser(caller.value, eventId, PENDING)])
  {
    if caller.None? then Step(Fault(NullUser), t)
    else if eventId !in t.events then Step(NotFound, t)
    else if groupId !in t.groups then Step(NotFound, t)
    else if FindMember(t.members, caller.value, groupId).None? then Step(Unauthorized, t)
    else if FindAttendance(t.attendances, caller.value, eventId).Some? then Step(BadRequest, t)
    else
      var row := NewEventUser(caller.value, eventId, Some(PENDING));
      Step(Ok(row), t.(attendances := t.attendances + [row]))
  }

  /** The corrected request keeps one attendance row per (user, event) pair. */
  lemma RequestAttendanceKeepsUnique(t: Tables, caller: Option<UserId>, groupId: GroupId, eventId: EventId)
    requires UniqueAttendances(t.attendances)
    ensures UniqueAttendances(RequestAttendance(t, caller, groupId, eventId).after.attendances)
  {
    var s := RequestAttendance(t, caller, groupId, eventId);
    if s.out.Ok? {
      var rows := s.after.attendances;
      forall i, j | 0 <= i < j < |rows|
        ensures !IsAttendanceRow(rows[j], rows[i].userId, rows[i].eventId)
      {
        if j == |t.attendances| {
          assert rows[i] == t.attendances[i];
          assert !IsAttendanceRow(t.attendances[i], caller.value, eventId);
        }
      }
    }
  }

  /** The attendee selection the right way round, as the groups router's
      member list does it: organizers and co-hosts see every row of the
      event, everyone else the rows that are not pending. */
  function AttendeeSelection(rows: seq<EventUser>, eventId: EventId, callerRole: string): (r: seq<EventUser>)
    ensures forall a :: a in r <==> a in rows && a.eventId == eventId && (!ManagesEvents(callerRole) ==> a.status != PENDING)
    ensures forall a :: multiset(r)[a] ==
                        if a.eventId == eventId && (!ManagesEvents(callerRole) ==> a.status != PENDING) then multiset(rows)[a] else 0
  {
    if ManagesEvents(callerRole) then Filter(rows, (a: EventUser) => a.eventId == eventId)
    else Filter(rows, (a: EventUser) => a.eventId == eventId && a.status != PENDING)
  }

  /** A plain member never sees a pending request, which the written
      selection shows them. */
  lemma PendingHiddenFromPlainMembers(rows: seq<EventUser>, eventId: EventId, a: EventUser)
    requires a in rows && a.eventId == eventId && a.status == PENDING
    ensures a !in AttendeeSelection(rows, eventId, MEMBER)
    ensures a in EventRules.AttendeeSelection(rows, eventId, MEMBER)
  {
  }

  /** POST /:eventId/images with `Image` in scope: the row is stored with the
      event id and the URL group id. */
  function AddEventImage(t: Tables, caller: Option<UserId>, groupId: GroupId, eventId: EventId, url: string, preview: bool): (s: Step<Image>)
    ensures !s.out.Ok? ==> s.after == t
    ensures s.out.Ok? <==>
            && eventId in t.events && groupId in t.groups && caller.Some?
            && HasMemberRow(t.members, caller.value, t.events[eventId].groupId)
    ensures s.out.Ok? ==> s.out.value == Image(url, preview, Some(groupId), Some(eventId), None)
    ensures s.out.Ok? ==> s.after == t.(images := t.images + [s.out.value])
  {
    if eventId !in t.events then Step(NotFound, t)
    else if groupId !in t.groups then Step(NotFound, t)
    else if caller.None? then Step(Fault(NullUser), t)
    else if FindMember(t.members, caller.value, t.events[eventId].groupId).None? then Step(Unauthorized, t)
    else
      var image := Image(url, preview, Some(groupId), Some(eventId), None);
      Step(Ok(image), t.(images := t.images + [image]))
  }

  /** Where the written handler faults after its checks, the corrected one
      stores the image; every other answer is the same. */
  lemma AddEventImageDiffersOnlyPastChecks(t: Tables, caller: Option<UserId>, groupId: GroupId, eventId: EventId, url: string, preview: bool)
    ensures var written := EventRules.AddEventImage(t, caller, groupId, eventId, url, preview);
            var fixed := AddEventImage(t, caller, groupId, eventId, url, preview);
            && (written.out == Fault(UndefinedName) <==> fixed.out.Ok?)
            && (!fixed.out.Ok? ==> fixed == written)
  {
  }
}
