/** Every state-changing request of both routers as one datatype, the tables
    after a sequence of requests, and what holds of every table the handlers
    can reach, or fails to hold in one of them. */
module Lifecycle {
  import opened Records
  import opened Store
  import GroupRules
  import EventRules

  datatype Request =
    | CreateGroup(caller: UserId, groupBody: GroupBody)
    | UpdateGroup(caller: UserId, groupId: GroupId, groupBody: GroupBody)
    | DeleteGroup(caller: UserId, groupId: GroupId)
    | AddGroupImage(caller: UserId, groupId: GroupId, url: string, preview: bool)
    | RequestMembership(caller: UserId, groupId: GroupId)
    | UpdateMembership(caller: UserId, groupId: GroupId, memberId: UserId, status: string)
    | RemoveMembership(caller: UserId, groupId: GroupId, memberId: UserId)
    | CreateEvent(caller: UserId, groupId: GroupId, eventBody: EventBody)
    | EditEvent(session: Option<UserId>, groupId: GroupId, eventId: EventId, eventBody: EventBody)
    | DeleteEvent(session: Option<UserId>, groupId: GroupId, eventId: EventId)
    | AddEventImage(session: Option<UserId>, groupId: GroupId, eventId: EventId, url: string, preview: bool)
    | RequestAttendance(session: Option<UserId>, groupId: GroupId, eventId: EventId)
    | ChangeAttendance(session: Option<UserId>, groupId: GroupId, eventId: EventId, attendeeId: UserId, status: string)
    | RemoveAttendance(session: Option<UserId>, groupId: GroupId, eventId: EventId, attendeeId: UserId)

  /** The tables after one request. */
  function Apply(t: Tables, req: Request): Tables {
    match req
    case CreateGroup(c, b) => GroupRules.CreateGroup(t, c, b).after
    case UpdateGroup(c, g, b) => GroupRules.UpdateGroup(t, c, g, b).after
    case DeleteGroup(c, g) => GroupRules.DeleteGroup(t, c, g).after
    case AddGroupImage(c, g, u, p) => GroupRules.AddGroupImage(t, c, g, u, p).after
    case RequestMembership(c, g) => GroupRules.RequestMembership(t, c, g).after
    case UpdateMembership(c, g, m, st) => GroupRules.UpdateMembership(t, c, g, m, st).after
    case RemoveMembership(c, g, m) => GroupRules.RemoveMembership(t, c, g, m).after
    case CreateEvent(c, g, b) => EventRules.CreateEvent(t, c, g, b).after
    case EditEvent(c, g, e, b) => EventRules.EditEvent(t, c, g, e, b).after
    case DeleteEvent(c, g, e) => EventRules.DeleteEvent(t, c, g, e).after
    case AddEventImage(c, g, e, u, p) => EventRules.AddEventImage(t, c, g, e, u, p).after
    case RequestAttendance(c, g, e) => EventRules.RequestAttendance(t, c, g, e).after
    case ChangeAttendance(c, g, e, a, st) => EventRules.ChangeAttendance(t, c, g, e, a, st).after
    case RemoveAttendance(c, g, e, a) => EventRules.RemoveAttendance(t, c, g, e, a).after
  }

  /** Whether the handler answers with success. */
  predicate Succeeds(t: Tables, req: Request) {
    match req
    case CreateGroup(c, b) => GroupRules.CreateGroup(t, c, b).out.Ok?
    case UpdateGroup(c, g, b) => GroupRules.UpdateGroup(t, c, g, b).out.Ok?
    case DeleteGroup(c, g) => GroupRules.DeleteGroup(t, c, g).out.Ok?
    case AddGroupImage(c, g, u, p) => GroupRules.AddGroupImage(t, c, g, u, p).out.Ok?
    case RequestMembership(c, g) => GroupRules.RequestMembership(t, c, g).out.Ok?
    case UpdateMembership(c, g, m, st) => GroupRules.UpdateMembership(t, c, g, m, st).out.Ok?
    case RemoveMembership(c, g, m) => GroupRules.RemoveMembership(t, c, g, m).out.Ok?
    case CreateEvent(c, g, b) => EventRules.CreateEvent(t, c, g, b).out.Ok?
    case EditEvent(c, g, e, b) => EventRules.EditEvent(t, c, g, e, b).out.Ok?
    case DeleteEvent(c, g, e) => EventRules.DeleteEvent(t, c, g, e).out.Ok?
    case AddEventImage(c, g, e, u, p) => EventRules.AddEventImage(t, c, g, e, u, p).out.Ok?
    case RequestAttendance(c, g, e) => EventRules.RequestAttendance(t, c, g, e).out.Ok?
    case ChangeAttendance(c, g, e, a, st) => EventRules.ChangeAttendance(t, c, g, e, a, st).out.Ok?
    case RemoveAttendance(c, g, e, a) => EventRules.RemoveAttendance(t, c, g, e, a).out.Ok?
  }

  /** The tables after a sequence of requests, handled one at a time. */
  function Run(t: Tables, reqs: seq<Request>): Tables
    decreases |reqs|
  {
    if |reqs| == 0 then t else Run(Apply(t, reqs[0]), reqs[1..])
  }

  /** Every handler is all-or-nothing: a request that does not succeed leaves
      every table as it was, and the id counters stay ahead of the ids in use. */
  lemma ApplyIsAllOrNothing(t: Tables, req: Request)
    ensures !Succeeds(t, req) ==> Apply(t, req) == t
    ensures t.Valid() ==> Apply(t, req).Valid()
  {
  }

  lemma {:induction false} RunKeepsValid(t: Tables, reqs: seq<Request>)
    requires t.Valid()
    ensures Run(t, reqs).Valid()
    decreases |reqs|
  {
    if |reqs| > 0 {
      ApplyIsAllOrNothing(t, reqs[0]);
      RunKeepsValid(Apply(t, reqs[0]), reqs[1..]);
    }
  }

  // ---------------------------------------------------------------------
  // Images: the foreign keys of the Images table to Groups and Events are
  // enforced on insert and on delete, so no image ever names a missing row.

  ghost predicate ImagesLinked(t: Tables) {
    forall i :: 0 <= i < |t.images| ==>
      && (t.images[i].groupId.Some? ==> t.images[i].groupId.value in t.groups)
      && (t.images[i].eventId.Some? ==> t.images[i].eventId.value in t.events)
  }

  lemma ApplyKeepsImagesLinked(t: Tables, req: Request)
    requires ImagesLinked(t)
    ensures ImagesLinked(Apply(t, req))
  {
  }

  lemma {:induction false} RunKeepsImagesLinked(t: Tables, reqs: seq<Request>)
    requires ImagesLinked(t)
    ensures ImagesLinked(Run(t, reqs))
    decreases |reqs|
  {
    if |reqs| > 0 {
      ApplyKeepsImagesLinked(t, reqs[0]);
      RunKeepsImagesLinked(Apply(t, reqs[0]), reqs[1..]);
    }
  }

  // ---------------------------------------------------------------------
  // Roles: only "member" (the column default) and "organizer" (group
  // creation) are ever written into `role`.

  ghost predicate RolesAsWritten(t: Tables) {
    forall i :: 0 <= i < |t.members| ==> t.members[i].role == MEMBER || t.members[i].role == ORGANIZER
  }

  lemma ApplyKeepsRolesAsWritten(t: Tables, req: Request)
    requires RolesAsWritten(t)
    ensures RolesAsWritten(Apply(t, req))
  {
    if req.UpdateMembership? {
      var s := GroupRules.UpdateMembership(t, req.caller, req.groupId, req.memberId, req.status);
      if s.out.Ok? {
        var k := FindMember(t.members, req.memberId, req.groupId).value;
        assert forall i :: 0 <= i < |s.after.members| ==> s.after.members[i].role == t.members[i].role;
      }
    }
  }

  lemma {:induction false} RunKeepsRolesAsWritten(t: Tables, reqs: seq<Request>)
    requires RolesAsWritten(t)
    ensures RolesAsWritten(Run(t, reqs))
    decreases |reqs|
  {
    if |reqs| > 0 {
      ApplyKeepsRolesAsWritten(t, reqs[0]);
      RunKeepsRolesAsWritten(Apply(t, reqs[0]), reqs[1..]);
    }
  }

  /** Promotion writes "co-host" into `status`, so from tables whose roles are
      as the handlers write them, no request sequence yields a co-host role. */
  lemma {:induction false} NoCoHostAfterRun(t: Tables, reqs: seq<Request>)
    requires RolesAsWritten(t)
    ensures forall i :: 0 <= i < |Run(t, reqs).members| ==> Run(t, reqs).members[i].role != CO_HOST
  {
    RunKeepsRolesAsWritten(t, reqs);
  }

  /** Consequently the "organizer or co-host" test of the event handlers only
      ever admits organizers. */
  lemma {:induction false} OnlyOrganizersCreateEvents(t: Tables, reqs: seq<Request>, caller: UserId, groupId: GroupId, body: EventBody)
    requires RolesAsWritten(t)
    ensures var t' := Run(t, reqs);
            EventRules.CreateEvent(t', caller, groupId, body).out.Ok? ==> RoleOf(t'.members, caller, groupId) == Some(ORGANIZER)
  {
    RunKeepsRolesAsWritten(t, reqs);
  }

  /** A refused join request always says "User is already a member of the
      group": the row it finds never has role "pending". */
  lemma RefusedJoinSaysAlreadyMember(t: Tables, caller: UserId, groupId: GroupId)
    requires RolesAsWritten(t)
    requires groupId in t.groups && HasMemberRow(t.members, caller, groupId)
    ensures GroupRules.RequestMembership(t, caller, groupId).out == BadRequest
    ensures GroupRules.DuplicateReason(t.members[FindMember(t.members, caller, groupId).value]) == GroupRules.AlreadyMember
  {
  }

  // ---------------------------------------------------------------------
  // Membership rows: the handlers never create a second row for a pair.

  lemma AppendKeepsUniqueMembers(rows: seq<GroupMember>, m: GroupMember)
    requires UniqueMembers(rows)
    requires !HasMemberRow(rows, m.userId, m.groupId)
    ensures UniqueMembers(rows + [m])
  {
    var rows' := rows + [m];
    forall i, j | 0 <= i < j < |rows'|
      ensures !IsMemberRow(rows'[j], rows'[i].userId, rows'[i].groupId)
    {
      if j == |rows| {
        assert rows'[i] == rows[i];
        assert !IsMemberRow(rows[i], m.userId, m.groupId);
      }
    }
  }

  lemma RemoveKeepsUniqueMembers(rows: seq<GroupMember>, k: nat)
    requires k < |rows| && UniqueMembers(rows)
    ensures UniqueMembers(RemoveAt(rows, k))
  {
    var rows' := RemoveAt(rows, k);
    forall i, j | 0 <= i < j < |rows'|
      ensures !IsMemberRow(rows'[j], rows'[i].userId, rows'[i].groupId)
    {
      var i0 := if i < k then i else i + 1;
      var j0 := if j < k then j else j + 1;
      assert rows'[i] == rows[i0] && rows'[j] == rows[j0] && i0 < j0;
    }
  }

  lemma ApplyKeepsUniqueMembers(t: Tables, req: Request)
    requires t.Valid() && UniqueMembers(t.members)
    ensures UniqueMembers(Apply(t, req).members)
  {
    match req
    case CreateGroup(c, b) =>
      var s := GroupRules.CreateGroup(t, c, b);
      AppendKeepsUniqueMembers(t.members, GroupMember(c, s.out.value.0, PENDING, ORGANIZER));
    case RequestMembership(c, g) =>
      var s := GroupRules.RequestMembership(t, c, g);
      if s.out.Ok? {
        AppendKeepsUniqueMembers(t.members, s.out.value);
      }
    case UpdateMembership(c, g, m, st) =>
      var s := GroupRules.UpdateMembership(t, c, g, m, st);
      if s.out.Ok? {
        assert forall i :: 0 <= i < |t.members| ==>
          s.after.members[i].userId == t.members[i].userId && s.after.members[i].groupId == t.members[i].groupId;
      }
    case RemoveMembership(c, g, m) =>
      var s := GroupRules.RemoveMembership(t, c, g, m);
      if s.out.Ok? {
        RemoveKeepsUniqueMembers(t.members, FindMember(t.members, m, g).value);
      }
    case _ =>
  }

  /** From valid tables with one row per pair, every request sequence keeps
      one row per (userId, groupId) pair. */
  lemma {:induction false} RunKeepsUniqueMembers(t: Tables, reqs: seq<Request>)
    requires t.Valid() && UniqueMembers(t.members)
    ensures UniqueMembers(Run(t, reqs).members)
    decreases |reqs|
  {
    if |reqs| > 0 {
      ApplyIsAllOrNothing(t, reqs[0]);
      ApplyKeepsUniqueMembers(t, reqs[0]);
      RunKeepsUniqueMembers(Apply(t, reqs[0]), reqs[1..]);
    }
  }

  /** A join request that succeeded cannot succeed again: the second one finds
      the row the first one wrote. */
  lemma SecondJoinRequestRefused(t: Tables, caller: UserId, groupId: GroupId)
    requires GroupRules.RequestMembership(t, caller, groupId).out.Ok?
    ensures var t' := GroupRules.RequestMembership(t, caller, groupId).after;
            GroupRules.RequestMembership(t', caller, groupId).out == BadRequest
  {
    var t' := GroupRules.RequestMembership(t, caller, groupId).after;
    assert IsMemberRow(t'.members[|t.members|], caller, groupId);
  }

  /** The organizer may delete their own membership row; with one row per
      pair the group then has no row for its recorded organizer. */
  lemma OrganizerCanRemoveOwnRow(t: Tables, caller: UserId, groupId: GroupId)
    requires UniqueMembers(t.members)
    requires groupId in t.groups && t.groups[groupId].organizerId == caller
    requires RoleOf(t.members, caller, groupId) == Some(ORGANIZER)
    ensures var s := GroupRules.RemoveMembership(t, caller, groupId, caller);
            && s.out.Ok?
            && s.after.groups[groupId].organizerId == caller
            && !HasMemberRow(s.after.members, caller, groupId)
  {
    var s := GroupRules.RemoveMembership(t, caller, groupId, caller);
    var k := FindMember(t.members, caller, groupId).value;
    forall j | 0 <= j < |s.after.members|
      ensures !IsMemberRow(s.after.members[j], caller, groupId)
    {
      var j0 := if j < k then j else j + 1;
      assert s.after.members[j] == t.members[j0] && j0 != k;
      if j0 < k {
        assert !IsMemberRow(t.members[k], t.members[j0].userId, t.members[j0].groupId);
      }
    }
  }

  // ---------------------------------------------------------------------
  // Membership updates as written (the role test is inverted).

  /** An organizer setting any value but "co-host" is refused. */
  lemma OrganizerCannotApprove(t: Tables, caller: UserId, groupId: GroupId, memberId: UserId, status: string)
    requires groupId in t.groups && HasMemberRow(t.members, memberId, groupId)
    requires RoleOf(t.members, caller, groupId) == Some(ORGANIZER) && status != CO_HOST
    ensures GroupRules.UpdateMembership(t, caller, groupId, memberId, status).out == Unauthorized
  {
  }

  /** A caller with a plain role (a pending requester has one) may set any
      value but "co-host" on their own row, approving themselves. */
  lemma RequesterCanApproveSelf(t: Tables, caller: UserId, groupId: GroupId, status: string)
    requires groupId in t.groups && RoleOf(t.members, caller, groupId) == Some(MEMBER) && status != CO_HOST
    ensures var s := GroupRules.UpdateMembership(t, caller, groupId, caller, status);
            s.out.Ok? && s.out.value.userId == caller && s.out.value.groupId == groupId && s.out.value.status == status
  {
  }

  // ---------------------------------------------------------------------
  // Group update as written: the lookup is keyed by the caller's user id.

  function WrongKeyTables(): Tables {
    var g1 := Group(1, "one", None, "Online", false, "city", "ST", "one.png");
    var g2 := Group(2, "two", None, "Online", false, "city", "ST", "two.png");
    Tables(map[1 := g1, 2 := g2], map[], [GroupMember(1, 1, PENDING, ORGANIZER), GroupMember(2, 2, PENDING, ORGANIZER)], [], [], 3, 1)
  }

  /** User 1 organizes group 1 and has no row in group 2, yet updates group 2,
      which user 2 organizes. */
  lemma UpdateGroupWrongKeyWitness(body: GroupBody)
    ensures var t := WrongKeyTables();
            && t.Valid()
            && t.groups[2].organizerId == 2
            && !HasMemberRow(t.members, 1, 2)
            && GroupRules.UpdateGroup(t, 1, 2, body).out.Ok?
  {
    var t := WrongKeyTables();
    assert FindMember(t.members, 1, 1) == Some(0);
  }

  // ---------------------------------------------------------------------
  // Attendance rows: a request is blocked only by a pending or accepted row.

  /** When the caller's attendance row has any other status (say, one set by
      the status-change handler), a new request adds a second row for the pair. */
  lemma RerequestDuplicatesAttendance(t: Tables, caller: UserId, groupId: GroupId, eventId: EventId)
    requires eventId in t.events && groupId in t.groups && HasMemberRow(t.members, caller, groupId)
    requires HasAttendanceRow(t.attendances, caller, eventId)
    requires !EventRules.BlocksRequest(t.attendances[FindAttendance(t.attendances, caller, eventId).value].status)
    ensures var s := EventRules.RequestAttendance(t, Some(caller), groupId, eventId);
            s.out.Ok? && !UniqueAttendances(s.after.attendances)
  {
    var s := EventRules.RequestAttendance(t, Some(caller), groupId, eventId);
    var k := FindAttendance(t.attendances, caller, eventId).value;
    var n := |t.attendances|;
    assert s.after.attendances[k] == t.attendances[k];
    assert IsAttendanceRow(s.after.attendances[n], s.after.attendances[k].userId, s.after.attendances[k].eventId);
  }

  const Walkers := Group(1, "walkers", None, "In person", false, "city", "ST", "w.png")
  const Walk := Event(1, None, 10, "walk", "In person", "2023-03-01", "2023-03-01", "a walk")
  const WalkersRows := [GroupMember(1, 1, PENDING, ORGANIZER), GroupMember(2, 1, ACCEPTED, MEMBER)]

  /** Group 1, organized by user 1, with accepted member 2 and event 1. */
  function AttendanceTables(attendances: seq<EventUser>): Tables {
    Tables(map[1 := Walkers], map[1 := Walk], WalkersRows, attendances, [], 2, 2)
  }

  lemma AttendanceStepRequest()
    ensures var s := EventRules.RequestAttendance(AttendanceTables([]), Some(2), 1, 1);
            s.out.Ok? && s.after == AttendanceTables([EventUser(2, 1, PENDING)])
  {
    var t := AttendanceTables([]);
    assert IsMemberRow(t.members[1], 2, 1);
  }

  lemma AttendanceStepReject()
    ensures var s := EventRules.ChangeAttendance(AttendanceTables([EventUser(2, 1, PENDING)]), Some(1), 1, 1, 2, "rejected");
            s.out.Ok? && s.after == AttendanceTables([EventUser(2, 1, "rejected")])
  {
    var t := AttendanceTables([EventUser(2, 1, PENDING)]);
    assert IsMemberRow(t.members[0], 1, 1);
    assert IsAttendanceRow(t.attendances[0], 2, 1);
  }

  lemma AttendanceStepRerequest()
    ensures var s := EventRules.RequestAttendance(AttendanceTables([EventUser(2, 1, "rejected")]), Some(2), 1, 1);
            s.out.Ok? && s.after == AttendanceTables([EventUser(2, 1, "rejected"), EventUser(2, 1, PENDING)])
  {
    var t := AttendanceTables([EventUser(2, 1, "rejected")]);
    assert IsMemberRow(t.members[1], 2, 1);
    assert IsAttendanceRow(t.attendances[0], 2, 1);
    assert FindAttendance(t.attendances, 2, 1) == Some(0);
  }

  /** Three requests in a row, unfolded. */
  lemma RunThree(t: Tables, r0: Request, r1: Request, r2: Request)
    ensures Run(t, [r0]) == Apply(t, r0)
    ensures Run(t, [r0, r1]) == Apply(Apply(t, r0), r1)
    ensures Run(t, [r0, r1, r2]) == Apply(Apply(Apply(t, r0), r1), r2)
  {
    var t1 := Apply(t, r0);
    var t2 := Apply(t1, r1);
    var t3 := Apply(t2, r2);
    assert [r0][1..] == [] && [r1][1..] == [] && [r2][1..] == [];
    assert [r0, r1][1..] == [r1] && [r1, r2][1..] == [r2];
    assert [r0, r1, r2][1..] == [r1, r2];
    assert Run(t, [r0]) == Run(t1, []);
    assert Run(t1, [r1]) == Run(t2, []);
    assert Run(t2, [r2]) == Run(t3, []);
    assert Run(t, [r0, r1]) == Run(t1, [r1]);
    assert Run(t1, [r1, r2]) == Run(t2, [r2]);
    assert Run(t, [r0, r1, r2]) == Run(t1, [r1, r2]);
  }

  /** Member 2 requests attendance, the organizer sets it to "rejected", and
      member 2 requests again: every request succeeds and the table ends with
      two rows for (user 2, event 1). */
  lemma RejectedAttendeeRequestsAgain()
    ensures var t, r0, r1 := AttendanceTables([]), RequestAttendance(Some(2), 1, 1), ChangeAttendance(Some(1), 1, 1, 2, "rejected");
            && Succeeds(t, r0)
            && Succeeds(Run(t, [r0]), r1)
            && Succeeds(Run(t, [r0, r1]), r0)
            && Run(t, [r0, r1, r0]).attendances == [EventUser(2, 1, "rejected"), EventUser(2, 1, PENDING)]
            && !UniqueAttendances(Run(t, [r0, r1, r0]).attendances)
  {
    var t, r0, r1 := AttendanceTables([]), RequestAttendance(Some(2), 1, 1), ChangeAttendance(Some(1), 1, 1, 2, "rejected");
    RunThree(t, r0, r1, r0);
    AttendanceStepRequest();
    AttendanceStepReject();
    AttendanceStepRerequest();
    var t1 := AttendanceTables([EventUser(2, 1, PENDING)]);
    var t2 := AttendanceTables([EventUser(2, 1, "rejected")]);
    assert Apply(t, r0) == t1;
    assert Apply(t1, r1) == t2;
    var rows := [EventUser(2, 1, "rejected"), EventUser(2, 1, PENDING)];
    assert Apply(t2, r0).attendances == rows;
    assert IsAttendanceRow(rows[1], rows[0].userId, rows[0].eventId);
  }

  // ---------------------------------------------------------------------
  // Attendee list as written.

  /** A plain member's selection includes pending requests. */
  lemma PlainMemberSelectsPending()
    ensures var rows := [EventUser(2, 1, PENDING), EventUser(3, 1, ACCEPTED)];
            EventUser(2, 1, PENDING) in EventRules.AttendeeSelection(rows, 1, MEMBER)
  {
  }

  /** The attendance handlers authorize against the group named in the URL:
      the organizer of group 2 (user 3, no row in group 1) accepts an
      attendance for group 1's event by naming group 2 in the URL. */
  lemma ChangeAttendanceTrustsUrlGroup()
    ensures var t := Tables(map[1 := Walkers, 2 := Walkers.(organizerId := 3)], map[1 := Walk],
                            WalkersRows + [GroupMember(3, 2, PENDING, ORGANIZER)], [EventUser(2, 1, PENDING)], [], 3, 2);
            && t.events[1].groupId == 1
            && !HasMemberRow(t.members, 3, 1)
            && EventRules.ChangeAttendance(t, Some(3), 2, 1, 2, ACCEPTED).out == Ok(EventUser(2, 1, ACCEPTED))
  {
    var rows := WalkersRows + [GroupMember(3, 2, PENDING, ORGANIZER)];
    assert rows == [GroupMember(1, 1, PENDING, ORGANIZER), GroupMember(2, 1, ACCEPTED, MEMBER), GroupMember(3, 2, PENDING, ORGANIZER)];
    assert IsMemberRow(rows[2], 3, 2);
    assert IsAttendanceRow([EventUser(2, 1, PENDING)][0], 2, 1);
  }
}
