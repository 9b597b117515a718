/** The handlers of the groups router, as functions from the tables before a
    request to the answer and the tables after it. Each follows the handler's
    statements in order, including its defects: where the handler would read a
    field of a null lookup the answer is a Fault, and where it calls the
    undefined `next` the answer is the error kind the handler builds (the
    handler aborts at that point, before any write). */
module GroupRules {
  import opened Records
  import opened Store

  /** The Groups row for `id`, or null. */
  function Lookup(groups: map<GroupId, Group>, id: GroupId): (r: Option<Group>)
    ensures r.Some? <==> id in groups
    ensures r.Some? ==> r.value == groups[id]
  {
    if id in groups then Some(groups[id]) else None
  }

  /** POST /groups: a Group owned by the caller and the caller's membership row.
      The handler passes `about`, which is not a column, so the description is
      left unset; the membership row names only the role, so its status is the
      column default. */
  function CreateGroup(t: Tables, caller: UserId, body: GroupBody): (s: Step<(GroupId, Group)>)
    ensures s.out.Ok?
    ensures s.out.value.0 == t.nextGroupId
    ensures s.out.value.1.organizerId == caller && s.out.value.1.description.None?
    ensures s.out.value.1 == Group(caller, body.name, None, body.kind, body.isPrivate, body.city, body.state, body.previewImage)
    ensures s.after.groups == t.groups[s.out.value.0 := s.out.value.1]
    ensures s.after.members == t.members + [GroupMember(caller, s.out.value.0, PENDING, ORGANIZER)]
    ensures s.after.events == t.events && s.after.attendances == t.attendances && s.after.images == t.images
    ensures t.Valid() ==> s.out.value.0 !in t.groups && !HasMemberRow(t.members, caller, s.out.value.0)
    ensures t.Valid() ==> s.after.Valid()
  {
    var id := t.nextGroupId;
    var group := Group(caller, body.name, None, body.kind, body.isPrivate, body.city, body.state, body.previewImage);
    var organizer := NewGroupMember(caller, id, None, Some(ORGANIZER));
    Step(Ok((id, group)), t.(groups := t.groups[id := group], members := t.members + [organizer], nextGroupId := id + 1))
  }

  /** `GroupMember.findAll({ where: { userId } })`. */
  function CallerRows(rows: seq<GroupMember>, caller: UserId): (r: seq<GroupMember>)
    ensures forall m :: m in r <==> m in rows && m.userId == caller
    ensures forall m :: multiset(r)[m] == if m.userId == caller then multiset(rows)[m] else 0
  {
    Filter(rows, (m: GroupMember) => m.userId == caller)
  }

  /** GET /groups/mine: the joined Group of each of the caller's membership
      rows, in row order; a row whose group is gone contributes null. */
  function Mine(t: Tables, caller: UserId): (r: seq<Option<Group>>)
    ensures |r| == |CallerRows(t.members, caller)|
    ensures forall x :: x in r ==> exists i :: 0 <= i < |t.members| && t.members[i].userId == caller && x == Lookup(t.groups, t.members[i].groupId)
    ensures forall k :: 0 <= k < |r| ==> r[k] == Lookup(t.groups, CallerRows(t.members, caller)[k].groupId)
  {
    var rows := CallerRows(t.members, caller);
    var r := seq(|rows|, k requires 0 <= k < |rows| => Lookup(t.groups, rows[k].groupId));
    assert forall k :: 0 <= k < |rows| ==> rows[k] in rows;
    r
  }

  /** A Group row after PUT /groups/:id: the body overwrites every column but the organizer. */
  function Revised(g: Group, body: GroupBody): (r: Group)
    ensures r.organizerId == g.organizerId
    ensures r.description == Some(body.description)
    ensures r == Group(g.organizerId, body.name, Some(body.description), body.kind, body.isPrivate, body.city, body.state, body.previewImage)
  {
    g.(name := body.name, description := Some(body.description), kind := body.kind,
       isPrivate := body.isPrivate, city := body.city, state := body.state, previewImage := body.previewImage)
  }

  /** PUT /groups/:id. The caller's membership row is looked up with the
      caller's own user id in the group column, so the role checked is the one
      the caller holds in the group whose id equals their user id. A missing
      group is noticed only after authorization, when `update` is called on null. */
  function UpdateGroup(t: Tables, caller: UserId, groupId: GroupId, body: GroupBody): (s: Step<Group>)
    ensures !s.out.Ok? ==> s.after == t
    ensures !HasMemberRow(t.members, caller, caller) ==> s.out == Fault(NullRecord)
    ensures RoleOf(t.members, caller, caller).Some? && RoleOf(t.members, caller, caller).value != ORGANIZER ==> s.out == Unauthorized
    ensures RoleOf(t.members, caller, caller) == Some(ORGANIZER) && groupId !in t.groups ==> s.out == Fault(NullRecord)
    ensures s.out.Ok? <==> RoleOf(t.members, caller, caller) == Some(ORGANIZER) && groupId in t.groups
    ensures s.out.Ok? ==> s.after == t.(groups := t.groups[groupId := s.out.value])
    ensures s.out.Ok? ==> s.out.value.organizerId == t.groups[groupId].organizerId
    ensures s.out.Ok? ==> s.out.value == Revised(t.groups[groupId], body)
    ensures t.Valid() ==> s.after.Valid()
  {
    match RoleOf(t.members, caller, caller)
    case None => Step(Fault(NullRecord), t)
    case Some(role) =>
      if role != ORGANIZER then Step(Unauthorized, t)
      else if groupId !in t.groups then Step(Fault(NullRecord), t)
      else
        var group := Revised(t.groups[groupId], body);
        Step(Ok(group), t.(groups := t.groups[groupId := group]))
  }

  /** DELETE /groups/:id: allowed to the user recorded as the group's organizer,
      whatever the membership rows say. The Images migration declares a
      foreign key to Groups with no `onDelete` action, so `destroy` fails while
      an image of the group exists. Memberships and events of the group stay
      in their tables. */
  function DeleteGroup(t: Tables, caller: UserId, groupId: GroupId): (s: Step<()>)
    ensures !s.out.Ok? ==> s.after == t
    ensures groupId !in t.groups ==> s.out == Fault(NullRecord)
    ensures groupId in t.groups && t.groups[groupId].organizerId != caller ==> s.out == Unauthorized
    ensures groupId in t.groups && t.groups[groupId].organizerId == caller && GroupHasImages(t.images, groupId)
            ==> s.out == Fault(ForeignKey)
    ensures s.out.Ok? <==>
            groupId in t.groups && t.groups[groupId].organizerId == caller && !GroupHasImages(t.images, groupId)
    ensures s.out.Ok? ==> s.after == t.(groups := t.groups - {groupId})
    ensures t.Valid() ==> s.after.Valid()
  {
    if groupId !in t.groups then Step(Fault(NullRecord), t)
    else if t.groups[groupId].organizerId != caller then Step(Unauthorized, t)
    else if GroupHasImages(t.images, groupId) then Step(Fault(ForeignKey), t)
    else Step(Ok(()), t.(groups := t.groups - {groupId}))
  }

  /** POST /groups/:id/images: the group itself is fetched but never checked;
      only a caller whose membership row in the group has role organizer
      gets the image, which is owned by the group alone. */
  function AddGroupImage(t: Tables, caller: UserId, groupId: GroupId, url: string, preview: bool): (s: Step<Image>)
    ensures !s.out.Ok? ==> s.after == t
    ensures !HasMemberRow(t.members, caller, groupId) ==> s.out == Fault(NullRecord)
    ensures RoleOf(t.members, caller, groupId).Some? && RoleOf(t.members, caller, groupId).value != ORGANIZER
            ==> s.out == Unauthorized
    ensures RoleOf(t.members, caller, groupId) == Some(ORGANIZER) && groupId !in t.groups ==> s.out == Fault(ForeignKey)
    ensures s.out.Ok? <==> RoleOf(t.members, caller, groupId) == Some(ORGANIZER) && groupId in t.groups
    ensures s.out.Ok? ==> s.after == t.(images := t.images + [s.out.value])
    ensures s.out.Ok? ==> s.out.value == Image(url, preview, Some(groupId), None, None)
    ensures t.Valid() ==> s.after.Valid()
  {
    match RoleOf(t.members, caller, groupId)
    case None => Step(Fault(NullRecord), t)
    case Some(role) =>
      if role != ORGANIZER then Step(Unauthorized, t)
      else if groupId !in t.groups then Step(Fault(ForeignKey), t)
      else
        var image := Image(url, preview, Some(groupId), None, None);
        Step(Ok(image), t.(images := t.images + [image]))
  }

  /** The rows the member list selects: every row of the group for an
      organizer, the rows not pending for anyone else. */
  function MemberSelection(rows: seq<GroupMember>, groupId: GroupId, callerRole: string): (r: seq<GroupMember>)
    ensures forall m :: m in r <==> m in rows && m.groupId == groupId && (callerRole != ORGANIZER ==> m.status != PENDING)
    ensures forall m :: multiset(r)[m] ==
                        if m.groupId == groupId && (callerRole != ORGANIZER ==> m.status != PENDING) then multiset(rows)[m] else 0
  {
    if callerRole != ORGANIZER then Filter(rows, (m: GroupMember) => m.groupId == groupId && m.status != PENDING)
    else Filter(rows, (m: GroupMember) => m.groupId == groupId)
  }

  /** GET /groups/:id/members. The route has no `requireAuth`; the selection
      is held in a `const` local to each branch, so the response line refers
      to a name that is not in scope and the handler never answers with rows. */
  function ListMembers(t: Tables, caller: Option<UserId>, groupId: GroupId): (r: Outcome<seq<GroupMember>>)
    ensures !r.Ok?
    ensures caller.None? ==> r == Fault(NullUser)
    ensures caller.Some? && groupId !in t.groups ==> r == NotFound
    ensures caller.Some? && groupId in t.groups && !HasMemberRow(t.members, caller.value, groupId) ==> r == Fault(NullRecord)
    ensures caller.Some? && groupId in t.groups && HasMemberRow(t.members, caller.value, groupId) ==> r == Fault(UndefinedName)
  {
    if caller.None? then Fault(NullUser)
    else if groupId !in t.groups then NotFound
    else match RoleOf(t.members, caller.value, groupId)
      case None => Fault(NullRecord)
      case Some(role) =>
        var selected := MemberSelection(t.members, groupId, role);
        Fault(UndefinedName)
  }

  /** POST /groups/:id/members: a join request is refused when the caller has
      any row in the group, whatever its status; otherwise one pending row
      with the default role is added. */
  function RequestMembership(t: Tables, caller: UserId, groupId: GroupId): (s: Step<GroupMember>)
    ensures !s.out.Ok? ==> s.after == t
    ensures groupId !in t.groups ==> s.out == NotFound
    ensures groupId in t.groups && HasMemberRow(t.members, caller, groupId) ==> s.out == BadRequest
    ensures s.out.Ok? <==> groupId in t.groups && !HasMemberRow(t.members, caller, groupId)
    ensures s.out.Ok? ==> s.out.value == GroupMember(caller, groupId, PENDING, MEMBER)
    ensures s.out.Ok? ==> s.after == t.(members := t.members + [s.out.value])
    ensures t.Valid() ==> s.after.Valid()
  {
    if groupId !in t.groups then Step(NotFound, t)
    else if FindMember(t.members, caller, groupId).Some? then Step(BadRequest, t)
    else
      var row := NewGroupMember(caller, groupId, Some(PENDING), None);
      Step(Ok(row), t.(members := t.members + [row]))
  }

  datatype Duplicate = AlreadyRequested | AlreadyMember

  /** Which of the two 400 messages a refused join request carries: the handler
      tests the existing row's `role`, not its `status`, against "pending". */
  function DuplicateReason(row: GroupMember): (d: Duplicate)
    ensures d == AlreadyRequested <==> row.role == PENDING
  {
    if row.role == PENDING then AlreadyRequested else AlreadyMember
  }

  /** PUT /groups/:id/members: checks the group, then the target row, then the
      caller's row. Setting "co-host" needs an organizer caller; any other
      value is refused to organizers and co-hosts and allowed to everyone else.
      The value is written into the target row's `status`. */
  function UpdateMembership(t: Tables, caller: UserId, groupId: GroupId, memberId: UserId, status: string): (s: Step<GroupMember>)
    ensures !s.out.Ok? ==> s.after == t
    ensures groupId !in t.groups ==> s.out == NotFound
    ensures groupId in t.groups && !HasMemberRow(t.members, memberId, groupId) ==> s.out == NotFound
    ensures groupId in t.groups && HasMemberRow(t.members, memberId, groupId) && !HasMemberRow(t.members, caller, groupId)
            ==> s.out == Fault(NullRecord)
    ensures groupId in t.groups && HasMemberRow(t.members, memberId, groupId)
            && RoleOf(t.members, caller, groupId).Some?
            && status == CO_HOST && RoleOf(t.members, caller, groupId).value != ORGANIZER
            ==> s.out == Unauthorized
    ensures groupId in t.groups && HasMemberRow(t.members, memberId, groupId)
            && RoleOf(t.members, caller, groupId).Some?
            && status != CO_HOST && ManagesEvents(RoleOf(t.members, caller, groupId).value)
            ==> s.out == Unauthorized
    ensures s.out.Ok? <==>
            && groupId in t.groups
            && HasMemberRow(t.members, memberId, groupId)
            && RoleOf(t.members, caller, groupId).Some?
            && (if status == CO_HOST then RoleOf(t.members, caller, groupId).value == ORGANIZER
                else !ManagesEvents(RoleOf(t.members, caller, groupId).value))
    ensures s.out.Ok? ==>
            && FindMember(t.members, memberId, groupId).Some?
            && var k := FindMember(t.members, memberId, groupId).value;
            && s.out.value == t.members[k].(status := status)
            && s.after == t.(members := t.members[k := s.out.value])
    ensures t.Valid() ==> s.after.Valid()
  {
    if groupId !in t.groups then Step(NotFound, t)
    else match FindMember(t.members, memberId, groupId)
      case None => Step(NotFound, t)
      case Some(k) =>
        match RoleOf(t.members, caller, groupId)
        case None => Step(Fault(NullRecord), t)
        case Some(role) =>
          if status == CO_HOST && role != ORGANIZER then Step(Unauthorized, t)
          else if status != CO_HOST && ManagesEvents(role) then Step(Unauthorized, t)
          else
            var row := t.members[k].(status := status);
            Step(Ok(row), t.(members := t.members[k := row]))
  }

  /** DELETE /groups/:id/members: a missing group or target row is a 400;
      then the caller needs a row of their own, and must be the member being
      removed or hold role organizer. Nothing protects the organizer's own row. */
  function RemoveMembership(t: Tables, caller: UserId, groupId: GroupId, memberId: UserId): (s: Step<()>)
    ensures !s.out.Ok? ==> s.after == t
    ensures groupId !in t.groups ==> s.out == BadRequest
    ensures groupId in t.groups && !HasMemberRow(t.members, memberId, groupId) ==> s.out == BadRequest
    ensures groupId in t.groups && HasMemberRow(t.members, memberId, groupId) && !HasMemberRow(t.members, caller, groupId)
            ==> s.out == Fault(NullRecord)
    ensures groupId in t.groups && HasMemberRow(t.members, memberId, groupId)
            && RoleOf(t.members, caller, groupId).Some?
            && RoleOf(t.members, caller, groupId).value != ORGANIZER && caller != memberId
            ==> s.out == Unauthorized
    ensures s.out.Ok? <==>
            && groupId in t.groups
            && HasMemberRow(t.members, memberId, groupId)
            && HasMemberRow(t.members, caller, groupId)
            && (caller == memberId || RoleOf(t.members, caller, groupId) == Some(ORGANIZER))
    ensures s.out.Ok? ==>
            && FindMember(t.members, memberId, groupId).Some?
            && s.after == t.(members := RemoveAt(t.members, FindMember(t.members, memberId, groupId).value))
    ensures t.Valid() ==> s.after.Valid()
  {
    if groupId !in t.groups then Step(BadRequest, t)
    else match FindMember(t.members, memberId, groupId)
      case None => Step(BadRequest, t)
      case Some(k) =>
        match RoleOf(t.members, caller, groupId)
        case None => Step(Fault(NullRecord), t)
        case Some(role) =>
          if role != ORGANIZER && caller != memberId then Step(Unauthorized, t)
          else Step(Ok(()), t.(members := RemoveAt(t.members, k)))
  }
}
