/** The groups router's handlers that touch the database, as methods over it.
    Each checks, reads and writes in the handler's order and is proved to
    answer and leave the tables exactly as its rule in GroupRules says. */
module GroupRoutes {
  import opened Records
  import opened Store
  import opened Database
  import GroupRules

  /** POST /groups: two inserts, the Group and then its organizer's row. */
  method CreateGroup(db: Db, caller: UserId, body: GroupBody) returns (r: Outcome<(GroupId, Group)>)
    requires db.Valid()
    modifies db
    ensures db.Valid()
    ensures Step(r, db.Snapshot()) == GroupRules.CreateGroup(old(db.Snapshot()), caller, body)
  {
    var id := db.nextGroupId;
    var group := Group(caller, body.name, None, body.kind, body.isPrivate, body.city, body.state, body.previewImage);
    db.groups := db.groups[id := group];
    db.nextGroupId := id + 1;
    db.members := db.members + [NewGroupMember(caller, id, None, Some(ORGANIZER))];
    r := Ok((id, group));
  }

  /** GET /groups/mine: the `forEach` that pushes each row's joined Group. */
  method Mine(db: Db, caller: UserId) returns (r: seq<Option<Group>>)
    ensures r == GroupRules.Mine(db.Snapshot(), caller)
  {
    var rows := GroupRules.CallerRows(db.members, caller);
    var returnRows: seq<Option<Group>> := [];
    var i := 0;
    while i < |rows|
      invariant 0 <= i <= |rows|
      invariant |returnRows| == i
      invariant forall k :: 0 <= k < i ==> returnRows[k] == GroupRules.Lookup(db.groups, rows[k].groupId)
    {
      returnRows := returnRows + [GroupRules.Lookup(db.groups, rows[i].groupId)];
      i := i + 1;
    }
    r := returnRows;
  }

  /** PUT /groups/:id. */
  method UpdateGroup(db: Db, caller: UserId, groupId: GroupId, body: GroupBody) returns (r: Outcome<Group>)
    requires db.Valid()
    modifies db
    ensures db.Valid()
    ensures Step(r, db.Snapshot()) == GroupRules.UpdateGroup(old(db.Snapshot()), caller, groupId, body)
  {
    // the membership lookup puts the caller's user id in the group column
    var k := FindMember(db.members, caller, caller);
    if k.None? { return Fault(NullRecord); }
    if db.members[k.value].role != ORGANIZER { return Unauthorized; }
    if groupId !in db.groups { return Fault(NullRecord); }
    var group := GroupRules.Revised(db.groups[groupId], body);
    db.groups := db.groups[groupId := group];
    r := Ok(group);
  }

  /** DELETE /groups/:id. */
  method DeleteGroup(db: Db, caller: UserId, groupId: GroupId) returns (r: Outcome<()>)
    requires db.Valid()
    modifies db
    ensures db.Valid()
    ensures Step(r, db.Snapshot()) == GroupRules.DeleteGroup(old(db.Snapshot()), caller, groupId)
  {
    if groupId !in db.groups { return Fault(NullRecord); }
    if db.groups[groupId].organizerId != caller { return Unauthorized; }
    if GroupHasImages(db.images, groupId) { return Fault(ForeignKey); }
    db.groups := db.groups - {groupId};
    r := Ok(());
  }

  /** POST /groups/:id/images. */
  method AddGroupImage(db: Db, caller: UserId, groupId: GroupId, url: string, preview: bool) returns (r: Outcome<Image>)
    requires db.Valid()
    modifies db
    ensures db.Valid()
    ensures Step(r, db.Snapshot()) == GroupRules.AddGroupImage(old(db.Snapshot()), caller, groupId, url, preview)
  {
    var k := FindMember(db.members, caller, groupId);
    if k.None? { return Fault(NullRecord); }
    if db.members[k.value].role != ORGANIZER { return Unauthorized; }
    if groupId !in db.groups { return Fault(ForeignKey); }
    var image := Image(url, preview, Some(groupId), None, None);
    db.images := db.images + [image];
    r := Ok(image);
  }

  /** POST /groups/:id/members. */
  method RequestMembership(db: Db, caller: UserId, groupId: GroupId) returns (r: Outcome<GroupMember>)
    requires db.Valid()
    modifies db
    ensures db.Valid()
    ensures Step(r, db.Snapshot()) == GroupRules.RequestMembership(old(db.Snapshot()), caller, groupId)
  {
    if groupId !in db.groups { return NotFound; }
    var existing := FindMember(db.members, caller, groupId);
    if existing.Some? {
      // "Membership has already been requested" or "User is already a member
      // of the group", both with status 400
      return BadRequest;
    }
    var row := NewGroupMember(caller, groupId, Some(PENDING), None);
    db.members := db.members + [row];
    r := Ok(row);
  }

  /** PUT /groups/:id/members. */
  method UpdateMembership(db: Db, caller: UserId, groupId: GroupId, memberId: UserId, status: string) returns (r: Outcome<GroupMember>)
    requires db.Valid()
    modifies db
    ensures db.Valid()
    ensures Step(r, db.Snapshot()) == GroupRules.UpdateMembership(old(db.Snapshot()), caller, groupId, memberId, status)
  {
    var requiresElevatedPrivileges := status == CO_HOST;
    if groupId !in db.groups { return NotFound; }
    var member := FindMember(db.members, memberId, groupId);
    if member.None? { return NotFound; }
    var own := FindMember(db.members, caller, groupId);
    if own.None? { return Fault(NullRecord); }
    var role := db.members[own.value].role;
    if requiresElevatedPrivileges && role != ORGANIZER { return Unauthorized; }
    if !requiresElevatedPrivileges && ManagesEvents(role) { return Unauthorized; }
    var row := db.members[member.value].(status := status);
    db.members := db.members[member.value := row];
    r := Ok(row);
  }

  /** DELETE /groups/:id/members. */
  method RemoveMembership(db: Db, caller: UserId, groupId: GroupId, memberId: UserId) returns (r: Outcome<()>)
    requires db.Valid()
    modifies db
    ensures db.Valid()
    ensures Step(r, db.Snapshot()) == GroupRules.RemoveMembership(old(db.Snapshot()), caller, groupId, memberId)
  {
    if groupId !in db.groups { return BadRequest; }
    var member := FindMember(db.members, memberId, groupId);
    if member.None? { return BadRequest; }
    var own := FindMember(db.members, caller, groupId);
    if own.None? { return Fault(NullRecord); }
    if db.members[own.value].role != ORGANIZER && caller != memberId { return Unauthorized; }
    db.members := RemoveAt(db.members, member.value);
    r := Ok(());
  }
}
