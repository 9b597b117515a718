/** The contents of the database as one value, the outcome of a handler,
    and the lookups (`findOne`, `findAll`) the handlers run against it. */
module Store {
  import opened Records

  /** Why a handler dies with a runtime error instead of answering. */
  datatype FaultCause =
    | NullUser       // `req.user` is null (no session) in a route without `requireAuth`
    | NullRecord     // a lookup returned null and the handler read a field of it
    | UndefinedName  // a name that is not in scope: a missing import or a block-scoped `const`
    | ForeignKey     // the database refuses to delete a row that another row still references

  /** What a handler answers, reduced to its kind. */
  datatype Outcome<T> = Ok(value: T) | BadRequest | NotFound | Unauthorized | Fault(cause: FaultCause)

  /** The tables. Groups and Events are keyed by their autoincrement id;
      GroupMember, EventUser and Image rows are kept in insertion order. */
  datatype Tables = Tables(
    groups: map<GroupId, Group>,
    events: map<EventId, Event>,
    members: seq<GroupMember>,
    attendances: seq<EventUser>,
    images: seq<Image>,
    nextGroupId: nat,
    nextEventId: nat)
  {
    /** The autoincrement counters are ahead of every id in use, including the
        group ids that membership rows still refer to. */
    ghost predicate Valid() {
      && (forall g :: g in groups ==> g < nextGroupId)
      && (forall e :: e in events ==> e < nextEventId)
      && (forall i :: 0 <= i < |members| ==> members[i].groupId < nextGroupId)
    }
  }

  /** A handler's answer together with the tables it leaves behind. */
  datatype Step<T> = Step(out: Outcome<T>, after: Tables)

  predicate IsMemberRow(m: GroupMember, userId: UserId, groupId: GroupId) {
    m.userId == userId && m.groupId == groupId
  }

  predicate IsAttendanceRow(a: EventUser, userId: UserId, eventId: EventId) {
    a.userId == userId && a.eventId == eventId
  }

  ghost predicate HasMemberRow(rows: seq<GroupMember>, userId: UserId, groupId: GroupId) {
    exists i :: 0 <= i < |rows| && IsMemberRow(rows[i], userId, groupId)
  }

  ghost predicate HasAttendanceRow(rows: seq<EventUser>, userId: UserId, eventId: EventId) {
    exists i :: 0 <= i < |rows| && IsAttendanceRow(rows[i], userId, eventId)
  }

  /** Whether an Images row still references the group (the foreign key
      declared by the Images migration, with no `onDelete` action). */
  predicate GroupHasImages(images: seq<Image>, groupId: GroupId) {
    exists i :: 0 <= i < |images| && images[i].groupId == Some(groupId)
  }

  /** Whether an Images row still references the event. */
  predicate EventHasImages(images: seq<Image>, eventId: EventId) {
    exists i :: 0 <= i < |images| && images[i].eventId == Some(eventId)
  }

  /** `GroupMember.findOne({ where: { userId, groupId } })`: the index of the
      first matching row, if any. */
  function FindMember(rows: seq<GroupMember>, userId: UserId, groupId: GroupId): (r: Option<nat>)
    ensures r.None? <==> !HasMemberRow(rows, userId, groupId)
    ensures r.Some? ==> r.value < |rows| && IsMemberRow(rows[r.value], userId, groupId)
    ensures r.Some? ==> forall j :: 0 <= j < r.value ==> !IsMemberRow(rows[j], userId, groupId)
  {
    if |rows| == 0 then None
    else if IsMemberRow(rows[0], userId, groupId) then Some(0)
    else
      match FindMember(rows[1..], userId, groupId)
      case None => None
      case Some(i) => Some(i + 1)
  }

  /** `EventUser.findOne({ where: { userId, eventId } })`. */
  function FindAttendance(rows: seq<EventUser>, userId: UserId, eventId: EventId): (r: Option<nat>)
    ensures r.None? <==> !HasAttendanceRow(rows, userId, eventId)
    ensures r.Some? ==> r.value < |rows| && IsAttendanceRow(rows[r.value], userId, eventId)
    ensures r.Some? ==> forall j :: 0 <= j < r.value ==> !IsAttendanceRow(rows[j], userId, eventId)
  {
    if |rows| == 0 then None
    else if IsAttendanceRow(rows[0], userId, eventId) then Some(0)
    else
      match FindAttendance(rows[1..], userId, eventId)
      case None => None
      case Some(i) => Some(i + 1)
  }

  /** The role on the caller's membership row in a group, or None when
      `findOne` comes back null. */
  function RoleOf(rows: seq<GroupMember>, userId: UserId, groupId: GroupId): (r: Option<string>)
    ensures r.None? <==> !HasMemberRow(rows, userId, groupId)
    ensures r.Some? ==> exists i :: 0 <= i < |rows| && IsMemberRow(rows[i], userId, groupId) && rows[i].role == r.value
    ensures r.Some? ==> r.value == rows[FindMember(rows, userId, groupId).value].role
  {
    match FindMember(rows, userId, groupId)
    case None => None
    case Some(i) => Some(rows[i].role)
  }

  /** `findAll` with a `where` clause: the rows that satisfy `keep`, in table order. */
  function Filter<T(!new)>(rows: seq<T>, keep: T -> bool): (r: seq<T>)
    ensures |r| <= |rows|
    ensures forall x :: x in r <==> x in rows && keep(x)
    ensures forall x :: multiset(r)[x] == if keep(x) then multiset(rows)[x] else 0
  {
    if |rows| == 0 then []
    else
      assert rows == [rows[0]] + rows[1..];
      if keep(rows[0]) then [rows[0]] + Filter(rows[1..], keep)
      else Filter(rows[1..], keep)
  }

  /** `findAll` keeps table order: filtering two stretches of a table one
      after the other gives the filtered stretches in the same order. */
  lemma {:induction false} FilterAppend<T(!new)>(a: seq<T>, b: seq<T>, keep: T -> bool)
    ensures Filter(a + b, keep) == Filter(a, keep) + Filter(b, keep)
    decreases |a|
  {
    if |a| > 0 {
      assert (a + b)[0] == a[0];
      assert (a + b)[1..] == a[1..] + b;
      FilterAppend(a[1..], b, keep);
    } else {
      assert a + b == b;
    }
  }

  /** A single row is kept exactly when it satisfies the condition. */
  lemma FilterSingle<T(!new)>(x: T, keep: T -> bool)
    ensures Filter([x], keep) == if keep(x) then [x] else []
  {
    assert [x][1..] == [];
  }

  /** Row removal by primary key: the row at index `k` goes, the others keep their order. */
  function RemoveAt<T>(rows: seq<T>, k: nat): (r: seq<T>)
    requires k < |rows|
    ensures |r| == |rows| - 1
    ensures forall j :: 0 <= j < k ==> r[j] == rows[j]
    ensures forall j :: k <= j < |r| ==> r[j] == rows[j + 1]
  {
    rows[..k] + rows[k + 1..]
  }

  /** At most one membership row per (userId, groupId) pair. */
  ghost predicate UniqueMembers(rows: seq<GroupMember>) {
    forall i, j :: 0 <= i < j < |rows| ==> !IsMemberRow(rows[j], rows[i].userId, rows[i].groupId)
  }

  /** At most one attendance row per (userId, eventId) pair. */
  ghost predicate UniqueAttendances(rows: seq<EventUser>) {
    forall i, j :: 0 <= i < j < |rows| ==> !IsAttendanceRow(rows[j], rows[i].userId, rows[i].eventId)
  }
}
