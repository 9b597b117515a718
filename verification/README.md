# Group membership and event attendance, as the handlers are written

This project models the core of a meetup-style Express/Sequelize backend:

- the groups router (`routes/api/groups.js`);
- the events router mounted under it (`routes/api/events.js`);
- the GroupMember and EventUser models (`db/models/groupmember.js`, `db/models/eventuser.js`).

The core decides who may create, edit and delete groups and events, and how a membership or an attendance goes from "pending" to its later states. The model proves properties of that decision and of the state it leaves. It follows the code as written, defects included. Where the code departs from what it evidently means, a corrected version stands beside it with the intended property proved (see Findings).

Layout:

- `records.dfy` (`Records`): row shapes, the string values of `status` and `role`, and the column defaults.
- `store.dfy` (`Store`):
  - the whole database as one value `Tables`;
  - the answer kinds `Outcome`: Ok, 400, 404, 401, or a runtime fault with its cause;
  - `findOne` (first matching row), `findAll` and row removal.
- `group_rules.dfy` (`GroupRules`) and `event_rules.dfy` (`EventRules`): one function per handler, from the tables before the request to the answer and the tables after it. Each writing handler's function states the answer of each check in the handler's order, exactly when it succeeds, the row it writes, and that a refused request writes nothing.
- `database.dfy` (`Database.Db`): the database as a mutable object, one field per table.
- `group_routes.dfy` (`GroupRoutes`) and `event_routes.dfy` (`EventRoutes`): the handlers as methods that check, read and write `Db` step by step. Each is proved to answer and leave the tables exactly as its rule function says.
- `lifecycle.dfy` (`Lifecycle`):
  - every writing request as one datatype, and the tables after any sequence of requests;
  - the invariants every such sequence keeps;
  - concrete states that exhibit each defect.
- `corrections.dfy` (`Corrections`): the defective handlers rewritten to do what they evidently mean, with that proved.

How the handlers' runtime behaviour is represented:

- **No session.** A route without `requireAuth` takes the caller as an `Option`. With no session, reading `req.user` is a `Fault(NullUser)`.
- **Null lookups.** A field read on a `findOne`/`findByPk` that returned null is a `Fault(NullRecord)`, and nothing is written.
- **Names not in scope.** A name that is not in scope is a `Fault(UndefinedName)`. This covers `Image`, `User` and `Op` in events.js, and the `members`/`attendees` constants that are declared inside an `if` block but used after it.
- **Foreign keys.** A write that the database refuses because of the Images table's foreign keys is a `Fault(ForeignKey)`, and nothing is written. This is either a `destroy` of a row that an image still references, or an image insert that names a missing group.
- **`next(err)` in groups.js.** `next` is not a parameter of those handlers, so the error is not delivered. The model gives the error kind the handler builds, and the handler stops there before any write.

Where the API description and the code differ, the model follows the code:

- **Membership status.** groups.js writes "pending" (on a join request, and as the column default) and filters on it. Otherwise it stores whatever `status` string the client sends, unchecked. There is no "active" state. "accepted" appears only in the attendance handlers of events.js.
- **Co-host grant.** A co-host grant is written into `status`, never into `role`.
- **Who approves.** A plain member, not an organizer, may change a membership other than co-host.
- **Attendance reset.** A rejected attendance can be requested again, which adds a second row.
- **Pair uniqueness.** (userId, groupId) and (userId, eventId) are not declared unique, and the model does not assume they are. `Lifecycle.RunKeepsUniqueMembers` proves that no membership request sequence creates a duplicate. `Lifecycle.RejectedAttendeeRequestsAgain` shows a sequence that duplicates an attendance.

## Model

| member | source | states |
|---|---|---|
| Records.NewGroupMember | authenticate-me/backend/db/models/groupmember.js:15-29 | A GroupMember insert that omits `status` gets "pending" and one that omits `role` gets "member"; supplied values are stored as given. |
| Records.NewEventUser | authenticate-me/backend/db/models/eventuser.js:15-24 | An EventUser insert that omits `status` gets "pending"; a supplied status is stored as given. |
| Store.FindMember | authenticate-me/backend/routes/api/groups.js:257-262 | `findOne` on (userId, groupId): None exactly when no row matches; otherwise the index of a matching row with no matching row before it. |
| Store.FindAttendance | authenticate-me/backend/routes/api/events.js:429-434 | `findOne` on (userId, eventId): None exactly when no row matches; otherwise the first matching row. |
| Store.RoleOf | authenticate-me/backend/routes/api/groups.js:110-116 | The role read from the caller's membership row: None exactly when the caller has no row in the group, otherwise the role of the first matching row (the one `findOne` returns). |
| Store.Filter | authenticate-me/backend/routes/api/groups.js:83-88 | `findAll` with a `where`: exactly the rows satisfying the condition, each as many times as the table holds it, none more often. |
| Store.FilterAppend | authenticate-me/backend/routes/api/groups.js:83-88 | The rows `findAll` returns keep the table's order: the selection of a concatenation is the concatenation of the selections. |
| Store.FilterSingle | authenticate-me/backend/routes/api/groups.js:83-88 | A one-row table yields that row exactly when it satisfies the condition. |
| Store.RemoveAt | authenticate-me/backend/routes/api/groups.js:412 | `destroy` of one row: the table loses exactly that row and the other rows keep their order. |
| GroupRules.Lookup | authenticate-me/backend/routes/api/groups.js:84-90 | The joined Group of a membership row is the Groups row with that id, or null when there is none. |
| GroupRules.CreateGroup | authenticate-me/backend/routes/api/groups.js:51-78 | Always succeeds. The new group takes the next id and is exactly (caller as organizer, the body's name, no description, type, privacy, city, state, preview image): the body's `about` is not a column. Exactly one organizer row with default status "pending" is appended for the caller. Other tables are unchanged. On valid tables the id is fresh and the caller had no row for it. |
| GroupRules.CallerRows | authenticate-me/backend/routes/api/groups.js:83-88 | The caller's membership rows: every row whose userId is the caller, as many times as the table holds it, and no other row; in table order (`Store.FilterAppend`). |
| GroupRules.Mine | authenticate-me/backend/routes/api/groups.js:80-94 | One entry per caller row, in the same order: entry k is the joined group (or null) of the caller's k-th row. |
| GroupRules.Revised | authenticate-me/backend/routes/api/groups.js:162-170 | An update keeps the organizer and writes every other column from the body: name, description, type, privacy, city, state, preview image. |
| GroupRules.UpdateGroup | authenticate-me/backend/routes/api/groups.js:136-174 | The role checked is read from the row keyed (caller, group id = caller's user id). No row is a fault; a role other than organizer is 401; a missing group faults at `update`. Succeeds exactly when that role is organizer and the group exists, and then only that group changes, to the body's columns with the organizer kept. |
| GroupRules.DeleteGroup | authenticate-me/backend/routes/api/groups.js:176-196 | A missing group faults. A caller who is not the recorded organizerId gets 401. The recorded organizer is refused by the images' foreign key while the group has an image. Succeeds exactly when the caller is the recorded organizer and no image belongs to the group, and then removes only the group row. |
| GroupRules.AddGroupImage | authenticate-me/backend/routes/api/groups.js:102-130 | No caller row in the group is a fault; a role other than organizer is 401. The group itself is fetched but never checked, so an organizer row of a deleted group reaches the insert, which the Images foreign key to Groups refuses. Succeeds exactly when the caller's role there is organizer and the group exists, and then appends exactly (url, preview, the group, no event, no venue). |
| GroupRules.MemberSelection | authenticate-me/backend/routes/api/groups.js:220-236 | An organizer selects every row of the group; anyone else selects exactly the group's rows that are not pending. Each selected row appears as many times as the table holds it, in table order (`Store.FilterAppend`). |
| GroupRules.ListMembers | authenticate-me/backend/routes/api/groups.js:199-239 | Never answers with rows. No session faults; a missing group is 404; no caller row faults on `.role`; otherwise the response names `members` out of scope. |
| GroupRules.RequestMembership | authenticate-me/backend/routes/api/groups.js:243-286 | A missing group is 404 and any existing row of the caller is 400. Succeeds exactly when the group exists and the caller has no row, and then appends exactly (caller, group, "pending", "member"). |
| GroupRules.DuplicateReason | authenticate-me/backend/routes/api/groups.js:263-276 | The "already requested" message is chosen exactly when the existing row's role (not its status) is "pending". |
| GroupRules.UpdateMembership | authenticate-me/backend/routes/api/groups.js:300-360 | Checks the group, then the target row (404s), then the caller's row (fault). "co-host" from a caller who is not organizer is 401; any other value from an organizer or co-host is 401. Succeeds exactly in the remaining cases, and then only the target's first row changes: its status becomes the given value. |
| GroupRules.RemoveMembership | authenticate-me/backend/routes/api/groups.js:364-416 | A missing group or target row is 400; no caller row faults; a caller who is neither the member nor an organizer gets 401. Succeeds exactly when the caller is the member or an organizer, and then removes exactly the target's first row. |
| EventRules.ListEvents | authenticate-me/backend/routes/api/events.js:21-45 | Exactly the events whose groupId is the URL group, with their rows. |
| EventRules.GetEvent | authenticate-me/backend/routes/api/events.js:49-70 | The event by id, or null exactly when it does not exist; the URL group is not consulted. |
| EventRules.AddEventImage | authenticate-me/backend/routes/api/events.js:111-154 | Never stores anything. A missing event, then a missing group, is 404; no session faults; 401 exactly when the caller has no row in the event's own group; otherwise the handler faults on the unimported `Image`. |
| EventRules.Revised | authenticate-me/backend/routes/api/events.js:204-213 | An event update keeps the event's group and writes name, type, capacity, description and dates from the body; the venue comes from the body when given, otherwise the stored venue is kept. |
| EventRules.EditEvent | authenticate-me/backend/routes/api/events.js:158-216 | Event, then URL group: 404. No session faults; no caller row in the event's own group faults; a role there other than organizer or co-host is 401. Succeeds exactly when that role is organizer or co-host, and then replaces only that event, by `Revised` of the stored row and the body. |
| EventRules.DeleteEvent | authenticate-me/backend/routes/api/events.js:220-261 | The same checks and answers as the edit; then the images' foreign key refuses while the event has an image. Succeeds exactly when the role passes and no image belongs to the event, and then only that event row is removed. |
| EventRules.CreateEvent | authenticate-me/backend/routes/api/events.js:263-321 | A missing URL group is 404; no caller row faults; a role other than organizer or co-host is 401. Succeeds exactly when the caller's role is organizer or co-host, and then adds under the next event id, fresh on valid tables, exactly the body's event in the URL group. |
| EventRules.AttendeeSelection | authenticate-me/backend/routes/api/events.js:360-385 | As the branches are written: organizers and co-hosts select the event's non-pending rows, everyone else every row of the event. Each selected row appears as many times as the table holds it, in table order (`Store.FilterAppend`). |
| EventRules.ListAttendees | authenticate-me/backend/routes/api/events.js:325-388 | Never answers with rows. No session faults; missing event or group is 404. Then a caller without a row in the URL group faults on `.role`, and a caller with one faults on unimported names. |
| EventRules.RequestAttendance | authenticate-me/backend/routes/api/events.js:392-454 | No session faults; event, then group: 404; 401 exactly when the caller has no row in the URL group. The caller's first attendance row for the event gives 400 when it is pending or accepted, and succeeds otherwise. On success exactly one (caller, event, "pending") row is appended. |
| EventRules.ChangeAttendance | authenticate-me/backend/routes/api/events.js:458-521 | No session faults; missing event is 404; "pending" is 400 before any lookup; a missing attendance is 404; no caller row in the URL group faults; a role there other than organizer or co-host is 401. Succeeds exactly when that role is organizer or co-host, and then only that attendance row's status changes. |
| EventRules.RemoveAttendance | authenticate-me/backend/routes/api/events.js:525-573 | No session faults; a missing event or attendance is 404; no caller row faults even for the attendee; a caller who is neither the attendee nor an organizer gets 401. Succeeds exactly when the caller is the attendee or an organizer, and then removes exactly that attendance row. |
| Database.Db.constructor | authenticate-me/backend/db/migrations/20230127204655-create-groups.js:6-10 | A new database is empty and its autoincrement ids start at 1. |
| GroupRoutes.CreateGroup | authenticate-me/backend/routes/api/groups.js:51-78 | The two inserts leave the database and answer exactly as `GroupRules.CreateGroup`, and keep the id counters ahead of every id. |
| GroupRoutes.Mine | authenticate-me/backend/routes/api/groups.js:80-94 | The `forEach` that pushes each row's joined group returns exactly `GroupRules.Mine`. |
| GroupRoutes.UpdateGroup | authenticate-me/backend/routes/api/groups.js:136-174 | Answer and new state are exactly `GroupRules.UpdateGroup`. |
| GroupRoutes.DeleteGroup | authenticate-me/backend/routes/api/groups.js:176-196 | Answer and new state are exactly `GroupRules.DeleteGroup`. |
| GroupRoutes.AddGroupImage | authenticate-me/backend/routes/api/groups.js:102-130 | Answer and new state are exactly `GroupRules.AddGroupImage`. |
| GroupRoutes.RequestMembership | authenticate-me/backend/routes/api/groups.js:243-286 | Answer and new state are exactly `GroupRules.RequestMembership`. |
| GroupRoutes.UpdateMembership | authenticate-me/backend/routes/api/groups.js:300-360 | Answer and new state are exactly `GroupRules.UpdateMembership`. |
| GroupRoutes.RemoveMembership | authenticate-me/backend/routes/api/groups.js:364-416 | Answer and new state are exactly `GroupRules.RemoveMembership`. |
| EventRoutes.AddEventImage | authenticate-me/backend/routes/api/events.js:111-154 | Answer and (unchanged) state are exactly `EventRules.AddEventImage`. |
| EventRoutes.EditEvent | authenticate-me/backend/routes/api/events.js:158-216 | Answer and new state are exactly `EventRules.EditEvent`. |
| EventRoutes.DeleteEvent | authenticate-me/backend/routes/api/events.js:220-261 | Answer and new state are exactly `EventRules.DeleteEvent`. |
| EventRoutes.CreateEvent | authenticate-me/backend/routes/api/events.js:263-321 | Answer and new state are exactly `EventRules.CreateEvent`. |
| EventRoutes.RequestAttendance | authenticate-me/backend/routes/api/events.js:392-454 | Answer and new state are exactly `EventRules.RequestAttendance`. |
| EventRoutes.ChangeAttendance | authenticate-me/backend/routes/api/events.js:458-521 | Answer and new state are exactly `EventRules.ChangeAttendance`. |
| EventRoutes.RemoveAttendance | authenticate-me/backend/routes/api/events.js:525-573 | Answer and new state are exactly `EventRules.RemoveAttendance`. |
| Lifecycle.ApplyIsAllOrNothing | authenticate-me/backend/routes/api/groups.js:51-416 | Every writing handler either succeeds or leaves every table as it was, and keeps the id counters ahead of the ids in use. |
| Lifecycle.ApplyKeepsImagesLinked | authenticate-me/backend/db/migrations/20230128001051-create-image.js:18-25 | Every handler keeps each image's group and event ids pointing at existing rows: image inserts need the group, and deletes are refused while an image references the row. |
| Lifecycle.RunKeepsImagesLinked | authenticate-me/backend/db/migrations/20230128001051-create-image.js:18-25 | From tables whose images all reference existing groups and events, every request sequence keeps them so. |
| Lifecycle.RunKeepsValid | authenticate-me/backend/routes/api/groups.js:51-78 | Any sequence of requests keeps the id counters ahead of every group, event and membership group id. |
| Lifecycle.ApplyKeepsRolesAsWritten | authenticate-me/backend/routes/api/groups.js:356-358 | No handler writes a role other than "member" or "organizer" into a membership row. |
| Lifecycle.RunKeepsRolesAsWritten | authenticate-me/backend/routes/api/groups.js:300-360 | From tables whose roles are "member" or "organizer", every request sequence keeps them so. |
| Lifecycle.NoCoHostAfterRun | authenticate-me/backend/routes/api/groups.js:356-358 | Promotion writes into `status`, so no request sequence produces a co-host role. |
| Lifecycle.OnlyOrganizersCreateEvents | authenticate-me/backend/routes/api/events.js:289-296 | After any request sequence, a caller who creates an event holds role organizer in the group. |
| Lifecycle.RefusedJoinSaysAlreadyMember | authenticate-me/backend/routes/api/groups.js:263-276 | With roles as written, a refused join request always carries "already a member", never "already requested". |
| Lifecycle.AppendKeepsUniqueMembers | authenticate-me/backend/routes/api/groups.js:280-284 | Appending a row for a pair that has none keeps one row per (user, group). |
| Lifecycle.RemoveKeepsUniqueMembers | authenticate-me/backend/routes/api/groups.js:412 | Removing a row keeps one row per (user, group). |
| Lifecycle.ApplyKeepsUniqueMembers | authenticate-me/backend/routes/api/groups.js:243-286 | On valid tables with one row per (user, group), every handler keeps that. |
| Lifecycle.RunKeepsUniqueMembers | authenticate-me/backend/routes/api/groups.js:243-286 | Every request sequence from such tables keeps one membership row per (user, group). |
| Lifecycle.SecondJoinRequestRefused | authenticate-me/backend/routes/api/groups.js:257-277 | A join request that succeeded makes the same request answer 400. |
| Lifecycle.OrganizerCanRemoveOwnRow | authenticate-me/backend/routes/api/groups.js:397-412 | An organizer may delete their own membership row. The group then still names them organizer, but they have no row in it. |
| Lifecycle.OrganizerCannotApprove | authenticate-me/backend/routes/api/groups.js:345-353 | An organizer setting any value but "co-host" on an existing membership gets 401. |
| Lifecycle.RequesterCanApproveSelf | authenticate-me/backend/routes/api/groups.js:338-358 | A caller whose role is "member" (every join requester) may set any status but "co-host" on their own row. |
| Lifecycle.UpdateGroupWrongKeyWitness | authenticate-me/backend/routes/api/groups.js:147-153 | On valid tables, user 1 (organizer of group 1, no row in group 2) updates group 2, which user 2 organizes. |
| Lifecycle.RerequestDuplicatesAttendance | authenticate-me/backend/routes/api/events.js:429-452 | When the caller's attendance row is neither pending nor accepted, a new request succeeds and leaves two rows for the pair. |
| Lifecycle.AttendanceStepRequest | authenticate-me/backend/routes/api/events.js:392-454 | In the example group, member 2's first request succeeds and appends one pending row. |
| Lifecycle.AttendanceStepReject | authenticate-me/backend/routes/api/events.js:458-521 | The organizer sets that row to "rejected". |
| Lifecycle.AttendanceStepRerequest | authenticate-me/backend/routes/api/events.js:429-452 | Member 2 requests again and a second row is appended. |
| Lifecycle.RejectedAttendeeRequestsAgain | authenticate-me/backend/routes/api/events.js:429-452 | Request, reject, request: every step succeeds and the table ends with two rows for (user 2, event 1). |
| Lifecycle.PlainMemberSelectsPending | authenticate-me/backend/routes/api/events.js:360-371 | A caller with role "member" selects a pending attendance. |
| Lifecycle.ChangeAttendanceTrustsUrlGroup | authenticate-me/backend/routes/api/events.js:503-518 | The organizer of group 2, with no row in group 1, accepts an attendance for group 1's event by putting group 2 in the URL. |
| Corrections.UpdateGroup | authenticate-me/backend/routes/api/groups.js:136-174 | No caller row in the group being updated faults; a role there other than organizer is 401; an organizer of a missing group faults. Succeeds exactly when the group exists and the caller's row in it has role organizer; only that group changes, to `GroupRules.Revised` of it and the body. |
| Corrections.UpdateGroupWrongKeyClosed | authenticate-me/backend/routes/api/groups.js:147-153 | On the wrong-key witness tables the written handler succeeds and the corrected one refuses. |
| Corrections.UpdateMembership | authenticate-me/backend/routes/api/groups.js:338-358 | Succeeds exactly when the caller is organizer or co-host and "co-host" is granted only by an organizer. Granting writes role "co-host"; other values are written into status. |
| Corrections.PlainMemberCannotApprove | authenticate-me/backend/routes/api/groups.js:345-353 | A caller with role "member" changes no membership. |
| Corrections.PromotionGrantsEventRights | authenticate-me/backend/routes/api/groups.js:356-358 | After a corrected promotion the member's role is "co-host" and they pass the role check of event creation. |
| Corrections.RequestAttendance | authenticate-me/backend/routes/api/events.js:429-452 | Succeeds exactly when the caller has a row in the group and no attendance row for the event, whatever its status. |
| Corrections.RequestAttendanceKeepsUnique | authenticate-me/backend/routes/api/events.js:429-452 | The corrected request keeps one attendance row per (user, event). |
| Corrections.AttendeeSelection | authenticate-me/backend/routes/api/events.js:360-385 | Organizers and co-hosts select every row of the event; anyone else exactly the non-pending ones. Each selected row appears as many times as the table holds it, in table order (`Store.FilterAppend`). |
| Corrections.PendingHiddenFromPlainMembers | authenticate-me/backend/routes/api/events.js:360-371 | A pending row is hidden from a plain member by the correction and shown by the written selection. |
| Corrections.AddEventImage | authenticate-me/backend/routes/api/events.js:146-153 | Succeeds exactly when the written checks pass; stores one image with the event id and the URL group id. |
| Corrections.AddEventImageDiffersOnlyPastChecks | authenticate-me/backend/routes/api/events.js:111-154 | The corrected handler succeeds exactly where the written one faults on `Image`; every other answer is identical. |

## Left out

- Express wiring, sessions and `requireAuth` itself: the caller arrives as a user id, or as an optional one on routes without `requireAuth`.
- Body validators (`validateGroup`, `validateEvent`, `validateImage`, the attendance checks): bodies are modelled after validation. PUT and DELETE /groups/:id/members and DELETE /:eventId/attendees have no validator attached (`validateMembershipUpdate` is declared but unused); the lines for UpdateMembership, RemoveMembership and RemoveAttendance below say what the model then assumes. `validateEvent` does not check `venueId`, and `EventRules.Revised` keeps the stored venue when it is absent.
- GET /groups and GET /groups/:id, the venues router, the user model and `routes/index.js`: not part of this model.
- The event `price` column (FLOAT) and all timestamps: no decision depends on them.
- Message texts and JSON response shapes: answers are reduced to their kind (Ok, 400, 404, 401, fault). `GroupRules.DuplicateReason` keeps the one message choice that depends on data.
- Ids are modelled as numbers. URL ids reach the queries, which accept strings; the `===` self-checks compare the session's numeric id with an id from the request body.
- RemoveMembership: assumes the body's `memberId` is a JSON number; when it is a string, `userId !== memberId` always holds and the member cannot remove their own row (groups.js:367, 403).
- RemoveAttendance: assumes the body's `userId` is a JSON number; when it is a string, the attendee is never recognised as the caller (events.js:528, 558).
- UpdateMembership: its route has no validator attached, and the model takes `memberId` and `status` as present; an absent `status` passes the checks as a value other than "co-host", and `update` then skips the undefined field and answers with the row unchanged.
- RemoveMembership, RemoveAttendance: no validator is attached to these routes either; the model takes the body id as present, whereas an absent id makes `findOne` run with an undefined key.
- Foreign keys: only the Images migration (`db/migrations/20230128001051-create-image.js`) is part of this model. Its references to Groups and Events have no `onDelete`. Deleting a group or event that still has an image is therefore refused, and so is inserting an image for a missing group: both are `Fault(ForeignKey)`.
- EventUser `references`: eventuser.js:17-18 declares `references` to Events and Users on the model. Such a model-level option creates a constraint only when `sync` builds the schema. The backend's tables come from migrations; no file of this model calls `sync`, and the EventUsers migration is not part of this model. So the model enforces no key on attendance rows: deleting an event leaves its attendance rows, and `DeleteEvent` is not refused by them.
- Memberships, attendances and events of a deleted group or event stay in their tables; the migrations for those tables are not part of this model.
- Concurrency between requests: requests are handled one at a time (`Lifecycle.Run`).
- SQL row order: `findOne` returns the first matching row in insertion order.
- The `next` identifier in groups.js is not defined: its handlers are modelled as answering with the error they build, whereas at run time that path throws and no response is sent.
- GET /groups/mine: a row whose group was deleted contributes null, as the join does; the other joined columns of `include` are not modelled.
- The handlers that only read (`ListEvents`, `GetEvent`, `ListMembers`, `ListAttendees`) have no method over `Db`: their rule functions give their answers.

## Findings

| source | as written | input that shows it | evidently intended | confidence | as-written member | corrected member |
|---|---|---|---|---|---|---|
| authenticate-me/backend/routes/api/groups.js:147-153 | The caller's membership row is looked up with the caller's own user id as the group id. | User 1 organizes group 1 and has no row in group 2; PUT /groups/2 by user 1 succeeds. | Look up the caller's row in the group being updated. | high; not executed | Lifecycle.UpdateGroupWrongKeyWitness | Corrections.UpdateGroup |
| authenticate-me/backend/routes/api/groups.js:345-353 | Values other than "co-host" are refused to organizers and co-hosts and allowed to everyone else. | An organizer approving a request gets 401; a join requester (role "member") sets their own status to "accepted". | Only organizers and co-hosts change memberships. | high; not executed | Lifecycle.RequesterCanApproveSelf | Corrections.UpdateMembership |
| authenticate-me/backend/routes/api/groups.js:356-358 | "co-host" is written into `status`; `role` is never changed. | After a successful promotion the member's role is still "member"; no request sequence ever yields role "co-host". | Promotion sets the role to "co-host". | medium; not executed | Lifecycle.NoCoHostAfterRun | Corrections.PromotionGrantsEventRights |
| authenticate-me/backend/routes/api/events.js:435-452 | Only a pending or accepted attendance row blocks a new request. | Member 2 requests, the organizer sets "rejected", member 2 requests again: two rows for (2, event 1). | Any existing attendance row blocks a new request. | medium; not executed | Lifecycle.RejectedAttendeeRequestsAgain | Corrections.RequestAttendance |
| authenticate-me/backend/routes/api/events.js:360-385 | Callers who are not organizer or co-host get every row; organizers and co-hosts get the non-pending rows. | A caller with role "member" selects a pending attendance. The route faults on `User` and `Op` before it answers, so the inversion shows only once those names are imported. | The reverse, as the groups router's member list does it: privileged callers see all rows. | medium; not executed | Lifecycle.PlainMemberSelectsPending | Corrections.AttendeeSelection |
| authenticate-me/backend/routes/api/events.js:146-153 | `Image.create` is called but `Image` is not imported. | Any member of the event's group posting an image makes the handler fault; no image is stored. | Import `Image` and store the event image. | high; not executed | EventRules.AddEventImage | Corrections.AddEventImage |
