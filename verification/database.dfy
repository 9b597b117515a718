/** The database the handlers mutate in place: one field per table. */
module Database {
  import opened Records
  import opened Store

  class Db {
    var groups: map<GroupId, Group>
    var events: map<EventId, Event>
    var members: seq<GroupMember>
    var attendances: seq<EventUser>
    var images: seq<Image>
    var nextGroupId: nat
    var nextEventId: nat

    /** The current contents of every table, as a value. */
    function Snapshot(): Tables
      reads this
    {
      Tables(groups, events, members, attendances, images, nextGroupId, nextEventId)
    }

    ghost predicate Valid()
      reads this
    {
      Snapshot().Valid()
    }

    /** An empty database whose autoincrement ids start at 1. */
    constructor ()
      ensures Valid()
      ensures Snapshot() == Tables(map[], map[], [], [], [], 1, 1)
    {
      groups, events := map[], map[];
      members, attendances, images := [], [], [];
      nextGroupId, nextEventId := 1, 1;
    }
  }
}
