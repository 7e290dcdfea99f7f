/** Message groups (src/db/message-groups.ts). */
module MessageGroupsDb {
  import opened Values
  import opened Schema
  import opened Store

  /** The insert shape: the id may be missing. */
  datatype NewMessageGroup = NewMessageGroup(id: Option<string>, conversationId: string)

  /** The columns an update may set besides `updatedAt`. */
  datatype MessageGroupChanges = MessageGroupChanges(conversationId: Option<string>, createdAt: Option<int>)

  /** `createMessageGroup`: a provided non-empty id is kept, otherwise `freshId` (a
      new UUID) is used; the timestamps take their schema defaults. An id already
      present violates the primary key and nothing is inserted. */
  method CreateMessageGroup(db: Db, input: NewMessageGroup, freshId: string) returns (r: Option<MessageGroup>)
    requires db.Valid()
    modifies db`tables
    ensures db.Valid()
    ensures var row := MessageGroup(OrElse(input.id, freshId), input.conversationId, db.defaultTime, db.defaultTime);
      && (r.Some? <==> forall g | g in old(db.tables.groups) :: g.id != row.id)
      && (r.Some? ==> r.value == row && db.tables == old(db.tables).(groups := old(db.tables.groups) + {row}))
      && (r.None? ==> db.tables == old(db.tables))
  {
    var row := MessageGroup(OrElse(input.id, freshId), input.conversationId, db.defaultTime, db.defaultTime);
    if exists g :: g in db.tables.groups && g.id == row.id {
      return None;
    }
    db.tables := db.tables.(groups := db.tables.groups + {row});
    r := Some(row);
  }

  /** `getMessageGroupById`: the group with that id, if any. */
  method GetMessageGroupById(db: Db, id: string) returns (r: Option<MessageGroup>)
    ensures r.None? <==> forall g | g in db.tables.groups :: g.id != id
    ensures r.Some? ==> r.value in db.tables.groups && r.value.id == id
  {
    if g :| g in db.tables.groups && g.id == id {
      r := Some(g);
    } else {
      r := None;
    }
  }

  /** `getMessageGroupsByConversationId`: exactly the groups of one conversation. */
  function GroupsOfConversation(t: Tables, conversationId: string): (groups: set<MessageGroup>)
    ensures forall g :: g in groups <==> g in t.groups && g.conversationId == conversationId
  {
    set g | g in t.groups && g.conversationId == conversationId
  }

  /** `checkMessageGroupExists`. */
  function CheckMessageGroupExists(t: Tables, id: string): (b: bool)
    ensures b <==> exists g :: g in t.groups && g.id == id
  {
    exists g :: g in t.groups && g.id == id
  }

  /** A group's row after an update: the given columns, and `updatedAt` set to now. */
  function ApplyGroupChanges(g: MessageGroup, changes: MessageGroupChanges, now: int): (u: MessageGroup)
    ensures u.id == g.id && u.updatedAt == now
  {
    g.(conversationId := if changes.conversationId.Some? then changes.conversationId.value else g.conversationId,
       createdAt := if changes.createdAt.Some? then changes.createdAt.value else g.createdAt,
       updatedAt := now)
  }

  /** `updateMessageGroup`: rewrites the row with that id, stamps it with `now`, and
      returns the rewritten rows; other rows are untouched. */
  method UpdateMessageGroup(db: Db, id: string, changes: MessageGroupChanges, now: int)
    returns (r: seq<MessageGroup>)
    requires db.Valid()
    modifies db`tables
    ensures db.Valid()
    ensures db.tables == old(db.tables).(groups :=
      (set g | g in old(db.tables.groups) && g.id != id)
      + (set g | g in old(db.tables.groups) && g.id == id :: ApplyGroupChanges(g, changes, now)))
    ensures |r| <= 1
    ensures r == [] <==> forall g | g in old(db.tables.groups) :: g.id != id
    ensures forall k | 0 <= k < |r| :: r[k] in db.tables.groups && r[k].id == id && r[k].updatedAt == now
  {
    if g :| g in db.tables.groups && g.id == id {
      r := [ApplyGroupChanges(g, changes, now)];
    } else {
      r := [];
    }
    db.tables := db.tables.(groups :=
      (set g | g in db.tables.groups && g.id != id)
      + (set g | g in db.tables.groups && g.id == id :: ApplyGroupChanges(g, changes, now)));
  }

  /** `deleteMessageGroupById`: removes the group's links first, then the group,
      and returns the removed group rows. Messages are not touched. */
  method DeleteMessageGroupById(db: Db, id: string) returns (r: seq<MessageGroup>)
    requires db.Valid()
    modifies db`tables
    ensures db.Valid()
    ensures db.tables == old(db.tables).(
      groupMessages := (set l | l in old(db.tables.groupMessages) && l.messageGroupId != id),
      groups := (set g | g in old(db.tables.groups) && g.id != id))
    ensures forall g :: g in r <==> g in old(db.tables.groups) && g.id == id
    ensures |r| <= 1
    ensures r == [] <==> forall g | g in old(db.tables.groups) :: g.id != id
  {
    db.tables := db.tables.(groupMessages := set l | l in db.tables.groupMessages && l.messageGroupId != id);
    if g :| g in db.tables.groups && g.id == id {
      r := [g];
    } else {
      r := [];
    }
    db.tables := db.tables.(groups := set g | g in db.tables.groups && g.id != id);
  }
}
