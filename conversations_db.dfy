/** Conversations (src/db/conversations.ts). */
module ConversationsDb {
  import opened Values
  import opened Schema
  import opened Store
  import opened Sorting

  /** The insert shape: a missing or empty id is generated, and the two defaulted
      columns take their defaults only when absent (a given "" is stored as is). */
  datatype NewConversation = NewConversation(
    id: Option<string>,
    title: string,
    systemMessage: Option<string>,
    enableSystemMessage: Option<string>,
    folderId: Option<string>)

  /** The columns an update may set: everything but `id`, `createdAt` and `updatedAt`. */
  datatype ConversationChanges = ConversationChanges(
    title: Option<string>,
    systemMessage: Option<string>,
    enableSystemMessage: Option<string>,
    folderId: Option<string>)

  /** The columns the list, update and delete queries return. */
  datatype ConversationSummary = ConversationSummary(id: string, title: string, createdAt: int, updatedAt: int)

  function Summary(c: Conversation): ConversationSummary {
    ConversationSummary(c.id, c.title, c.createdAt, c.updatedAt)
  }

  /** The row `createConversation` inserts. */
  function NewConversationRow(input: NewConversation, freshId: string, defaultTime: int): (c: Conversation)
    ensures Present(input.id) ==> c.id == input.id.value
    ensures !Present(input.id) ==> c.id == freshId
    ensures c.title == input.title && c.folderId == input.folderId
    ensures input.systemMessage.Some? ==> c.systemMessage == input.systemMessage
    ensures input.systemMessage.None? ==> c.systemMessage == Some("")
    ensures input.enableSystemMessage.Some? ==> c.enableSystemMessage == input.enableSystemMessage
    ensures input.enableSystemMessage.None? ==> c.enableSystemMessage == Some("1")
    ensures c.createdAt == defaultTime && c.updatedAt == defaultTime
  {
    Conversation(
      OrElse(input.id, freshId),
      input.title,
      if input.systemMessage.Some? then input.systemMessage else Some(""),
      if input.enableSystemMessage.Some? then input.enableSystemMessage else Some("1"),
      input.folderId,
      defaultTime,
      defaultTime)
  }

  /** `createConversation`; an id already present violates the primary key and
      nothing is inserted. */
  method CreateConversation(db: Db, input: NewConversation, freshId: string) returns (r: Option<Conversation>)
    requires db.Valid()
    modifies db`tables
    ensures db.Valid()
    ensures var row := NewConversationRow(input, freshId, db.defaultTime);
      && (r.Some? <==> forall c | c in old(db.tables.conversations) :: c.id != row.id)
      && (r.Some? ==> r.value == row
                      && db.tables == old(db.tables).(conversations := old(db.tables.conversations) + {row}))
      && (r.None? ==> db.tables == old(db.tables))
  {
    var row := NewConversationRow(input, freshId, db.defaultTime);
    if exists c :: c in db.tables.conversations && c.id == row.id {
      return None;
    }
    db.tables := db.tables.(conversations := db.tables.conversations + {row});
    r := Some(row);
  }

  /** `getConversationById`: the conversation with that id, if any. */
  method GetConversationById(db: Db, id: string) returns (r: Option<Conversation>)
    ensures r.None? <==> forall c | c in db.tables.conversations :: c.id != id
    ensures r.Some? ==> r.value in db.tables.conversations && r.value.id == id
  {
    if c :| c in db.tables.conversations && c.id == id {
      r := Some(c);
    } else {
      r := None;
    }
  }

  /** `getAllConversations`: one summary per conversation, latest update first. */
  method GetAllConversations(db: Db) returns (r: seq<ConversationSummary>)
    ensures |r| == |db.tables.conversations|
    ensures forall c | c in db.tables.conversations :: Summary(c) in r
    ensures forall k | 0 <= k < |r| :: exists c :: c in db.tables.conversations && r[k] == Summary(c)
    ensures forall i, j | 0 <= i < j < |r| :: r[i].updatedAt >= r[j].updatedAt
  {
    var rows := OrderBy(db.tables.conversations, (c: Conversation) => -c.updatedAt);
    r := seq(|rows|, k requires 0 <= k < |rows| => Summary(rows[k]));
    forall c | c in db.tables.conversations ensures Summary(c) in r {
      var k :| 0 <= k < |rows| && rows[k] == c;
      assert r[k] == Summary(c);
    }
    forall k | 0 <= k < |r| ensures exists c :: c in db.tables.conversations && r[k] == Summary(c) {
      assert rows[k] in rows;
    }
    forall i, j | 0 <= i < j < |r| ensures r[i].updatedAt >= r[j].updatedAt {
      assert -rows[i].updatedAt <= -rows[j].updatedAt;
    }
  }

  /** A conversation's row after an update: the given columns, and `updatedAt` set
      to now. */
  function ApplyConversationChanges(c: Conversation, changes: ConversationChanges, now: int): (u: Conversation)
    ensures u.id == c.id && u.createdAt == c.createdAt && u.updatedAt == now
    ensures changes.title.Some? ==> u.title == changes.title.value
    ensures changes.title.None? ==> u.title == c.title
  {
    c.(title := if changes.title.Some? then changes.title.value else c.title,
       systemMessage := if changes.systemMessage.Some? then changes.systemMessage else c.systemMessage,
       enableSystemMessage := if changes.enableSystemMessage.Some? then changes.enableSystemMessage else c.enableSystemMessage,
       folderId := if changes.folderId.Some? then changes.folderId else c.folderId,
       updatedAt := now)
  }

  /** `updateConversation`: rewrites the row with that id and returns its summary;
      nothing is returned and nothing changes when no row matches. */
  method UpdateConversation(db: Db, id: string, changes: ConversationChanges, now: int)
    returns (r: seq<ConversationSummary>)
    requires db.Valid()
    modifies db`tables
    ensures db.Valid()
    ensures db.tables == old(db.tables).(conversations :=
      (set c | c in old(db.tables.conversations) && c.id != id)
      + (set c | c in old(db.tables.conversations) && c.id == id :: ApplyConversationChanges(c, changes, now)))
    ensures r == [] <==> forall c | c in old(db.tables.conversations) :: c.id != id
    ensures |r| <= 1
    ensures forall k | 0 <= k < |r| ::
      r[k].id == id && r[k].updatedAt == now && exists c :: c in db.tables.conversations && r[k] == Summary(c)
  {
    if c :| c in db.tables.conversations && c.id == id {
      var updated := ApplyConversationChanges(c, changes, now);
      r := [Summary(updated)];
      db.tables := db.tables.(conversations :=
        (set c | c in db.tables.conversations && c.id != id)
        + (set c | c in db.tables.conversations && c.id == id :: ApplyConversationChanges(c, changes, now)));
      assert updated in db.tables.conversations;
    } else {
      r := [];
      db.tables := db.tables.(conversations :=
        (set c | c in db.tables.conversations && c.id != id)
        + (set c | c in db.tables.conversations && c.id == id :: ApplyConversationChanges(c, changes, now)));
    }
  }

  /** `deleteConversationById`: removes the conversation's messages, then its
      members, then the conversation, and returns the removed conversation rows.
      Groups, links, folders and participants are untouched. */
  method DeleteConversationById(db: Db, id: string) returns (r: seq<ConversationSummary>)
    requires db.Valid()
    modifies db`tables
    ensures db.Valid()
    ensures db.tables == old(db.tables).(
      messages := (set m | m in old(db.tables.messages) && m.conversationId != id),
      members := (set m | m in old(db.tables.members) && m.conversationId != id),
      conversations := (set c | c in old(db.tables.conversations) && c.id != id))
    ensures r == [] <==> forall c | c in old(db.tables.conversations) :: c.id != id
    ensures |r| <= 1
    ensures forall k | 0 <= k < |r| :: exists c :: c in old(db.tables.conversations) && c.id == id && r[k] == Summary(c)
  {
    db.tables := db.tables.(messages := set m | m in db.tables.messages && m.conversationId != id);
    db.tables := db.tables.(members := set m | m in db.tables.members && m.conversationId != id);
    if c :| c in db.tables.conversations && c.id == id {
      r := [Summary(c)];
    } else {
      r := [];
    }
    db.tables := db.tables.(conversations := set c | c in db.tables.conversations && c.id != id);
  }
}
