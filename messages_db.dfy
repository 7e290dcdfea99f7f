/** Messages (src/db/messages.ts), including the message/participant/group join.
    `updateMessageById` and `deleteMessageByConversationId` are re-exported by
    src/db/models.ts:30-31 but have no definition in src/db/messages.ts; they are
    modelled as the update-where-id and delete-where-conversation their names and
    call sites describe. */
module MessagesDb {
  import opened Values
  import opened Schema
  import opened Store
  import opened Sorting

  /** The insert shape. `content` is absent when the request body has none; the
      column is NOT NULL, so such an insert fails. */
  datatype NewMessage = NewMessage(
    id: string,
    content: Option<string>,
    conversationId: string,
    participantId: int,
    parentId: Option<string>)

  /** The columns an update may set. */
  datatype MessageChanges = MessageChanges(
    content: Option<string>,
    parentId: Option<string>,
    collapsed: Option<string>,
    createdAt: Option<int>)

  /** The row `createMessage` inserts: `collapsed` and `createdAt` take their defaults. */
  function NewMessageRow(input: NewMessage, defaultTime: int): Message
    requires input.content.Some?
  {
    Message(input.id, input.conversationId, input.participantId, input.content.value,
            input.parentId, Some("0"), defaultTime)
  }

  /** `createMessage`: fails, changing nothing, when the content is missing or the
      id is taken. */
  method CreateMessage(db: Db, input: NewMessage) returns (r: Option<Message>)
    requires db.Valid()
    modifies db`tables
    ensures db.Valid()
    ensures r.Some? <==> input.content.Some? && forall m | m in old(db.tables.messages) :: m.id != input.id
    ensures r.Some? ==>
      && r.value == NewMessageRow(input, db.defaultTime)
      && db.tables == old(db.tables).(messages := old(db.tables.messages) + {r.value})
    ensures r.None? ==> db.tables == old(db.tables)
  {
    if input.content.None? || exists m :: m in db.tables.messages && m.id == input.id {
      return None;
    }
    var row := NewMessageRow(input, db.defaultTime);
    db.tables := db.tables.(messages := db.tables.messages + {row});
    r := Some(row);
  }

  function MessagesOfConversation(t: Tables, conversationId: string): set<Message> {
    set m | m in t.messages && m.conversationId == conversationId
  }

  /** `getMessagesByConversationId`: each message of the conversation once, newest first. */
  method GetMessagesByConversationId(db: Db, conversationId: string) returns (r: seq<Message>)
    ensures forall m :: m in r <==> m in db.tables.messages && m.conversationId == conversationId
    ensures multiset(r) == multiset(MessagesOfConversation(db.tables, conversationId))
    ensures forall i, j | 0 <= i < j < |r| :: r[i].createdAt >= r[j].createdAt
  {
    r := OrderBy(MessagesOfConversation(db.tables, conversationId), (m: Message) => -m.createdAt);
    forall i, j | 0 <= i < j < |r| ensures r[i].createdAt >= r[j].createdAt {
      assert -r[i].createdAt <= -r[j].createdAt;
    }
  }

  /** `getMessagesById`: the rows with that id, at most one by the key. */
  method GetMessagesById(db: Db, id: string) returns (r: seq<Message>)
    requires db.Valid()
    ensures forall m :: m in r <==> m in db.tables.messages && m.id == id
    ensures |r| <= 1
    ensures r == [] <==> forall m | m in db.tables.messages :: m.id != id
  {
    if m :| m in db.tables.messages && m.id == id {
      r := [m];
    } else {
      r := [];
    }
  }

  /** `deleteMessageById`: removes the rows with that id and returns them. Links
      to the message are not removed. */
  method DeleteMessageById(db: Db, id: string) returns (r: seq<Message>)
    requires db.Valid()
    modifies db`tables
    ensures db.Valid()
    ensures db.tables == old(db.tables).(messages := (set m | m in old(db.tables.messages) && m.id != id))
    ensures forall m :: m in r <==> m in old(db.tables.messages) && m.id == id
    ensures |r| <= 1
    ensures r == [] <==> forall m | m in old(db.tables.messages) :: m.id != id
  {
    if m :| m in db.tables.messages && m.id == id {
      r := [m];
    } else {
      r := [];
    }
    db.tables := db.tables.(messages := set m | m in db.tables.messages && m.id != id);
  }

  /** `deleteMessageByConversationId`, as its name describes. */
  method DeleteMessageByConversationId(db: Db, conversationId: string)
    requires db.Valid()
    modifies db`tables
    ensures db.Valid()
    ensures db.tables == old(db.tables).(messages :=
      (set m | m in old(db.tables.messages) && m.conversationId != conversationId))
  {
    db.tables := db.tables.(messages := set m | m in db.tables.messages && m.conversationId != conversationId);
  }

  /** A message's row after an update; the key, conversation and participant stay. */
  function ApplyMessageChanges(m: Message, changes: MessageChanges): (u: Message)
    ensures u.id == m.id && u.conversationId == m.conversationId && u.participantId == m.participantId
  {
    m.(content := if changes.content.Some? then changes.content.value else m.content,
       parentId := if changes.parentId.Some? then changes.parentId else m.parentId,
       collapsed := if changes.collapsed.Some? then changes.collapsed else m.collapsed,
       createdAt := if changes.createdAt.Some? then changes.createdAt.value else m.createdAt)
  }

  /** `updateMessageById`, as its name and its caller describe: rewrites the row with
      that id and returns the rewritten rows. */
  method UpdateMessageById(db: Db, id: string, changes: MessageChanges) returns (r: seq<Message>)
    requires db.Valid()
    modifies db`tables
    ensures db.Valid()
    ensures db.tables == old(db.tables).(messages :=
      (set m | m in old(db.tables.messages) && m.id != id)
      + (set m | m in old(db.tables.messages) && m.id == id :: ApplyMessageChanges(m, changes)))
    ensures r == [] <==> forall m | m in old(db.tables.messages) :: m.id != id
    ensures |r| <= 1
    ensures forall k | 0 <= k < |r| :: r[k] in db.tables.messages && r[k].id == id
    ensures r != [] ==> exists o :: o in old(db.tables.messages) && o.id == id && r == [ApplyMessageChanges(o, changes)]
  {
    if m :| m in db.tables.messages && m.id == id {
      r := [ApplyMessageChanges(m, changes)];
    } else {
      r := [];
    }
    db.tables := db.tables.(messages :=
      (set m | m in db.tables.messages && m.id != id)
      + (set m | m in db.tables.messages && m.id == id :: ApplyMessageChanges(m, changes)));
  }

  /** A row of `getMessagesWithParticipantByConversationId`. */
  datatype MessageView = MessageView(
    id: string,
    content: string,
    username: string,
    role: string,
    createdAt: int,
    parentId: Option<string>,
    collapsed: Option<string>,
    groupId: Option<string>)

  function ViewOf(m: Message, p: Participant, groupId: Option<string>): MessageView {
    MessageView(m.id, m.content, p.username, p.role, m.createdAt, m.parentId, m.collapsed, groupId)
  }

  /** The join: messages of the conversation, inner-joined with their participant
      and left-joined with their group links. */
  function JoinedRows(t: Tables, conversationId: string): set<MessageView> {
    (set m, p, l | m in t.messages && p in t.participants && l in t.groupMessages
       && m.conversationId == conversationId && m.participantId == p.id && l.messageId == m.id
       :: ViewOf(m, p, Some(l.messageGroupId)))
    + (set m, p | m in t.messages && p in t.participants
       && m.conversationId == conversationId && m.participantId == p.id
       && (forall l | l in t.groupMessages :: l.messageId != m.id)
       :: ViewOf(m, p, None))
  }

  /** Every row of the join is a message of the conversation seen with its own
      participant (the inner join). */
  lemma JoinedRowsComeFromConversation(t: Tables, conversationId: string)
    ensures forall v | v in JoinedRows(t, conversationId) ::
      exists m, p :: m in t.messages && p in t.participants && m.conversationId == conversationId
        && m.participantId == p.id && v == ViewOf(m, p, v.groupId)
  {
  }

  /** A message of the conversation with a participant appears once per group link,
      and once with no group when it has no link (the left join). */
  lemma JoinedRowsPerLink(t: Tables, conversationId: string, m: Message, p: Participant)
    requires m in t.messages && p in t.participants
    requires m.conversationId == conversationId && m.participantId == p.id
    ensures forall l | l in t.groupMessages && l.messageId == m.id ::
      ViewOf(m, p, Some(l.messageGroupId)) in JoinedRows(t, conversationId)
    ensures (forall l | l in t.groupMessages :: l.messageId != m.id) ==>
      ViewOf(m, p, None) in JoinedRows(t, conversationId)
  {
  }

  /** A row carries a group exactly when that link exists, and carries none only
      for a message without links. */
  lemma JoinedGroupIds(t: Tables, conversationId: string)
    ensures forall v | v in JoinedRows(t, conversationId) && v.groupId.Some? ::
      MessageGroupMessage(v.id, v.groupId.value) in t.groupMessages
    ensures forall v | v in JoinedRows(t, conversationId) && v.groupId.None? ::
      forall l | l in t.groupMessages :: l.messageId != v.id
  {
  }

  /** A message whose participant is missing does not appear at all. */
  lemma {:induction false} OrphanMessagesDropped(t: Tables, conversationId: string, m: Message)
    requires KeysUnique(t)
    requires m in t.messages
    requires forall p | p in t.participants :: p.id != m.participantId
    ensures forall v | v in JoinedRows(t, conversationId) :: v.id != m.id
  {
    forall v | v in JoinedRows(t, conversationId) ensures v.id != m.id {
      JoinedRowsComeFromConversation(t, conversationId);
      var m', p' :| m' in t.messages && p' in t.participants && m'.conversationId == conversationId
        && m'.participantId == p'.id && v == ViewOf(m', p', v.groupId);
      assert p'.id != m.participantId;
    }
  }

  /** `getMessagesWithParticipantByConversationId`: the rows of the join, each once,
      oldest first. */
  method GetMessagesWithParticipantByConversationId(db: Db, conversationId: string)
    returns (r: seq<MessageView>)
    requires db.Valid()
    ensures multiset(r) == multiset(JoinedRows(db.tables, conversationId))
    ensures forall i, j | 0 <= i < j < |r| :: r[i].createdAt <= r[j].createdAt
  {
    r := OrderBy(JoinedRows(db.tables, conversationId), (v: MessageView) => v.createdAt);
  }
}
