/** The conversation routes of src/routes/conversations.ts that do more than
    forward: the message-groups listing, the guarded update, and the delete that
    cascades through groups, links and messages. */
module ConversationsRoute {
  import opened Values
  import opened Schema
  import opened Store
  import opened ConversationsDb
  import opened MessagesDb
  import opened MessageGroupsDb
  import opened MessageGroupMessagesDb

  predicate HasConversation(t: Tables, id: string) {
    exists c :: c in t.conversations && c.id == id
  }

  const NotFound: string := "Conversation not found"

  datatype GroupsReply =
    | GroupsNotFound(status: int, error: string)
    | GroupsListed(groups: set<MessageGroup>)

  /** `GET /:id/message-groups`: 404 for an unknown conversation, otherwise exactly
      the groups that name it. */
  method GetConversationMessageGroups(db: Db, id: string) returns (out: GroupsReply)
    ensures out.GroupsNotFound? <==> !HasConversation(db.tables, id)
    ensures out.GroupsNotFound? ==> out == GroupsNotFound(404, NotFound)
    ensures out.GroupsListed? ==> forall g :: g in out.groups <==> g in db.tables.groups && g.conversationId == id
  {
    var conversation := GetConversationById(db, id);
    if conversation.None? {
      return GroupsNotFound(404, NotFound);
    }
    out := GroupsListed(GroupsOfConversation(db.tables, id));
  }

  /** The update body as it arrives: the updatable columns, and the `id` and
      `createdAt` a client may also send (`createdAt` as any JSON value). */
  datatype ConversationBody = ConversationBody(id: Option<string>, createdAt: Option<JsValue>, changes: ConversationChanges)

  const UpdateFailed: string := "Failed to update conversation"

  /** The row `PUT /:id` writes as written: the whole body is spread into the update,
      so a body `id` replaces the key. A body `createdAt` reaches the timestamp column,
      whose conversion needs a date, so the update throws and nothing is written (None). */
  function ApplyBodyAsWritten(c: Conversation, body: ConversationBody, now: int): (u: Option<Conversation>)
    ensures u.None? <==> body.createdAt.Some?
    ensures u.Some? && body.id.Some? ==> u.value.id == body.id.value
    ensures u.Some? && body.id.None? ==> u.value == ApplyConversationChanges(c, body.changes, now)
    ensures u.Some? ==> u.value.createdAt == c.createdAt && u.value.updatedAt == now
  {
    if body.createdAt.Some? then None
    else
      var u := ApplyConversationChanges(c, body.changes, now);
      Some(if body.id.Some? then u.(id := body.id.value) else u)
  }

  /** A body naming another id moves conversation "a" to key "b", and the reply's
      `data.id` is "b", not the path id. */
  lemma PutAsWrittenRenamesKey()
    ensures var c := Conversation("a", "title", Some(""), Some("1"), None, 0, 0);
      var body := ConversationBody(Some("b"), None, ConversationChanges(None, None, None, None));
      ApplyBodyAsWritten(c, body, 1) == Some(Conversation("b", "title", Some(""), Some("1"), None, 0, 1))
  {
  }

  datatype PutReply =
    | PutNotFound(status: int, error: string)
    | PutFailed(status: int, error: string)
    | PutDone(data: ConversationSummary)

  /** `PUT /:id` with the body's `id` left out of the update: 404 for an unknown
      conversation; 500 from the handler's catch when the body carries `createdAt`
      (the update throws before writing); otherwise the row is rewritten under the
      same key. */
  method PutConversation(db: Db, id: string, body: ConversationBody, now: int) returns (out: PutReply)
    requires db.Valid()
    modifies db`tables
    ensures db.Valid()
    ensures !HasConversation(old(db.tables), id) ==> out == PutNotFound(404, NotFound) && db.tables == old(db.tables)
    ensures HasConversation(old(db.tables), id) && body.createdAt.Some? ==>
      out == PutFailed(500, UpdateFailed) && db.tables == old(db.tables)
    ensures HasConversation(old(db.tables), id) && body.createdAt.None? ==>
      && out.PutDone? && out.data.id == id && out.data.updatedAt == now
      && (exists o :: o in old(db.tables.conversations) && o.id == id
                      && out.data == Summary(ApplyConversationChanges(o, body.changes, now)))
      && db.tables == old(db.tables).(conversations :=
           (set c | c in old(db.tables.conversations) && c.id != id)
           + (set c | c in old(db.tables.conversations) && c.id == id :: ApplyConversationChanges(c, body.changes, now)))
    ensures forall c | c in db.tables.conversations ::
      exists o :: o in old(db.tables.conversations) && o.id == c.id && o.createdAt == c.createdAt
    ensures forall o | o in old(db.tables.conversations) :: exists c :: c in db.tables.conversations && c.id == o.id
  {
    var conversation := GetConversationById(db, id);
    if conversation.None? {
      return PutNotFound(404, NotFound);
    }
    if body.createdAt.Some? {
      return PutFailed(500, UpdateFailed);
    }
    var updated := UpdateConversation(db, id, body.changes, now);
    if |updated| == 0 {
      assert false;
      return PutFailed(500, UpdateFailed);
    }
    out := PutDone(updated[0]);
    forall o | o in old(db.tables.conversations)
      ensures exists c :: c in db.tables.conversations && c.id == o.id
    {
      if o.id == id {
        assert ApplyConversationChanges(o, body.changes, now) in db.tables.conversations;
      } else {
        assert o in db.tables.conversations;
      }
    }
  }

  /** The ids of the groups of a conversation. */
  function GroupIds(t: Tables, conversationId: string): set<string> {
    set g | g in t.groups && g.conversationId == conversationId :: g.id
  }

  /** The ids of the messages linked to any of the groups `ids`. */
  function LinkedMessageIds(t: Tables, ids: set<string>): set<string> {
    set l | l in t.groupMessages && l.messageGroupId in ids :: l.messageId
  }

  /** The tables after the groups `ids`, their links and their linked messages are removed. */
  function WithoutGroups(t: Tables, ids: set<string>): Tables {
    t.(groupMessages := (set l | l in t.groupMessages && l.messageGroupId !in ids),
       groups := (set g | g in t.groups && g.id !in ids),
       messages := (set m | m in t.messages && m.id !in LinkedMessageIds(t, ids)))
  }

  /** The body of the outer loop for one group: each of its links is removed and the
      linked message deleted, then the group itself is deleted. */
  method DeleteGroupWithMessages(db: Db, groupId: string)
    requires db.Valid()
    modifies db`tables
    ensures db.Valid()
    ensures db.tables == WithoutGroups(old(db.tables), {groupId})
  {
    ghost var t1 := db.tables;
    var links := LinksOfGroup(db.tables, groupId);
    var todo := links;
    while todo != {}
      invariant todo <= links
      invariant db.Valid()
      invariant db.tables == t1.(
        groupMessages := t1.groupMessages - (links - todo),
        messages := (set m | m in t1.messages && m.id !in (set l | l in links - todo :: l.messageId)))
      decreases |todo|
    {
      var link :| link in todo;
      var _ := DeleteMessageGroupMessage(db, link.messageId, groupId);
      var _ := DeleteMessageById(db, link.messageId);
      todo := todo - {link};
    }
    var _ := DeleteMessageGroupById(db, groupId);
  }

  /** Removing one more group after others is removing them all at once. */
  lemma {:induction false} WithoutOneMoreGroup(t: Tables, ids: set<string>, id: string)
    requires id !in ids
    ensures WithoutGroups(WithoutGroups(t, ids), {id}) == WithoutGroups(t, ids + {id})
  {
    var u := WithoutGroups(t, ids);
    assert LinkedMessageIds(u, {id}) == LinkedMessageIds(t, {id}) by {
      forall x ensures x in LinkedMessageIds(u, {id}) <==> x in LinkedMessageIds(t, {id}) {
        if x in LinkedMessageIds(t, {id}) {
          var l :| l in t.groupMessages && l.messageGroupId in {id} && l.messageId == x;
          assert l in u.groupMessages;
        }
      }
    }
    assert LinkedMessageIds(t, ids + {id}) == LinkedMessageIds(t, ids) + LinkedMessageIds(t, {id});
  }

  datatype DeleteReply =
    | DeleteNotFound(status: int, error: string)
    | DeleteFailed(status: int, error: string)
    | DeleteDone(conversation: Conversation)

  /** `DELETE /:id`: 404 for an unknown conversation. Otherwise every group of the
      conversation goes with its links and linked messages, then the messages of the
      conversation, its members and the conversation row; the reply carries the row
      as it was before the delete. */
  method DeleteConversation(db: Db, id: string) returns (out: DeleteReply)
    requires db.Valid()
    modifies db`tables
    ensures db.Valid()
    ensures !HasConversation(old(db.tables), id) ==> out == DeleteNotFound(404, NotFound) && db.tables == old(db.tables)
    ensures HasConversation(old(db.tables), id) ==>
      && out.DeleteDone? && out.conversation in old(db.tables.conversations) && out.conversation.id == id
      && var cleared := WithoutGroups(old(db.tables), GroupIds(old(db.tables), id));
         db.tables == cleared.(
           messages := (set m | m in cleared.messages && m.conversationId != id),
           members := (set m | m in cleared.members && m.conversationId != id),
           conversations := (set c | c in cleared.conversations && c.id != id))
    ensures HasConversation(old(db.tables), id) ==>
      && (forall c | c in db.tables.conversations :: c.id != id)
      && (forall g | g in db.tables.groups :: g.conversationId != id)
      && (forall m | m in db.tables.messages :: m.conversationId != id)
      && (forall l | l in db.tables.groupMessages :: l.messageGroupId !in GroupIds(old(db.tables), id))
      && db.tables.folders == old(db.tables.folders) && db.tables.participants == old(db.tables.participants)
  {
    var conversation := GetConversationById(db, id);
    if conversation.None? {
      return DeleteNotFound(404, NotFound);
    }
    ghost var t0 := db.tables;
    var groups := GroupsOfConversation(db.tables, id);
    var todo := groups;
    ghost var done: set<string> := {};
    while todo != {}
      invariant todo <= groups
      invariant done == set g | g in groups - todo :: g.id
      invariant db.Valid()
      invariant db.tables == WithoutGroups(t0, done)
      decreases |todo|
    {
      var group :| group in todo;
      assert group.id !in done;
      DeleteGroupWithMessages(db, group.id);
      WithoutOneMoreGroup(t0, done, group.id);
      todo := todo - {group};
      done := done + {group.id};
    }
    assert done == GroupIds(t0, id);
    DeleteMessageByConversationId(db, id);
    var result := DeleteConversationById(db, id);
    if |result| == 0 {
      assert false;
      return DeleteFailed(500, "Failed to delete conversation");
    }
    out := DeleteDone(conversation.value);
  }
}
