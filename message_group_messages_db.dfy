/** The link table between messages and message groups
    (src/db/message-group-messages.ts). A row is its own key. */
module MessageGroupMessagesDb {
  import opened Values
  import opened Schema
  import opened Store

  /** `createMessageGroupMessage`: inserts the pair; a pair already present violates
      the primary key, the insert fails and nothing changes. */
  method CreateMessageGroupMessage(db: Db, messageId: string, messageGroupId: string)
    returns (r: Option<MessageGroupMessage>)
    requires db.Valid()
    modifies db`tables
    ensures db.Valid()
    ensures var link := MessageGroupMessage(messageId, messageGroupId);
      && (r.Some? <==> link !in old(db.tables.groupMessages))
      && (r.Some? ==> r.value == link
                      && db.tables == old(db.tables).(groupMessages := old(db.tables.groupMessages) + {link}))
      && (r.None? ==> db.tables == old(db.tables))
  {
    var link := MessageGroupMessage(messageId, messageGroupId);
    if link in db.tables.groupMessages {
      return None;
    }
    db.tables := db.tables.(groupMessages := db.tables.groupMessages + {link});
    r := Some(link);
  }

  /** `getMessageGroupMessagesByGroupId`: the links of one group. */
  function LinksOfGroup(t: Tables, messageGroupId: string): (links: set<MessageGroupMessage>)
    ensures forall l :: l in links <==> l in t.groupMessages && l.messageGroupId == messageGroupId
  {
    set l | l in t.groupMessages && l.messageGroupId == messageGroupId
  }

  /** `getMessageGroupMessagesByMessageId`: the links of one message. */
  function LinksOfMessage(t: Tables, messageId: string): (links: set<MessageGroupMessage>)
    ensures forall l :: l in links <==> l in t.groupMessages && l.messageId == messageId
  {
    set l | l in t.groupMessages && l.messageId == messageId
  }

  /** The links of one group and the links of one message meet in at most the
      one row that is their common key. */
  lemma LinksMeetInOneRow(t: Tables, messageId: string, messageGroupId: string)
    ensures LinksOfGroup(t, messageGroupId) * LinksOfMessage(t, messageId)
      == if MessageGroupMessage(messageId, messageGroupId) in t.groupMessages
         then {MessageGroupMessage(messageId, messageGroupId)} else {}
  {
  }

  /** `deleteMessageGroupMessage`: removes the rows matching both ids, that is at
      most the one pair, and returns them. */
  method DeleteMessageGroupMessage(db: Db, messageId: string, messageGroupId: string)
    returns (removed: seq<MessageGroupMessage>)
    requires db.Valid()
    modifies db`tables
    ensures db.Valid()
    ensures db.tables == old(db.tables).(groupMessages :=
      set l | l in old(db.tables.groupMessages) && !(l.messageId == messageId && l.messageGroupId == messageGroupId))
    ensures forall l :: l in removed <==>
      l in old(db.tables.groupMessages) && l.messageId == messageId && l.messageGroupId == messageGroupId
    ensures |removed| <= 1
  {
    var link := MessageGroupMessage(messageId, messageGroupId);
    removed := if link in db.tables.groupMessages then [link] else [];
    db.tables := db.tables.(groupMessages := set l | l in db.tables.groupMessages
      && !(l.messageId == messageId && l.messageGroupId == messageGroupId));
  }
}
