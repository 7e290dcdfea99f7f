/** The message routes of src/routes/messages.ts: posting a message with
    get-or-create of its participant and of the message itself, and the guarded
    delete and update. Any store failure inside the post handler is caught and
    answered with 400; earlier inserts of the same request stay. */
module MessagesRoute {
  import opened Values
  import opened Strings
  import opened Schema
  import opened Store
  import opened ParticipantsDb
  import opened MessagesDb
  import opened MessageGroupsDb
  import opened MessageGroupMessagesDb

  /** The body fields the post handler reads. */
  datatype MessageBody = MessageBody(
    username: Option<string>,
    role: Option<string>,
    id: Option<string>,
    content: Option<string>,
    parentId: Option<string>,
    groupId: Option<string>)

  datatype PostOutcome =
    | PostFailed(status: int, error: string)
    | Posted(message: Message, groupId: Option<string>)  // the message, and `groupId` or null

  const PostError: string := "Failed to create message"

  predicate HasUsername(t: Tables, username: string) {
    exists p :: p in t.participants && p.username == username
  }

  predicate HasMessage(t: Tables, id: string) {
    exists m :: m in t.messages && m.id == id
  }

  /** The username given to a participant created for a body without one. */
  function GeneratedUsername(now: nat): string {
    "participant_" + DecimalString(now)
  }

  /** The message id: the body's when non-empty, else a random draw in decimal. */
  function MessageIdFor(body: MessageBody, draw: nat): (id: string)
    ensures Present(body.id) ==> id == body.id.value
    ensures !Present(body.id) ==> id == DecimalString(draw)
    ensures id != ""
  {
    OrElse(body.id, DecimalString(draw))
  }

  /** The username the handler looks up or creates. */
  function UsernameFor(body: MessageBody, now: nat): string {
    if Present(body.username) then body.username.value else GeneratedUsername(now)
  }

  /** The link the handler adds: only for a non-empty `groupId` naming an existing group. */
  function LinkToAdd(t: Tables, body: MessageBody, messageId: string): set<MessageGroupMessage> {
    if Present(body.groupId) && CheckMessageGroupExists(t, body.groupId.value)
    then {MessageGroupMessage(messageId, body.groupId.value)} else {}
  }

  /** The first step of the post handler: the participant with the body's username,
      created with role `body.role` or "user" when unknown; without a username, a
      new participant named after the clock. Creating that one fails when the
      generated name is taken, and then nothing changes. */
  method ResolveParticipant(db: Db, body: MessageBody, now: nat) returns (p: Option<Participant>)
    requires db.Valid()
    modifies db
    ensures db.Valid()
    ensures db.tables == old(db.tables).(participants := db.tables.participants)
    ensures p.None? <==> !Present(body.username) && HasUsername(old(db.tables), GeneratedUsername(now))
    ensures p.None? ==> db.tables == old(db.tables) && db.nextParticipantId == old(db.nextParticipantId)
    ensures p.Some? ==> p.value in db.tables.participants && p.value.username == UsernameFor(body, now)
    ensures HasUsername(old(db.tables), UsernameFor(body, now)) && Present(body.username) ==>
      db.tables.participants == old(db.tables.participants) && db.nextParticipantId == old(db.nextParticipantId)
    ensures p.Some? && !HasUsername(old(db.tables), UsernameFor(body, now)) ==>
      && p.value == Participant(old(db.nextParticipantId), UsernameFor(body, now), OrElse(body.role, "user"),
                                db.defaultTime, db.defaultTime)
      && db.tables.participants == old(db.tables.participants) + {p.value}
      && db.nextParticipantId == old(db.nextParticipantId) + 1
  {
    if Present(body.username) {
      p := GetParticipantByUsername(db, body.username.value);
      if p.None? {
        p := CreateParticipant(db, body.username.value, OrElse(body.role, "user"));
      }
    } else {
      p := CreateParticipant(db, GeneratedUsername(now), OrElse(body.role, "user"));
    }
  }

  /** The second step: the message with the resolved id if one exists, wherever it
      belongs; otherwise a new message of this conversation by `participant`. The
      insert fails when the body has no content. `groupId` never reaches the row. */
  method GetOrCreateMessage(db: Db, conversationId: string, body: MessageBody, participant: Participant, draw: nat)
    returns (m: Option<Message>)
    requires db.Valid()
    modifies db`tables
    ensures db.Valid()
    ensures db.tables == old(db.tables).(messages := db.tables.messages)
    ensures HasMessage(old(db.tables), MessageIdFor(body, draw)) ==>
      && db.tables.messages == old(db.tables.messages)
      && m.Some? && m.value in old(db.tables.messages) && m.value.id == MessageIdFor(body, draw)
    ensures !HasMessage(old(db.tables), MessageIdFor(body, draw)) ==>
      && (m.None? <==> body.content.None?)
      && (m.None? ==> db.tables == old(db.tables))
      && (m.Some? ==>
            && m.value == NewMessageRow(NewMessage(MessageIdFor(body, draw), body.content, conversationId,
                                                   participant.id, body.parentId), db.defaultTime)
            && db.tables.messages == old(db.tables.messages) + {m.value})
  {
    var messageId := MessageIdFor(body, draw);
    var existing := GetMessagesById(db, messageId);
    if |existing| > 0 {
      assert existing[0] in existing;
      m := Some(existing[0]);
    } else {
      m := CreateMessage(db, NewMessage(messageId, body.content, conversationId, participant.id, body.parentId));
    }
  }

  /** The third step: link the message to the body's group when the group exists;
      an existing link makes the insert fail. */
  method LinkToGroup(db: Db, body: MessageBody, messageId: string) returns (ok: bool)
    requires db.Valid()
    modifies db`tables
    ensures db.Valid()
    ensures db.tables == old(db.tables).(groupMessages := db.tables.groupMessages)
    ensures ok <==> LinkToAdd(old(db.tables), body, messageId) !! old(db.tables.groupMessages)
    ensures ok ==> db.tables.groupMessages == old(db.tables.groupMessages) + LinkToAdd(old(db.tables), body, messageId)
    ensures !ok ==> db.tables == old(db.tables)
  {
    ok := true;
    if Present(body.groupId) {
      var groupExists := CheckMessageGroupExists(db.tables, body.groupId.value);
      if groupExists {
        var link := CreateMessageGroupMessage(db, messageId, body.groupId.value);
        ok := link.Some?;
      }
    }
  }

  /** `POST /conversations/:conversationId`: the three steps in order, stopping at
      the first failure with 400. `now` is the `Date.now()` read and `draw` the
      random id below 1000000. */
  method PostMessage(db: Db, conversationId: string, body: MessageBody, now: nat, draw: nat)
    returns (out: PostOutcome)
    requires db.Valid()
    requires draw < 1000000
    modifies db
    ensures db.Valid()
    // only the participants, messages and links tables can change
    ensures db.tables.folders == old(db.tables.folders) && db.tables.conversations == old(db.tables.conversations)
    ensures db.tables.members == old(db.tables.members) && db.tables.groups == old(db.tables.groups)
    // the participant: reused when the username is known, else created once
    ensures Present(body.username) && HasUsername(old(db.tables), body.username.value) ==>
      db.tables.participants == old(db.tables.participants) && db.nextParticipantId == old(db.nextParticipantId)
    ensures !HasUsername(old(db.tables), UsernameFor(body, now)) ==>
      && db.tables.participants == old(db.tables.participants)
         + {Participant(old(db.nextParticipantId), UsernameFor(body, now), OrElse(body.role, "user"),
                        db.defaultTime, db.defaultTime)}
      && db.nextParticipantId == old(db.nextParticipantId) + 1
    ensures !Present(body.username) && HasUsername(old(db.tables), GeneratedUsername(now)) ==>
      out == PostFailed(400, PostError) && db.tables == old(db.tables)
    // the message: reused when the id is known, else inserted
    ensures HasMessage(old(db.tables), MessageIdFor(body, draw)) ==> db.tables.messages == old(db.tables.messages)
    ensures !HasMessage(old(db.tables), MessageIdFor(body, draw)) && body.content.None? ==>
      && out == PostFailed(400, PostError)
      && db.tables.messages == old(db.tables.messages) && db.tables.groupMessages == old(db.tables.groupMessages)
    // once the participant is resolved, a new message is inserted and stays, even when the link then fails
    ensures !HasMessage(old(db.tables), MessageIdFor(body, draw)) && body.content.Some?
            && (Present(body.username) || !HasUsername(old(db.tables), GeneratedUsername(now))) ==>
      exists m: Message :: m.id == MessageIdFor(body, draw) && m.conversationId == conversationId
                  && db.tables.messages == old(db.tables.messages) + {m}
    ensures out.Posted? ==>
      && out.message in db.tables.messages && out.message.id == MessageIdFor(body, draw)
      && (HasMessage(old(db.tables), out.message.id) ==> out.message in old(db.tables.messages))
      && (!HasMessage(old(db.tables), out.message.id) ==>
            && db.tables.messages == old(db.tables.messages) + {out.message}
            && out.message.conversationId == conversationId
            && Some(out.message.content) == body.content && out.message.parentId == body.parentId
            && exists p :: p in db.tables.participants && p.id == out.message.participantId
                           && p.username == UsernameFor(body, now))
    // the link, and the echoed group id
    ensures out.Posted? ==>
      && db.tables.groupMessages == old(db.tables.groupMessages) + LinkToAdd(old(db.tables), body, out.message.id)
      && LinkToAdd(old(db.tables), body, out.message.id) !! old(db.tables.groupMessages)
      && out.groupId == (if Present(body.groupId) then body.groupId else None)
    ensures out.PostFailed? ==> out == PostFailed(400, PostError) && db.tables.groupMessages == old(db.tables.groupMessages)
    ensures out.PostFailed? && db.tables.messages != old(db.tables.messages) ==>
      !(LinkToAdd(old(db.tables), body, MessageIdFor(body, draw)) !! old(db.tables.groupMessages))
    // when the post succeeds: a participant, a message (found or creatable) and a free link
    ensures out.Posted? <==>
      && (Present(body.username) || !HasUsername(old(db.tables), GeneratedUsername(now)))
      && (HasMessage(old(db.tables), MessageIdFor(body, draw)) || body.content.Some?)
      && LinkToAdd(old(db.tables), body, MessageIdFor(body, draw)) !! old(db.tables.groupMessages)
  {
    var participant := ResolveParticipant(db, body, now);
    if participant.None? {
      return PostFailed(400, PostError);
    }
    var message := GetOrCreateMessage(db, conversationId, body, participant.value, draw);
    if message.None? {
      return PostFailed(400, PostError);
    }
    assert LinkToAdd(db.tables, body, message.value.id) == LinkToAdd(old(db.tables), body, message.value.id);
    var linked := LinkToGroup(db, body, message.value.id);
    if !linked {
      return PostFailed(400, PostError);
    }
    out := Posted(message.value, if Present(body.groupId) then body.groupId else None);
  }

  /** The steps are not a transaction. A link left behind by a deleted message
      (deleting a message leaves its links) makes the link step fail for a new
      message with the same id: the post answers 400, yet the message inserted by
      that request stays. */
  method StaleLinkLeavesMessage() returns (out: PostOutcome, inserted: bool)
    ensures out == PostFailed(400, PostError)
    ensures inserted
  {
    var db := new Db(0);
    db.tables := db.tables.(
      participants := {Participant(1, "u", "user", 0, 0)},
      groups := {MessageGroup("g", "c", 0, 0)},
      groupMessages := {MessageGroupMessage("m", "g")});
    db.nextParticipantId := 2;
    var before := db.tables.messages;
    var body := MessageBody(Some("u"), None, Some("m"), Some("hi"), None, Some("g"));
    assert MessageIdFor(body, 0) == "m";
    assert LinkToAdd(db.tables, body, "m") == {MessageGroupMessage("m", "g")};
    out := PostMessage(db, "c", body, 5, 0);
    inserted := db.tables.messages != before;
  }

  /** Posting again a message that exists, for a known user and without a group,
      answers with that message and changes nothing. */
  method RepostReturnsExisting() returns (out: PostOutcome, kept: bool)
    ensures out.Posted? && out.message == Message("m", "c", 1, "hi", None, None, 0)
    ensures kept
  {
    var db := new Db(0);
    var existing := Message("m", "c", 1, "hi", None, None, 0);
    db.tables := db.tables.(
      participants := {Participant(1, "u", "user", 0, 0)},
      messages := {existing});
    db.nextParticipantId := 2;
    var before := db.tables;
    var body := MessageBody(Some("u"), None, Some("m"), None, None, None);
    assert MessageIdFor(body, 0) == "m";
    assert HasMessage(db.tables, "m") by { assert existing in db.tables.messages; }
    assert HasUsername(db.tables, "u") by { assert Participant(1, "u", "user", 0, 0) in db.tables.participants; }
    out := PostMessage(db, "c", body, 5, 0);
    kept := db.tables == before;
  }

  /** `DELETE /conversations/:conversationId/:messageId`: 404 when no row was
      removed. The conversation in the path is not checked. */
  method DeleteMessage(db: Db, messageId: string) returns (status: int, text: string)
    requires db.Valid()
    modifies db`tables
    ensures db.Valid()
    ensures db.tables == old(db.tables).(messages := (set m | m in old(db.tables.messages) && m.id != messageId))
    ensures status == 404 <==> !HasMessage(old(db.tables), messageId)
    ensures status == 404 ==> text == "Message not found"
    ensures status != 404 ==> status == 200 && text == "Message deleted successfully"
  {
    var result := DeleteMessageById(db, messageId);
    if |result| == 0 {
      return 404, "Message not found";
    }
    return 200, "Message deleted successfully";
  }

  /** The body of the update handler: the three key fields it strips, and the rest. */
  datatype MessageUpdateBody = MessageUpdateBody(
    id: Option<string>,
    conversationId: Option<string>,
    participantId: Option<int>,
    rest: MessageChanges)

  /** `PUT /conversations/:conversationId/:messageId`: 404 when no row matched; the
      key, conversation and participant of a message never change. */
  method UpdateMessage(db: Db, messageId: string, body: MessageUpdateBody) returns (status: int, rows: seq<Message>)
    requires db.Valid()
    modifies db`tables
    ensures db.Valid()
    ensures db.tables == old(db.tables).(messages :=
      (set m | m in old(db.tables.messages) && m.id != messageId)
      + (set m | m in old(db.tables.messages) && m.id == messageId :: ApplyMessageChanges(m, body.rest)))
    ensures status == 404 <==> !HasMessage(old(db.tables), messageId)
    ensures status == 404 ==> db.tables == old(db.tables) && rows == []
    ensures status != 404 ==> status == 200 && |rows| == 1 && rows[0].id == messageId
    ensures status == 200 ==>
      exists o :: o in old(db.tables.messages) && o.id == messageId && rows == [ApplyMessageChanges(o, body.rest)]
    ensures forall m | m in db.tables.messages ::
      exists o :: o in old(db.tables.messages) && o.id == m.id && o.conversationId == m.conversationId
        && o.participantId == m.participantId
    ensures forall m | m in old(db.tables.messages) && m.id != messageId :: m in db.tables.messages
  {
    var result := UpdateMessageById(db, messageId, body.rest);
    if |result| == 0 {
      return 404, [];
    }
    return 200, result;
  }
}
