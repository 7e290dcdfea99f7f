# gpt4dev-chat-backend core, modelled in Dafny

This project models the logic of a small chat backend. The backend has five parts:

- **Mock chat-completion responder** (`src/routes/dummyCompletions.ts`). The request body decides two things. It is in prompt mode when `prompt` is an array. It is streamed when `stream` is true, and a `stream` that is not a boolean defaults to true. When streaming, the fixed reply is split on `"\n"`. Each line is sent as a `chat.completion.chunk` record in a Server-Sent-Events frame `data: <json>\n\n` (WHATWG HTML Living Standard, section 9.2). A terminator chunk and `data: [DONE]\n\n` end the stream. When buffered, the transport drains the generator and keeps the last value. It reshapes that value's choices into a chat-shape or prompt-shape `chat.completion` document.
- **Attachment handlers** (`src/routes/attachments.ts`). These are:
  - the MIME-to-extension table;
  - the filename and mimetype that the download handler derives;
  - the required-field checks of the create handler and the update handler.
- **Bearer-token middleware** (`src/middleware/auth.ts`).
- **Message routes** (`src/routes/messages.ts`). Posting gets or creates the participant, gets or creates the message, then links the message to a group. There is also a guarded delete and a guarded update.
- **Conversation routes** (`src/routes/conversations.ts`), and the **store operations** of `src/db/` that they call. These are a message-groups listing, a guarded update, and a delete that cascades through groups, links and messages.

**The store.** It is a class `Store.Db`. Its field `tables` holds one set of row values per table of `src/db/schema.ts`. It also has a participant-id counter, for the auto-increment key, and the time the schema defaults were captured. Each store function (create, update-where, delete-where, select) is a method over `db` that:

- states the whole new state of the tables;
- states the rows it returns;
- keeps the key-uniqueness invariant `Db.Valid()`.

The routes that work step by step are methods with loops and loop invariants: the conversation cascade, the generator loop and the drain loops. The pure parts are functions, with lemmas about them: the mode decisions, the choice reshaping, the filename derivation and the header check.

**Inputs that become parameters:**
- `Date.now()` is a parameter. It is a `clock` function (the k-th read) or a `now` value.
- A UUID or random id is a parameter (`freshId`, `draw`).
- `JSON.stringify` is an opaque serializer `enc`.
- The result of the download's `fetch` is a parameter.

## Model

| member | source | states |
|---|---|---|
| Completions.DefaultStream | src/routes/dummyCompletions.ts:153-155 | the defaulted flag is always a boolean: a boolean `stream` is kept, anything else becomes `true` |
| Completions.CreateCompletions | src/routes/dummyCompletions.ts:72-151 | a truthy `stream` yields one frame per line of the split reply, then the terminator-plus-`[DONE]` payload; otherwise exactly one value, the buffered response |
| Completions.StreamShape | src/routes/dummyCompletions.ts:94-137 | streaming gives N = 3 content frames and one final payload (4 in all). Frame i is `SseFrame(enc(chunk))`, where the chunk has index i, delta content lines[i], null finish reason, `done = true` and kind `chat.completion.chunk`. The last payload is the chunk with index N, finish reason "done" and empty content, followed by the `[DONE]` frame |
| Completions.ReplySplitsIntoThreeLines | src/routes/dummyCompletions.ts:74-76 | the canned reply splits on "\n" into exactly its three lines, each keeping its leading and trailing spaces |
| Completions.ReplyLinesJoin | src/routes/dummyCompletions.ts:74-76 | joining those three lines with "\n" gives back the reply literal |
| Completions.ContentsRejoinToReply | src/routes/dummyCompletions.ts:94-110 | joining the delta contents of the content frames with "\n" reproduces the reply exactly |
| Completions.ChunkIdsFollowClock | src/routes/dummyCompletions.ts:101-106 | two content frames whose clock reads differ carry different ids |
| Completions.SendStreamResult | src/routes/dummyCompletions.ts:7-26 | the body written is every yielded chunk concatenated, in order |
| Completions.StreamWritten | src/routes/dummyCompletions.ts:120-137 | the streamed body is the SSE framing of the chunk encodings followed by `[DONE]`; the terminator and `[DONE]` frames are in the same payload |
| Completions.ParseFrames | src/routes/dummyCompletions.ts:99-137 | an event-stream parser reading back any sequence of framed data lines without line breaks returns exactly those lines |
| Completions.StreamDecodes | src/routes/dummyCompletions.ts:94-137 | when the serializer emits no line break, parsing the streamed body returns every chunk encoding and `[DONE]`, in order |
| Completions.ShapeChoices | src/routes/dummyCompletions.ts:48-68 | one output choice per input choice, with index = position and finish reason "stop". Prompt mode gives `{index, role, text}`; otherwise `{index, message: {role, content}}`. Role and content are copied |
| Completions.SendResult | src/routes/dummyCompletions.ts:27-71 | only the last yielded value is used. A document exists iff that value has choices. The document is `chat.completion` with id and created taken from the clock and the choices reshaped |
| Completions.BufferedDocumentShape | src/routes/dummyCompletions.ts:138-150 | the buffered document has one choice: role "assistant" with the whole, unsplit reply (it still contains "\n"), in prompt shape or chat shape |
| Completions.IsPromptMode | src/routes/dummyCompletions.ts:4-6 | prompt mode holds iff `prompt` is an array; a string, object, null or absent `prompt` gives chat mode |
| Completions.HandleDummyCompletions | src/routes/dummyCompletions.ts:152-165 | `stream` is defaulted in place and the other fields are unchanged. The response is an event stream iff the defaulted flag is true. That stream carries the framed chunk sequence; otherwise the response is the 200 JSON buffered document, with prompt mode iff `prompt` is an array |
| Completions.ChatRequest.constructor | src/routes/dummyCompletions.ts:152 | the request holds the given model, stream and prompt fields |
| Strings.Split | src/routes/dummyCompletions.ts:94 | `split` returns at least one piece, and no piece contains the separator |
| Strings.JoinSplit | src/routes/dummyCompletions.ts:94 | joining the pieces of a split with the separator gives back the string |
| Strings.SplitJoin | src/routes/dummyCompletions.ts:94 | splitting a join of separator-free pieces gives back the pieces |
| Strings.SplitCount | src/routes/dummyCompletions.ts:94 | a split has one more piece than the string has separators |
| Strings.LastPieceIsSuffix | src/routes/attachments.ts:113 | the last piece of a split is a suffix of the string, preceded by the separator or at the start |
| Strings.DecimalString | src/routes/messages.ts:41 | the decimal form of a number is non-empty, all digits, with no leading zero |
| Strings.DecimalRoundTrip | src/routes/messages.ts:41 | reading the decimal form of n back gives n |
| Strings.DecimalStringInjective | src/routes/messages.ts:41 | different numbers have different decimal forms |
| Values.OrElse | src/routes/messages.ts:32 | the `a \|\| b` default for a string: the value when non-empty, else the fallback; non-empty whenever the fallback is |
| Values.Field | src/routes/attachments.ts:53-59 | a missing body key reads as `undefined`; a present key reads as its value |
| Auth.AuthMiddleware | src/middleware/auth.ts:5-28 | 401 "Missing or invalid authorization token" iff the header is absent or lacks the `Bearer ` prefix. 401 "Invalid authorization token" iff the header is exactly `Bearer `. Otherwise the demo user (id 1, "demo_participant") is set, with the token being the header minus its first 7 characters |
| Auth.BearerAccepted | src/middleware/auth.ts:17-27 | every header `Bearer ` + t with non-empty t is accepted with token t |
| Attachments.GetExtensionFromMimetype | src/routes/attachments.ts:14-43 | each listed type gives its mapped extension and any other string gives ""; a non-empty extension starts with "." |
| Attachments.ExtensionTable | src/routes/attachments.ts:15-40 | every listed type maps to a non-empty extension; `application/octet-stream` maps to none |
| Attachments.UrlFilename | src/routes/attachments.ts:113 | the name is non-empty and has no "/". It is "downloaded_file" when the URL is empty or ends in "/". Otherwise it is the text after the last "/" |
| Attachments.WithExtension | src/routes/attachments.ts:121-124 | a non-empty extension ends up as a suffix; it is appended only when absent; an empty extension leaves the name unchanged |
| Attachments.WithExtensionIdempotent | src/routes/attachments.ts:121-124 | applying the extension step twice equals applying it once |
| Attachments.DownloadAttachment | src/routes/attachments.ts:77-142 | 400 "URL is required" without a URL; 500 when the fetch throws; 400 when the response is not ok. Otherwise the mimetype is the content-type or `application/octet-stream`, and the filename is the body's filename or the URL name, with the extension added |
| Attachments.CreateAttachment | src/routes/attachments.ts:48-74 | 400 "Filename is required" is checked before 400 "Mimetype is required". An insert happens iff both fields are truthy, with the fields as given. The id is the body's when truthy, else the decimal rendering of the random draw |
| Attachments.UpdateAttachment | src/routes/attachments.ts:173-193 | 404 "Attachment not found" iff the attachment is absent. Otherwise every body field except `id` is forwarded unchanged, under the path id |
| Store.Db.constructor | src/db/schema.ts:9-104 | an empty store that satisfies the key invariant, with the participant counter at 1 |
| Sorting.InsertSorted | src/db/conversations.ts:42 | inserting into a sorted sequence keeps it sorted and adds exactly that element |
| Sorting.OrderBy | src/db/conversations.ts:42 | `orderBy` returns the rows sorted by the key, each row exactly once |
| ParticipantsDb.CreateParticipant | src/db/participants.ts:11-13 | the insert fails, changing nothing, iff the username is taken (unique column). Otherwise the row takes the next auto-increment id and the schema default timestamps |
| ParticipantsDb.GetParticipantByUsername | src/db/participants.ts:23-29 | the participant with that username, or none iff there is none |
| ConversationsDb.NewConversationRow | src/db/conversations.ts:15-23 | a non-empty given id is kept, else a fresh one is used. A given system message or enable flag is stored as given, even when empty. An absent one takes its column default, "" or "1". Both timestamps take the schema default |
| ConversationsDb.CreateConversation | src/db/conversations.ts:15-23 | inserts that row iff its id is free; otherwise nothing changes |
| ConversationsDb.GetConversationById | src/db/conversations.ts:25-31 | the conversation with that id, or none iff there is none |
| ConversationsDb.GetAllConversations | src/db/conversations.ts:33-44 | one summary per conversation, each from a real row, ordered by `updatedAt` descending |
| ConversationsDb.ApplyConversationChanges | src/db/conversations.ts:58-80 | an update keeps id and createdAt, sets updatedAt to now, and takes the given title or keeps the old one |
| ConversationsDb.UpdateConversation | src/db/conversations.ts:58-80 | only the row with that id is rewritten. The result is [] iff no row matched; otherwise it is the one rewritten row's summary |
| ConversationsDb.DeleteConversationById | src/db/conversations.ts:82-103 | removes exactly the conversation's messages, members and row, and returns the removed row; [] iff it was absent. Groups, links, folders and participants are untouched |
| MessageGroupsDb.CreateMessageGroup | src/db/message-groups.ts:12-20 | a given id is kept, else a fresh one is used. The insert happens iff that id is free |
| MessageGroupsDb.GetMessageGroupById | src/db/message-groups.ts:28-34 | the group with that id, or none iff there is none |
| MessageGroupsDb.GroupsOfConversation | src/db/message-groups.ts:36-42 | exactly the groups whose conversationId matches |
| MessageGroupsDb.CheckMessageGroupExists | src/db/message-groups.ts:44-52 | true iff a group with that id exists |
| MessageGroupsDb.ApplyGroupChanges | src/db/message-groups.ts:54-71 | an update keeps the id and sets updatedAt to now |
| MessageGroupsDb.UpdateMessageGroup | src/db/message-groups.ts:54-71 | only the row with that id is rewritten. The result is [] iff absent; otherwise the one rewritten row |
| MessageGroupsDb.DeleteMessageGroupById | src/db/message-groups.ts:73-86 | removes every link of the group, then the group, and returns exactly the removed group rows; [] iff absent. Messages and other groups are untouched |
| MessageGroupMessagesDb.CreateMessageGroupMessage | src/db/message-group-messages.ts:13-20 | inserts the (message, group) pair iff it is not already present (composite key) |
| MessageGroupMessagesDb.LinksOfGroup | src/db/message-group-messages.ts:22-30 | exactly the links with that group id |
| MessageGroupMessagesDb.LinksOfMessage | src/db/message-group-messages.ts:32-38 | exactly the links with that message id |
| MessageGroupMessagesDb.LinksMeetInOneRow | src/db/message-group-messages.ts:22-38 | a group's links and a message's links share at most the one row with that pair |
| MessageGroupMessagesDb.DeleteMessageGroupMessage | src/db/message-group-messages.ts:40-55 | removes only the rows matching both ids and returns exactly them (at most one); all other links stay |
| FoldersDb.CreateFolder | src/db/folders.ts:15-23 | a given id is kept, else a fresh one is used. The insert happens iff that id is free |
| FoldersDb.GetFolderById | src/db/folders.ts:25-27 | the folder with that id, or none iff there is none |
| FoldersDb.GetAllFolders | src/db/folders.ts:29-31 | every folder once, ordered by `updatedAt` descending |
| FoldersDb.ApplyFolderChanges | src/db/folders.ts:33-47 | an update keeps id and createdAt and sets updatedAt to now |
| FoldersDb.UpdateFolder | src/db/folders.ts:33-47 | only the matching row is rewritten; [] iff absent; at most one row returned |
| FoldersDb.DeleteFolderById | src/db/folders.ts:49-57 | removes the conversations filed in the folder, then the folder. Conversations in other folders or none stay. Returns exactly the removed folder rows; [] iff absent |
| MessagesDb.CreateMessage | src/db/messages.ts:11-13 | the insert happens iff content is present and the id is free. The new row has `collapsed` "0" and the default timestamp |
| MessagesDb.GetMessagesByConversationId | src/db/messages.ts:15-22 | exactly the conversation's messages, each once, ordered by createdAt descending |
| MessagesDb.GetMessagesById | src/db/messages.ts:23-30 | exactly the rows with that id: at most one, and [] iff absent |
| MessagesDb.DeleteMessageById | src/db/messages.ts:31-39 | removes exactly the rows with that id and returns them; other messages stay |
| MessagesDb.DeleteMessageByConversationId | src/db/models.ts:31 | removes exactly the messages of that conversation |
| MessagesDb.ApplyMessageChanges | src/db/models.ts:30 | an update never changes id, conversationId or participantId |
| MessagesDb.UpdateMessageById | src/db/models.ts:30 | only the row with that id is rewritten; [] iff absent; at most one row returned |
| MessagesDb.JoinedRowsComeFromConversation | src/db/messages.ts:42-62 | every joined row is a message of the conversation paired with its own participant (inner join) |
| MessagesDb.JoinedRowsPerLink | src/db/messages.ts:42-62 | a message with a participant appears once per group link. With no link it appears once, with a null group (left join) |
| MessagesDb.JoinedGroupIds | src/db/messages.ts:54-60 | a row's group id names an existing link of that message. A null group id appears only for a message without links |
| MessagesDb.OrphanMessagesDropped | src/db/messages.ts:56-59 | a message whose participant is missing does not appear |
| MessagesDb.GetMessagesWithParticipantByConversationId | src/db/messages.ts:42-62 | exactly the joined rows, each once, ordered by createdAt ascending |
| MessagesRoute.MessageIdFor | src/routes/messages.ts:55-57 | a non-empty body id is used, else the random draw in decimal; never empty |
| MessagesRoute.ResolveParticipant | src/routes/messages.ts:23-46 | a known username is reused and nothing is inserted. An unknown one is created once, with role `body.role` or "user". Without a username, a participant named after the clock is created. If that generated name is taken, the step fails and nothing changes |
| MessagesRoute.GetOrCreateMessage | src/routes/messages.ts:54-69 | an existing message with the resolved id is returned and nothing is inserted. Otherwise the new message is inserted, or nothing is inserted when content is missing. `groupId` never reaches the row |
| MessagesRoute.LinkToGroup | src/routes/messages.ts:73-83 | a link is inserted only for a non-empty `groupId` that names an existing group; a duplicate link fails |
| MessagesRoute.PostMessage | src/routes/messages.ts:17-96 | these three steps in order; any failure gives 400 "Failed to create message". The post succeeds exactly when the participant resolves, the message exists or the body has content, and the link to add is not already there. Only the participants, messages and links tables change. A failed post adds no link. Missing content adds no message. Once the participant is resolved, a new message is inserted even if the link step then fails. A posted message with a new id belongs to the conversation, with the body's content and parent and the resolved participant. The response echoes `groupId`, or null |
| MessagesRoute.StaleLinkLeavesMessage | src/routes/messages.ts:65-94 | a concrete store where a link left by a deleted message makes the post answer 400 while the message it inserted stays |
| MessagesRoute.RepostReturnsExisting | src/routes/messages.ts:65-91 | a concrete store where re-posting an existing message for a known user, with no group, answers 200 with that message and changes nothing |
| MessagesRoute.DeleteMessage | src/routes/messages.ts:115-136 | 404 "Message not found" iff no row was removed; otherwise 200 after removing exactly that message |
| MessagesRoute.UpdateMessage | src/routes/messages.ts:139-165 | 404 iff no row matched, with nothing changed. Otherwise 200, and the reply is exactly the old row with the body's other fields applied. The new tables are the old ones with only that row rewritten. No message's id, conversationId or participantId changes, whatever the body says |
| ConversationsRoute.GetConversationMessageGroups | src/routes/conversations.ts:71-95 | 404 "Conversation not found" iff the conversation is absent; otherwise exactly the groups naming it |
| ConversationsRoute.ApplyBodyAsWritten | src/routes/conversations.ts:125 | as written, a body `id` replaces the row's key, and the other fields are updated as usual. A body `createdAt` makes the update throw, so nothing is written |
| ConversationsRoute.PutAsWrittenRenamesKey | src/routes/conversations.ts:125 | the body `{"id": "b"}` sent to conversation "a" rewrites the row under key "b", so the reply's `data.id` is "b" |
| ConversationsRoute.PutConversation | src/routes/conversations.ts:113-146 | 404 iff the conversation is absent, with nothing changed. A body `createdAt` gives 500 "Failed to update conversation" from the catch, with nothing changed. Otherwise only the row is rewritten, with the body's updatable columns, and the reply is its summary. Every row keeps its id and createdAt, and no conversation disappears |
| ConversationsRoute.DeleteGroupWithMessages | src/routes/conversations.ts:161-178 | for one group: its links and the messages they reference are removed, then the group |
| ConversationsRoute.WithoutOneMoreGroup | src/routes/conversations.ts:160-178 | clearing the groups one at a time equals clearing them all at once, whatever the order |
| ConversationsRoute.DeleteConversation | src/routes/conversations.ts:149-205 | 404 with nothing deleted for an absent conversation. Otherwise, first every group of the conversation goes, with its links and linked messages. Then the conversation's remaining messages, its members and its row go. The reply carries the pre-delete row. No conversation, group or message of it remains, and folders and participants are untouched |

## Left out

- Pacing and transport are not modelled: the 256 ms delay, `streamSSE` and the header calls. The stream is the sequence of payloads, and the response carries the headers as data.
- `Date.now()`, `uuidv4`, `randomUUID` and `Math.random` are parameters.
- `JSON.stringify` and `TextEncoder` are an opaque serializer `enc`. A payload's bytes are its text.
- The unused `data` object in `createCompletions` is not modelled. Its two `Date.now()` reads are the clock reads 0 and 1.
- Completions.CreateCompletions: the generator branch reads the truthiness of `stream`. The handler always passes a boolean, so both readings agree there.
- Completions.SendResult: the exception the source raises when the last value has no `choices` is modelled as `None`. The handler never reaches it, because the buffered generator always yields a value with choices.
- The download's `fetch`, directory creation and file write are not modelled. Only the fetch outcome and its content-type are inputs.
- Attachments.CreateAttachment: the returned outcome describes the insert. The attachments table is not declared in `src/db/schema.ts` and is not part of this store.
- Attachments.GetExtensionFromMimetype: inherited `Object.prototype` keys such as `"toString"` are treated as absent. The JavaScript lookup would return a function for them.
- Attachments.ExtensionTable does not state that the table has 21 entries. The lemma states the per-entry facts instead.
- Non-string body fields and numeric ids are not modelled. The routes take them as strings, and `body.id.toString()` is the identity.
- Values.OrElse: an explicit `null` for a defaulted column is not distinguished from absence.
- Foreign-key enforcement is assumed OFF. The schema declares references at src/db/schema.ts:38-99. Whether the engine enforces them depends on the connection settings in `src/db/index.ts`, which is not part of this model. With enforcement on, these operations would fail (throw) where the model succeeds:
  - MessagesDb.DeleteMessageById and MessagesRoute.DeleteMessage, for a message that a group link still references;
  - MessagesDb.DeleteMessageByConversationId, ConversationsDb.DeleteConversationById and FoldersDb.DeleteFolderById, when a removed row is still referenced;
  - MessagesDb.CreateMessage, MessagesRoute.PostMessage, MessageGroupsDb.CreateMessageGroup and ConversationsDb.CreateConversation, when they name an unknown parent row;
  - MessageGroupMessagesDb.CreateMessageGroupMessage, when it names an unknown message;
  - ConversationsRoute.ApplyBodyAsWritten, when the renamed key is still referenced.
- Under the same assumption, the message delete whose failure the conversation cascade swallows (src/routes/conversations.ts:170-174) never fails. The swallowed-failure branch is therefore not modelled.
- The 500 reply of the conversation DELETE handler, and the PUT handler's empty-result 500, are unreachable in this model, because the row was found just before. Malformed-JSON 500 replies are not modelled.
- MessagesDb.UpdateMessageById: `createdAt` in the changes is taken as an already converted timestamp. The function has no definition in the source, so it is not known whether a JSON value there would throw, as it does for conversations.
- MessageGroupsDb.UpdateMessageGroup: the changes cover `conversationId` and `createdAt` only. The message-groups route passes the raw body, and an `id` in it is not modelled.
- `updateMessageById` and `deleteMessageByConversationId` are re-exported at src/db/models.ts:30-31 but never defined. They are modelled as the update-where-id and delete-where-conversation that their names and callers describe.
- The `getMessagesById` lookup in the message PUT handler is not modelled, because its result is unused.
- These operations are not modelled:
  - `getAllConversationsByUserID` and the count query, because they use a `userId` column the schema does not declare;
  - `getAllMessageGroups`, which is the whole table;
  - `getParticipantById`.
- The guard-and-forward route files (`chat.ts`, `folders.ts`, `message-groups.ts`, `message-group-messages.ts`) are not modelled.
- The users, sessions, attachments and conversation-members lookup wrappers are not modelled.
- The logger, the server wiring, `migrate.ts` and `seed.ts` are not modelled.
- The order of rows with equal sort keys is not modelled, because SQL leaves it unspecified.

## Findings

| source | as written | input that shows it | evidently intended | confidence | as-written member | corrected member |
|---|---|---|---|---|---|---|
| src/routes/conversations.ts:125 | the PUT handler passes the raw request body to `updateConversation`, so a body `id` is written into the row's key | `PUT /a` with body `{"id": "b"}`, for a conversation "a" with no messages, groups or members, moves the row to key "b" and replies with `data.id` "b". Children of "a" would keep naming "a" if foreign keys are not enforced; if they are, the update fails and the reply is 500 | only the updatable columns are written, as the `Omit<…, "id" \| "createdAt" \| "updatedAt">` type at src/db/conversations.ts:10-12 declares | not executed; medium | ConversationsRoute.PutAsWrittenRenamesKey | ConversationsRoute.PutConversation |
