/** The rows of the seven tables declared in src/db/schema.ts, and their keys.
    Timestamps (`mode: "timestamp"` integers) are plain integers; a nullable
    column is an `Option`. */
module Schema {
  import opened Values

  /** `participants`: an auto-incremented integer key and a unique username. */
  datatype Participant = Participant(id: int, username: string, role: string, createdAt: int, updatedAt: int)

  /** `folders`, keyed by `id`. */
  datatype Folder = Folder(id: string, name: string, description: Option<string>, createdAt: int, updatedAt: int)

  /** `conversations`, keyed by `id`; `folderId` refers to a folder. */
  datatype Conversation = Conversation(
    id: string,
    title: string,
    systemMessage: Option<string>,
    enableSystemMessage: Option<string>,
    folderId: Option<string>,
    createdAt: int,
    updatedAt: int)

  /** `messages`, keyed by `id`. */
  datatype Message = Message(
    id: string,
    conversationId: string,
    participantId: int,
    content: string,
    parentId: Option<string>,
    collapsed: Option<string>,
    createdAt: int)

  /** `conversation_members`: the key is the whole row. */
  datatype ConversationMember = ConversationMember(conversationId: string, participantId: int)

  /** `message_groups`, keyed by `id`. */
  datatype MessageGroup = MessageGroup(id: string, conversationId: string, createdAt: int, updatedAt: int)

  /** `message_group_messages`: the key is the pair, that is the whole row. */
  datatype MessageGroupMessage = MessageGroupMessage(messageId: string, messageGroupId: string)

  /** The contents of the database: one set of rows per table. */
  datatype Tables = Tables(
    participants: set<Participant>,
    folders: set<Folder>,
    conversations: set<Conversation>,
    messages: set<Message>,
    members: set<ConversationMember>,
    groups: set<MessageGroup>,
    groupMessages: set<MessageGroupMessage>)

  const NoTables: Tables := Tables({}, {}, {}, {}, {}, {}, {})

  /** The primary-key and unique constraints: no two rows of a table share a key.
      The two pair-keyed tables are sets of their keys, so they need no clause. */
  predicate KeysUnique(t: Tables) {
    && (forall p, q | p in t.participants && q in t.participants && p.id == q.id :: p == q)
    && (forall p, q | p in t.participants && q in t.participants && p.username == q.username :: p == q)
    && (forall f, g | f in t.folders && g in t.folders && f.id == g.id :: f == g)
    && (forall c, d | c in t.conversations && d in t.conversations && c.id == d.id :: c == d)
    && (forall m, n | m in t.messages && n in t.messages && m.id == n.id :: m == n)
    && (forall g, h | g in t.groups && h in t.groups && g.id == h.id :: g == h)
  }
}
