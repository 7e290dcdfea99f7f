/** The two participant operations the message route relies on
    (src/db/participants.ts). */
module ParticipantsDb {
  import opened Values
  import opened Schema
  import opened Store

  /** `createParticipant`: the row takes the next auto-incremented key and the
      schema-load timestamps. A username already taken violates its unique
      constraint: the insert fails and nothing changes. */
  method CreateParticipant(db: Db, username: string, role: string) returns (r: Option<Participant>)
    requires db.Valid()
    modifies db
    ensures db.Valid()
    ensures r.Some? <==> forall p | p in old(db.tables.participants) :: p.username != username
    ensures r.Some? ==>
      && r.value == Participant(old(db.nextParticipantId), username, role, db.defaultTime, db.defaultTime)
      && db.tables == old(db.tables).(participants := old(db.tables.participants) + {r.value})
      && db.nextParticipantId == old(db.nextParticipantId) + 1
    ensures r.None? ==> db.tables == old(db.tables) && db.nextParticipantId == old(db.nextParticipantId)
  {
    if exists p :: p in db.tables.participants && p.username == username {
      return None;
    }
    var row := Participant(db.nextParticipantId, username, role, db.defaultTime, db.defaultTime);
    db.tables := db.tables.(participants := db.tables.participants + {row});
    db.nextParticipantId := db.nextParticipantId + 1;
    r := Some(row);
  }

  /** `getParticipantByUsername`: the participant with that username, if any. */
  method GetParticipantByUsername(db: Db, username: string) returns (r: Option<Participant>)
    ensures r.None? <==> forall p | p in db.tables.participants :: p.username != username
    ensures r.Some? ==> r.value in db.tables.participants && r.value.username == username
  {
    if p :| p in db.tables.participants && p.username == username {
      r := Some(p);
    } else {
      r := None;
    }
  }
}
