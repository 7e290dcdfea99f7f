/** The database handle every function of src/db/ writes through. The tables are
    sets of rows; the engine behind them is not modelled. */
module Store {
  import opened Schema

  class Db {
    /** The rows of every table. */
    var tables: Tables
    /** The next value of the participants' auto-incremented key. */
    var nextParticipantId: int
    /** The single `new Date()` each timestamp column takes as its default: it is
        evaluated once, when the schema is loaded, not at each insert. */
    const defaultTime: int

    /** The keys are unique and every participant key was handed out before. */
    predicate Valid()
      reads this
    {
      && KeysUnique(tables)
      && 1 <= nextParticipantId
      && (forall p | p in tables.participants :: 1 <= p.id < nextParticipantId)
    }

    /** An empty database whose schema was loaded at `schemaLoadTime`. */
    constructor (schemaLoadTime: int)
      ensures Valid()
      ensures tables == NoTables && nextParticipantId == 1 && defaultTime == schemaLoadTime
    {
      tables := NoTables;
      nextParticipantId := 1;
      defaultTime := schemaLoadTime;
    }
  }
}
