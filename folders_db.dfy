/** Folders (src/db/folders.ts). */
module FoldersDb {
  import opened Values
  import opened Schema
  import opened Store
  import opened Sorting

  /** The insert shape: the id may be missing. */
  datatype NewFolder = NewFolder(id: Option<string>, name: string, description: Option<string>)

  /** The columns an update may set: everything but `id`, `createdAt` and `updatedAt`. */
  datatype FolderChanges = FolderChanges(name: Option<string>, description: Option<string>)

  /** `createFolder`: a provided non-empty id is kept, otherwise `freshId` (a new
      UUID) is used. An id already present violates the primary key and nothing
      is inserted. */
  method CreateFolder(db: Db, input: NewFolder, freshId: string) returns (r: Option<Folder>)
    requires db.Valid()
    modifies db`tables
    ensures db.Valid()
    ensures var row := Folder(OrElse(input.id, freshId), input.name, input.description, db.defaultTime, db.defaultTime);
      && (r.Some? <==> forall f | f in old(db.tables.folders) :: f.id != row.id)
      && (r.Some? ==> r.value == row && db.tables == old(db.tables).(folders := old(db.tables.folders) + {row}))
      && (r.None? ==> db.tables == old(db.tables))
  {
    var row := Folder(OrElse(input.id, freshId), input.name, input.description, db.defaultTime, db.defaultTime);
    if exists f :: f in db.tables.folders && f.id == row.id {
      return None;
    }
    db.tables := db.tables.(folders := db.tables.folders + {row});
    r := Some(row);
  }

  /** `getFolderById`: the folder with that id, if any. */
  method GetFolderById(db: Db, id: string) returns (r: Option<Folder>)
    ensures r.None? <==> forall f | f in db.tables.folders :: f.id != id
    ensures r.Some? ==> r.value in db.tables.folders && r.value.id == id
  {
    if f :| f in db.tables.folders && f.id == id {
      r := Some(f);
    } else {
      r := None;
    }
  }

  /** `getAllFolders`: every folder once, latest update first. */
  method GetAllFolders(db: Db) returns (r: seq<Folder>)
    ensures |r| == |db.tables.folders|
    ensures forall f :: f in r <==> f in db.tables.folders
    ensures forall i, j | 0 <= i < j < |r| :: r[i].updatedAt >= r[j].updatedAt
  {
    r := OrderBy(db.tables.folders, (f: Folder) => -f.updatedAt);
    forall i, j | 0 <= i < j < |r| ensures r[i].updatedAt >= r[j].updatedAt {
      assert -r[i].updatedAt <= -r[j].updatedAt;
    }
  }

  /** A folder's row after an update: the given columns, and `updatedAt` set to now. */
  function ApplyFolderChanges(f: Folder, changes: FolderChanges, now: int): (u: Folder)
    ensures u.id == f.id && u.createdAt == f.createdAt && u.updatedAt == now
  {
    f.(name := if changes.name.Some? then changes.name.value else f.name,
       description := if changes.description.Some? then changes.description else f.description,
       updatedAt := now)
  }

  /** `updateFolder`: rewrites the row with that id and returns it; other rows are
      untouched. */
  method UpdateFolder(db: Db, id: string, changes: FolderChanges, now: int) returns (r: seq<Folder>)
    requires db.Valid()
    modifies db`tables
    ensures db.Valid()
    ensures db.tables == old(db.tables).(folders :=
      (set f | f in old(db.tables.folders) && f.id != id)
      + (set f | f in old(db.tables.folders) && f.id == id :: ApplyFolderChanges(f, changes, now)))
    ensures r == [] <==> forall f | f in old(db.tables.folders) :: f.id != id
    ensures |r| <= 1
    ensures forall k | 0 <= k < |r| :: r[k] in db.tables.folders && r[k].id == id && r[k].updatedAt == now
  {
    if f :| f in db.tables.folders && f.id == id {
      r := [ApplyFolderChanges(f, changes, now)];
    } else {
      r := [];
    }
    db.tables := db.tables.(folders :=
      (set f | f in db.tables.folders && f.id != id)
      + (set f | f in db.tables.folders && f.id == id :: ApplyFolderChanges(f, changes, now)));
  }

  /** `deleteFolderById`: removes the conversations filed in the folder, then the
      folder, and returns the removed folder rows. Conversations in other folders
      or in none, and every other table, are untouched. */
  method DeleteFolderById(db: Db, id: string) returns (r: seq<Folder>)
    requires db.Valid()
    modifies db`tables
    ensures db.Valid()
    ensures db.tables == old(db.tables).(
      conversations := (set c | c in old(db.tables.conversations) && c.folderId != Some(id)),
      folders := (set f | f in old(db.tables.folders) && f.id != id))
    ensures forall f :: f in r <==> f in old(db.tables.folders) && f.id == id
    ensures |r| <= 1
    ensures r == [] <==> forall f | f in old(db.tables.folders) :: f.id != id
  {
    db.tables := db.tables.(conversations := set c | c in db.tables.conversations && c.folderId != Some(id));
    if f :| f in db.tables.folders && f.id == id {
      r := [f];
    } else {
      r := [];
    }
    db.tables := db.tables.(folders := set f | f in db.tables.folders && f.id != id);
  }
}
