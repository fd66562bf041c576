/**
 * The MySQL server behind database/sql as the repository drives it: the committed resources table,
 * the pending copy that an open write transaction changes, and the read-only categories table.
 * Connection faults are not state: each call receives the Faults of its connection.
 */
module Database {
  import opened Errors
  import opened Uuids
  import opened Models
  import opened Tables

  /** The message each transaction call fails with on this connection, if it fails. */
  datatype Faults = Faults(begin: Option<string>, commit: Option<string>, rollback: Option<string>)

  const Healthy := Faults(None, None, None)

  /** A categories lookup key: the WHERE clause of QueryRow on the categories table. */
  datatype CategoryKey = ByName(name: string) | ById(id: int)

  predicate Matches(c: Category, key: CategoryKey) {
    match key
    case ByName(name) => c.name == name
    case ById(id) => c.id == id
  }

  /** The first category the key selects (QueryRow ... WHERE name = ? or WHERE id = ?). */
  function FirstMatching(cats: seq<Category>, key: CategoryKey): (r: Option<Category>)
    ensures r.Some? ==> r.value in cats && Matches(r.value, key)
    ensures r.None? <==> forall c | c in cats :: !Matches(c, key)
  {
    if cats == [] then None
    else if Matches(cats[0], key) then Some(cats[0])
    else FirstMatching(cats[1..], key)
  }

  class Db {
    /** The table every new transaction starts from. */
    var committed: State
    /** The table as the open write transaction sees it. */
    var pending: State
    /** Whether a write transaction is open (begun, neither committed nor rolled back). */
    var open: bool
    const categories: seq<Category>

    ghost predicate Valid()
      reads this
    {
      Tables.Valid(committed) && Tables.Valid(pending)
    }

    /**
     * The transaction after a row-level statement reports err: on success it is still open with
     * the statement's table, on failure it has been rolled back and err is the step's error.
     */
    ghost predicate Reflects(err: Option<Error>, step: Result<State>)
      reads this
    {
      && (err.None? <==> step.Ok?)
      && (step.Ok? ==> open && pending == step.value)
      && (step.Err? ==> !open && err == Some(step.error))
    }

    constructor (table: State, categories: seq<Category>)
      requires Tables.Valid(table)
      ensures Valid() && !open
      ensures committed == table && this.categories == categories
    {
      committed := table;
      pending := table;
      open := false;
      this.categories := categories;
    }

    /** db.Begin: opens a write transaction on the committed table. */
    method Begin(faults: Faults) returns (err: Option<Error>)
      requires Valid()
      modifies this
      ensures Valid() && committed == old(committed)
      ensures err.Some? <==> faults.begin.Some?
      ensures err.Some? ==> err.value == Driver(faults.begin.value) && pending == old(pending) && !open
      ensures err.None? ==> open && pending == committed
    {
      if faults.begin.Some? {
        open := false;
        return Some(Driver(faults.begin.value));
      }
      pending := committed;
      open := true;
      return None;
    }

    /** tx.Commit: the pending table becomes the committed one unless the commit fails. */
    method Commit(faults: Faults) returns (err: Option<Error>)
      requires Valid() && open
      modifies this
      ensures Valid() && !open
      ensures err.Some? <==> faults.commit.Some?
      ensures err.Some? ==> err.value == Driver(faults.commit.value) && committed == old(committed)
      ensures err.None? ==> committed == old(pending)
    {
      open := false;
      if faults.commit.Some? {
        return Some(Driver(faults.commit.value));
      }
      committed := pending;
      return None;
    }

    /** tx.Rollback: the transaction ends and its changes are dropped, whether or not the call fails. */
    method Rollback(faults: Faults) returns (failure: Option<string>)
      requires Valid()
      modifies this
      ensures Valid() && !open && committed == old(committed)
      ensures failure == faults.rollback
    {
      open := false;
      return faults.rollback;
    }

    /** INSERT inside the open transaction; a refused statement leaves the transaction as it was. */
    method Insert(id: Uuid, category: int, content: Column) returns (err: Option<Error>)
      requires Valid() && open
      modifies this
      ensures Valid() && open && committed == old(committed)
      ensures err.Some? <==> Tables.InsertRow(old(pending), id, category, content).Err?
      ensures err.Some? ==> err.value == Tables.InsertRow(old(pending), id, category, content).error && pending == old(pending)
      ensures err.None? ==> pending == Tables.InsertRow(old(pending), id, category, content).value
    {
      var r := Tables.InsertRow(pending, id, category, content);
      if r.Err? {
        return Some(r.error);
      }
      pending := r.value;
      return None;
    }

    /** UPDATE inside the open transaction, returning RowsAffected. */
    method Update(id: Uuid, category: int, content: Column) returns (affected: nat)
      requires Valid() && open
      modifies this
      ensures Valid() && open && committed == old(committed)
      ensures pending == Tables.UpdateRow(old(pending), id, category, content).after
      ensures affected == Tables.UpdateRow(old(pending), id, category, content).affected
    {
      var r := Tables.UpdateRow(pending, id, category, content);
      pending := r.after;
      affected := r.affected;
    }

    /** DELETE inside the open transaction, returning RowsAffected or the statement's error. */
    method Delete(idText: string) returns (r: Result<nat>)
      requires Valid() && open
      modifies this
      ensures Valid() && open && committed == old(committed)
      ensures r.Err? <==> Tables.DeleteRow(old(pending), idText).Err?
      ensures r.Err? ==> r.error == Tables.DeleteRow(old(pending), idText).error && pending == old(pending)
      ensures r.Ok? ==> pending == Tables.DeleteRow(old(pending), idText).value.after
      ensures r.Ok? ==> r.value == Tables.DeleteRow(old(pending), idText).value.affected
    {
      var d := Tables.DeleteRow(pending, idText);
      if d.Err? {
        return Err(d.error);
      }
      pending := d.value.after;
      return Ok(d.value.affected);
    }
  }
}
