/**
 * The old code path's data layer: mysqldb/mysqldb.go (the connector and rollbackWithErrorStack)
 * and mysqldb/resources.go (MYSQLFunctions). Content travels as json.Marshal bytes and is read
 * back as raw bytes through json.Unmarshal. Every method is proved to behave as the matching
 * function of Repository on ControllerPath.
 */
module MySqlDb {
  import opened Errors
  import opened Uuids
  import opened Models
  import opened Tables
  import opened Database
  import opened Repository

  /** MYSQLConnector: transactions on the server behind the connection string. */
  class Connector {
    const db: Db

    constructor (db: Db)
      ensures this.db == db
    {
      this.db := db;
    }

    /** ConnectSystem: opens the connection and begins a transaction. */
    method ConnectSystem(faults: Faults) returns (err: Option<Error>)
      requires db.Valid()
      modifies db
      ensures db.Valid() && db.committed == old(db.committed)
      ensures err.Some? <==> faults.begin.Some?
      ensures err.Some? ==> err.value == Driver(faults.begin.value) && !db.open
      ensures err.None? ==> db.open && db.pending == db.committed
    {
      err := db.Begin(faults);
    }

    /** Commit */
    method Commit(faults: Faults) returns (err: Option<Error>)
      requires db.Valid() && db.open
      modifies db
      ensures db.Valid() && !db.open
      ensures err.Some? <==> faults.commit.Some?
      ensures err.Some? ==> err.value == Driver(faults.commit.value) && db.committed == old(db.committed)
      ensures err.None? ==> db.committed == old(db.pending)
    {
      err := db.Commit(faults);
    }
  }

  /**
   * RollbackWithErrorStack: rolls the transaction back and returns the error it was given, or,
   * when the rollback itself fails, an error carrying both messages.
   */
  method RollbackWithErrorStack(connector: Connector, errorStack: Error, faults: Faults) returns (err: Error)
    requires connector.db.Valid()
    modifies connector.db
    ensures connector.db.Valid() && !connector.db.open && connector.db.committed == old(connector.db.committed)
    ensures err == RollbackError(errorStack, faults.rollback)
  {
    var failure := connector.db.Rollback(faults);
    err := RollbackError(errorStack, failure);
  }

  /**
   * Scanning the content column into a []byte: NULL leaves no bytes, which json.Unmarshal refuses
   * as malformed. Strings, numbers, booleans and times are converted to bytes by database/sql, so
   * they arrive as Bytes here; OtherType stands only for a driver value database/sql cannot convert
   * to bytes, which go-sql-driver never returns for a JSON column. That unreachable refusal reuses
   * the IncompatibleType error value of ContentMap.Scan.
   */
  function ScanBytes(c: Column): (r: Result<Json>)
    ensures r.Err? <==> c.OtherType?
    ensures r.Err? ==> r.error == IncompatibleType
    ensures r.Ok? ==> (Unmarshal(r.value).Ok? <==> c.Bytes? && c.json.Object?)
    ensures r.Ok? ==> Unmarshal(r.value) == Decode(ControllerPath, c)
  {
    match c
    case Null => Ok(Malformed(""))
    case Bytes(j) => Ok(j)
    case OtherType => Err(IncompatibleType)
  }

  /** MYSQLFunctions */
  class Functions {
    const connector: Connector

    constructor (connector: Connector)
      ensures this.connector == connector
    {
      this.connector := connector;
    }

    /** AddResource: INSERT with the json.Marshal bytes of the content, rolled back on failure. */
    method AddResource(resource: Resource, faults: Faults) returns (err: Option<Error>)
      requires connector.db.Valid() && connector.db.open
      modifies connector.db
      ensures connector.db.Valid() && connector.db.committed == old(connector.db.committed)
      ensures connector.db.Reflects(err, InsertStep(ControllerPath, faults, old(connector.db.pending), resource))
    {
      var binary := Marshal(resource.content);
      var e := connector.db.Insert(resource.id, resource.category, Bytes(binary));
      if e.Some? {
        var rolledBack := RollbackWithErrorStack(connector, e.value, faults);
        return Some(rolledBack);
      }
      return None;
    }

    /** UpdateResource: zero changed rows rolls back with ErrResourcesMissing. */
    method UpdateResource(resource: Resource, faults: Faults) returns (err: Option<Error>)
      requires connector.db.Valid() && connector.db.open
      modifies connector.db
      ensures connector.db.Valid() && connector.db.committed == old(connector.db.committed)
      ensures connector.db.Reflects(err, UpdateStep(ControllerPath, faults, old(connector.db.pending), resource))
    {
      var binary := Marshal(resource.content);
      var affected := connector.db.Update(resource.id, resource.category, Bytes(binary));
      if affected == 0 {
        var rolledBack := RollbackWithErrorStack(connector, ResourcesMissing, faults);
        return Some(rolledBack);
      }
      return None;
    }

    /** DeleteResource: by the id's text; a refused statement or zero affected rows rolls back. */
    method DeleteResource(resourceID: string, faults: Faults) returns (err: Option<Error>)
      requires connector.db.Valid() && connector.db.open
      modifies connector.db
      ensures connector.db.Valid() && connector.db.committed == old(connector.db.committed)
      ensures connector.db.Reflects(err, DeleteStep(faults, old(connector.db.pending), resourceID))
    {
      var result := connector.db.Delete(resourceID);
      if result.Err? {
        var rolledBack := RollbackWithErrorStack(connector, result.error, faults);
        return Some(rolledBack);
      }
      if result.value == 0 {
        var rolledBack := RollbackWithErrorStack(connector, ResourcesMissing, faults);
        return Some(rolledBack);
      }
      return None;
    }

    /**
     * GetResourceByID, in a read transaction of its own: sql.ErrNoRows when no row has the id
     * (whatever the commit then reports), a rolled-back scan or unmarshal error, or the resource.
     */
    method GetResourceByID(resourceID: Uuid, faults: Faults) returns (r: Result<Resource>)
      ensures r == ResourceRow(ControllerPath, faults, connector.db.committed, resourceID)
    {
      if faults.begin.Some? {
        return Err(Driver(faults.begin.value));
      }
      var row := Find(connector.db.committed.rows, resourceID);
      if row.None? {
        return Err(NoRows);
      }
      var content := ScanBytes(row.value.content);
      if content.Err? {
        return Err(RollbackError(content.error, faults.rollback));
      }
      var decoded := Unmarshal(content.value);
      if decoded.Err? {
        return Err(RollbackError(decoded.error, faults.rollback));
      }
      if faults.commit.Some? {
        return Err(Driver(faults.commit.value));
      }
      return Ok(Resource(row.value.id, row.value.category, decoded.value));
    }

    /** The rows.Next loop of GetResourcesByIDs and GetResourcesByCategory, up to its first scan or unmarshal error. */
    method ScanLoop(rows: seq<Row>) returns (r: Result<seq<Resource>>)
      ensures r == DecodeRows(ControllerPath, rows)
    {
      var resources: seq<Resource> := [];
      var i := 0;
      ScanStart(ControllerPath, rows);
      while i < |rows|
        invariant 0 <= i <= |rows| && ScannedUpTo(ControllerPath, rows, i, resources)
      {
        ScanNext(ControllerPath, rows, i, resources);
        var content := ScanBytes(rows[i].content);
        if content.Err? {
          return Err(content.error);
        }
        var decoded := Unmarshal(content.value);
        if decoded.Err? {
          return Err(decoded.error);
        }
        resources := resources + [Resource(rows[i].id, rows[i].category, decoded.value)];
        i := i + 1;
      }
      ScanEnd(ControllerPath, rows, resources);
      return Ok(resources);
    }

    /** The scan inside the caller's transaction: an error rolls back, no row is sql.ErrNoRows. */
    method ScanResources(rows: seq<Row>, faults: Faults) returns (r: Result<seq<Resource>>)
      ensures r == ScanRows(ControllerPath, faults, rows)
    {
      var resources := ScanLoop(rows);
      if resources.Err? {
        return Err(RollbackError(resources.error, faults.rollback));
      }
      if |resources.value| == 0 {
        return Err(NoRows);
      }
      return resources;
    }

    /**
     * GetResourcesByIDs. The query text repeats its placeholder len(IDs)-1 times, which panics
     * for an empty list, so the list must not be empty.
     */
    method GetResourcesByIDs(ids: seq<Uuid>, faults: Faults) returns (r: Result<seq<Resource>>)
      requires |ids| >= 1
      ensures r == ScanRows(ControllerPath, faults, Select(connector.db.committed.rows, IdIn(ids)))
    {
      r := ScanResources(Select(connector.db.committed.rows, IdIn(ids)), faults);
    }

    /** GetResourcesByCategory */
    method GetResourcesByCategory(category: int, faults: Faults) returns (r: Result<seq<Resource>>)
      ensures r == ScanRows(ControllerPath, faults, Select(connector.db.committed.rows, CategoryIs(category)))
    {
      r := ScanResources(Select(connector.db.committed.rows, CategoryIs(category)), faults);
    }

    /** GetCategoryByName, in a read transaction of its own. */
    method GetCategoryByName(name: string, faults: Faults) returns (r: Result<Category>)
      ensures r == CategoryNamed(faults, connector.db.categories, name)
    {
      if faults.begin.Some? {
        return Err(Driver(faults.begin.value));
      }
      var category := FirstMatching(connector.db.categories, ByName(name));
      if category.None? {
        return Err(NoRows);
      }
      if faults.commit.Some? {
        return Err(Driver(faults.commit.value));
      }
      return Ok(category.value);
    }

    /** GetCategoryByID, in a read transaction of its own. */
    method GetCategoryByID(id: int, faults: Faults) returns (r: Result<Category>)
      ensures r == CategoryWithID(faults, connector.db.categories, id)
    {
      if faults.begin.Some? {
        return Err(Driver(faults.begin.value));
      }
      var category := FirstMatching(connector.db.categories, ById(id));
      if category.None? {
        return Err(NoRows);
      }
      if faults.commit.Some? {
        return Err(Driver(faults.commit.value));
      }
      return Ok(category.value);
    }

    /** GetCategories: every category row, sql.ErrNoRows for none, and the transaction never ended. */
    method GetCategories(faults: Faults) returns (o: Outcome<seq<Category>>)
      ensures o == AllCategories(faults, connector.db.categories)
    {
      if faults.begin.Some? {
        return Outcome(Err(Driver(faults.begin.value)), false);
      }
      var cats := connector.db.categories;
      var categories: seq<Category> := [];
      var i := 0;
      while i < |cats|
        invariant 0 <= i <= |cats|
        invariant categories == cats[..i]
      {
        categories := categories + [cats[i]];
        i := i + 1;
      }
      assert cats[..i] == cats;
      if |categories| == 0 {
        return Outcome(Err(NoRows), true);
      }
      return Outcome(Ok(categories), true);
    }
  }
}
