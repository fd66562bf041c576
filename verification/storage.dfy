/**
 * The new code path: storage/functions.go (row-level statements and read transactions) and
 * storage/resources.go (the operations), as methods of the MySQL store over the database.
 * Every method is proved to behave as the matching function of Repository on StoragePath.
 */
module Storage {
  import opened Errors
  import opened Uuids
  import opened Models
  import opened Tables
  import opened Database
  import opened Repository

  /**
   * getResourcesByIDs' query text up to its first placeholder, and the text after the list. The
   * texts are Go's literals written as short pieces: PlainParts checks each piece for '?' on its
   * own, which a single long literal makes too costly for the verifier.
   */
  const IdsQueryHead := "SELECT BIN_TO_UUID(" + "id), category, " + "content FROM " + "resources WHERE " + "id IN (UUID_TO_BIN("
  const IdsQueryTail := ") ORDER BY " + "created_at DESC"
  /** GetResourcesByIDsQuery, and the text repeated once per further id. */
  const ResourcesByIDsQuery := IdsQueryHead + "?)"
  const FurtherId := "," + "UUID_TO_BIN(" + "?)"

  /** strings.Repeat */
  function Repeat(s: string, n: nat): (r: string)
    ensures |r| == n * |s|
  {
    if n == 0 then "" else s + Repeat(s, n - 1)
  }

  /** The number of '?' placeholders in a query text. */
  function Placeholders(q: string): nat {
    if q == [] then 0 else (if q[0] == '?' then 1 else 0) + Placeholders(q[1..])
  }

  lemma {:induction false} PlaceholdersAppend(a: string, b: string)
    ensures Placeholders(a + b) == Placeholders(a) + Placeholders(b)
    decreases |a|
  {
    if a == [] {
      assert a + b == b;
    } else {
      assert (a + b)[0] == a[0] && (a + b)[1..] == a[1..] + b;
      PlaceholdersAppend(a[1..], b);
    }
  }

  lemma {:induction false} PlaceholdersRepeat(s: string, n: nat)
    ensures Placeholders(Repeat(s, n)) == n * Placeholders(s)
  {
    if n > 0 {
      var k := Placeholders(s);
      PlaceholdersAppend(s, Repeat(s, n - 1));
      PlaceholdersRepeat(s, n - 1);
      assert Placeholders(Repeat(s, n)) == k + (n - 1) * k;
      assert k + (n - 1) * k == n * k;
    }
  }

  /** A text without a '?' in it. */
  predicate Plain(s: string) {
    forall i | 0 <= i < |s| :: s[i] != '?'
  }

  lemma {:induction false} PlainNoPlaceholders(s: string)
    requires Plain(s)
    ensures Placeholders(s) == 0
  {
    if s != [] {
      assert s[0] != '?';
      PlainNoPlaceholders(s[1..]);
    }
  }

  lemma PlainAppend(a: string, b: string)
    requires Plain(a) && Plain(b)
    ensures Plain(a + b)
  {
    forall i | 0 <= i < |a + b| ensures (a + b)[i] != '?' {
      if i < |a| { assert (a + b)[i] == a[i]; } else { assert (a + b)[i] == b[i - |a|]; }
    }
  }

  /** The fixed parts of the query carry no placeholder of their own. */
  lemma PlainParts()
    ensures Placeholders(IdsQueryHead) == 0 && Placeholders(IdsQueryTail) == 0
    ensures Placeholders("," + "UUID_TO_BIN(") == 0
  {
    assert Plain("SELECT BIN_TO_UUID(") by {
      var t := "SELECT BIN_TO_UUID(";
      forall i | 0 <= i < |t| ensures t[i] != '?' { }
    }
    assert Plain("id), category, ") by {
      var t := "id), category, ";
      forall i | 0 <= i < |t| ensures t[i] != '?' { }
    }
    assert Plain("content FROM ") by {
      var t := "content FROM ";
      forall i | 0 <= i < |t| ensures t[i] != '?' { }
    }
    assert Plain("resources WHERE ") by {
      var t := "resources WHERE ";
      forall i | 0 <= i < |t| ensures t[i] != '?' { }
    }
    assert Plain("id IN (UUID_TO_BIN(") by {
      var t := "id IN (UUID_TO_BIN(";
      forall i | 0 <= i < |t| ensures t[i] != '?' { }
    }
    assert Plain(") ORDER BY ") by {
      var t := ") ORDER BY ";
      forall i | 0 <= i < |t| ensures t[i] != '?' { }
    }
    assert Plain("created_at DESC") by {
      var t := "created_at DESC";
      forall i | 0 <= i < |t| ensures t[i] != '?' { }
    }
    assert Plain(",") by {
      var t := ",";
      forall i | 0 <= i < |t| ensures t[i] != '?' { }
    }
    assert Plain("UUID_TO_BIN(") by {
      var t := "UUID_TO_BIN(";
      forall i | 0 <= i < |t| ensures t[i] != '?' { }
    }
    PlainAppend("SELECT BIN_TO_UUID(", "id), category, ");
    PlainAppend("SELECT BIN_TO_UUID(" + "id), category, ", "content FROM ");
    PlainAppend("SELECT BIN_TO_UUID(" + "id), category, " + "content FROM ", "resources WHERE ");
    PlainAppend("SELECT BIN_TO_UUID(" + "id), category, " + "content FROM " + "resources WHERE ", "id IN (UUID_TO_BIN(");
    PlainAppend(") ORDER BY ", "created_at DESC");
    PlainAppend(",", "UUID_TO_BIN(");
    PlainNoPlaceholders(IdsQueryHead);
    PlainNoPlaceholders(IdsQueryTail);
    PlainNoPlaceholders("," + "UUID_TO_BIN(");
  }

  /** "?)" holds one placeholder, so each of the texts built from it does too. */
  lemma OnePlaceholder(prefix: string)
    requires Placeholders(prefix) == 0
    ensures Placeholders(prefix + "?)") == 1
  {
    PlaceholdersAppend(prefix, "?)");
    assert "?)"[1..] == ")";
  }

  /**
   * The query of getResourcesByIDs for n ids: the single-id query, then the further placeholder
   * once more per further id. Go's strings.Repeat panics on the count -1 that an empty list gives,
   * so n must be at least one.
   */
  function IdsQuery(n: nat): (q: string)
    requires n >= 1
    ensures Placeholders(q) == n
    ensures n == 1 ==> q == ResourcesByIDsQuery + IdsQueryTail
  {
    IdsQueryPlaceholders(n);
    ResourcesByIDsQuery + Repeat(FurtherId, n - 1) + IdsQueryTail
  }

  /** The query has exactly one placeholder per id, so the n arguments bind one to one. */
  lemma IdsQueryPlaceholders(n: nat)
    requires n >= 1
    ensures Placeholders(ResourcesByIDsQuery + Repeat(FurtherId, n - 1) + IdsQueryTail) == n
  {
    var head, further := ResourcesByIDsQuery, Repeat(FurtherId, n - 1);
    PlainParts();
    assert Placeholders(head) == 1 by {
      OnePlaceholder(IdsQueryHead);
    }
    assert Placeholders(further) == n - 1 by {
      OnePlaceholder("," + "UUID_TO_BIN(");
      PlaceholdersRepeat(FurtherId, n - 1);
    }
    PlaceholdersAppend(head, further);
    PlaceholdersAppend(head + further, IdsQueryTail);
  }

  class MySQL {
    const db: Db

    /** NewMySQL */
    constructor (db: Db)
      ensures this.db == db
    {
      this.db := db;
    }

    // ----- storage/functions.go -----

    /** rollbackWithErrorStack on the open write transaction. */
    method RollbackWithErrorStack(errorStack: Error, faults: Faults) returns (err: Error)
      requires db.Valid()
      modifies db
      ensures db.Valid() && !db.open && db.committed == old(db.committed)
      ensures err == RollbackError(errorStack, faults.rollback)
    {
      var failure := db.Rollback(faults);
      err := RollbackError(errorStack, failure);
    }

    /** addResource: the content column is written with ContentMap.Value. */
    method InsertResource(resource: Resource, faults: Faults) returns (err: Option<Error>)
      requires db.Valid() && db.open
      modifies db
      ensures db.Valid() && db.committed == old(db.committed)
      ensures db.Reflects(err, InsertStep(StoragePath, faults, old(db.pending), resource))
    {
      var e := db.Insert(resource.id, resource.category, Value(resource.content));
      if e.Some? {
        var rolledBack := RollbackWithErrorStack(e.value, faults);
        return Some(rolledBack);
      }
      return None;
    }

    /** updateResource: zero changed rows rolls back with ErrResourcesMissing. */
    method UpdateResourceRow(resource: Resource, faults: Faults) returns (err: Option<Error>)
      requires db.Valid() && db.open
      modifies db
      ensures db.Valid() && db.committed == old(db.committed)
      ensures db.Reflects(err, UpdateStep(StoragePath, faults, old(db.pending), resource))
    {
      var affected := db.Update(resource.id, resource.category, Value(resource.content));
      if affected == 0 {
        var rolledBack := RollbackWithErrorStack(ResourcesMissing, faults);
        return Some(rolledBack);
      }
      return None;
    }

    /** deleteResource: by the id's text; a refused statement or zero affected rows rolls back. */
    method DeleteResourceRow(resourceID: string, faults: Faults) returns (err: Option<Error>)
      requires db.Valid() && db.open
      modifies db
      ensures db.Valid() && db.committed == old(db.committed)
      ensures db.Reflects(err, DeleteStep(faults, old(db.pending), resourceID))
    {
      var result := db.Delete(resourceID);
      if result.Err? {
        var rolledBack := RollbackWithErrorStack(result.error, faults);
        return Some(rolledBack);
      }
      if result.value == 0 {
        var rolledBack := RollbackWithErrorStack(ResourcesMissing, faults);
        return Some(rolledBack);
      }
      return None;
    }

    /**
     * getResourceByID, in a read transaction of its own: sql.ErrNoRows when no row has the id
     * (whatever the commit then reports), the scanned resource otherwise.
     */
    method QueryResourceByID(resourceID: Uuid, faults: Faults) returns (r: Result<Resource>)
      ensures r == ResourceRow(StoragePath, faults, db.committed, resourceID)
    {
      if faults.begin.Some? {
        return Err(Driver(faults.begin.value));
      }
      var row := Find(db.committed.rows, resourceID);
      if row.None? {
        return Err(NoRows);
      }
      var content := new ContentMapRef(map[]);
      var scanErr := content.Scan(row.value.content);
      if scanErr.Some? {
        return Err(RollbackError(scanErr.value, faults.rollback));
      }
      if faults.commit.Some? {
        return Err(Driver(faults.commit.value));
      }
      return Ok(Resource(row.value.id, row.value.category, content.entries));
    }

    /** One rows.Next step: the row's columns scanned into a fresh resource and ContentMap. */
    method ScanResource(row: Row) returns (r: Result<Resource>)
      ensures r == ToResource(StoragePath, row)
    {
      var content := new ContentMapRef(map[]);
      var scanErr := content.Scan(row.content);
      if scanErr.Some? {
        return Err(scanErr.value);
      }
      return Ok(Resource(row.id, row.category, content.entries));
    }

    /** The rows.Next loop shared by getResourcesByIDs and getResourcesByCategory, up to its first scan error. */
    method ScanLoop(rows: seq<Row>) returns (r: Result<seq<Resource>>)
      ensures r == DecodeRows(StoragePath, rows)
    {
      var resources: seq<Resource> := [];
      var i := 0;
      ScanStart(StoragePath, rows);
      while i < |rows|
        invariant 0 <= i <= |rows| && ScannedUpTo(StoragePath, rows, i, resources)
      {
        ScanNext(StoragePath, rows, i, resources);
        var resource := ScanResource(rows[i]);
        if resource.Err? {
          return Err(resource.error);
        }
        resources := resources + [resource.value];
        i := i + 1;
      }
      ScanEnd(StoragePath, rows, resources);
      return Ok(resources);
    }

    /** The scan of getResourcesByIDs and getResourcesByCategory: a scan error rolls back, no row is sql.ErrNoRows. */
    method ScanResources(rows: seq<Row>, faults: Faults) returns (r: Result<seq<Resource>>)
      ensures r == ScanRows(StoragePath, faults, rows)
    {
      var resources := ScanLoop(rows);
      if resources.Err? {
        return Err(RollbackError(resources.error, faults.rollback));
      }
      if |resources.value| == 0 {
        return Err(NoRows);
      }
      return resources;
    }

    /**
     * getResourcesByIDs. The query text repeats its placeholder len(IDs)-1 times, which panics
     * for an empty list, so the list must not be empty. The text itself only decides how the ids
     * are bound; the rows selected are those of Select.
     */
    method QueryResourcesByIDs(ids: seq<Uuid>, faults: Faults) returns (r: Result<seq<Resource>>)
      requires |ids| >= 1
      ensures r == ScanRows(StoragePath, faults, Select(db.committed.rows, IdIn(ids)))
    {
      var query := IdsQuery(|ids|);
      assert Placeholders(query) == |ids|;  // one bound argument per placeholder
      r := ScanResources(Select(db.committed.rows, IdIn(ids)), faults);
    }

    /** getResourcesByCategory */
    method QueryResourcesByCategory(category: int, faults: Faults) returns (r: Result<seq<Resource>>)
      ensures r == ScanRows(StoragePath, faults, Select(db.committed.rows, CategoryIs(category)))
    {
      r := ScanResources(Select(db.committed.rows, CategoryIs(category)), faults);
    }

    /** getCategoryByName, in a read transaction of its own. */
    method QueryCategoryByName(name: string, faults: Faults) returns (r: Result<Category>)
      ensures r == CategoryNamed(faults, db.categories, name)
    {
      if faults.begin.Some? {
        return Err(Driver(faults.begin.value));
      }
      var category := FirstMatching(db.categories, ByName(name));
      if category.None? {
        return Err(NoRows);
      }
      if faults.commit.Some? {
        return Err(Driver(faults.commit.value));
      }
      return Ok(category.value);
    }

    /** GetCategoryByID, in a read transaction of its own. */
    method GetCategoryByID(id: int, faults: Faults) returns (r: Result<Category>)
      ensures r == CategoryWithID(faults, db.categories, id)
    {
      if faults.begin.Some? {
        return Err(Driver(faults.begin.value));
      }
      var category := FirstMatching(db.categories, ById(id));
      if category.None? {
        return Err(NoRows);
      }
      if faults.commit.Some? {
        return Err(Driver(faults.commit.value));
      }
      return Ok(category.value);
    }

    /** getCategories: every category row, sql.ErrNoRows for none, and the transaction never ended. */
    method QueryCategories(faults: Faults) returns (o: Outcome<seq<Category>>)
      ensures o == AllCategories(faults, db.categories)
    {
      if faults.begin.Some? {
        return Outcome(Err(Driver(faults.begin.value)), false);
      }
      var categories: seq<Category> := [];
      var i := 0;
      while i < |db.categories|
        invariant 0 <= i <= |db.categories|
        invariant categories == db.categories[..i]
      {
        categories := categories + [db.categories[i]];
        i := i + 1;
      }
      assert db.categories[..i] == db.categories;
      if |categories| == 0 {
        return Outcome(Err(NoRows), true);
      }
      return Outcome(Ok(categories), true);
    }

    /** One key of the child-row loop: the loop goes on with the rest of the keys, or returns here. */
    method InsertChildResource(content: ContentMap, keys: seq<string>, skip: set<string>, categoryID: int,
                               rollbackOnParseError: bool, faults: Faults) returns (stop: Option<Outcome<()>>)
      requires db.Valid() && db.open && keys != [] && forall k | k in keys :: k in content
      modifies db
      ensures db.Valid() && db.committed == old(db.committed)
      ensures stop.None? ==>
        && db.open
        && InsertChildren(StoragePath, faults, old(db.pending), content, keys, skip, categoryID, rollbackOnParseError)
           == InsertChildren(StoragePath, faults, db.pending, content, keys[1..], skip, categoryID, rollbackOnParseError)
      ensures stop.Some? ==> db.open == stop.value.leftOpen && InsertChildren(StoragePath, faults, old(db.pending), content, keys, skip, categoryID, rollbackOnParseError) == Stop(stop.value)
    {
      InsertChildrenNext(StoragePath, faults, db.pending, content, keys, skip, categoryID, rollbackOnParseError);
      var k := keys[0];
      if k in skip {
        return None;
      }
      var item := NewResource(k, categoryID, content[k]);
      if item.Err? {
        if rollbackOnParseError {
          var rolledBack := RollbackWithErrorStack(item.error, faults);
          return Some(Outcome(Err(rolledBack), false));
        }
        return Some(Outcome(Err(item.error), true));
      }
      var e := InsertResource(item.value, faults);
      if e.Some? {
        return Some(Outcome(Err(AsAlreadyExists(e.value)), false));
      }
      return None;
    }

    /**
     * The child-row loop of AddResource and UpdateResource: every key outside skip, in map order,
     * becomes a child row in the open transaction. AddResource passes rollbackOnParseError false
     * and so returns a key that is not a UUID with the transaction still open.
     */
    method InsertChildResources(content: ContentMap, keys: seq<string>, skip: set<string>, categoryID: int,
                                rollbackOnParseError: bool, faults: Faults) returns (stop: Option<Outcome<()>>)
      requires db.Valid() && db.open && forall k | k in keys :: k in content
      modifies db
      ensures db.Valid() && db.committed == old(db.committed)
      ensures stop.None? <==> InsertChildren(StoragePath, faults, old(db.pending), content, keys, skip, categoryID, rollbackOnParseError).Continue?
      ensures stop.None? ==> db.open && db.pending == InsertChildren(StoragePath, faults, old(db.pending), content, keys, skip, categoryID, rollbackOnParseError).t
      ensures stop.Some? ==> stop.value == InsertChildren(StoragePath, faults, old(db.pending), content, keys, skip, categoryID, rollbackOnParseError).outcome
      ensures stop.Some? ==> db.open == stop.value.leftOpen
    {
      ghost var start := db.pending;
      var i := 0;
      while i < |keys|
        invariant 0 <= i <= |keys|
        invariant db.Valid() && db.open && db.committed == old(db.committed)
        invariant InsertChildren(StoragePath, faults, start, content, keys, skip, categoryID, rollbackOnParseError)
               == InsertChildren(StoragePath, faults, db.pending, content, keys[i..], skip, categoryID, rollbackOnParseError)
      {
        assert keys[i..][1..] == keys[i + 1..];
        stop := InsertChildResource(content, keys[i..], skip, categoryID, rollbackOnParseError, faults);
        if stop.Some? {
          return;
        }
        i := i + 1;
      }
      assert keys[i..] == [];
      return None;
    }

    // ----- storage/resources.go -----

    /** AddResource: lookup is the connection of the category lookup's own read transaction. */
    method AddResource(resource: Resource, keys: seq<string>, faults: Faults, lookup: Faults) returns (o: Outcome<()>)
      requires db.Valid() && IsOrder(keys, resource.content)
      modifies db
      ensures db.Valid() && db.open == o.leftOpen
      ensures Effect(o, db.committed) == Add(StoragePath, faults, lookup, old(db.committed), db.categories, resource, keys)
    {
      var err := db.Begin(faults);
      if err.Some? {
        return Outcome(Err(err.value), false);
      }
      var category := QueryCategoryByName(CategoryContent, lookup);
      if category.Err? {
        return Outcome(Err(category.error), true);
      }
      if |resource.content| > MaxContentItems {
        return Outcome(Err(TooManyAttachments), true);
      }
      var stop := InsertChildResources(resource.content, keys, {LocationKey}, category.value.id, false, faults);
      if stop.Some? {
        AddAfterStop(StoragePath, faults, lookup, old(db.committed), db.categories, resource, keys, category.value);
        return stop.value;
      }
      AddAfterContinue(StoragePath, faults, lookup, old(db.committed), db.categories, resource, keys, category.value);
      var e := InsertResource(resource, faults);
      if e.Some? {
        return Outcome(Err(AsAlreadyExists(e.value)), false);
      }
      err := db.Commit(faults);
      if err.Some? {
        return Outcome(Err(err.value), false);
      }
      return Outcome(Ok(()), false);
    }

    /** GetResourcesByCategory */
    method GetResourcesByCategory(category: int, faults: Faults) returns (o: Outcome<seq<Resource>>)
      ensures o == ListResources(StoragePath, faults, db.committed, CategoryIs(category))
    {
      if faults.begin.Some? {
        return Outcome(Err(Driver(faults.begin.value)), false);
      }
      var resources := QueryResourcesByCategory(category, faults);
      if resources.Err? {
        if resources.error == NoRows {
          return Outcome(Err(ResourceNotFound), true);
        }
        return Outcome(Err(resources.error), false);
      }
      if faults.commit.Some? {
        return Outcome(Err(Driver(faults.commit.value)), false);
      }
      return Outcome(Ok(resources.value), false);
    }

    /** GetResourcesByIDs */
    method GetResourcesByIDs(ids: seq<Uuid>, faults: Faults) returns (o: Outcome<seq<Resource>>)
      requires |ids| >= 1
      ensures o == ListResources(StoragePath, faults, db.committed, IdIn(ids))
    {
      if faults.begin.Some? {
        return Outcome(Err(Driver(faults.begin.value)), false);
      }
      var resources := QueryResourcesByIDs(ids, faults);
      if resources.Err? {
        if resources.error == NoRows {
          return Outcome(Err(ResourceNotFound), true);
        }
        return Outcome(Err(resources.error), false);
      }
      if faults.commit.Some? {
        return Outcome(Err(Driver(faults.commit.value)), false);
      }
      return Outcome(Ok(resources.value), false);
    }

    /** GetResourceByID */
    method GetResourceByID(id: Uuid, faults: Faults) returns (r: Result<Resource>)
      ensures r == GetResource(StoragePath, faults, db.committed, id)
    {
      r := QueryResourceByID(id, faults);
      if r == Err(NoRows) {
        return Err(ResourceNotFound);
      }
    }

    /**
     * UpdateResource: rowLookup and categoryLookup are the connections of the two lookups' own read
     * transactions.
     */
    method UpdateResource(resource: Resource, keys: seq<string>, faults: Faults, rowLookup: Faults, categoryLookup: Faults) returns (o: Outcome<()>)
      requires db.Valid() && IsOrder(keys, resource.content)
      modifies db
      ensures db.Valid() && db.open == o.leftOpen
      ensures Effect(o, db.committed) == Update(StoragePath, faults, rowLookup, categoryLookup, old(db.committed), db.categories, resource, keys)
    {
      var err := db.Begin(faults);
      if err.Some? {
        return Outcome(Err(err.value), false);
      }
      if |resource.content| > MaxContentItems {
        var rolledBack := RollbackWithErrorStack(TooManyAttachments, faults);
        return Outcome(Err(rolledBack), false);
      }
      var stored := QueryResourceByID(resource.id, rowLookup);
      if stored.Err? {
        if stored.error == NoRows {
          var rolledBack := RollbackWithErrorStack(ResourceNotFound, faults);
          return Outcome(Err(rolledBack), false);
        }
        return Outcome(Err(stored.error), true);
      }
      var category := QueryCategoryByName(CategoryContent, categoryLookup);
      if category.Err? {
        UpdateCategoryFails(StoragePath, faults, rowLookup, categoryLookup, db.committed, db.categories, resource, keys);
        var rolledBack := RollbackWithErrorStack(category.error, faults);
        return Outcome(Err(rolledBack), false);
      }
      var stop := InsertChildResources(resource.content, keys, stored.value.content.Keys, category.value.id, true, faults);
      if stop.Some? {
        UpdateAfterStop(StoragePath, faults, rowLookup, categoryLookup, old(db.committed), db.categories, resource, keys, stored.value, category.value);
        return stop.value;
      }
      UpdateAfterContinue(StoragePath, faults, rowLookup, categoryLookup, old(db.committed), db.categories, resource, keys, stored.value, category.value);
      var e := UpdateResourceRow(resource, faults);
      if e.Some? {
        return Outcome(Err(AsNotFound(e.value)), false);
      }
      err := db.Commit(faults);
      if err.Some? {
        return Outcome(Err(err.value), false);
      }
      return Outcome(Ok(()), false);
    }

    /** One key of the child-deletion loop: the loop goes on with the rest of the keys, or returns here. */
    method DeleteChildResource(keys: seq<string>, faults: Faults) returns (stop: Option<Outcome<()>>)
      requires db.Valid() && db.open && keys != []
      modifies db
      ensures db.Valid() && db.committed == old(db.committed)
      ensures stop.None? ==> db.open && DeleteChildren(faults, old(db.pending), keys) == DeleteChildren(faults, db.pending, keys[1..])
      ensures stop.Some? ==> !db.open && DeleteChildren(faults, old(db.pending), keys) == Stop(stop.value)
    {
      DeleteChildrenNext(faults, db.pending, keys);
      var k := keys[0];
      if k == LocationKey {
        return None;
      }
      var e := DeleteResourceRow(k, faults);
      if e.Some? {
        return Some(Outcome(Err(AsNotFound(e.value)), false));
      }
      return None;
    }

    /** The child-deletion loop of DeleteResource in the open transaction. */
    method DeleteChildResources(keys: seq<string>, faults: Faults) returns (stop: Option<Outcome<()>>)
      requires db.Valid() && db.open
      modifies db
      ensures db.Valid() && db.committed == old(db.committed)
      ensures stop.None? <==> DeleteChildren(faults, old(db.pending), keys).Continue?
      ensures stop.None? ==> db.open && db.pending == DeleteChildren(faults, old(db.pending), keys).t
      ensures stop.Some? ==> stop.value == DeleteChildren(faults, old(db.pending), keys).outcome && !db.open
    {
      ghost var start := db.pending;
      var i := 0;
      while i < |keys|
        invariant 0 <= i <= |keys|
        invariant db.Valid() && db.open && db.committed == old(db.committed)
        invariant DeleteChildren(faults, start, keys) == DeleteChildren(faults, db.pending, keys[i..])
      {
        assert keys[i..][1..] == keys[i + 1..];
        stop := DeleteChildResource(keys[i..], faults);
        if stop.Some? {
          return;
        }
        i := i + 1;
      }
      assert keys[i..] == [];
      return None;
    }

    /** DeleteResource */
    method DeleteResource(resource: Resource, keys: seq<string>, faults: Faults) returns (o: Outcome<()>)
      requires db.Valid() && IsOrder(keys, resource.content)
      modifies db
      ensures db.Valid() && !db.open && !o.leftOpen
      ensures Effect(o, db.committed) == Delete(faults, old(db.committed), resource, keys)
    {
      var err := db.Begin(faults);
      if err.Some? {
        return Outcome(Err(err.value), false);
      }
      var stop := DeleteChildResources(keys, faults);
      if stop.Some? {
        DeleteAfterStop(faults, old(db.committed), resource, keys);
        return stop.value;
      }
      DeleteAfterContinue(faults, old(db.committed), resource, keys);
      var e := DeleteResourceRow(Format(resource.id), faults);
      if e.Some? {
        return Outcome(Err(AsNotFound(e.value)), false);
      }
      err := db.Commit(faults);
      if err.Some? {
        return Outcome(Err(err.value), false);
      }
      return Outcome(Ok(()), false);
    }

    /** GetCategories: passes getCategories' result on unchanged. */
    method GetCategories(faults: Faults) returns (o: Outcome<seq<Category>>)
      ensures o == AllCategories(faults, db.categories)
    {
      o := QueryCategories(faults);
    }
  }
}
