/**
 * The old code path's operations: dbcontrollers/resources.go, the MYSQLController over
 * MYSQLFunctions and the MYSQLConnector they share. Every method is proved to behave as the
 * matching function of Repository on ControllerPath.
 */
module DbControllers {
  import opened Errors
  import opened Uuids
  import opened Models
  import opened Tables
  import opened Database
  import opened Repository
  import opened MySqlDb

  class Controller {
    const functions: Functions
    const connector: Connector

    /** NewDBController wires both fields to one connector. */
    constructor (connector: Connector)
      ensures this.connector == connector && functions.connector == connector
    {
      this.connector := connector;
      this.functions := new Functions(connector);
    }

    /** One key of the child-row loop: the loop goes on with the rest of the keys, or returns here. */
    method InsertChildResource(content: ContentMap, keys: seq<string>, skip: set<string>, categoryID: int,
                               rollbackOnParseError: bool, faults: Faults) returns (stop: Option<Outcome<()>>)
      requires functions.connector == connector
      requires connector.db.Valid() && connector.db.open && keys != [] && forall k | k in keys :: k in content
      modifies connector.db
      ensures connector.db.Valid() && connector.db.committed == old(connector.db.committed)
      ensures stop.None? ==>
        && connector.db.open
        && InsertChildren(ControllerPath, faults, old(connector.db.pending), content, keys, skip, categoryID, rollbackOnParseError)
           == InsertChildren(ControllerPath, faults, connector.db.pending, content, keys[1..], skip, categoryID, rollbackOnParseError)
      ensures stop.Some? ==> connector.db.open == stop.value.leftOpen && InsertChildren(ControllerPath, faults, old(connector.db.pending), content, keys, skip, categoryID, rollbackOnParseError) == Stop(stop.value)
    {
      InsertChildrenNext(ControllerPath, faults, connector.db.pending, content, keys, skip, categoryID, rollbackOnParseError);
      var k := keys[0];
      if k in skip {
        return None;
      }
      var item := NewResource(k, categoryID, content[k]);
      if item.Err? {
        if rollbackOnParseError {
          var rolledBack := RollbackWithErrorStack(connector, item.error, faults);
          return Some(Outcome(Err(rolledBack), false));
        }
        return Some(Outcome(Err(item.error), true));
      }
      var e := functions.AddResource(item.value, faults);
      if e.Some? {
        return Some(Outcome(Err(AsAlreadyExists(e.value)), false));
      }
      return None;
    }

    /** The child-row loop of AddResource and UpdateResource in the open transaction. */
    method InsertChildResources(content: ContentMap, keys: seq<string>, skip: set<string>, categoryID: int,
                                rollbackOnParseError: bool, faults: Faults) returns (stop: Option<Outcome<()>>)
      requires functions.connector == connector
      requires connector.db.Valid() && connector.db.open && forall k | k in keys :: k in content
      modifies connector.db
      ensures connector.db.Valid() && connector.db.committed == old(connector.db.committed)
      ensures stop.None? <==> InsertChildren(ControllerPath, faults, old(connector.db.pending), content, keys, skip, categoryID, rollbackOnParseError).Continue?
      ensures stop.None? ==> connector.db.open && connector.db.pending == InsertChildren(ControllerPath, faults, old(connector.db.pending), content, keys, skip, categoryID, rollbackOnParseError).t
      ensures stop.Some? ==> stop.value == InsertChildren(ControllerPath, faults, old(connector.db.pending), content, keys, skip, categoryID, rollbackOnParseError).outcome
      ensures stop.Some? ==> connector.db.open == stop.value.leftOpen
    {
      ghost var start := connector.db.pending;
      var i := 0;
      while i < |keys|
        invariant 0 <= i <= |keys|
        invariant connector.db.Valid() && connector.db.open && connector.db.committed == old(connector.db.committed)
        invariant InsertChildren(ControllerPath, faults, start, content, keys, skip, categoryID, rollbackOnParseError)
               == InsertChildren(ControllerPath, faults, connector.db.pending, content, keys[i..], skip, categoryID, rollbackOnParseError)
      {
        assert keys[i..][1..] == keys[i + 1..];
        stop := InsertChildResource(content, keys[i..], skip, categoryID, rollbackOnParseError, faults);
        if stop.Some? {
          return;
        }
        i := i + 1;
      }
      assert keys[i..] == [];
      return None;
    }

    /**
     * AddResource: a child key that is not a UUID is rolled back here, unlike the storage path;
     * lookup is the connection of the category lookup's own read transaction.
     */
    method AddResource(resource: Resource, keys: seq<string>, faults: Faults, lookup: Faults) returns (o: Outcome<()>)
      requires functions.connector == connector
      requires connector.db.Valid() && IsOrder(keys, resource.content)
      modifies connector.db
      ensures connector.db.Valid() && connector.db.open == o.leftOpen
      ensures Effect(o, connector.db.committed) == Add(ControllerPath, faults, lookup, old(connector.db.committed), connector.db.categories, resource, keys)
    {
      var err := connector.ConnectSystem(faults);
      if err.Some? {
        return Outcome(Err(err.value), false);
      }
      var category := functions.GetCategoryByName(CategoryContent, lookup);
      if category.Err? {
        return Outcome(Err(category.error), true);
      }
      if |resource.content| > MaxContentItems {
        return Outcome(Err(TooManyAttachments), true);
      }
      var stop := InsertChildResources(resource.content, keys, {LocationKey}, category.value.id, true, faults);
      if stop.Some? {
        AddAfterStop(ControllerPath, faults, lookup, old(connector.db.committed), connector.db.categories, resource, keys, category.value);
        return stop.value;
      }
      AddAfterContinue(ControllerPath, faults, lookup, old(connector.db.committed), connector.db.categories, resource, keys, category.value);
      var e := functions.AddResource(resource, faults);
      if e.Some? {
        return Outcome(Err(AsAlreadyExists(e.value)), false);
      }
      err := connector.Commit(faults);
      if err.Some? {
        return Outcome(Err(err.value), false);
      }
      return Outcome(Ok(()), false);
    }

    /** GetResourcesByCategory */
    method GetResourcesByCategory(category: int, faults: Faults) returns (o: Outcome<seq<Resource>>)
      requires functions.connector == connector
      ensures o == ListResources(ControllerPath, faults, connector.db.committed, CategoryIs(category))
    {
      if faults.begin.Some? {
        return Outcome(Err(Driver(faults.begin.value)), false);
      }
      var resources := functions.GetResourcesByCategory(category, faults);
      if resources.Err? {
        if resources.error == NoRows {
          return Outcome(Err(ResourceNotFound), true);
        }
        return Outcome(Err(resources.error), false);
      }
      if faults.commit.Some? {
        return Outcome(Err(Driver(faults.commit.value)), false);
      }
      return Outcome(Ok(resources.value), false);
    }

    /** GetResourcesByIDs: the id list must not be empty (see MYSQLFunctions.GetResourcesByIDs). */
    method GetResourcesByIDs(ids: seq<Uuid>, faults: Faults) returns (o: Outcome<seq<Resource>>)
      requires functions.connector == connector && |ids| >= 1
      ensures o == ListResources(ControllerPath, faults, connector.db.committed, IdIn(ids))
    {
      if faults.begin.Some? {
        return Outcome(Err(Driver(faults.begin.value)), false);
      }
      var resources := functions.GetResourcesByIDs(ids, faults);
      if resources.Err? {
        if resources.error == NoRows {
          return Outcome(Err(ResourceNotFound), true);
        }
        return Outcome(Err(resources.error), false);
      }
      if faults.commit.Some? {
        return Outcome(Err(Driver(faults.commit.value)), false);
      }
      return Outcome(Ok(resources.value), false);
    }

    /** GetResourceByID: sql.ErrNoRows becomes ErrResourceNotFound. */
    method GetResourceByID(id: Uuid, faults: Faults) returns (r: Result<Resource>)
      requires functions.connector == connector
      ensures r == GetResource(ControllerPath, faults, connector.db.committed, id)
    {
      r := functions.GetResourceByID(id, faults);
      if r == Err(NoRows) {
        return Err(ResourceNotFound);
      }
    }

    /**
     * UpdateResource: rowLookup and categoryLookup are the connections of the two lookups' own read
     * transactions.
     */
    method UpdateResource(resource: Resource, keys: seq<string>, faults: Faults, rowLookup: Faults, categoryLookup: Faults) returns (o: Outcome<()>)
      requires functions.connector == connector
      requires connector.db.Valid() && IsOrder(keys, resource.content)
      modifies connector.db
      ensures connector.db.Valid() && connector.db.open == o.leftOpen
      ensures Effect(o, connector.db.committed) == Update(ControllerPath, faults, rowLookup, categoryLookup, old(connector.db.committed), connector.db.categories, resource, keys)
    {
      var err := connector.ConnectSystem(faults);
      if err.Some? {
        return Outcome(Err(err.value), false);
      }
      if |resource.content| > MaxContentItems {
        var rolledBack := RollbackWithErrorStack(connector, TooManyAttachments, faults);
        return Outcome(Err(rolledBack), false);
      }
      var stored := functions.GetResourceByID(resource.id, rowLookup);
      if stored.Err? {
        if stored.error == NoRows {
          var rolledBack := RollbackWithErrorStack(connector, ResourceNotFound, faults);
          return Outcome(Err(rolledBack), false);
        }
        return Outcome(Err(stored.error), true);
      }
      var category := functions.GetCategoryByName(CategoryContent, categoryLookup);
      if category.Err? {
        UpdateCategoryFails(ControllerPath, faults, rowLookup, categoryLookup, connector.db.committed, connector.db.categories, resource, keys);
        var rolledBack := RollbackWithErrorStack(connector, category.error, faults);
        return Outcome(Err(rolledBack), false);
      }
      var stop := InsertChildResources(resource.content, keys, stored.value.content.Keys, category.value.id, true, faults);
      if stop.Some? {
        UpdateAfterStop(ControllerPath, faults, rowLookup, categoryLookup, old(connector.db.committed), connector.db.categories, resource, keys, stored.value, category.value);
        return stop.value;
      }
      UpdateAfterContinue(ControllerPath, faults, rowLookup, categoryLookup, old(connector.db.committed), connector.db.categories, resource, keys, stored.value, category.value);
      var e := functions.UpdateResource(resource, faults);
      if e.Some? {
        return Outcome(Err(AsNotFound(e.value)), false);
      }
      err := connector.Commit(faults);
      if err.Some? {
        return Outcome(Err(err.value), false);
      }
      return Outcome(Ok(()), false);
    }

    /** One key of the child-deletion loop: the loop goes on with the rest of the keys, or returns here. */
    method DeleteChildResource(keys: seq<string>, faults: Faults) returns (stop: Option<Outcome<()>>)
      requires functions.connector == connector
      requires connector.db.Valid() && connector.db.open && keys != []
      modifies connector.db
      ensures connector.db.Valid() && connector.db.committed == old(connector.db.committed)
      ensures stop.None? ==> connector.db.open && DeleteChildren(faults, old(connector.db.pending), keys) == DeleteChildren(faults, connector.db.pending, keys[1..])
      ensures stop.Some? ==> !connector.db.open && DeleteChildren(faults, old(connector.db.pending), keys) == Stop(stop.value)
    {
      DeleteChildrenNext(faults, connector.db.pending, keys);
      var k := keys[0];
      if k == LocationKey {
        return None;
      }
      var e := functions.DeleteResource(k, faults);
      if e.Some? {
        return Some(Outcome(Err(AsNotFound(e.value)), false));
      }
      return None;
    }

    /** The child-deletion loop of DeleteResource in the open transaction. */
    method DeleteChildResources(keys: seq<string>, faults: Faults) returns (stop: Option<Outcome<()>>)
      requires functions.connector == connector
      requires connector.db.Valid() && connector.db.open
      modifies connector.db
      ensures connector.db.Valid() && connector.db.committed == old(connector.db.committed)
      ensures stop.None? <==> DeleteChildren(faults, old(connector.db.pending), keys).Continue?
      ensures stop.None? ==> connector.db.open && connector.db.pending == DeleteChildren(faults, old(connector.db.pending), keys).t
      ensures stop.Some? ==> stop.value == DeleteChildren(faults, old(connector.db.pending), keys).outcome && !connector.db.open
    {
      ghost var start := connector.db.pending;
      var i := 0;
      while i < |keys|
        invariant 0 <= i <= |keys|
        invariant connector.db.Valid() && connector.db.open && connector.db.committed == old(connector.db.committed)
        invariant DeleteChildren(faults, start, keys) == DeleteChildren(faults, connector.db.pending, keys[i..])
      {
        assert keys[i..][1..] == keys[i + 1..];
        stop := DeleteChildResource(keys[i..], faults);
        if stop.Some? {
          return;
        }
        i := i + 1;
      }
      assert keys[i..] == [];
      return None;
    }

    /** DeleteResource: the children named by the caller's content, then the resource itself. */
    method DeleteResource(resource: Resource, keys: seq<string>, faults: Faults) returns (o: Outcome<()>)
      requires functions.connector == connector
      requires connector.db.Valid() && IsOrder(keys, resource.content)
      modifies connector.db
      ensures connector.db.Valid() && !connector.db.open && !o.leftOpen
      ensures Effect(o, connector.db.committed) == Delete(faults, old(connector.db.committed), resource, keys)
    {
      var err := connector.ConnectSystem(faults);
      if err.Some? {
        return Outcome(Err(err.value), false);
      }
      var stop := DeleteChildResources(keys, faults);
      if stop.Some? {
        DeleteAfterStop(faults, old(connector.db.committed), resource, keys);
        return stop.value;
      }
      DeleteAfterContinue(faults, old(connector.db.committed), resource, keys);
      var e := functions.DeleteResource(Format(resource.id), faults);
      if e.Some? {
        return Outcome(Err(AsNotFound(e.value)), false);
      }
      err := connector.Commit(faults);
      if err.Some? {
        return Outcome(Err(err.value), false);
      }
      return Outcome(Ok(()), false);
    }

    /** GetCategories: passes MYSQLFunctions.GetCategories' result on unchanged. */
    method GetCategories(faults: Faults) returns (o: Outcome<seq<Category>>)
      requires functions.connector == connector
      ensures o == AllCategories(faults, connector.db.categories)
    {
      o := functions.GetCategories(faults);
    }
  }
}
