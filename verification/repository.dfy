/**
 * The reference semantics of the resource repository, shared by its two code paths: storage/ (new)
 * and dbcontrollers/ over mysqldb/ (old). Each function gives, for a committed table and the faults
 * of the connection, what an operation returns and what the committed table is afterwards. The
 * classes in Storage, MySqlDb and DbControllers are proved to behave exactly like these functions.
 */
module Repository {
  import opened Errors
  import opened Uuids
  import opened Models
  import opened Tables
  import opened Database

  /** MaxContentItems: the most content entries a resource may carry, "location" included. */
  const MaxContentItems := 2

  /**
   * StoragePath writes the content column with ContentMap.Value and reads it with ContentMap.Scan;
   * ControllerPath writes json.Marshal bytes and reads raw bytes through json.Unmarshal.
   */
  datatype Path = StoragePath | ControllerPath

  /** How a path reads a content column into a fresh resource's content map. */
  function Decode(p: Path, c: Column): (r: Result<ContentMap>)
    ensures p.StoragePath? ==> r == Scanned(map[], c)
    ensures p.ControllerPath? ==> (r.Ok? <==> c.Bytes? && c.json.Object?)
    ensures p.ControllerPath? && c.Null? ==> r == Err(InvalidJson)
  {
    match p
    case StoragePath => Scanned(map[], c)
    case ControllerPath =>
      match c
      case Null => Err(InvalidJson)
      case Bytes(j) => Unmarshal(j)
      case OtherType => Err(IncompatibleType)
  }

  /** How a path writes a content map into the content column; each path reads its own writing back. */
  function Encode(p: Path, m: ContentMap): (c: Column)
    ensures Decode(p, c) == Ok(m)
    ensures p.StoragePath? ==> (c.Null? <==> |m| == 0)
    ensures p.ControllerPath? ==> c.Bytes?
  {
    match p
    case StoragePath =>
      ScanValueRoundTrip(m);
      Value(m)
    case ControllerPath => Bytes(Marshal(m))
  }

  /** A scanned row: the resource with its content decoded. */
  function ToResource(p: Path, row: Row): (r: Result<Resource>)
    ensures r.Ok? <==> Decode(p, row.content).Ok?
    ensures r.Ok? ==> r.value == Resource(row.id, row.category, Decode(p, row.content).value)
    ensures r.Err? ==> r.error == Decode(p, row.content).error
  {
    match Decode(p, row.content)
    case Err(e) => Err(e)
    case Ok(m) => Ok(Resource(row.id, row.category, m))
  }

  /**
   * What an operation returns, and whether it returned with its transaction still open (neither
   * committed nor rolled back).
   */
  datatype Outcome<T> = Outcome(result: Result<T>, leftOpen: bool)

  /** A write's outcome and the committed table afterwards. */
  datatype Effect = Effect(outcome: Outcome<()>, after: State)

  /** Where the child-row loop of a write ends: still inside the transaction, or returned. */
  datatype Step = Continue(t: State) | Stop(outcome: Outcome<()>)

  /** The iteration order of a Go map: every key exactly once. */
  predicate IsOrder(keys: seq<string>, m: ContentMap) {
    && (forall k | k in keys :: k in m)
    && (forall k | k in m :: k in keys)
    && (forall i, j | 0 <= i < j < |keys| :: keys[i] != keys[j])
  }

  /** The duplicate-key test of AddResource and UpdateResource. */
  function AsAlreadyExists(e: Error): (r: Error)
    ensures r == ResourceAlreadyExists <==> IsDuplicateEntry(e) || e == ResourceAlreadyExists
    ensures r != ResourceAlreadyExists ==> r == e
  {
    if IsDuplicateEntry(e) then ResourceAlreadyExists else e
  }

  /** The identity test against ErrResourcesMissing in UpdateResource and DeleteResource. */
  function AsNotFound(e: Error): (r: Error)
    ensures r == ResourceNotFound <==> e == ResourcesMissing || e == ResourceNotFound
    ensures r != ResourceNotFound ==> r == e
  {
    if e == ResourcesMissing then ResourceNotFound else e
  }

  // ---------------------------------------------------------------------------------------------
  // Row-level statements inside an open transaction (storage/functions.go, mysqldb/resources.go).
  // An Err result means the statement failed and the transaction has been rolled back.

  /** addResource / MYSQLFunctions.AddResource. */
  function InsertStep(p: Path, f: Faults, t: State, r: Resource): (res: Result<State>)
    ensures res.Ok? <==> r.id !in Ids(t.rows)
    ensures res.Ok? ==> res.value.rows == t.rows + [Row(r.id, r.category, Encode(p, r.content), t.clock)]
    ensures res.Ok? ==> res.value.clock == t.clock + 1 && (Valid(t) ==> Valid(res.value))
    ensures res.Err? ==> AsAlreadyExists(res.error) == ResourceAlreadyExists
  {
    match Tables.InsertRow(t, r.id, r.category, Encode(p, r.content))
    case Err(e) =>
      DuplicateSurvivesRollback(f.rollback);
      Err(RollbackError(e, f.rollback))
    case Ok(t') => Ok(t')
  }

  /** updateResource / MYSQLFunctions.UpdateResource: no changed row is ErrResourcesMissing. */
  function UpdateStep(p: Path, f: Faults, t: State, r: Resource): (res: Result<State>)
    ensures res.Err? <==> Tables.UpdateRow(t, r.id, r.category, Encode(p, r.content)).affected == 0
    ensures res.Err? ==> res.error == RollbackError(ResourcesMissing, f.rollback)
    ensures res.Ok? ==> res.value == Tables.UpdateRow(t, r.id, r.category, Encode(p, r.content)).after
  {
    var u := Tables.UpdateRow(t, r.id, r.category, Encode(p, r.content));
    if u.affected == 0 then Err(RollbackError(ResourcesMissing, f.rollback)) else Ok(u.after)
  }

  /** deleteResource / MYSQLFunctions.DeleteResource, by the id's text. */
  function DeleteStep(f: Faults, t: State, idText: string): (res: Result<State>)
    ensures res.Ok? <==> UuidToBin(idText).Some? && UuidToBin(idText).value in Ids(t.rows)
    ensures res.Ok? ==> res.value == State(Remove(t.rows, UuidToBin(idText).value), t.clock)
    ensures res.Err? && UuidToBin(idText).Some? ==> res.error == RollbackError(ResourcesMissing, f.rollback)
    ensures res.Err? && UuidToBin(idText).None? ==> res.error == RollbackError(Driver(BadUuidStringMessage), f.rollback)
  {
    match Tables.DeleteRow(t, idText)
    case Err(e) => Err(RollbackError(e, f.rollback))
    case Ok(d) => if d.affected == 0 then Err(RollbackError(ResourcesMissing, f.rollback)) else Ok(d.after)
  }

  // ---------------------------------------------------------------------------------------------
  // Reads. Each single-row lookup runs in a read transaction of its own on the committed table.

  /** getCategoryByName / MYSQLFunctions.GetCategoryByName. */
  function CategoryNamed(f: Faults, cats: seq<Category>, name: string): (r: Result<Category>)
    ensures f.begin.Some? ==> r == Err(Driver(f.begin.value))
    ensures f.begin.None? ==> (r == Err(NoRows) <==> forall c | c in cats :: c.name != name)
    ensures r.Ok? ==> r.value in cats && r.value.name == name
    ensures f.begin.None? && f.commit.None? ==> (r.Ok? <==> exists c | c in cats :: c.name == name)
  {
    if f.begin.Some? then Err(Driver(f.begin.value))
    else match FirstMatching(cats, ByName(name))
      case None => Err(NoRows)
      case Some(c) => if f.commit.Some? then Err(Driver(f.commit.value)) else Ok(c)
  }

  /** GetCategoryByID of both paths. */
  function CategoryWithID(f: Faults, cats: seq<Category>, id: int): (r: Result<Category>)
    ensures f.begin.Some? ==> r == Err(Driver(f.begin.value))
    ensures f.begin.None? ==> (r == Err(NoRows) <==> forall c | c in cats :: c.id != id)
    ensures r.Ok? ==> r.value in cats && r.value.id == id
    ensures f.begin.None? && f.commit.None? ==> (r.Ok? <==> exists c | c in cats :: c.id == id)
  {
    if f.begin.Some? then Err(Driver(f.begin.value))
    else match FirstMatching(cats, ById(id))
      case None => Err(NoRows)
      case Some(c) => if f.commit.Some? then Err(Driver(f.commit.value)) else Ok(c)
  }

  /** getResourceByID / MYSQLFunctions.GetResourceByID: sql.ErrNoRows for an absent id. */
  function ResourceRow(p: Path, f: Faults, t: State, id: Uuid): (r: Result<Resource>)
    ensures f.begin.None? ==> (r == Err(NoRows) <==> id !in Ids(t.rows))
    ensures r.Ok? ==> r.value.id == id && exists row | row in t.rows :: row.id == id && ToResource(p, row) == r
  {
    if f.begin.Some? then Err(Driver(f.begin.value))
    else match Find(t.rows, id)
      case None => Err(NoRows)
      case Some(row) =>
        match ToResource(p, row)
        case Err(e) =>
          assert RollbackError(e, f.rollback) != NoRows by {
            if f.rollback.None? { assert e != NoRows; }
          }
          Err(RollbackError(e, f.rollback))
        case Ok(res) =>
          if f.commit.Some? then Err(Driver(f.commit.value)) else Ok(res)
  }

  /** GetResourceByID of both paths: sql.ErrNoRows becomes ErrResourceNotFound, other errors pass. */
  function GetResource(p: Path, f: Faults, t: State, id: Uuid): (r: Result<Resource>)
    ensures f.begin.None? ==> (r == Err(ResourceNotFound) <==> id !in Ids(t.rows))
    ensures r.Ok? <==> ResourceRow(p, f, t, id).Ok?
    ensures r.Ok? ==> r == ResourceRow(p, f, t, id)
    ensures r.Err? && ResourceRow(p, f, t, id) != Err(NoRows) ==> r == ResourceRow(p, f, t, id)
  {
    var r := ResourceRow(p, f, t, id);
    if r == Err(NoRows) then Err(ResourceNotFound)
    else
      assert r != Err(ResourceNotFound) by {
        if r.Err? && f.begin.None? {
          var row :| row in t.rows && row.id == id;
          assert ToResource(p, row).Err? ==> ToResource(p, row).error != ResourceNotFound;
        }
      }
      r
  }

  /** The rows of a result set decoded one after the other; the first failure ends the scan. */
  function DecodeRows(p: Path, rows: seq<Row>): (r: Result<seq<Resource>>)
    ensures r.Ok? <==> forall i | 0 <= i < |rows| :: Decode(p, rows[i].content).Ok?
    ensures r.Ok? ==> |r.value| == |rows|
    ensures r.Ok? ==> forall i | 0 <= i < |rows| :: Ok(r.value[i]) == ToResource(p, rows[i])
    ensures r.Err? ==> r.error in {IncompatibleType, InvalidJson}
  {
    if rows == [] then Ok([])
    else match (ToResource(p, rows[0]), DecodeRows(p, rows[1..]))
      case (Err(e), _) => Err(e)
      case (_, Err(e)) => Err(e)
      case (Ok(x), Ok(xs)) => Ok([x] + xs)
  }

  /** The decoded prefix put in front of the rest of a scan's result. */
  function Prepend(prefix: seq<Resource>, rest: Result<seq<Resource>>): Result<seq<Resource>> {
    match rest
    case Ok(xs) => Ok(prefix + xs)
    case Err(e) => Err(e)
  }

  /** A scan that has decoded rows[..i] into prefix: its result is prefix in front of the rest's. */
  predicate ScannedUpTo(p: Path, rows: seq<Row>, i: nat, prefix: seq<Resource>)
    requires i <= |rows|
  {
    DecodeRows(p, rows) == Prepend(prefix, DecodeRows(p, rows[i..]))
  }

  /** Before the first row nothing is decoded. */
  lemma ScanStart(p: Path, rows: seq<Row>)
    ensures ScannedUpTo(p, rows, 0, [])
  {
    assert rows[0..] == rows;
    match DecodeRows(p, rows)
    case Ok(xs) => assert [] + xs == xs;
    case Err(_) =>
  }

  /** The next row either ends the scan with its decode error or joins the prefix. */
  lemma ScanNext(p: Path, rows: seq<Row>, i: nat, prefix: seq<Resource>)
    requires i < |rows| && ScannedUpTo(p, rows, i, prefix)
    ensures ToResource(p, rows[i]).Err? ==> DecodeRows(p, rows) == Err(ToResource(p, rows[i]).error)
    ensures ToResource(p, rows[i]).Ok? ==> ScannedUpTo(p, rows, i + 1, prefix + [ToResource(p, rows[i]).value])
  {
    var rest := rows[i..];
    assert rest[0] == rows[i] && rest[1..] == rows[i + 1..];
    if ToResource(p, rows[i]).Ok? {
      match DecodeRows(p, rest[1..])
      case Ok(xs) => assert prefix + ([ToResource(p, rows[i]).value] + xs) == (prefix + [ToResource(p, rows[i]).value]) + xs;
      case Err(_) =>
    }
  }

  /** After the last row the scan's result is the prefix. */
  lemma ScanEnd(p: Path, rows: seq<Row>, prefix: seq<Resource>)
    requires ScannedUpTo(p, rows, |rows|, prefix)
    ensures DecodeRows(p, rows) == Ok(prefix)
  {
    assert rows[|rows|..] == [] && prefix + [] == prefix;
  }

  /**
   * The rows.Next loop of getResourcesByIDs / getResourcesByCategory and their mysqldb twins, inside
   * the read transaction: a decode failure rolls back, an empty result is sql.ErrNoRows.
   */
  function ScanRows(p: Path, f: Faults, rows: seq<Row>): (r: Result<seq<Resource>>)
    ensures r == Err(NoRows) <==> rows == []
    ensures r.Ok? ==> r == DecodeRows(p, rows) && |r.value| > 0
    ensures r.Err? && rows != [] ==> DecodeRows(p, rows).Err? && r.error == RollbackError(DecodeRows(p, rows).error, f.rollback)
  {
    match DecodeRows(p, rows)
    case Err(e) =>
      assert RollbackError(e, f.rollback) != NoRows;
      Err(RollbackError(e, f.rollback))
    case Ok(rs) => if rs == [] then Err(NoRows) else Ok(rs)
  }

  /**
   * GetResourcesByIDs / GetResourcesByCategory of both paths: an empty result is
   * ErrResourceNotFound, returned without ending the transaction.
   */
  function ListResources(p: Path, f: Faults, t: State, filter: Filter): (o: Outcome<seq<Resource>>)
    ensures f.begin.None? ==> (o == Outcome(Err(ResourceNotFound), true) <==> Select(t.rows, filter) == [])
    ensures o.leftOpen ==> o.result == Err(ResourceNotFound)
    ensures o.result.Ok? ==> o.result == DecodeRows(p, Select(t.rows, filter)) && |o.result.value| > 0
    ensures f.begin.Some? ==> o == Outcome(Err(Driver(f.begin.value)), false)
    ensures f.begin.None? && ScanRows(p, f, Select(t.rows, filter)).Err? && ScanRows(p, f, Select(t.rows, filter)) != Err(NoRows) ==>
      o == Outcome(Err(ScanRows(p, f, Select(t.rows, filter)).error), false)
    ensures f.begin.None? && Select(t.rows, filter) != [] && DecodeRows(p, Select(t.rows, filter)).Ok? ==>
      o == if f.commit.None? then Outcome(DecodeRows(p, Select(t.rows, filter)), false)
           else Outcome(Err(Driver(f.commit.value)), false)
  {
    if f.begin.Some? then Outcome(Err(Driver(f.begin.value)), false)
    else match ScanRows(p, f, Select(t.rows, filter))
      case Err(e) => if e == NoRows then Outcome(Err(ResourceNotFound), true) else Outcome(Err(e), false)
      case Ok(rs) => if f.commit.Some? then Outcome(Err(Driver(f.commit.value)), false) else Outcome(Ok(rs), false)
  }

  /**
   * getCategories / MYSQLFunctions.GetCategories (GetCategories passes the result on): all
   * categories, sql.ErrNoRows for an empty table, and no commit on either path.
   */
  function AllCategories(f: Faults, cats: seq<Category>): (o: Outcome<seq<Category>>)
    ensures f.begin.None? ==> o.leftOpen && (o.result == Err(NoRows) <==> cats == [])
    ensures o.result.Ok? <==> f.begin.None? && cats != []
    ensures o.result.Ok? ==> o.result.value == cats
  {
    if f.begin.Some? then Outcome(Err(Driver(f.begin.value)), false)
    else if cats == [] then Outcome(Err(NoRows), true)
    else Outcome(Ok(cats), true)
  }

  // ---------------------------------------------------------------------------------------------
  // Writes. Every one begins a transaction on the committed table and commits only at its end.

  /** The final tx.Commit of a write. */
  function Finish(f: Faults, s: State, t: State): (e: Effect)
    ensures e.outcome.result.Ok? <==> f.commit.None?
    ensures e.after == (if f.commit.None? then t else s) && !e.outcome.leftOpen
  {
    if f.commit.Some? then Effect(Outcome(Err(Driver(f.commit.value)), false), s)
    else Effect(Outcome(Ok(()), false), t)
  }

  /**
   * The child-row loop of AddResource (skip is {"location"}) and UpdateResource (skip is the stored
   * content's keys): each key outside skip becomes a "Content" child whose only entry is the
   * location. A key that is not a UUID ends the loop with the parse error, the transaction rolled
   * back when rollbackOnParseError holds and left open otherwise.
   */
  function InsertChildren(p: Path, f: Faults, t: State, content: ContentMap, keys: seq<string>,
                          skip: set<string>, category: int, rollbackOnParseError: bool): (s: Step)
    requires forall k | k in keys :: k in content
    ensures s.Stop? ==> s.outcome.result.Err?
    ensures s.Stop? && s.outcome.leftOpen ==> !rollbackOnParseError && s.outcome.result.error == InvalidUuid
    ensures s.Continue? ==> |t.rows| <= |s.t.rows| && s.t.rows[..|t.rows|] == t.rows
    ensures s.Continue? && Valid(t) ==> Valid(s.t)
    decreases |keys|
  {
    if keys == [] then Continue(t)
    else if keys[0] in skip then InsertChildren(p, f, t, content, keys[1..], skip, category, rollbackOnParseError)
    else match NewResource(keys[0], category, content[keys[0]])
      case Err(e) =>
        if rollbackOnParseError then Stop(Outcome(Err(RollbackError(e, f.rollback)), false))
        else Stop(Outcome(Err(e), true))
      case Ok(child) =>
        match InsertStep(p, f, t, child)
        case Err(e) => Stop(Outcome(Err(AsAlreadyExists(e)), false))
        case Ok(t') =>
          var s := InsertChildren(p, f, t', content, keys[1..], skip, category, rollbackOnParseError);
          assert t'.rows[..|t.rows|] == t.rows;
          assert s.Continue? ==> s.t.rows[..|t.rows|] == s.t.rows[..|t'.rows|][..|t.rows|];
          s
  }

  /** One key of the child loop, as the methods' loops take it. */
  lemma InsertChildrenNext(p: Path, f: Faults, t: State, content: ContentMap, keys: seq<string>,
                           skip: set<string>, category: int, rb: bool)
    requires forall k | k in keys :: k in content
    requires keys != []
    ensures keys[0] in skip ==>
      InsertChildren(p, f, t, content, keys, skip, category, rb) == InsertChildren(p, f, t, content, keys[1..], skip, category, rb)
    ensures keys[0] !in skip && NewResource(keys[0], category, content[keys[0]]).Err? ==>
      InsertChildren(p, f, t, content, keys, skip, category, rb)
      == Stop(if rb then Outcome(Err(RollbackError(InvalidUuid, f.rollback)), false) else Outcome(Err(InvalidUuid), true))
    ensures keys[0] !in skip && NewResource(keys[0], category, content[keys[0]]).Ok? ==>
      var step := InsertStep(p, f, t, NewResource(keys[0], category, content[keys[0]]).value);
      && (step.Err? ==> InsertChildren(p, f, t, content, keys, skip, category, rb) == Stop(Outcome(Err(AsAlreadyExists(step.error)), false)))
      && (step.Ok? ==> InsertChildren(p, f, t, content, keys, skip, category, rb) == InsertChildren(p, f, step.value, content, keys[1..], skip, category, rb))
  {
  }

  /**
   * AddResource. Order of checks: begin, the "Content" category lookup, the cap, the children in
   * map order, the parent, the commit. The storage path returns a parse error without rolling back.
   * The category lookup opens a read transaction of its own, whose faults are lookup.
   */
  function Add(p: Path, f: Faults, lookup: Faults, s: State, cats: seq<Category>, r: Resource, keys: seq<string>): (e: Effect)
    requires IsOrder(keys, r.content)
    ensures e.outcome.result.Err? ==> e.after == s
    ensures e.outcome.result.Ok? ==> !e.outcome.leftOpen && |r.content| <= MaxContentItems
    ensures e.outcome.result.Ok? ==> f.begin.None? && f.commit.None? && CategoryNamed(lookup, cats, CategoryContent).Ok?
    ensures Valid(s) ==> Valid(e.after)
    ensures f.begin.None? && CategoryNamed(lookup, cats, CategoryContent).Ok? && |r.content| > MaxContentItems ==>
      e == Effect(Outcome(Err(TooManyAttachments), true), s)
  {
    if f.begin.Some? then Effect(Outcome(Err(Driver(f.begin.value)), false), s)
    else match CategoryNamed(lookup, cats, CategoryContent)
      case Err(err) => Effect(Outcome(Err(err), true), s)
      case Ok(c) =>
        if |r.content| > MaxContentItems then Effect(Outcome(Err(TooManyAttachments), true), s)
        else match InsertChildren(p, f, s, r.content, keys, {LocationKey}, c.id, p.ControllerPath?)
          case Stop(o) => Effect(o, s)
          case Continue(t) =>
            match InsertStep(p, f, t, r)
            case Err(err) => Effect(Outcome(Err(AsAlreadyExists(err)), false), s)
            case Ok(t') => Finish(f, s, t')
  }

  /** Add after a child loop that stopped. */
  lemma AddAfterStop(p: Path, f: Faults, lookup: Faults, s: State, cats: seq<Category>, r: Resource, keys: seq<string>, c: Category)
    requires IsOrder(keys, r.content)
    requires f.begin.None? && CategoryNamed(lookup, cats, CategoryContent) == Ok(c) && |r.content| <= MaxContentItems
    requires InsertChildren(p, f, s, r.content, keys, {LocationKey}, c.id, p.ControllerPath?).Stop?
    ensures Add(p, f, lookup, s, cats, r, keys) == Effect(InsertChildren(p, f, s, r.content, keys, {LocationKey}, c.id, p.ControllerPath?).outcome, s)
  {
  }

  /** Add after a child loop that went through. */
  lemma AddAfterContinue(p: Path, f: Faults, lookup: Faults, s: State, cats: seq<Category>, r: Resource, keys: seq<string>, c: Category)
    requires IsOrder(keys, r.content)
    requires f.begin.None? && CategoryNamed(lookup, cats, CategoryContent) == Ok(c) && |r.content| <= MaxContentItems
    requires InsertChildren(p, f, s, r.content, keys, {LocationKey}, c.id, p.ControllerPath?).Continue?
    ensures var t := InsertChildren(p, f, s, r.content, keys, {LocationKey}, c.id, p.ControllerPath?).t;
      && (InsertStep(p, f, t, r).Ok? ==> Add(p, f, lookup, s, cats, r, keys) == Finish(f, s, InsertStep(p, f, t, r).value))
      && (InsertStep(p, f, t, r).Err? ==> Add(p, f, lookup, s, cats, r, keys) == Effect(Outcome(Err(AsAlreadyExists(InsertStep(p, f, t, r).error)), false), s))
  {
  }

  /**
   * UpdateResource. Order of checks: begin, the cap, the stored resource, the "Content" category,
   * the children for keys the stored content lacks ("location" included), the row update, the
   * commit. The two lookups run in read transactions of their own: the stored resource's with the
   * faults rowLookup, the category's with the faults categoryLookup.
   */
  function Update(p: Path, f: Faults, rowLookup: Faults, categoryLookup: Faults, s: State, cats: seq<Category>, r: Resource, keys: seq<string>): (e: Effect)
    requires IsOrder(keys, r.content)
    ensures e.outcome.result.Err? ==> e.after == s
    ensures e.outcome.result.Ok? ==> !e.outcome.leftOpen && |r.content| <= MaxContentItems && r.id in Ids(s.rows)
    ensures e.outcome.result.Ok? ==> f.begin.None? && f.commit.None? && ResourceRow(p, rowLookup, s, r.id).Ok?
    ensures e.outcome.result.Ok? ==> CategoryNamed(categoryLookup, cats, CategoryContent).Ok?
    ensures Valid(s) ==> Valid(e.after)
    ensures f.begin.None? && |r.content| > MaxContentItems ==>
      e == Effect(Outcome(Err(RollbackError(TooManyAttachments, f.rollback)), false), s)
    ensures f.begin.None? && rowLookup.begin.None? && |r.content| <= MaxContentItems && r.id !in Ids(s.rows) ==>
      e == Effect(Outcome(Err(RollbackError(ResourceNotFound, f.rollback)), false), s)
    ensures && f.begin.None? && |r.content| <= MaxContentItems
            && ResourceRow(p, rowLookup, s, r.id).Err? && ResourceRow(p, rowLookup, s, r.id) != Err(NoRows)
            ==> e == Effect(Outcome(Err(ResourceRow(p, rowLookup, s, r.id).error), true), s)
    ensures && f.begin.None? && |r.content| <= MaxContentItems
            && ResourceRow(p, rowLookup, s, r.id).Ok? && CategoryNamed(categoryLookup, cats, CategoryContent).Err?
            ==> e == Effect(Outcome(Err(RollbackError(CategoryNamed(categoryLookup, cats, CategoryContent).error, f.rollback)), false), s)
  {
    if f.begin.Some? then Effect(Outcome(Err(Driver(f.begin.value)), false), s)
    else if |r.content| > MaxContentItems then
      Effect(Outcome(Err(RollbackError(TooManyAttachments, f.rollback)), false), s)
    else
      var stored := ResourceRow(p, rowLookup, s, r.id);
      if stored == Err(NoRows) then Effect(Outcome(Err(RollbackError(ResourceNotFound, f.rollback)), false), s)
      else if stored.Err? then Effect(Outcome(Err(stored.error), true), s)
      else match CategoryNamed(categoryLookup, cats, CategoryContent)
        case Err(err) => Effect(Outcome(Err(RollbackError(err, f.rollback)), false), s)
        case Ok(c) =>
          match InsertChildren(p, f, s, r.content, keys, stored.value.content.Keys, c.id, true)
          case Stop(o) => Effect(o, s)
          case Continue(t) =>
            match UpdateStep(p, f, t, r)
            case Err(err) => Effect(Outcome(Err(AsNotFound(err)), false), s)
            case Ok(t') =>
              assert r.id in Ids(s.rows);
              Finish(f, s, t')
  }

  /** The arguments under which Update reaches its child loop. */
  predicate UpdateReachesLoop(p: Path, f: Faults, rowLookup: Faults, categoryLookup: Faults, s: State, cats: seq<Category>, r: Resource, stored: Resource, c: Category) {
    && f.begin.None? && |r.content| <= MaxContentItems
    && ResourceRow(p, rowLookup, s, r.id) == Ok(stored) && CategoryNamed(categoryLookup, cats, CategoryContent) == Ok(c)
  }

  /** Update after a failed category lookup: the write transaction is rolled back with its error. */
  lemma UpdateCategoryFails(p: Path, f: Faults, rowLookup: Faults, categoryLookup: Faults, s: State, cats: seq<Category>, r: Resource, keys: seq<string>)
    requires IsOrder(keys, r.content) && f.begin.None? && |r.content| <= MaxContentItems
    requires ResourceRow(p, rowLookup, s, r.id).Ok? && CategoryNamed(categoryLookup, cats, CategoryContent).Err?
    ensures Update(p, f, rowLookup, categoryLookup, s, cats, r, keys) ==
      Effect(Outcome(Err(RollbackError(CategoryNamed(categoryLookup, cats, CategoryContent).error, f.rollback)), false), s)
  {
  }

  /** Update after a child loop that stopped. */
  lemma UpdateAfterStop(p: Path, f: Faults, rowLookup: Faults, categoryLookup: Faults, s: State, cats: seq<Category>, r: Resource, keys: seq<string>, stored: Resource, c: Category)
    requires IsOrder(keys, r.content) && UpdateReachesLoop(p, f, rowLookup, categoryLookup, s, cats, r, stored, c)
    requires InsertChildren(p, f, s, r.content, keys, stored.content.Keys, c.id, true).Stop?
    ensures Update(p, f, rowLookup, categoryLookup, s, cats, r, keys) == Effect(InsertChildren(p, f, s, r.content, keys, stored.content.Keys, c.id, true).outcome, s)
  {
  }

  /** Update after a child loop that went through. */
  lemma UpdateAfterContinue(p: Path, f: Faults, rowLookup: Faults, categoryLookup: Faults, s: State, cats: seq<Category>, r: Resource, keys: seq<string>, stored: Resource, c: Category)
    requires IsOrder(keys, r.content) && UpdateReachesLoop(p, f, rowLookup, categoryLookup, s, cats, r, stored, c)
    requires InsertChildren(p, f, s, r.content, keys, stored.content.Keys, c.id, true).Continue?
    ensures var t := InsertChildren(p, f, s, r.content, keys, stored.content.Keys, c.id, true).t;
      && (UpdateStep(p, f, t, r).Ok? ==> Update(p, f, rowLookup, categoryLookup, s, cats, r, keys) == Finish(f, s, UpdateStep(p, f, t, r).value))
      && (UpdateStep(p, f, t, r).Err? ==> Update(p, f, rowLookup, categoryLookup, s, cats, r, keys) == Effect(Outcome(Err(AsNotFound(UpdateStep(p, f, t, r).error)), false), s))
  {
  }

  /** The child-deletion loop of DeleteResource: every key but "location", in map order. */
  function DeleteChildren(f: Faults, t: State, keys: seq<string>): (s: Step)
    ensures s.Stop? ==> s.outcome.result.Err? && !s.outcome.leftOpen
    ensures s.Continue? && Valid(t) ==> Valid(s.t)
    ensures s.Continue? ==> s.t.clock == t.clock
    decreases |keys|
  {
    if keys == [] then Continue(t)
    else if keys[0] == LocationKey then DeleteChildren(f, t, keys[1..])
    else match DeleteStep(f, t, keys[0])
      case Err(e) => Stop(Outcome(Err(AsNotFound(e)), false))
      case Ok(t') =>
        RemoveValid(t, UuidToBin(keys[0]).value);
        DeleteChildren(f, t', keys[1..])
  }

  /** One key of the child-deletion loop, as the methods' loops take it. */
  lemma DeleteChildrenNext(f: Faults, t: State, keys: seq<string>)
    requires keys != []
    ensures keys[0] == LocationKey ==> DeleteChildren(f, t, keys) == DeleteChildren(f, t, keys[1..])
    ensures keys[0] != LocationKey && DeleteStep(f, t, keys[0]).Err? ==>
      DeleteChildren(f, t, keys) == Stop(Outcome(Err(AsNotFound(DeleteStep(f, t, keys[0]).error)), false))
    ensures keys[0] != LocationKey && DeleteStep(f, t, keys[0]).Ok? ==>
      DeleteChildren(f, t, keys) == DeleteChildren(f, DeleteStep(f, t, keys[0]).value, keys[1..])
  {
  }

  /** DeleteResource: the children named by the caller's content, then the resource itself. */
  function Delete(f: Faults, s: State, r: Resource, keys: seq<string>): (e: Effect)
    requires IsOrder(keys, r.content)
    ensures e.outcome.result.Err? ==> e.after == s
    ensures !e.outcome.leftOpen
    ensures e.outcome.result.Ok? ==> r.id in Ids(s.rows) && r.id !in Ids(e.after.rows)
    ensures e.outcome.result.Ok? ==> f.begin.None? && f.commit.None?
    ensures Valid(s) ==> Valid(e.after)
  {
    if f.begin.Some? then Effect(Outcome(Err(Driver(f.begin.value)), false), s)
    else match DeleteChildren(f, s, keys)
      case Stop(o) => Effect(o, s)
      case Continue(t) =>
        UuidToBinFormat(r.id);
        match DeleteStep(f, t, Format(r.id))
        case Err(err) => Effect(Outcome(Err(AsNotFound(err)), false), s)
        case Ok(t') =>
          RemoveValid(t, r.id);
          assert r.id in Ids(s.rows) by {
            DeleteChildrenShrinks(f, s, keys);
          }
          Finish(f, s, t')
  }

  /** Delete after a child loop that stopped. */
  lemma DeleteAfterStop(f: Faults, s: State, r: Resource, keys: seq<string>)
    requires IsOrder(keys, r.content) && f.begin.None? && DeleteChildren(f, s, keys).Stop?
    ensures Delete(f, s, r, keys) == Effect(DeleteChildren(f, s, keys).outcome, s)
  {
  }

  /** Delete after a child loop that went through. */
  lemma DeleteAfterContinue(f: Faults, s: State, r: Resource, keys: seq<string>)
    requires IsOrder(keys, r.content) && f.begin.None? && DeleteChildren(f, s, keys).Continue?
    ensures var t := DeleteChildren(f, s, keys).t;
      && (DeleteStep(f, t, Format(r.id)).Ok? ==> Delete(f, s, r, keys) == Finish(f, s, DeleteStep(f, t, Format(r.id)).value))
      && (DeleteStep(f, t, Format(r.id)).Err? ==> Delete(f, s, r, keys) == Effect(Outcome(Err(AsNotFound(DeleteStep(f, t, Format(r.id)).error)), false), s))
  {
  }

  /** Deleting rows never adds an id. */
  lemma {:induction false} DeleteChildrenShrinks(f: Faults, t: State, keys: seq<string>)
    ensures DeleteChildren(f, t, keys).Continue? ==> Ids(DeleteChildren(f, t, keys).t.rows) <= Ids(t.rows)
    decreases |keys|
  {
    if keys != [] && keys[0] == LocationKey {
      DeleteChildrenShrinks(f, t, keys[1..]);
    } else if keys != [] && DeleteStep(f, t, keys[0]).Ok? {
      var t' := DeleteStep(f, t, keys[0]).value;
      DeleteChildrenShrinks(f, t', keys[1..]);
      forall x | x in Ids(t'.rows) ensures x in Ids(t.rows) {
        var i :| 0 <= i < |t'.rows| && t'.rows[i].id == x;
        assert t'.rows[i] in t.rows;
      }
    }
  }
}
