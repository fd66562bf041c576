/**
 * The resources table as the SQL statements of the repository see it: rows in insertion order,
 * each with the creation stamp that stands for created_at, and the statements the repository
 * issues against it (INSERT, UPDATE, DELETE, SELECT ... ORDER BY created_at DESC).
 */
module Tables {
  import opened Errors
  import opened Uuids
  import opened Models

  /** One row of the resources table; created is the insertion counter behind created_at. */
  datatype Row = Row(id: Uuid, category: int, content: Column, created: nat)

  /** The rows in insertion order and the stamp the next inserted row receives. */
  datatype State = State(rows: seq<Row>, clock: nat)

  /** The primary key is unique and the creation stamps grow strictly with insertion order. */
  predicate Valid(s: State) {
    && (forall i, j | 0 <= i < j < |s.rows| :: s.rows[i].id != s.rows[j].id)
    && (forall i, j | 0 <= i < j < |s.rows| :: s.rows[i].created < s.rows[j].created)
    && (forall i | 0 <= i < |s.rows| :: s.rows[i].created < s.clock)
  }

  function Ids(rows: seq<Row>): set<Uuid> {
    set i | 0 <= i < |rows| :: rows[i].id
  }

  /** SELECT ... WHERE id = ?: the row with that id. */
  function Find(rows: seq<Row>, id: Uuid): (r: Option<Row>)
    ensures r.Some? <==> id in Ids(rows)
    ensures r.Some? ==> r.value in rows && r.value.id == id
  {
    if rows == [] then None
    else if rows[|rows| - 1].id == id then Some(rows[|rows| - 1])
    else
      assert id in Ids(rows) <==> id in Ids(rows[..|rows| - 1]) by {
        if id in Ids(rows) {
          var i :| 0 <= i < |rows| && rows[i].id == id;
          assert i < |rows| - 1 && rows[..|rows| - 1][i].id == id;
        }
      }
      Find(rows[..|rows| - 1], id)
  }

  /** With a unique primary key the row found is the only row carrying the id. */
  lemma FindUnique(s: State, x: Row)
    requires Valid(s) && x in s.rows
    ensures Find(s.rows, x.id) == Some(x)
  {
    var y := Find(s.rows, x.id).value;
    var i :| 0 <= i < |s.rows| && s.rows[i] == x;
    var j :| 0 <= j < |s.rows| && s.rows[j] == y;
    assert i == j;
  }

  /** INSERT: appends a row stamped with the clock, or fails with MySQL's duplicate-key error. */
  function InsertRow(s: State, id: Uuid, category: int, content: Column): (r: Result<State>)
    ensures r.Err? <==> id in Ids(s.rows)
    ensures r.Err? ==> r.error == Driver(DuplicateEntryMessage)
    ensures r.Ok? ==> r.value.rows == s.rows + [Row(id, category, content, s.clock)]
    ensures r.Ok? ==> r.value.clock == s.clock + 1 && (Valid(s) ==> Valid(r.value))
    ensures r.Ok? ==> Ids(r.value.rows) == Ids(s.rows) + {id}
  {
    if id in Ids(s.rows) then Err(Driver(DuplicateEntryMessage))
    else
      var rows := s.rows + [Row(id, category, content, s.clock)];
      assert Ids(rows) == Ids(s.rows) + {id} by {
        forall x | x in Ids(rows) ensures x in Ids(s.rows) + {id} {
          var i :| 0 <= i < |rows| && rows[i].id == x;
          if i < |s.rows| { assert s.rows[i].id == x; }
        }
        assert rows[|s.rows|].id == id;
        forall x | x in Ids(s.rows) ensures x in Ids(rows) {
          var i :| 0 <= i < |s.rows| && s.rows[i].id == x;
          assert rows[i].id == x;
        }
      }
      Ok(State(rows, s.clock + 1))
  }

  /** The new table and the number of rows MySQL reports for an UPDATE or a DELETE. */
  datatype Changed = Changed(after: State, affected: nat)

  /**
   * UPDATE ... SET content, category WHERE id = ?. The go-sql-driver reports rows CHANGED, not rows
   * matched, so a row already holding the new values counts as not affected.
   */
  function UpdateRow(s: State, id: Uuid, category: int, content: Column): (r: Changed)
    ensures r.after.clock == s.clock && |r.after.rows| == |s.rows|
    ensures r.affected == 1 <==>
      exists i | 0 <= i < |s.rows| :: s.rows[i].id == id && (s.rows[i].category, s.rows[i].content) != (category, content)
    ensures r.affected <= 1 && (r.affected == 0 ==> r.after == s)
    ensures forall i | 0 <= i < |s.rows| ::
      r.after.rows[i] == if s.rows[i].id == id then s.rows[i].(category := category, content := content) else s.rows[i]
    ensures Valid(s) ==> Valid(r.after)
  {
    var rows := seq(|s.rows|, i requires 0 <= i < |s.rows| =>
      if s.rows[i].id == id then s.rows[i].(category := category, content := content) else s.rows[i]);
    if exists i | 0 <= i < |s.rows| :: s.rows[i].id == id && (s.rows[i].category, s.rows[i].content) != (category, content) then
      Changed(State(rows, s.clock), 1)
    else
      assert rows == s.rows by {
        forall i | 0 <= i < |s.rows| ensures rows[i] == s.rows[i] {
          if s.rows[i].id == id {
            assert (s.rows[i].category, s.rows[i].content) == (category, content);
          }
        }
      }
      Changed(s, 0)
  }

  /** The table without the rows that carry the id. */
  function Remove(rows: seq<Row>, id: Uuid): (r: seq<Row>)
    ensures forall x :: x in r <==> x in rows && x.id != id
    ensures |r| <= |rows|
  {
    if rows == [] then []
    else Remove(rows[..|rows| - 1], id) + (if rows[|rows| - 1].id == id then [] else [rows[|rows| - 1]])
  }

  /** Dropping the newest row keeps a table valid. */
  lemma ValidInit(s: State)
    requires Valid(s) && s.rows != []
    ensures Valid(State(s.rows[..|s.rows| - 1], s.clock))
  {
  }

  /** The newest row differs in id from, and is newer than, every other row. */
  lemma LastIsNewest(s: State)
    requires Valid(s) && s.rows != []
    ensures forall x | x in s.rows[..|s.rows| - 1] :: x.id != s.rows[|s.rows| - 1].id && x.created < s.rows[|s.rows| - 1].created
  {
    forall x | x in s.rows[..|s.rows| - 1] ensures x.id != s.rows[|s.rows| - 1].id && x.created < s.rows[|s.rows| - 1].created {
      var i :| 0 <= i < |s.rows| - 1 && s.rows[i] == x;
    }
  }

  /** Appending a row whose id is new and whose stamp is the newest keeps a table valid. */
  lemma ValidAppend(rows: seq<Row>, r: Row, clock: nat)
    requires Valid(State(rows, clock)) && r.created < clock
    requires forall x | x in rows :: x.id != r.id && x.created < r.created
    ensures Valid(State(rows + [r], clock))
  {
    var t := rows + [r];
    forall i, j | 0 <= i < j < |t| ensures t[i].id != t[j].id && t[i].created < t[j].created {
      if j == |rows| {
        assert t[i] in rows;
      } else {
        assert t[i] == rows[i] && t[j] == rows[j];
      }
    }
  }

  /** Removing rows keeps the primary key unique and the stamps in order. */
  lemma {:induction false} RemoveValid(s: State, id: Uuid)
    ensures Valid(s) ==> Valid(State(Remove(s.rows, id), s.clock))
    decreases |s.rows|
  {
    if Valid(s) && s.rows != [] {
      var init := State(s.rows[..|s.rows| - 1], s.clock);
      var last := s.rows[|s.rows| - 1];
      ValidInit(s);
      LastIsNewest(s);
      RemoveValid(init, id);
      var rest := Remove(init.rows, id);
      if last.id != id {
        assert Remove(s.rows, id) == rest + [last];
        ValidAppend(rest, last, s.clock);
      } else {
        assert Remove(s.rows, id) == rest;
      }
    }
  }

  /** DELETE ... WHERE id = UUID_TO_BIN(?): MySQL refuses a string that is not a UUID. */
  function DeleteRow(s: State, idText: string): (r: Result<Changed>)
    ensures r.Err? <==> UuidToBin(idText).None?
    ensures r.Err? ==> r.error == Driver(BadUuidStringMessage)
    ensures r.Ok? ==> (r.value.affected == 1 <==> UuidToBin(idText).value in Ids(s.rows))
    ensures r.Ok? ==> r.value.after == State(Remove(s.rows, UuidToBin(idText).value), s.clock)
    ensures r.Ok? && Valid(s) ==> Valid(r.value.after)
  {
    match UuidToBin(idText)
    case None => Err(Driver(BadUuidStringMessage))
    case Some(id) =>
      RemoveValid(s, id);
      Ok(Changed(State(Remove(s.rows, id), s.clock), if id in Ids(s.rows) then 1 else 0))
  }

  /** The WHERE clause of a multi-row SELECT. */
  datatype Filter = CategoryIs(category: int) | IdIn(ids: seq<Uuid>)

  predicate Keeps(f: Filter, row: Row) {
    match f
    case CategoryIs(c) => row.category == c
    case IdIn(ids) => row.id in ids
  }

  /** SELECT ... WHERE f ORDER BY created_at DESC over a table in insertion order. */
  function Select(rows: seq<Row>, f: Filter): (r: seq<Row>)
    ensures forall x :: x in r <==> x in rows && Keeps(f, x)
    ensures |r| <= |rows|
  {
    if rows == [] then []
    else (if Keeps(f, rows[|rows| - 1]) then [rows[|rows| - 1]] else []) + Select(rows[..|rows| - 1], f)
  }

  /** Creation stamps strictly decrease along the sequence. */
  predicate NewestFirst(rows: seq<Row>) {
    forall i, j | 0 <= i < j < |rows| :: rows[i].created > rows[j].created
  }

  lemma NewestFirstCons(x: Row, rest: seq<Row>)
    requires NewestFirst(rest) && forall y | y in rest :: y.created < x.created
    ensures NewestFirst([x] + rest)
  {
    var t := [x] + rest;
    forall i, j | 0 <= i < j < |t| ensures t[i].created > t[j].created {
      if i == 0 {
        assert t[j] in rest;
      } else {
        assert t[i] == rest[i - 1] && t[j] == rest[j - 1];
      }
    }
  }

  /** The selected rows come newest first. */
  lemma {:induction false} SelectNewestFirst(s: State, f: Filter)
    requires Valid(s)
    ensures NewestFirst(Select(s.rows, f))
    decreases |s.rows|
  {
    if s.rows != [] {
      var init := State(s.rows[..|s.rows| - 1], s.clock);
      var last := s.rows[|s.rows| - 1];
      ValidInit(s);
      LastIsNewest(s);
      SelectNewestFirst(init, f);
      var rest := Select(init.rows, f);
      if !Keeps(f, last) {
        assert Select(s.rows, f) == rest;
      } else {
        assert Select(s.rows, f) == [last] + rest;
        NewestFirstCons(last, rest);
      }
    }
  }
}
