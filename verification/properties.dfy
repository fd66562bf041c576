/**
 * What the repository promises across operations, stated on Repository's functions and therefore,
 * through the methods' postconditions, about both code paths: what a successful write leaves in
 * the table, when it fails, and what a later read or the service then answers.
 */
module Properties {
  import opened Errors
  import opened Uuids
  import opened Models
  import opened Tables
  import opened Database
  import opened Repository
  import Service

  // ---------------------------------------------------------------------------------------------
  // Child rows of AddResource and UpdateResource.

  /**
   * The rows the child loop appends when every key outside skip is a UUID: one "Content" row per
   * such key, in key order, stamped from clock on, whose content is the key's location.
   */
  function ChildRows(p: Path, content: ContentMap, keys: seq<string>, skip: set<string>, category: int, clock: nat): (r: Option<seq<Row>>)
    requires forall k | k in keys :: k in content
    ensures r.Some? ==> |r.value| <= |keys|
    decreases |keys|
  {
    if keys == [] then Some([])
    else if keys[0] in skip then ChildRows(p, content, keys[1..], skip, category, clock)
    else match Parse(keys[0])
      case Err(_) => None
      case Ok(id) =>
        match ChildRows(p, content, keys[1..], skip, category, clock + 1)
        case None => None
        case Some(rest) => Some([Row(id, category, Encode(p, map[LocationKey := content[keys[0]]]), clock)] + rest)
  }

  /** The ids of the rows are pairwise distinct and none of them is in existing. */
  predicate FreshIds(rows: seq<Row>, existing: set<Uuid>)
    decreases |rows|
  {
    rows == [] || (rows[0].id !in existing && FreshIds(rows[1..], existing + {rows[0].id}))
  }

  lemma IdsAppend(a: seq<Row>, b: seq<Row>)
    ensures Ids(a + b) == Ids(a) + Ids(b)
  {
    forall x | x in Ids(a + b) ensures x in Ids(a) + Ids(b) {
      var i :| 0 <= i < |a + b| && (a + b)[i].id == x;
      if i < |a| { assert a[i].id == x; } else { assert b[i - |a|].id == x; }
    }
    forall x | x in Ids(a) ensures x in Ids(a + b) {
      var i :| 0 <= i < |a| && a[i].id == x;
      assert (a + b)[i].id == x;
    }
    forall x | x in Ids(b) ensures x in Ids(a + b) {
      var i :| 0 <= i < |b| && b[i].id == x;
      assert (a + b)[|a| + i].id == x;
    }
  }

  /**
   * A child loop's step agrees with the child rows: it goes through exactly when the rows exist and
   * their ids are fresh in t and distinct, and it then appends exactly those rows to t.
   */
  predicate AppendsChildRows(s: Step, children: Option<seq<Row>>, t: State) {
    && (s.Continue? <==> children.Some? && FreshIds(children.value, Ids(t.rows)))
    && (s.Continue? ==> s.t == State(t.rows + children.value, t.clock + |children.value|))
  }

  /** The child row of a key that is a UUID, stamped at clock. */
  function ChildRow(p: Path, content: ContentMap, key: string, category: int, clock: nat): Row
    requires key in content && Parse(key).Ok?
  {
    Row(Parse(key).value, category, Encode(p, map[LocationKey := content[key]]), clock)
  }

  /** One UUID key of the child loop: a taken id stops it, a fresh one is appended. */
  lemma InsertChildrenUuidKey(p: Path, f: Faults, t: State, content: ContentMap, keys: seq<string>,
                              skip: set<string>, category: int, rb: bool)
    requires forall k | k in keys :: k in content
    requires keys != [] && keys[0] !in skip && Parse(keys[0]).Ok?
    ensures var row := ChildRow(p, content, keys[0], category, t.clock);
            && (row.id in Ids(t.rows) ==> InsertChildren(p, f, t, content, keys, skip, category, rb).Stop?)
            && (row.id !in Ids(t.rows) ==>
                  InsertChildren(p, f, t, content, keys, skip, category, rb)
                  == InsertChildren(p, f, State(t.rows + [row], t.clock + 1), content, keys[1..], skip, category, rb))
  {
    var child := Resource(Parse(keys[0]).value, category, map[LocationKey := content[keys[0]]]);
    var row := ChildRow(p, content, keys[0], category, t.clock);
    assert NewResource(keys[0], category, content[keys[0]]) == Ok(child);
    assert row == Row(child.id, child.category, Encode(p, child.content), t.clock);
    match InsertStep(p, f, t, child)
    case Err(_) =>
      assert InsertChildren(p, f, t, content, keys, skip, category, rb).Stop?;
    case Ok(t') =>
      assert t' == State(t.rows + [row], t.clock + 1);
      assert InsertChildren(p, f, t, content, keys, skip, category, rb) == InsertChildren(p, f, t', content, keys[1..], skip, category, rb);
  }

  /** A key in skip is passed over by the child loop and by the child rows alike. */
  lemma InsertChildrenSkippedKey(p: Path, f: Faults, t: State, content: ContentMap, keys: seq<string>,
                                 skip: set<string>, category: int, rb: bool)
    requires forall k | k in keys :: k in content
    requires keys != [] && keys[0] in skip
    ensures InsertChildren(p, f, t, content, keys, skip, category, rb) == InsertChildren(p, f, t, content, keys[1..], skip, category, rb)
    ensures ChildRows(p, content, keys, skip, category, t.clock) == ChildRows(p, content, keys[1..], skip, category, t.clock)
  {
  }

  /** A key outside skip that is not a UUID stops the child loop and leaves no child rows. */
  lemma InsertChildrenBadKey(p: Path, f: Faults, t: State, content: ContentMap, keys: seq<string>,
                             skip: set<string>, category: int, rb: bool)
    requires forall k | k in keys :: k in content
    requires keys != [] && keys[0] !in skip && Parse(keys[0]).Err?
    ensures InsertChildren(p, f, t, content, keys, skip, category, rb).Stop?
    ensures ChildRows(p, content, keys, skip, category, t.clock).None?
  {
    assert NewResource(keys[0], category, content[keys[0]]).Err?;
  }

  /** One UUID key of the child rows. */
  lemma ChildRowsUuidKey(p: Path, content: ContentMap, keys: seq<string>, skip: set<string>, category: int, clock: nat)
    requires forall k | k in keys :: k in content
    requires keys != [] && keys[0] !in skip && Parse(keys[0]).Ok?
    ensures var rest := ChildRows(p, content, keys[1..], skip, category, clock + 1);
            ChildRows(p, content, keys, skip, category, clock)
              == if rest.None? then None else Some([ChildRow(p, content, keys[0], category, clock)] + rest.value)
  {
  }

  lemma FreshIdsCons(row: Row, rest: seq<Row>, existing: set<Uuid>)
    ensures FreshIds([row] + rest, existing) <==> row.id !in existing && FreshIds(rest, existing + {row.id})
  {
    var rows := [row] + rest;
    assert rows[0] == row && rows[1..] == rest;
  }

  /** A UUID key whose id is taken stops the child loop at the insert. */
  lemma InsertChildrenTakenStops(p: Path, f: Faults, t: State, content: ContentMap, keys: seq<string>,
                                 skip: set<string>, category: int, rb: bool)
    requires forall k | k in keys :: k in content
    requires keys != [] && keys[0] !in skip && Parse(keys[0]).Ok? && Parse(keys[0]).value in Ids(t.rows)
    ensures InsertChildren(p, f, t, content, keys, skip, category, rb).Stop?
  {
    var child := Resource(Parse(keys[0]).value, category, map[LocationKey := content[keys[0]]]);
    assert NewResource(keys[0], category, content[keys[0]]) == Ok(child);
    assert InsertStep(p, f, t, child).Err?;
  }

  /** A taken UUID key stops the child loop, and the child rows, if any, do not have fresh ids. */
  lemma InsertChildrenTakenKey(p: Path, f: Faults, t: State, content: ContentMap, keys: seq<string>,
                               skip: set<string>, category: int, rb: bool)
    requires forall k | k in keys :: k in content
    requires keys != [] && keys[0] !in skip && Parse(keys[0]).Ok?
    requires Parse(keys[0]).value in Ids(t.rows)
    ensures AppendsChildRows(InsertChildren(p, f, t, content, keys, skip, category, rb), ChildRows(p, content, keys, skip, category, t.clock), t)
  {
    InsertChildrenTakenStops(p, f, t, content, keys, skip, category, rb);
    ChildRowsTaken(p, content, keys, skip, category, t);
  }

  /** The child rows of a key list led by a taken UUID key, if any, do not have fresh ids. */
  lemma ChildRowsTaken(p: Path, content: ContentMap, keys: seq<string>, skip: set<string>, category: int, t: State)
    requires forall k | k in keys :: k in content
    requires keys != [] && keys[0] !in skip && Parse(keys[0]).Ok? && Parse(keys[0]).value in Ids(t.rows)
    ensures var rows := ChildRows(p, content, keys, skip, category, t.clock);
            rows.None? || !FreshIds(rows.value, Ids(t.rows))
  {
    ChildRowsUuidKey(p, content, keys, skip, category, t.clock);
    var rest := ChildRows(p, content, keys[1..], skip, category, t.clock + 1);
    if rest.Some? {
      FreshIdsCons(ChildRow(p, content, keys[0], category, t.clock), rest.value, Ids(t.rows));
    }
  }

  /** A fresh row put in front of the rows that follow it, as the child loop sees it. */
  lemma FreshRowFirst(sub: Step, rest: Option<seq<Row>>, row: Row, t: State)
    requires row.id !in Ids(t.rows)
    requires AppendsChildRows(sub, rest, State(t.rows + [row], t.clock + 1))
    ensures AppendsChildRows(sub, if rest.None? then None else Some([row] + rest.value), t)
  {
    var t' := State(t.rows + [row], t.clock + 1);
    assert Ids(t'.rows) == Ids(t.rows) + {row.id} by {
      IdsAppend(t.rows, [row]);
      assert [row][0].id == row.id;
    }
    if rest.Some? {
      FreshIdsCons(row, rest.value, Ids(t.rows));
      assert t'.rows + rest.value == t.rows + ([row] + rest.value);
    }
  }

  /** A fresh UUID key: the loop agrees with the child rows if it does so on the remaining keys. */
  lemma InsertChildrenFreshKey(p: Path, f: Faults, t: State, content: ContentMap, keys: seq<string>,
                               skip: set<string>, category: int, rb: bool)
    requires forall k | k in keys :: k in content
    requires keys != [] && keys[0] !in skip && Parse(keys[0]).Ok?
    requires ChildRow(p, content, keys[0], category, t.clock).id !in Ids(t.rows)
    requires var t' := State(t.rows + [ChildRow(p, content, keys[0], category, t.clock)], t.clock + 1);
             AppendsChildRows(InsertChildren(p, f, t', content, keys[1..], skip, category, rb),
                              ChildRows(p, content, keys[1..], skip, category, t'.clock), t')
    ensures AppendsChildRows(InsertChildren(p, f, t, content, keys, skip, category, rb), ChildRows(p, content, keys, skip, category, t.clock), t)
  {
    var row := ChildRow(p, content, keys[0], category, t.clock);
    var t' := State(t.rows + [row], t.clock + 1);
    var sub := InsertChildren(p, f, t', content, keys[1..], skip, category, rb);
    var rest := ChildRows(p, content, keys[1..], skip, category, t'.clock);
    InsertChildrenUuidKey(p, f, t, content, keys, skip, category, rb);
    ChildRowsUuidKey(p, content, keys, skip, category, t.clock);
    FreshRowFirst(sub, rest, row, t);
  }

  /**
   * The child loop goes through exactly when every key outside skip is a UUID and the new ids are
   * fresh and distinct; it then appends exactly the child rows.
   */
  lemma {:induction false} InsertChildrenEffect(p: Path, f: Faults, t: State, content: ContentMap, keys: seq<string>,
                                                skip: set<string>, category: int, rb: bool)
    requires forall k | k in keys :: k in content
    ensures AppendsChildRows(InsertChildren(p, f, t, content, keys, skip, category, rb), ChildRows(p, content, keys, skip, category, t.clock), t)
    decreases |keys|
  {
    if keys == [] {
      assert t.rows + [] == t.rows;
    } else if keys[0] in skip {
      InsertChildrenSkippedKey(p, f, t, content, keys, skip, category, rb);
      InsertChildrenEffect(p, f, t, content, keys[1..], skip, category, rb);
    } else if Parse(keys[0]).Err? {
      InsertChildrenBadKey(p, f, t, content, keys, skip, category, rb);
    } else if ChildRow(p, content, keys[0], category, t.clock).id in Ids(t.rows) {
      InsertChildrenTakenKey(p, f, t, content, keys, skip, category, rb);
    } else {
      var row := ChildRow(p, content, keys[0], category, t.clock);
      InsertChildrenEffect(p, f, State(t.rows + [row], t.clock + 1), content, keys[1..], skip, category, rb);
      InsertChildrenFreshKey(p, f, t, content, keys, skip, category, rb);
    }
  }

  /** Each key outside skip has its child row among the child rows. */
  lemma {:induction false} ChildRowsCover(p: Path, content: ContentMap, keys: seq<string>, skip: set<string>,
                                          category: int, clock: nat, k: string)
    requires forall k | k in keys :: k in content
    requires ChildRows(p, content, keys, skip, category, clock).Some? && k in keys && k !in skip
    ensures Parse(k).Ok?
    ensures exists row | row in ChildRows(p, content, keys, skip, category, clock).value ::
      row.id == Parse(k).value && row.category == category && row.content == Encode(p, map[LocationKey := content[k]])
    decreases |keys|
  {
    if keys[0] != k {
      if keys[0] in skip {
        ChildRowsCover(p, content, keys[1..], skip, category, clock, k);
      } else {
        ChildRowsCover(p, content, keys[1..], skip, category, clock + 1, k);
        var rest := ChildRows(p, content, keys[1..], skip, category, clock + 1).value;
        var row :| row in rest && row.id == Parse(k).value && row.category == category && row.content == Encode(p, map[LocationKey := content[k]]);
        assert row in ChildRows(p, content, keys, skip, category, clock).value;
      }
    } else {
      assert ChildRows(p, content, keys, skip, category, clock).value[0].id == Parse(k).value;
    }
  }

  /** A key outside skip that is not a UUID makes the child rows impossible. */
  lemma {:induction false} ChildRowsNeedUuids(p: Path, content: ContentMap, keys: seq<string>, skip: set<string>,
                                              category: int, clock: nat, k: string)
    requires forall k | k in keys :: k in content
    requires k in keys && k !in skip && Parse(k).Err?
    ensures ChildRows(p, content, keys, skip, category, clock).None?
    decreases |keys|
  {
    if keys[0] != k {
      if keys[0] in skip {
        ChildRowsNeedUuids(p, content, keys[1..], skip, category, clock, k);
      } else {
        ChildRowsNeedUuids(p, content, keys[1..], skip, category, clock + 1, k);
      }
    }
  }

  // ---------------------------------------------------------------------------------------------
  // AddResource.

  /** The parent row a write of r appends when the clock stands at clock. */
  function ParentRow(p: Path, r: Resource, clock: nat): Row {
    Row(r.id, r.category, Encode(p, r.content), clock)
  }

  /**
   * The effect of AddResource once its child loop is reached: success exactly when the child rows
   * exist, their ids are fresh and distinct, the parent's id is free after them and the commit goes
   * through; the table then has the child rows and then the parent appended.
   */
  predicate AddsChildrenThenParent(p: Path, f: Faults, e: Effect, s: State, children: Option<seq<Row>>, r: Resource) {
    && (e.outcome.result.Ok? <==>
         children.Some? && FreshIds(children.value, Ids(s.rows)) && r.id !in Ids(s.rows + children.value) && f.commit.None?)
    && (e.outcome.result.Ok? ==>
         e.after == State(s.rows + children.value + [ParentRow(p, r, s.clock + |children.value|)], s.clock + |children.value| + 1))
  }

  lemma AddsAfterStop(p: Path, f: Faults, e: Effect, s: State, children: Option<seq<Row>>, r: Resource, loop: Step)
    requires loop.Stop? && AppendsChildRows(loop, children, s) && e.outcome.result.Err?
    ensures AddsChildrenThenParent(p, f, e, s, children, r)
  {
  }

  lemma AddsAfterContinue(p: Path, f: Faults, e: Effect, s: State, children: Option<seq<Row>>, r: Resource, loop: Step)
    requires loop.Continue? && AppendsChildRows(loop, children, s)
    requires InsertStep(p, f, loop.t, r).Ok? ==> e == Finish(f, s, InsertStep(p, f, loop.t, r).value)
    requires InsertStep(p, f, loop.t, r).Err? ==> e.outcome.result.Err?
    ensures AddsChildrenThenParent(p, f, e, s, children, r)
  {
    var t := loop.t;
    assert t == State(s.rows + children.value, s.clock + |children.value|);
    var step := InsertStep(p, f, t, r);
    if step.Ok? {
      assert step.value == State(t.rows + [ParentRow(p, r, t.clock)], t.clock + 1);
    }
  }

  /**
   * Once begun, with the "Content" category found and within the cap, AddResource succeeds exactly
   * when every attachment key is a UUID, all new ids are fresh and the commit goes through; it
   * then commits the table with the child rows and then the parent appended.
   */
  lemma AddEffect(p: Path, f: Faults, lookup: Faults, s: State, cats: seq<Category>, r: Resource, keys: seq<string>, c: Category)
    requires IsOrder(keys, r.content)
    requires f.begin.None? && CategoryNamed(lookup, cats, CategoryContent) == Ok(c) && |r.content| <= MaxContentItems
    ensures AddsChildrenThenParent(p, f, Add(p, f, lookup, s, cats, r, keys), s, ChildRows(p, r.content, keys, {LocationKey}, c.id, s.clock), r)
  {
    InsertChildrenEffect(p, f, s, r.content, keys, {LocationKey}, c.id, p.ControllerPath?);
    var loop := InsertChildren(p, f, s, r.content, keys, {LocationKey}, c.id, p.ControllerPath?);
    var children := ChildRows(p, r.content, keys, {LocationKey}, c.id, s.clock);
    var e := Add(p, f, lookup, s, cats, r, keys);
    if loop.Stop? {
      AddAfterStop(p, f, lookup, s, cats, r, keys, c);
      AddsAfterStop(p, f, e, s, children, r, loop);
    } else {
      AddAfterContinue(p, f, lookup, s, cats, r, keys, c);
      AddsAfterContinue(p, f, e, s, children, r, loop);
    }
  }

  /**
   * A successful AddResource stores one "Content" child per attachment key, with the key's UUID as
   * id and the key's location as its only content entry, as well as the resource itself.
   */
  lemma AddStoresChildren(p: Path, f: Faults, lookup: Faults, s: State, cats: seq<Category>, r: Resource, keys: seq<string>, k: string)
    requires IsOrder(keys, r.content)
    requires Add(p, f, lookup, s, cats, r, keys).outcome.result.Ok?
    requires k in r.content && k != LocationKey
    ensures Parse(k).Ok?
    ensures CategoryNamed(lookup, cats, CategoryContent).Ok?
    ensures exists row | row in Add(p, f, lookup, s, cats, r, keys).after.rows ::
      row.id == Parse(k).value && row.category == CategoryNamed(lookup, cats, CategoryContent).value.id &&
      row.content == Encode(p, map[LocationKey := r.content[k]])
  {
    var c := CategoryNamed(lookup, cats, CategoryContent).value;
    AddEffect(p, f, lookup, s, cats, r, keys, c);
    var children := ChildRows(p, r.content, keys, {LocationKey}, c.id, s.clock).value;
    ChildRowsCover(p, r.content, keys, {LocationKey}, c.id, s.clock, k);
    var row :| row in children && row.id == Parse(k).value && row.category == c.id && row.content == Encode(p, map[LocationKey := r.content[k]]);
    assert row in Add(p, f, lookup, s, cats, r, keys).after.rows;
  }

  /**
   * Adding a resource whose id is taken fails with ErrResourceAlreadyExists and commits nothing,
   * once the children could be built.
   */
  lemma AddDuplicate(p: Path, f: Faults, lookup: Faults, s: State, cats: seq<Category>, r: Resource, keys: seq<string>, c: Category)
    requires IsOrder(keys, r.content) && r.id in Ids(s.rows)
    requires f.begin.None? && CategoryNamed(lookup, cats, CategoryContent) == Ok(c) && |r.content| <= MaxContentItems
    requires ChildRows(p, r.content, keys, {LocationKey}, c.id, s.clock).Some?
    ensures Add(p, f, lookup, s, cats, r, keys) == Effect(Outcome(Err(ResourceAlreadyExists), false), s)
  {
    var children := ChildRows(p, r.content, keys, {LocationKey}, c.id, s.clock).value;
    InsertChildrenEffect(p, f, s, r.content, keys, {LocationKey}, c.id, p.ControllerPath?);
    InsertChildrenStopsOnDuplicate(p, f, s, r.content, keys, {LocationKey}, c.id, p.ControllerPath?);
    match InsertChildren(p, f, s, r.content, keys, {LocationKey}, c.id, p.ControllerPath?)
    case Stop(_) =>
    case Continue(t) =>
      IdsAppend(s.rows, children);
      assert r.id in Ids(t.rows);
  }

  /** With every key outside skip a UUID, the child loop can only stop on a taken id. */
  lemma {:induction false} InsertChildrenStopsOnDuplicate(p: Path, f: Faults, t: State, content: ContentMap, keys: seq<string>,
                                                          skip: set<string>, category: int, rb: bool)
    requires forall k | k in keys :: k in content
    requires ChildRows(p, content, keys, skip, category, t.clock).Some?
    ensures InsertChildren(p, f, t, content, keys, skip, category, rb).Stop? ==>
      InsertChildren(p, f, t, content, keys, skip, category, rb).outcome == Outcome(Err(ResourceAlreadyExists), false)
    decreases |keys|
  {
    if keys != [] {
      if keys[0] in skip {
        InsertChildrenStopsOnDuplicate(p, f, t, content, keys[1..], skip, category, rb);
      } else {
        var child := NewResource(keys[0], category, content[keys[0]]).value;
        var step := InsertStep(p, f, t, child);
        if step.Ok? {
          InsertChildrenStopsOnDuplicate(p, f, step.value, content, keys[1..], skip, category, rb);
        }
      }
    }
  }

  /** What AddResource committed reads back through GetResourceByID as the resource given. */
  lemma AddThenGet(p: Path, f: Faults, lookup: Faults, g: Faults, s: State, cats: seq<Category>, r: Resource, keys: seq<string>)
    requires IsOrder(keys, r.content) && Valid(s)
    requires Add(p, f, lookup, s, cats, r, keys).outcome.result.Ok?
    requires g.begin.None? && g.commit.None?
    ensures GetResource(p, g, Add(p, f, lookup, s, cats, r, keys).after, r.id) == Ok(r)
    ensures Service.Lookup(GetResource(p, g, Add(p, f, lookup, s, cats, r, keys).after, r.id)) == Service.Success(r)
  {
    var c := CategoryNamed(lookup, cats, CategoryContent).value;
    AddEffect(p, f, lookup, s, cats, r, keys, c);
    var after := Add(p, f, lookup, s, cats, r, keys).after;
    var x := after.rows[|after.rows| - 1];
    assert x in after.rows;
    FindUnique(after, x);
  }

  // ---------------------------------------------------------------------------------------------
  // UpdateResource.

  /** With every key in skip the child loop adds nothing and goes on with the table it was given. */
  lemma {:induction false} InsertChildrenAllSkipped(p: Path, f: Faults, t: State, content: ContentMap, keys: seq<string>,
                                                   skip: set<string>, category: int, rb: bool)
    requires forall k | k in keys :: k in content && k in skip
    ensures InsertChildren(p, f, t, content, keys, skip, category, rb) == Continue(t)
    decreases |keys|
  {
    if keys != [] {
      assert keys[0] in keys;
      InsertChildrenAllSkipped(p, f, t, content, keys[1..], skip, category, rb);
    }
  }

  /** The table with the child rows appended, when there are any. */
  function Grown(s: State, children: Option<seq<Row>>): State {
    if children.Some? then State(s.rows + children.value, s.clock + |children.value|) else s
  }

  /**
   * The effect of UpdateResource once its child loop is reached: success exactly when the child
   * rows exist, their ids are fresh and distinct, the row update then changes the parent and the
   * commit goes through; the table is then the grown table with the parent row updated.
   */
  predicate UpdatesAfterChildren(p: Path, f: Faults, e: Effect, s: State, children: Option<seq<Row>>, r: Resource) {
    && (e.outcome.result.Ok? <==>
         && children.Some? && FreshIds(children.value, Ids(s.rows))
         && UpdateRow(Grown(s, children), r.id, r.category, Encode(p, r.content)).affected == 1 && f.commit.None?)
    && (e.outcome.result.Ok? ==> e.after == UpdateRow(Grown(s, children), r.id, r.category, Encode(p, r.content)).after)
  }

  lemma UpdatesAfterStop(p: Path, f: Faults, e: Effect, s: State, children: Option<seq<Row>>, r: Resource, loop: Step)
    requires loop.Stop? && AppendsChildRows(loop, children, s) && e.outcome.result.Err?
    ensures UpdatesAfterChildren(p, f, e, s, children, r)
  {
  }

  lemma UpdatesAfterContinue(p: Path, f: Faults, e: Effect, s: State, children: Option<seq<Row>>, r: Resource, loop: Step)
    requires loop.Continue? && AppendsChildRows(loop, children, s)
    requires UpdateStep(p, f, loop.t, r).Ok? ==> e == Finish(f, s, UpdateStep(p, f, loop.t, r).value)
    requires UpdateStep(p, f, loop.t, r).Err? ==> e.outcome.result.Err?
    ensures UpdatesAfterChildren(p, f, e, s, children, r)
  {
    assert loop.t == Grown(s, children);
  }

  /**
   * Once Update reaches its child loop it succeeds exactly when every key the stored content lacks
   * is a fresh UUID, the row update changes the parent and the commit goes through; it then commits
   * the table with those children appended and the parent's category and content replaced.
   */
  lemma UpdateEffect(p: Path, f: Faults, rowLookup: Faults, categoryLookup: Faults, s: State, cats: seq<Category>, r: Resource, keys: seq<string>, stored: Resource, c: Category)
    requires IsOrder(keys, r.content) && UpdateReachesLoop(p, f, rowLookup, categoryLookup, s, cats, r, stored, c)
    ensures UpdatesAfterChildren(p, f, Update(p, f, rowLookup, categoryLookup, s, cats, r, keys), s, ChildRows(p, r.content, keys, stored.content.Keys, c.id, s.clock), r)
  {
    InsertChildrenEffect(p, f, s, r.content, keys, stored.content.Keys, c.id, true);
    var loop := InsertChildren(p, f, s, r.content, keys, stored.content.Keys, c.id, true);
    var children := ChildRows(p, r.content, keys, stored.content.Keys, c.id, s.clock);
    var e := Update(p, f, rowLookup, categoryLookup, s, cats, r, keys);
    if loop.Stop? {
      UpdateAfterStop(p, f, rowLookup, categoryLookup, s, cats, r, keys, stored, c);
      UpdatesAfterStop(p, f, e, s, children, r, loop);
    } else {
      UpdateAfterContinue(p, f, rowLookup, categoryLookup, s, cats, r, keys, stored, c);
      UpdatesAfterContinue(p, f, e, s, children, r, loop);
    }
  }

  /**
   * The "location" quirk: UpdateResource does not skip "location" when it looks for new keys, so an
   * update that brings a location to a resource stored without one never succeeds.
   */
  lemma UpdateAddingLocationFails(p: Path, f: Faults, rowLookup: Faults, categoryLookup: Faults, s: State, cats: seq<Category>, r: Resource, keys: seq<string>)
    requires IsOrder(keys, r.content)
    requires LocationKey in r.content
    requires ResourceRow(p, rowLookup, s, r.id).Ok? && LocationKey !in ResourceRow(p, rowLookup, s, r.id).value.content
    ensures Update(p, f, rowLookup, categoryLookup, s, cats, r, keys).outcome.result.Err?
    ensures Update(p, f, rowLookup, categoryLookup, s, cats, r, keys).after == s
  {
    var e := Update(p, f, rowLookup, categoryLookup, s, cats, r, keys);
    if e.outcome.result.Ok? {
      var stored := ResourceRow(p, rowLookup, s, r.id).value;
      var c := CategoryNamed(categoryLookup, cats, CategoryContent).value;
      UpdateEffect(p, f, rowLookup, categoryLookup, s, cats, r, keys, stored, c);
      LocationIsNotAUuid(c.id, r.content[LocationKey]);
      ChildRowsNeedUuids(p, r.content, keys, stored.content.Keys, c.id, s.clock, LocationKey);
      assert false;
    }
  }

  /** A row written by a path reads back through that path as the resource written. */
  lemma ReadParentRow(p: Path, g: Faults, s: State, r: Resource, n: nat)
    requires Valid(s) && ParentRow(p, r, n) in s.rows && g.begin.None? && g.commit.None?
    ensures ResourceRow(p, g, s, r.id) == Ok(r)
  {
    FindUnique(s, ParentRow(p, r, n));
  }

  /** Rewriting the category and content a row already holds changes no row. */
  lemma RewriteChangesNothing(p: Path, s: State, r: Resource, n: nat)
    requires Valid(s) && ParentRow(p, r, n) in s.rows
    ensures UpdateRow(s, r.id, r.category, Encode(p, r.content)).affected == 0
  {
    forall i | 0 <= i < |s.rows| && s.rows[i].id == r.id
      ensures (s.rows[i].category, s.rows[i].content) == (r.category, Encode(p, r.content))
    {
      FindUnique(s, s.rows[i]);
      FindUnique(s, ParentRow(p, r, n));
    }
  }

  /**
   * MySQL counts changed rows, not matched ones: rewriting a resource with the category and content
   * it already has is answered ErrResourceNotFound, and the service answers it with 202.
   */
  lemma UpdateUnchangedIsNotFound(p: Path, f: Faults, rowLookup: Faults, categoryLookup: Faults, s: State, cats: seq<Category>, r: Resource, keys: seq<string>, n: nat)
    requires IsOrder(keys, r.content) && Valid(s)
    requires f.begin.None? && f.rollback.None? && rowLookup.begin.None? && rowLookup.commit.None?
    requires CategoryNamed(categoryLookup, cats, CategoryContent).Ok? && |r.content| <= MaxContentItems
    requires ParentRow(p, r, n) in s.rows
    ensures Update(p, f, rowLookup, categoryLookup, s, cats, r, keys) == Effect(Outcome(Err(ResourceNotFound), false), s)
    ensures Service.UpdateResource(Some(Update(p, f, rowLookup, categoryLookup, s, cats, r, keys).outcome.result.error)).status == Service.StatusAccepted
  {
    ReadParentRow(p, rowLookup, s, r, n);
    var c := CategoryNamed(categoryLookup, cats, CategoryContent).value;
    assert UpdateReachesLoop(p, f, rowLookup, categoryLookup, s, cats, r, r, c);
    InsertChildrenAllSkipped(p, f, s, r.content, keys, r.content.Keys, c.id, true);
    UpdateAfterContinue(p, f, rowLookup, categoryLookup, s, cats, r, keys, r, c);
    RewriteChangesNothing(p, s, r, n);
    assert UpdateStep(p, f, s, r) == Err(ResourcesMissing);
  }

  /**
   * An update of an id with no row creates nothing and is answered ErrResourceNotFound, which the
   * service answers with 202, unless the rollback failed as well, which the service answers with 500.
   */
  lemma UpdateMissing(p: Path, f: Faults, rowLookup: Faults, categoryLookup: Faults, s: State, cats: seq<Category>, r: Resource, keys: seq<string>)
    requires IsOrder(keys, r.content) && r.id !in Ids(s.rows)
    requires f.begin.None? && rowLookup.begin.None? && |r.content| <= MaxContentItems
    ensures Update(p, f, rowLookup, categoryLookup, s, cats, r, keys).after == s
    ensures f.rollback.None? ==> Update(p, f, rowLookup, categoryLookup, s, cats, r, keys).outcome.result == Err(ResourceNotFound)
    ensures Service.UpdateResource(Some(Update(p, f, rowLookup, categoryLookup, s, cats, r, keys).outcome.result.error)).status ==
      if f.rollback.None? then Service.StatusAccepted else Service.StatusInternalServerError
  {
    if f.rollback.Some? {
      Service.FailedRollbackIsInternal(f.rollback.value);
    }
  }

  // ---------------------------------------------------------------------------------------------
  // DeleteResource.

  /** The ids of the child rows DeleteResource removes: those of the keys other than "location". */
  function KeyIds(keys: seq<string>): set<Uuid> {
    set i | 0 <= i < |keys| && keys[i] != LocationKey && UuidToBin(keys[i]).Some? :: UuidToBin(keys[i]).value
  }

  /** Every key other than "location" is a UUID naming a row in ids, and no two name the same row. */
  predicate ChildIdsPresent(keys: seq<string>, ids: set<Uuid>) {
    && (forall i | 0 <= i < |keys| && keys[i] != LocationKey :: UuidToBin(keys[i]).Some? && UuidToBin(keys[i]).value in ids)
    && (forall i, j | 0 <= i < j < |keys| && keys[i] != LocationKey && keys[j] != LocationKey :: UuidToBin(keys[i]) != UuidToBin(keys[j]))
  }

  lemma KeyIdsCons(keys: seq<string>)
    requires keys != []
    ensures KeyIds(keys) == KeyIds(keys[1..]) + (if keys[0] != LocationKey && UuidToBin(keys[0]).Some? then {UuidToBin(keys[0]).value} else {})
  {
    var rest := keys[1..];
    forall x | x in KeyIds(keys) ensures x in KeyIds(rest) + (if keys[0] != LocationKey && UuidToBin(keys[0]).Some? then {UuidToBin(keys[0]).value} else {}) {
      var i :| 0 <= i < |keys| && keys[i] != LocationKey && UuidToBin(keys[i]).Some? && UuidToBin(keys[i]).value == x;
      if i > 0 { assert rest[i - 1] == keys[i]; }
    }
    forall x | x in KeyIds(rest) ensures x in KeyIds(keys) {
      var i :| 0 <= i < |rest| && rest[i] != LocationKey && UuidToBin(rest[i]).Some? && UuidToBin(rest[i]).value == x;
      assert keys[i + 1] == rest[i];
    }
  }

  lemma ChildIdsSkipLocation(keys: seq<string>, ids: set<Uuid>)
    requires keys != [] && keys[0] == LocationKey
    ensures ChildIdsPresent(keys, ids) <==> ChildIdsPresent(keys[1..], ids)
  {
    var rest := keys[1..];
    assert forall i | 0 <= i < |rest| :: rest[i] == keys[i + 1];
    if ChildIdsPresent(rest, ids) {
      forall i, j | 0 <= i < j < |keys| && keys[i] != LocationKey && keys[j] != LocationKey
        ensures UuidToBin(keys[i]) != UuidToBin(keys[j])
      {
        assert rest[i - 1] == keys[i] && rest[j - 1] == keys[j];
      }
      forall i | 0 <= i < |keys| && keys[i] != LocationKey ensures UuidToBin(keys[i]).Some? && UuidToBin(keys[i]).value in ids {
        assert rest[i - 1] == keys[i];
      }
    }
  }

  lemma ChildIdsCons(keys: seq<string>, ids: set<Uuid>)
    requires keys != [] && keys[0] != LocationKey && UuidToBin(keys[0]).Some?
    ensures ChildIdsPresent(keys, ids) <==>
      UuidToBin(keys[0]).value in ids && ChildIdsPresent(keys[1..], ids - {UuidToBin(keys[0]).value})
  {
    var id := UuidToBin(keys[0]).value;
    var rest := keys[1..];
    assert forall i | 0 <= i < |rest| :: rest[i] == keys[i + 1];
    if ChildIdsPresent(keys, ids) {
      forall i | 0 <= i < |rest| && rest[i] != LocationKey ensures UuidToBin(rest[i]).Some? && UuidToBin(rest[i]).value in ids - {id} {
        assert UuidToBin(keys[0]) != UuidToBin(keys[i + 1]);
      }
      forall i, j | 0 <= i < j < |rest| && rest[i] != LocationKey && rest[j] != LocationKey
        ensures UuidToBin(rest[i]) != UuidToBin(rest[j])
      {
        assert UuidToBin(keys[i + 1]) != UuidToBin(keys[j + 1]);
      }
    }
    if id in ids && ChildIdsPresent(rest, ids - {id}) {
      forall i | 0 <= i < |keys| && keys[i] != LocationKey ensures UuidToBin(keys[i]).Some? && UuidToBin(keys[i]).value in ids {
        if i > 0 { assert rest[i - 1] == keys[i]; }
      }
      forall i, j | 0 <= i < j < |keys| && keys[i] != LocationKey && keys[j] != LocationKey
        ensures UuidToBin(keys[i]) != UuidToBin(keys[j])
      {
        assert rest[j - 1] == keys[j];
        if i > 0 {
          assert rest[i - 1] == keys[i];
        }
      }
    }
  }

  lemma IdsOfFiltered(a: seq<Row>, b: seq<Row>, gone: set<Uuid>)
    requires forall x :: x in b <==> x in a && x.id !in gone
    ensures Ids(b) == Ids(a) - gone
  {
    forall x | x in Ids(b) ensures x in Ids(a) - gone {
      var i :| 0 <= i < |b| && b[i].id == x;
      assert b[i] in b;
      var j :| 0 <= j < |a| && a[j] == b[i];
    }
    forall x | x in Ids(a) - gone ensures x in Ids(b) {
      var i :| 0 <= i < |a| && a[i].id == x;
      assert a[i] in a;
      var j :| 0 <= j < |b| && b[j] == a[i];
    }
  }

  /**
   * The child-deletion loop goes through exactly when every child key names a distinct stored
   * row; it then leaves exactly the rows whose ids no child key names.
   */
  lemma {:induction false} DeleteChildrenEffect(f: Faults, t: State, keys: seq<string>)
    ensures var s := DeleteChildren(f, t, keys);
            && (s.Continue? <==> ChildIdsPresent(keys, Ids(t.rows)))
            && (s.Continue? ==> s.t.clock == t.clock && forall x :: x in s.t.rows <==> x in t.rows && x.id !in KeyIds(keys))
    decreases |keys|
  {
    if keys == [] {
      assert KeyIds(keys) == {};
    } else {
      KeyIdsCons(keys);
      if keys[0] == LocationKey {
        ChildIdsSkipLocation(keys, Ids(t.rows));
        DeleteChildrenEffect(f, t, keys[1..]);
      } else if UuidToBin(keys[0]).None? {
        assert DeleteChildren(f, t, keys).Stop?;
      } else {
        var id := UuidToBin(keys[0]).value;
        ChildIdsCons(keys, Ids(t.rows));
        if id !in Ids(t.rows) {
          assert DeleteChildren(f, t, keys).Stop?;
        } else {
          var t' := State(Remove(t.rows, id), t.clock);
          assert DeleteStep(f, t, keys[0]) == Ok(t');
          assert DeleteChildren(f, t, keys) == DeleteChildren(f, t', keys[1..]);
          IdsOfFiltered(t.rows, t'.rows, {id});
          DeleteChildrenEffect(f, t', keys[1..]);
        }
      }
    }
  }

  /**
   * All or nothing: once begun, DeleteResource succeeds exactly when every child key names a
   * distinct stored row other than the resource, the resource is stored and the commit goes
   * through; it then commits the table without exactly those rows.
   */
  lemma DeleteEffect(f: Faults, s: State, r: Resource, keys: seq<string>)
    requires IsOrder(keys, r.content) && f.begin.None?
    ensures var e := Delete(f, s, r, keys);
            && (e.outcome.result.Ok? <==>
                 ChildIdsPresent(keys, Ids(s.rows)) && r.id in Ids(s.rows) && r.id !in KeyIds(keys) && f.commit.None?)
            && (e.outcome.result.Ok? ==> forall x :: x in e.after.rows <==> x in s.rows && x.id !in KeyIds(keys) + {r.id})
  {
    DeleteChildrenEffect(f, s, keys);
    UuidToBinFormat(r.id);
    var e := Delete(f, s, r, keys);
    var loop := DeleteChildren(f, s, keys);
    if loop.Stop? {
      DeleteAfterStop(f, s, r, keys);
    } else {
      DeleteAfterContinue(f, s, r, keys);
      var t := loop.t;
      IdsOfFiltered(s.rows, t.rows, KeyIds(keys));
      var step := DeleteStep(f, t, Format(r.id));
      if step.Ok? {
        assert e == Finish(f, s, step.value);
        assert step.value.rows == Remove(t.rows, r.id);
      } else {
        assert e.outcome.result.Err?;
      }
    }
  }

  /** With a working rollback, the child loop stops only on a key with no row, as ErrResourceNotFound. */
  lemma {:induction false} DeleteChildrenStopsNotFound(f: Faults, t: State, keys: seq<string>)
    requires f.rollback.None?
    requires forall k | k in keys && k != LocationKey :: UuidToBin(k).Some?
    ensures DeleteChildren(f, t, keys).Stop? ==> DeleteChildren(f, t, keys).outcome == Outcome(Err(ResourceNotFound), false)
    decreases |keys|
  {
    if keys != [] {
      assert keys[0] in keys;
      assert forall k | k in keys[1..] :: k in keys;
      if keys[0] == LocationKey {
        DeleteChildrenStopsNotFound(f, t, keys[1..]);
      } else if DeleteStep(f, t, keys[0]).Ok? {
        DeleteChildrenStopsNotFound(f, DeleteStep(f, t, keys[0]).value, keys[1..]);
      }
    }
  }

  /**
   * Deleting a resource that is not stored fails with ErrResourceNotFound and deletes nothing, once
   * every child key is a UUID and the rollback works.
   */
  lemma DeleteMissing(f: Faults, s: State, r: Resource, keys: seq<string>)
    requires IsOrder(keys, r.content) && r.id !in Ids(s.rows)
    requires f.begin.None? && f.rollback.None?
    requires forall k | k in keys && k != LocationKey :: UuidToBin(k).Some?
    ensures Delete(f, s, r, keys) == Effect(Outcome(Err(ResourceNotFound), false), s)
  {
    DeleteChildrenStopsNotFound(f, s, keys);
    DeleteChildrenShrinks(f, s, keys);
    UuidToBinFormat(r.id);
    if DeleteChildren(f, s, keys).Stop? {
      DeleteAfterStop(f, s, r, keys);
    } else {
      DeleteAfterContinue(f, s, r, keys);
      var t := DeleteChildren(f, s, keys).t;
      assert DeleteStep(f, t, Format(r.id)) == Err(ResourcesMissing);
    }
  }

  /** A second DeleteResource of the same resource fails with ErrResourceNotFound. */
  lemma DeleteTwice(f: Faults, g: Faults, s: State, r: Resource, keys: seq<string>)
    requires IsOrder(keys, r.content)
    requires Delete(f, s, r, keys).outcome.result.Ok?
    requires g.begin.None? && g.rollback.None?
    ensures Delete(g, Delete(f, s, r, keys).after, r, keys) == Effect(Outcome(Err(ResourceNotFound), false), Delete(f, s, r, keys).after)
  {
    DeleteEffect(f, s, r, keys);
    forall k | k in keys && k != LocationKey ensures UuidToBin(k).Some? {
      var i :| 0 <= i < |keys| && keys[i] == k;
    }
    DeleteMissing(g, Delete(f, s, r, keys).after, r, keys);
  }

  /**
   * After a successful delete the service's re-read finds nothing, which it counts as success, and
   * GetResourceByID answers 202.
   */
  lemma DeleteThenGet(p: Path, f: Faults, g: Faults, s: State, r: Resource, keys: seq<string>)
    requires IsOrder(keys, r.content)
    requires Delete(f, s, r, keys).outcome.result.Ok? && g.begin.None?
    ensures GetResource(p, g, Delete(f, s, r, keys).after, r.id) == Err(ResourceNotFound)
    ensures Service.DeleteResource(None, GetResource(p, g, Delete(f, s, r, keys).after, r.id)) == Service.Success(())
    ensures Service.Lookup(GetResource(p, g, Delete(f, s, r, keys).after, r.id)).status == Service.StatusAccepted
  {
  }

  // ---------------------------------------------------------------------------------------------
  // GetResourcesByIDs and GetResourcesByCategory.

  /**
   * A successful list holds one decoded resource per stored row the WHERE clause keeps, each id
   * once, newest first: the i-th resource is the i-th selected row and the selected rows' creation
   * stamps strictly decrease.
   */
  lemma ListContents(p: Path, f: Faults, t: State, filter: Filter)
    requires Valid(t)
    ensures var o := ListResources(p, f, t, filter);
            var sel := Select(t.rows, filter);
            o.result.Ok? ==>
              && |o.result.value| == |sel|
              && (forall i | 0 <= i < |sel| :: Ok(o.result.value[i]) == ToResource(p, sel[i]) && o.result.value[i].id == sel[i].id)
              && (forall i, j | 0 <= i < j < |sel| :: sel[i].created > sel[j].created && o.result.value[i].id != o.result.value[j].id)
              && (forall row | row in t.rows :: row in sel <==> Keeps(filter, row))
  {
    var sel := Select(t.rows, filter);
    SelectNewestFirst(t, filter);
    forall i, j | 0 <= i < j < |sel| ensures sel[i].id != sel[j].id {
      assert sel[i] in t.rows && sel[j] in t.rows;
      var a :| 0 <= a < |t.rows| && t.rows[a] == sel[i];
      var b :| 0 <= b < |t.rows| && t.rows[b] == sel[j];
      assert sel[i].created > sel[j].created;
    }
  }

  /**
   * Nothing selected: the list is ErrResourceNotFound with the read transaction left open, and the
   * service answers 202.
   */
  lemma ListNothingIsAccepted(p: Path, f: Faults, t: State, filter: Filter)
    requires f.begin.None? && Select(t.rows, filter) == []
    ensures ListResources(p, f, t, filter) == Outcome(Err(ResourceNotFound), true)
    ensures Service.Lookup(ListResources(p, f, t, filter).result).status == Service.StatusAccepted
  {
  }
}
