/**
 * The edge-set diff of `TodosController#update`
 * (app/controllers/todos_controller.rb:41-44, 60-81): a requested list of
 * dependency ids becomes nested attributes for the todo's `todo_dependencies`
 * rows, so that removed edges are destroyed and kept or new ones upserted.
 */
module TodosController {
  import opened Base
  import opened Graph

  /**
   * One entry of `todo_dependencies_attributes`: `{id:, _destroy: '1'}` for a
   * tombstone, `{id:, todo_id:}` for an upsert, an absent key being `None`.
   */
  datatype DependencyAttrs = DependencyAttrs(id: Option<Id>, todoId: Option<Id>, destroy: bool)

  /** A row of `todo.todo_dependencies` matched by `where.not(todo_id: requested)` (line 63). */
  predicate IsStale(e: Edge, todo: Id, requested: seq<Id>)
  {
    e.otherId == todo && e.todoId !in requested
  }

  /** The rows lines 63-64 iterate over, in row order. */
  function StaleRows(edges: seq<Edge>, todo: Id, requested: seq<Id>): (r: seq<Edge>)
    ensures forall e :: e in r <==> e in edges && IsStale(e, todo, requested)
    ensures |r| <= |edges|
    decreases |edges|
  {
    if edges == [] then []
    else
      var last := edges[|edges| - 1];
      var prefix := StaleRows(edges[..|edges| - 1], todo, requested);
      assert forall e :: e in edges <==> e in edges[..|edges| - 1] || e == last;
      if IsStale(last, todo, requested) then prefix + [last] else prefix
  }

  /** Filtering keeps a row list free of repeated rows. */
  lemma {:induction false} StaleRowsDistinct(edges: seq<Edge>, todo: Id, requested: seq<Id>)
    requires NoDuplicates(edges)
    ensures NoDuplicates(StaleRows(edges, todo, requested))
    decreases |edges|
  {
    if edges != [] {
      var init := edges[..|edges| - 1];
      assert NoDuplicates(init) by {
        forall i, j | 0 <= i < j < |init| ensures init[i] != init[j] {
          assert init[i] == edges[i] && init[j] == edges[j];
        }
      }
      StaleRowsDistinct(init, todo, requested);
      assert edges[|edges| - 1] !in init by {
        forall k | 0 <= k < |init| ensures init[k] != edges[|edges| - 1] {
          assert init[k] == edges[k];
        }
      }
    }
  }

  /** Lines 65-68. */
  function Tombstone(e: Edge): DependencyAttrs
  {
    DependencyAttrs(Some(e.rowId), None, true)
  }

  /** Whether a row joins dependency `dep` to dependent `todo`. */
  predicate Joins(e: Edge, dep: Id, todo: Id)
  {
    e.todoId == dep && e.otherId == todo
  }

  /** `TodoDependent.find_by todo_id: dep, dependent_id: todo` (line 73): the first such row, if any. */
  function RowFor(edges: seq<Edge>, dep: Id, todo: Id): (r: Option<Id>)
    ensures r.None? <==> !Linked(edges, dep, todo)
    ensures r.Some? ==> exists i :: 0 <= i < |edges| && Joins(edges[i], dep, todo) && edges[i].rowId == r.value
                                   && forall k :: 0 <= k < i ==> !Joins(edges[k], dep, todo)
    decreases |edges|
  {
    if edges == [] then None
    else if Joins(edges[0], dep, todo) then Some(edges[0].rowId)
    else
      var rest := RowFor(edges[1..], dep, todo);
      assert forall e :: e in edges <==> e == edges[0] || e in edges[1..];
      if rest.Some? then
        ghost var i :| 0 <= i < |edges[1..]| && Joins(edges[1..][i], dep, todo) && edges[1..][i].rowId == rest.value
                       && forall k :: 0 <= k < i ==> !Joins(edges[1..][k], dep, todo);
        assert Joins(edges[i + 1], dep, todo) && forall k :: 0 <= k < i + 1 ==> !Joins(edges[k], dep, todo);
        rest
      else rest
  }

  /** Lines 74-77: the existing row's id if there is one, and no `id` key otherwise. */
  function Upsert(edges: seq<Edge>, todo: Id, dep: Id): DependencyAttrs
  {
    DependencyAttrs(RowFor(edges, dep, todo), Some(dep), false)
  }

  function Tombstones(rows: seq<Edge>): (r: seq<DependencyAttrs>)
    ensures |r| == |rows|
    ensures forall i :: 0 <= i < |rows| ==> r[i] == Tombstone(rows[i])
  {
    seq(|rows|, i requires 0 <= i < |rows| => Tombstone(rows[i]))
  }

  function Upserts(edges: seq<Edge>, todo: Id, deps: seq<Id>): (r: seq<DependencyAttrs>)
    ensures |r| == |deps|
    ensures forall j :: 0 <= j < |deps| ==> r[j] == Upsert(edges, todo, deps[j])
  {
    seq(|deps|, j requires 0 <= j < |deps| => Upsert(edges, todo, deps[j]))
  }

  /** The tombstones of the stale rows followed by one upsert per found dependency. */
  function Diff(edges: seq<Edge>, todo: Id, requested: seq<Id>, found: seq<Id>): (r: seq<DependencyAttrs>)
    ensures var stale := StaleRows(edges, todo, requested);
            && |r| == |stale| + |found|
            && (forall i :: 0 <= i < |stale| ==> r[i] == Tombstone(stale[i]))
            && (forall i :: |stale| <= i < |r| ==> r[i] == Upsert(edges, todo, found[i - |stale|]))
  {
    Tombstones(StaleRows(edges, todo, requested)) + Upserts(edges, todo, found)
  }

  /**
   * What lines 60-81 return: the diff over the rows of `Todo.find`, which
   * raises on a missing id.
   */
  function BuiltAttributes(g: Graph, todo: Id, requested: seq<Id>): (r: Result<seq<DependencyAttrs>, Exception>)
    ensures r.Failure? <==> exists x :: x in requested && x !in g.todos
    ensures r.Failure? ==> r.error == RecordNotFound
    ensures r.Success? ==> Find(g.todos, requested).Success?
    ensures r.Success? ==> r.value == Diff(g.dependencyEdges, todo, requested, Find(g.todos, requested).value)
  {
    match Find(g.todos, requested)
    case Failure(e) => Failure(e)
    case Success(found) => Success(Diff(g.dependencyEdges, todo, requested, found))
  }

  /** One more row seen by the first loop. */
  lemma StaleRowsExtend(edges: seq<Edge>, i: nat, todo: Id, requested: seq<Id>)
    requires i < |edges|
    ensures StaleRows(edges[..i + 1], todo, requested)
         == StaleRows(edges[..i], todo, requested) + (if IsStale(edges[i], todo, requested) then [edges[i]] else [])
  {
    assert edges[..i + 1][..i] == edges[..i];
  }

  lemma TombstonesExtend(rows: seq<Edge>, e: Edge)
    ensures Tombstones(rows + [e]) == Tombstones(rows) + [Tombstone(e)]
  {
  }

  /** One more dependency seen by the second loop. */
  lemma UpsertsExtend(edges: seq<Edge>, todo: Id, deps: seq<Id>, j: nat)
    requires j < |deps|
    ensures Upserts(edges, todo, deps[..j + 1]) == Upserts(edges, todo, deps[..j]) + [Upsert(edges, todo, deps[j])]
  {
  }

  /** `build_todo_dependencies_attributes`: the two `each` loops of lines 63-79. */
  method BuildTodoDependenciesAttributes(g: Graph, todo: Id, requested: seq<Id>)
      returns (r: Result<seq<DependencyAttrs>, Exception>)
    ensures r == BuiltAttributes(g, todo, requested)
  {
    var edges := g.dependencyEdges;
    var attrs: seq<DependencyAttrs> := [];
    var i := 0;
    while i < |edges|
      invariant 0 <= i <= |edges|
      invariant attrs == Tombstones(StaleRows(edges[..i], todo, requested))
    {
      StaleRowsExtend(edges, i, todo, requested);
      if IsStale(edges[i], todo, requested) {
        TombstonesExtend(StaleRows(edges[..i], todo, requested), edges[i]);
        attrs := attrs + [Tombstone(edges[i])];
      }
      i := i + 1;
    }
    assert edges[..i] == edges;
    var tombstones := attrs;
    match Find(g.todos, requested)
    case Failure(e) =>
      r := Failure(e);
    case Success(found) =>
      var j := 0;
      while j < |found|
        invariant 0 <= j <= |found|
        invariant attrs == tombstones + Upserts(edges, todo, found[..j])
      {
        UpsertsExtend(edges, todo, found, j);
        attrs := attrs + [Upsert(edges, todo, found[j])];
        j := j + 1;
      }
      assert found[..j] == found;
      r := Success(attrs);
  }

  // ---------------------------------------------------------------------------
  // Properties of the diff
  // ---------------------------------------------------------------------------

  /** Rows are told apart by their primary key. */
  predicate RowIdsUnique(edges: seq<Edge>)
  {
    forall i, j :: 0 <= i < j < |edges| ==> edges[i].rowId != edges[j].rowId
  }

  /** Two rows of a table with unique keys that share a key are the same row. */
  lemma SameRowIdSameRow(edges: seq<Edge>, a: Edge, b: Edge)
    requires RowIdsUnique(edges) && a in edges && b in edges && a.rowId == b.rowId
    ensures a == b
  {
  }

  /** The first `k` entries are tombstones (an id and `_destroy`) and the rest upserts (a `todo_id`). */
  predicate TombstonesThenUpserts(attrs: seq<DependencyAttrs>, k: nat)
  {
    && k <= |attrs|
    && (forall i :: 0 <= i < k ==> attrs[i].destroy && attrs[i].id.Some? && attrs[i].todoId.None?)
    && (forall i :: k <= i < |attrs| ==> !attrs[i].destroy && attrs[i].todoId.Some?)
  }

  /** All tombstones come before all upserts: one per stale row, then one per found dependency. */
  lemma TombstonesFirst(edges: seq<Edge>, todo: Id, requested: seq<Id>, found: seq<Id>)
    ensures TombstonesThenUpserts(Diff(edges, todo, requested, found), |StaleRows(edges, todo, requested)|)
  {
    var attrs := Diff(edges, todo, requested, found);
    var k := |StaleRows(edges, todo, requested)|;
    forall i | k <= i < |attrs| ensures !attrs[i].destroy && attrs[i].todoId.Some? {
      assert attrs[i] == Upsert(edges, todo, found[i - k]);
    }
  }

  /**
   * A row of the table is destroyed exactly when it belongs to the todo and its
   * dependency was not requested: kept rows are never destroyed.
   */
  lemma TombstoneIffStale(edges: seq<Edge>, todo: Id, requested: seq<Id>, found: seq<Id>, e: Edge)
    requires RowIdsUnique(edges) && e in edges
    ensures var attrs := Diff(edges, todo, requested, found);
            (exists i :: 0 <= i < |attrs| && attrs[i].destroy && attrs[i].id == Some(e.rowId))
              <==> IsStale(e, todo, requested)
  {
    var attrs := Diff(edges, todo, requested, found);
    var stale := StaleRows(edges, todo, requested);
    if i :| 0 <= i < |attrs| && attrs[i].destroy && attrs[i].id == Some(e.rowId) {
      assert i < |stale| && attrs[i] == Tombstone(stale[i]);
      assert stale[i] in stale;
      SameRowIdSameRow(edges, stale[i], e);
    }
    if IsStale(e, todo, requested) {
      var i :| 0 <= i < |stale| && stale[i] == e;
      assert attrs[i] == Tombstone(e);
    }
  }

  /** No row is destroyed twice. */
  lemma TombstoneOnce(edges: seq<Edge>, todo: Id, requested: seq<Id>, found: seq<Id>)
    requires RowIdsUnique(edges)
    ensures var attrs := Diff(edges, todo, requested, found);
            forall i, j :: 0 <= i < j < |attrs| && attrs[i].destroy && attrs[j].destroy ==> attrs[i].id != attrs[j].id
  {
    var attrs := Diff(edges, todo, requested, found);
    var stale := StaleRows(edges, todo, requested);
    assert NoDuplicates(edges) by {
      forall i, j | 0 <= i < j < |edges| ensures edges[i] != edges[j] {
        assert edges[i].rowId != edges[j].rowId;
      }
    }
    StaleRowsDistinct(edges, todo, requested);
    forall i, j | 0 <= i < j < |attrs| && attrs[i].destroy && attrs[j].destroy
      ensures attrs[i].id != attrs[j].id
    {
      assert j < |stale|;
      assert stale[i] in stale && stale[j] in stale;
      if stale[i].rowId == stale[j].rowId {
        SameRowIdSameRow(edges, stale[i], stale[j]);
      }
    }
  }

  /** Every requested id gets exactly one entry carrying its `todo_id`, and no other id gets one. */
  lemma UpsertPerRequestedId(edges: seq<Edge>, todo: Id, requested: seq<Id>, found: seq<Id>, x: Id)
    requires (forall y :: y in found <==> y in requested) && NoDuplicates(found)
    ensures var attrs := Diff(edges, todo, requested, found);
            x in requested <==> exists i :: 0 <= i < |attrs| && attrs[i].todoId == Some(x)
    ensures var attrs := Diff(edges, todo, requested, found);
            forall i, j :: 0 <= i < j < |attrs| && attrs[i].todoId == Some(x) ==> attrs[j].todoId != Some(x)
  {
    var attrs := Diff(edges, todo, requested, found);
    var k := |StaleRows(edges, todo, requested)|;
    if x in requested {
      var j :| 0 <= j < |found| && found[j] == x;
      assert attrs[k + j].todoId == Some(x);
    }
    forall i, j | 0 <= i < j < |attrs| && attrs[i].todoId == Some(x)
      ensures attrs[j].todoId != Some(x)
    {
      assert found[i - k] != found[j - k];
    }
  }

  /**
   * An upsert reuses the id of the first existing row for its pair, and has no
   * id when the pair has no row.
   */
  lemma UpsertReusesRow(edges: seq<Edge>, todo: Id, requested: seq<Id>, found: seq<Id>, a: DependencyAttrs)
    requires a in Diff(edges, todo, requested, found) && a.todoId.Some?
    ensures a.todoId.value in found && !a.destroy
    ensures a.id.None? <==> !Linked(edges, a.todoId.value, todo)
    ensures a.id.Some? ==> exists n :: 0 <= n < |edges| && Joins(edges[n], a.todoId.value, todo) && edges[n].rowId == a.id.value
                                     && forall k :: 0 <= k < n ==> !Joins(edges[k], a.todoId.value, todo)
  {
    var attrs := Diff(edges, todo, requested, found);
    var k := |StaleRows(edges, todo, requested)|;
    var i :| 0 <= i < |attrs| && attrs[i] == a;
    assert a == Upsert(edges, todo, found[i - k]);
  }

  /** The part of the `update` request this guard touches. */
  datatype UpdateParams = UpdateParams(dependenciesAttributes: Option<seq<Id>>,
                                       todoDependenciesAttributes: Option<seq<DependencyAttrs>>)

  /**
   * Lines 41-44: only a request that lists `dependencies_attributes` has its
   * `todo_dependencies_attributes` replaced by the diff; a raise ends the action.
   */
  method RewriteDependencies(g: Graph, todo: Id, params: UpdateParams) returns (r: Result<UpdateParams, Exception>)
    ensures params.dependenciesAttributes.None? ==> r == Success(params)
    ensures params.dependenciesAttributes.Some? ==>
              match BuiltAttributes(g, todo, params.dependenciesAttributes.value)
              case Failure(e) => r == Failure(e)
              case Success(attrs) => r == Success(params.(todoDependenciesAttributes := Some(attrs)))
  {
    if params.dependenciesAttributes.None? {
      r := Success(params);
    } else {
      var built := BuildTodoDependenciesAttributes(g, todo, params.dependenciesAttributes.value);
      match built
      case Failure(e) =>
        r := Failure(e);
      case Success(attrs) =>
        r := Success(params.(todoDependenciesAttributes := Some(attrs)));
    }
  }
}
