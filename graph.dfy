/**
 * The committed todo graph: the `todos` table and the two join tables
 * (`todo_dependents` for precedence, `todo_children` for hierarchy), with the
 * associations that app/models/todo.rb declares on top of them.
 */
module Graph {
  import opened Base

  /** A committed todo row. Dates are present on every saved row (they are validated for presence). */
  datatype Todo = Todo(
    name: string,
    projectId: nat,
    color: string,
    startDate: int,
    endDate: int,
    status: Option<bool>,
    repeat: bool,
    repeatTimes: Option<int>)

  datatype Interval = Interval(startDate: int, endDate: int)

  function IntervalOf(t: Todo): Interval
  {
    Interval(t.startDate, t.endDate)
  }

  /**
   * A join row. In `todo_dependents`, `todoId` is the dependency and `otherId` the
   * dependent; in `todo_children`, `todoId` is the parent and `otherId` the child.
   */
  datatype Edge = Edge(rowId: Id, todoId: Id, otherId: Id)

  datatype Graph = Graph(todos: map<Id, Todo>, dependencyEdges: seq<Edge>, childEdges: seq<Edge>)

  /** What the source raises instead of reporting a validation error. */
  datatype Exception =
    | RecordNotFound     // `Todo.find` with an id that has no row
    | NilComparison      // a date comparison whose own date is nil
    | NilReceiver        // a method called on a `belongs_to` that found nothing
    | NotNullViolation   // a join row written without one of its ends

  /** There is a row from `a` to `b`. */
  predicate Linked(edges: seq<Edge>, a: Id, b: Id)
  {
    exists e :: e in edges && e.todoId == a && e.otherId == b
  }

  /** The `otherId` of every row whose `todoId` is `x`, in row order. */
  function TargetRows(edges: seq<Edge>, x: Id): (r: seq<Id>)
    ensures forall y :: y in r <==> Linked(edges, x, y)
  {
    if edges == [] then []
    else
      var rest := TargetRows(edges[1..], x);
      assert forall e :: e in edges <==> e == edges[0] || e in edges[1..];
      if edges[0].todoId == x then [edges[0].otherId] + rest else rest
  }

  /** The `todoId` of every row whose `otherId` is `x`, in row order. */
  function SourceRows(edges: seq<Edge>, x: Id): (r: seq<Id>)
    ensures forall y :: y in r <==> Linked(edges, y, x)
  {
    if edges == [] then []
    else
      var rest := SourceRows(edges[1..], x);
      assert forall e :: e in edges <==> e == edges[0] || e in edges[1..];
      if edges[0].otherId == x then [edges[0].todoId] + rest else rest
  }

  /** Keeps the ids that have a row in `todos`: the inner join behind a `through` association. */
  function Existing(todos: map<Id, Todo>, ids: seq<Id>): (r: seq<Id>)
    ensures forall y :: y in r <==> y in ids && y in todos
  {
    if ids == [] then []
    else
      var rest := Existing(todos, ids[1..]);
      if ids[0] in todos then [ids[0]] + rest else rest
  }

  predicate AllFound(todos: map<Id, Todo>, ids: seq<Id>)
  {
    forall i :: i in ids ==> i in todos
  }

  /** The ids are in `default_scope { order(:start_date) }` order (app/models/todo.rb:42). */
  predicate SortedByStart(todos: map<Id, Todo>, ids: seq<Id>)
    requires AllFound(todos, ids)
  {
    forall i, j :: 0 <= i < j < |ids| ==> todos[ids[i]].startDate <= todos[ids[j]].startDate
  }

  /** Puts `x` after every id of `s` that starts no later than it does. */
  function InsertByStart(todos: map<Id, Todo>, x: Id, s: seq<Id>): (r: seq<Id>)
    requires x in todos && AllFound(todos, s)
    ensures forall y :: y in r <==> y == x || y in s
  {
    if s == [] then [x]
    else if todos[x].startDate < todos[s[0]].startDate then [x] + s
    else [s[0]] + InsertByStart(todos, x, s[1..])
  }

  /** Inserting adds exactly one `x`. */
  lemma {:induction false} InsertByStartPermutes(todos: map<Id, Todo>, x: Id, s: seq<Id>)
    requires x in todos && AllFound(todos, s)
    ensures multiset(InsertByStart(todos, x, s)) == multiset(s) + multiset{x}
    decreases |s|
  {
    if s != [] {
      assert s == [s[0]] + s[1..];
      if todos[s[0]].startDate <= todos[x].startDate {
        InsertByStartPermutes(todos, x, s[1..]);
      }
    }
  }

  /** Inserting into a start-ordered list keeps it ordered. */
  lemma {:induction false} InsertByStartOrdered(todos: map<Id, Todo>, x: Id, s: seq<Id>)
    requires x in todos && AllFound(todos, s) && SortedByStart(todos, s)
    ensures AllFound(todos, InsertByStart(todos, x, s)) && SortedByStart(todos, InsertByStart(todos, x, s))
    decreases |s|
  {
    if s != [] {
      FirstStartsEarliest(todos, s);
      if todos[x].startDate < todos[s[0]].startDate {
        ConsSorted(todos, x, s);
      } else {
        var rest := InsertByStart(todos, x, s[1..]);
        InsertByStartOrdered(todos, x, s[1..]);
        TailStartsLater(todos, x, s, rest);
        ConsSorted(todos, s[0], rest);
      }
    }
  }

  /** A start-ordered list stays ordered behind a head that starts no later than any of it. */
  lemma ConsSorted(todos: map<Id, Todo>, h: Id, t: seq<Id>)
    requires h in todos && AllFound(todos, t) && SortedByStart(todos, t)
    requires forall y :: y in t ==> todos[h].startDate <= todos[y].startDate
    ensures AllFound(todos, [h] + t) && SortedByStart(todos, [h] + t)
  {
    var r := [h] + t;
    forall i, j | 0 <= i < j < |r| ensures todos[r[i]].startDate <= todos[r[j]].startDate {
      assert r[j] == t[j - 1];
      if i > 0 {
        assert r[i] == t[i - 1];
      } else {
        assert r[j] in t;
      }
    }
  }

  /** Everything inserted behind the head starts no earlier than it. */
  lemma TailStartsLater(todos: map<Id, Todo>, x: Id, s: seq<Id>, rest: seq<Id>)
    requires x in todos && AllFound(todos, s) && s != []
    requires forall y :: y in s ==> todos[s[0]].startDate <= todos[y].startDate
    requires todos[s[0]].startDate <= todos[x].startDate
    requires forall y :: y in rest <==> y == x || y in s[1..]
    ensures forall y :: y in rest ==> todos[s[0]].startDate <= todos[y].startDate
  {
    forall y | y in rest ensures todos[s[0]].startDate <= todos[y].startDate {
      if y != x {
        assert y in s[1..];
        assert y in s;
      }
    }
  }

  lemma FirstStartsEarliest(todos: map<Id, Todo>, s: seq<Id>)
    requires AllFound(todos, s) && SortedByStart(todos, s) && s != []
    ensures forall y :: y in s ==> todos[s[0]].startDate <= todos[y].startDate
  {
  }

  /**
   * Orders ids by start date. The database leaves equal start dates in no
   * particular order; the model keeps them in the order given.
   */
  function SortByStart(todos: map<Id, Todo>, ids: seq<Id>): (r: seq<Id>)
    requires AllFound(todos, ids)
    ensures forall y :: y in r <==> y in ids
  {
    if ids == [] then []
    else
      assert forall y :: y in ids <==> y in ids[..|ids| - 1] || y == ids[|ids| - 1];
      InsertByStart(todos, ids[|ids| - 1], SortByStart(todos, ids[..|ids| - 1]))
  }

  /** The default scope's order: a permutation of the ids, sorted by start date. */
  lemma {:induction false} SortByStartSorted(todos: map<Id, Todo>, ids: seq<Id>)
    requires AllFound(todos, ids)
    ensures AllFound(todos, SortByStart(todos, ids)) && SortedByStart(todos, SortByStart(todos, ids))
    ensures multiset(SortByStart(todos, ids)) == multiset(ids)
    decreases |ids|
  {
    if ids != [] {
      var prefix := ids[..|ids| - 1];
      assert ids == prefix + [ids[|ids| - 1]];
      SortByStartSorted(todos, prefix);
      InsertByStartOrdered(todos, ids[|ids| - 1], SortByStart(todos, prefix));
      InsertByStartPermutes(todos, ids[|ids| - 1], SortByStart(todos, prefix));
    }
  }

  /** A `through` association: the far ends that exist, in start-date order. */
  function Associated(todos: map<Id, Todo>, ids: seq<Id>): (r: seq<Id>)
    ensures forall y :: y in r <==> y in ids && y in todos
  {
    SortByStart(todos, Existing(todos, ids))
  }

  /** `dependents` (app/models/todo.rb:24). */
  function Dependents(g: Graph, x: Id): (r: seq<Id>)
    ensures forall y :: y in r <==> y in g.todos && Linked(g.dependencyEdges, x, y)
  {
    Associated(g.todos, TargetRows(g.dependencyEdges, x))
  }

  /** `dependencies` (app/models/todo.rb:25). */
  function Dependencies(g: Graph, x: Id): (r: seq<Id>)
    ensures forall y :: y in r <==> y in g.todos && Linked(g.dependencyEdges, y, x)
  {
    Associated(g.todos, SourceRows(g.dependencyEdges, x))
  }

  /** `children` (app/models/todo.rb:37). */
  function Children(g: Graph, x: Id): (r: seq<Id>)
    ensures forall y :: y in r <==> y in g.todos && Linked(g.childEdges, x, y)
  {
    Associated(g.todos, TargetRows(g.childEdges, x))
  }

  /** `parents` (app/models/todo.rb:38). */
  function Parents(g: Graph, x: Id): (r: seq<Id>)
    ensures forall y :: y in r <==> y in g.todos && Linked(g.childEdges, y, x)
  {
    Associated(g.todos, SourceRows(g.childEdges, x))
  }

  /**
   * `Todo.find(ids)`: raises when an id has no row; otherwise the rows of the
   * distinct ids, in the start-date order of the default scope.
   */
  function Find(todos: map<Id, Todo>, ids: seq<Id>): (r: Result<seq<Id>, Exception>)
    ensures r.Success? <==> AllFound(todos, ids)
    ensures r.Success? ==> forall y :: y in r.value <==> y in ids
    ensures r.Failure? ==> r.error == RecordNotFound
  {
    if AllFound(todos, ids) then Success(SortByStart(todos, Dedup(ids))) else Failure(RecordNotFound)
  }

  /** What `find` loads holds each requested id once, ordered by start date. */
  lemma FindOrders(todos: map<Id, Todo>, ids: seq<Id>)
    requires AllFound(todos, ids)
    ensures var found := Find(todos, ids).value;
            && NoDuplicates(found)
            && AllFound(todos, found) && SortedByStart(todos, found)
            && multiset(found) == multiset(Dedup(ids))
  {
    var unique := Dedup(ids);
    SortByStartSorted(todos, unique);
    DedupDistinct(ids);
    DistinctPermutation(SortByStart(todos, unique), unique);
  }

  /** A reordering of a sequence without duplicates has none either. */
  lemma DistinctPermutation(r: seq<Id>, s: seq<Id>)
    requires multiset(r) == multiset(s) && NoDuplicates(s)
    ensures NoDuplicates(r)
  {
    forall i, j | 0 <= i < j < |r| ensures r[i] != r[j] {
      if r[i] == r[j] {
        assert multiset(r)[r[i]] >= 2 by {
          assert r == r[..i] + [r[i]] + r[i+1..j] + [r[j]] + r[j+1..];
        }
        DistinctCount(s, r[i]);
      }
    }
  }

  lemma {:induction false} DistinctCount(s: seq<Id>, x: Id)
    requires NoDuplicates(s)
    ensures multiset(s)[x] <= 1
  {
    if s != [] {
      assert s == [s[0]] + s[1..];
      DistinctCount(s[1..], x);
      if s[0] == x {
        assert x !in s[1..];
      }
    }
  }

  datatype DateField = StartField | EndField

  function DateOf(t: Todo, f: DateField): int
  {
    match f
    case StartField => t.startDate
    case EndField => t.endDate
  }

  /** Ruby's `max_by`: the first id whose date is largest. */
  function MaxBy(todos: map<Id, Todo>, ids: seq<Id>, f: DateField): (r: Id)
    requires ids != [] && AllFound(todos, ids)
    ensures r in ids
    ensures forall i :: i in ids ==> DateOf(todos[i], f) <= DateOf(todos[r], f)
  {
    if |ids| == 1 then ids[0]
    else
      var m := MaxBy(todos, ids[1..], f);
      if DateOf(todos[ids[0]], f) >= DateOf(todos[m], f) then ids[0] else m
  }

  /** Ruby's `min_by`: the first id whose date is smallest. */
  function MinBy(todos: map<Id, Todo>, ids: seq<Id>, f: DateField): (r: Id)
    requires ids != [] && AllFound(todos, ids)
    ensures r in ids
    ensures forall i :: i in ids ==> DateOf(todos[r], f) <= DateOf(todos[i], f)
  {
    if |ids| == 1 then ids[0]
    else
      var m := MinBy(todos, ids[1..], f);
      if DateOf(todos[ids[0]], f) <= DateOf(todos[m], f) then ids[0] else m
  }

  /** `max_by` keeps the first of the largest: the entry it picks is the first whose date no other exceeds. */
  lemma {:induction false} MaxByFirst(todos: map<Id, Todo>, ids: seq<Id>, f: DateField, k: nat)
    requires ids != [] && AllFound(todos, ids) && k < |ids|
    requires forall i :: 0 <= i < |ids| ==> DateOf(todos[ids[i]], f) <= DateOf(todos[ids[k]], f)
    requires forall i :: 0 <= i < k ==> DateOf(todos[ids[i]], f) < DateOf(todos[ids[k]], f)
    ensures MaxBy(todos, ids, f) == ids[k]
    decreases |ids|
  {
    if |ids| > 1 && k > 0 {
      MaxByFirst(todos, ids[1..], f, k - 1);
    }
  }

  /** `min_by` keeps the first of the smallest: the entry it picks is the first whose date no other undercuts. */
  lemma {:induction false} MinByFirst(todos: map<Id, Todo>, ids: seq<Id>, f: DateField, k: nat)
    requires ids != [] && AllFound(todos, ids) && k < |ids|
    requires forall i :: 0 <= i < |ids| ==> DateOf(todos[ids[k]], f) <= DateOf(todos[ids[i]], f)
    requires forall i :: 0 <= i < k ==> DateOf(todos[ids[k]], f) < DateOf(todos[ids[i]], f)
    ensures MinBy(todos, ids, f) == ids[k]
    decreases |ids|
  {
    if |ids| > 1 && k > 0 {
      MinByFirst(todos, ids[1..], f, k - 1);
    }
  }

  /**
   * `dependent.dependencies.reorder(end_date: :desc).first` (app/models/todo.rb:304):
   * a dependency of `d` that ends last. The database leaves ties unordered; the
   * model takes the first of them in the association's order, which is by
   * start date and then by row order.
   */
  function LatestDependency(g: Graph, d: Id): (r: Option<Id>)
    ensures r.None? <==> Dependencies(g, d) == []
    ensures r.Some? ==> r.value in g.todos && Linked(g.dependencyEdges, r.value, d)
    ensures r.Some? ==> forall y :: y in g.todos && Linked(g.dependencyEdges, y, d) ==>
                          g.todos[y].endDate <= g.todos[r.value].endDate
  {
    var ds := Dependencies(g, d);
    if ds == [] then None else Some(MaxBy(g.todos, ds, EndField))
  }

  /** `parent.children.reorder(end_date: :desc).first` (app/models/todo.rb:350). */
  function LatestChild(g: Graph, p: Id): (r: Option<Id>)
    ensures r.None? <==> Children(g, p) == []
    ensures r.Some? ==> r.value in g.todos && Linked(g.childEdges, p, r.value)
    ensures r.Some? ==> forall y :: y in g.todos && Linked(g.childEdges, p, y) ==>
                          g.todos[y].endDate <= g.todos[r.value].endDate
  {
    var cs := Children(g, p);
    if cs == [] then None else Some(MaxBy(g.todos, cs, EndField))
  }

  /** Only a dependency that ends strictly after every other one is certain to be the latest. */
  lemma LatestDependencyDecided(g: Graph, d: Id, x: Id)
    requires x in g.todos && Linked(g.dependencyEdges, x, d)
    ensures (forall y :: y in g.todos && Linked(g.dependencyEdges, y, d) && y != x ==>
               g.todos[y].endDate < g.todos[x].endDate) ==> LatestDependency(g, d) == Some(x)
    ensures (exists y :: y in g.todos && Linked(g.dependencyEdges, y, d) &&
               g.todos[x].endDate < g.todos[y].endDate) ==> LatestDependency(g, d) != Some(x)
  {
  }
}
