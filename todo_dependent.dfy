/**
 * The validations a `TodoDependent` join row runs when it is saved
 * (app/models/todo_dependent.rb): pair uniqueness, no self loop, and the two
 * two-hop rules. `todoId` is the dependency and `dependentId` the dependent.
 */
module TodoDependentValidation {
  import opened Base
  import opened Graph
  import opened TodoValidation

  /** A join row about to be saved; `rowId` is `None` until it is inserted. */
  datatype JoinRow = JoinRow(rowId: Option<Id>, todoId: Option<Id>, dependentId: Option<Id>)

  /** A committed row other than `row` itself joins the same ordered pair. */
  predicate PairTaken(g: Graph, row: JoinRow)
  {
    row.todoId.Some? && row.dependentId.Some? &&
    exists e :: e in g.dependencyEdges && e.todoId == row.todoId.value && e.otherId == row.dependentId.value
                && row.rowId != Some(e.rowId)
  }

  /**
   * `validates_uniqueness_of` at lines 4-5: each declaration looks for another
   * committed row with the same pair, so a duplicate gets an error on both
   * columns. A nil column matches no committed row.
   */
  function UniquenessErrors(g: Graph, row: JoinRow): (r: seq<Violation>)
    ensures r == [] <==> !PairTaken(g, row)
    ensures r != [] ==> r == [Violation(OnDependentId, Taken, None), Violation(OnTodoId, Taken, None)]
  {
    if PairTaken(g, row) then [Violation(OnDependentId, Taken, None), Violation(OnTodoId, Taken, None)] else []
  }

  /** `todo_dependent_cannot_include_self` (lines 12-14). */
  function SelfLoopErrors(todo: Id, dependent: Id): (r: seq<Violation>)
    ensures r != [] <==> todo == dependent
    ensures r != [] ==> r == [Violation(OnDependentId, SelfReference, None)]
  {
    if dependent == todo then [Violation(OnDependentId, SelfReference, None)] else []
  }

  /**
   * `todo_cannot_be_dependent_dependencies_dependency` (lines 16-20): the todo
   * may not already be a dependency of one of the dependent's dependencies.
   * A dependent with no row makes `dependent.dependencies` raise.
   */
  function DependenciesDependencyErrors(g: Graph, todo: Id, dependent: Id): (r: Outcome)
    ensures r.Raised? <==> dependent !in g.todos
    ensures r.Raised? ==> r.error == NilReceiver
    ensures r.Checked? ==> (r.violations != [] <==> DependencyOfAny(g, todo, Dependencies(g, dependent)))
    ensures r.Checked? && r.violations != [] ==> r.violations == [Violation(OnTodoId, DependencysDependency, None)]
  {
    if dependent !in g.todos then Raised(NilReceiver)
    else
      var depsDependencies := DependenciesOfAll(g, Dependencies(g, dependent));
      if todo in depsDependencies then Checked([Violation(OnTodoId, DependencysDependency, None)])
      else Checked([])
  }

  /**
   * `dependent_cannot_be_dependents_dependent` (lines 22-26): the dependent may
   * not already be a dependent of one of the todo's dependents.
   */
  function DependentsDependentErrors(g: Graph, todo: Id, dependent: Id): (r: Outcome)
    ensures r.Raised? <==> todo !in g.todos
    ensures r.Raised? ==> r.error == NilReceiver
    ensures r.Checked? ==> (r.violations != [] <==> DependentOfAny(g, dependent, Dependents(g, todo)))
    ensures r.Checked? && r.violations != [] ==> r.violations == [Violation(OnDependentId, DependentsDependent, None)]
  {
    if todo !in g.todos then Raised(NilReceiver)
    else
      var deptsDependents := DependentsOfAll(g, Dependents(g, todo));
      if dependent in deptsDependents then Checked([Violation(OnDependentId, DependentsDependent, None)])
      else Checked([])
  }

  /** Every validation of the row, in the order lines 4-8 declare them; lines 6-8 are skipped when an end is nil. */
  function ValidateJoinRow(g: Graph, row: JoinRow): (r: Outcome)
    ensures row.todoId.None? || row.dependentId.None? ==> r == Checked([])
  {
    var unique := Checked(UniquenessErrors(g, row));
    if row.todoId.None? || row.dependentId.None? then unique
    else
      var todo, dependent := row.todoId.value, row.dependentId.value;
      unique
        .Then(Checked(SelfLoopErrors(todo, dependent)))
        .Then(DependenciesDependencyErrors(g, todo, dependent))
        .Then(DependentsDependentErrors(g, todo, dependent))
  }

  /** What the row validations enforce, stated on the graph. */
  predicate JoinRowAcceptable(g: Graph, row: JoinRow)
  {
    row.todoId.Some? && row.dependentId.Some? ==>
      var todo, dependent := row.todoId.value, row.dependentId.value;
      && !PairTaken(g, row)
      && todo != dependent
      && todo in g.todos && dependent in g.todos
      && !DependencyOfAny(g, todo, Dependencies(g, dependent))
      && !DependentOfAny(g, dependent, Dependents(g, todo))
  }

  /** The row validations pass exactly when the row is acceptable. */
  lemma ValidateJoinRowAccepts(g: Graph, row: JoinRow)
    ensures ValidateJoinRow(g, row) == Checked([]) <==> JoinRowAcceptable(g, row)
  {
    if row.todoId.Some? && row.dependentId.Some? {
      var todo, dependent := row.todoId.value, row.dependentId.value;
      var a := Checked(UniquenessErrors(g, row));
      var b := Checked(SelfLoopErrors(todo, dependent));
      var c := DependenciesDependencyErrors(g, todo, dependent);
      var d := DependentsDependentErrors(g, todo, dependent);
      ThenAccepts(a, b);
      ThenAccepts(a.Then(b), c);
      ThenAccepts(a.Then(b).Then(c), d);
    }
  }

  /** No two committed rows join the same ordered pair. */
  predicate PairsUnique(edges: seq<Edge>)
  {
    forall i, j :: 0 <= i < j < |edges| ==>
      edges[i].todoId != edges[j].todoId || edges[i].otherId != edges[j].otherId
  }

  /**
   * Inserting a new row that passed its validations keeps every ordered pair
   * joined at most once: a second row for the same pair is rejected.
   */
  lemma AcceptedInsertKeepsPairsUnique(g: Graph, row: JoinRow, newRowId: Id)
    requires PairsUnique(g.dependencyEdges)
    requires row.rowId.None? && row.todoId.Some? && row.dependentId.Some?
    requires ValidateJoinRow(g, row) == Checked([])
    ensures PairsUnique(g.dependencyEdges + [Edge(newRowId, row.todoId.value, row.dependentId.value)])
  {
    ValidateJoinRowAccepts(g, row);
    var edges := g.dependencyEdges + [Edge(newRowId, row.todoId.value, row.dependentId.value)];
    forall i, j | 0 <= i < j < |edges|
      ensures edges[i].todoId != edges[j].todoId || edges[i].otherId != edges[j].otherId
    {
      if j == |edges| - 1 {
        assert edges[i] in g.dependencyEdges;
      }
    }
  }

  /** A row joining a todo to itself is always rejected. */
  lemma SelfLoopRejected(g: Graph, row: JoinRow)
    requires row.todoId.Some? && row.todoId == row.dependentId
    ensures ValidateJoinRow(g, row) != Checked([])
  {
    ValidateJoinRowAccepts(g, row);
  }
}
