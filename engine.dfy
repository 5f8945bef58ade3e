/**
 * The todos table and its two join tables as mutable state, with the update
 * cascade run in place over them inside one transaction.
 */
module Engine {
  import opened Base
  import opened Graph
  import opened Timeline

  class TodoStore {
    var todos: map<Id, Todo>
    var dependencyEdges: seq<Edge>
    var childEdges: seq<Edge>

    /** The committed state as a value. */
    function Snapshot(): Graph
      reads this
    {
      Graph(todos, dependencyEdges, childEdges)
    }

    constructor (g: Graph)
      ensures Snapshot() == g
    {
      todos := g.todos;
      dependencyEdges := g.dependencyEdges;
      childEdges := g.childEdges;
    }

    /**
     * Runs the work list in place, one step at a time, for at most `fuel`
     * steps. A neighbour that fails validation, a callback that raises, or a
     * cascade that has not ended rolls every write back.
     */
    method Cascade(tasks: seq<Task>, fuel: nat) returns (r: CascadeResult)
      modifies this
      ensures r == Run(old(Snapshot()), tasks, fuel)
      ensures r.Finished? ==> Snapshot() == r.graph
      ensures !r.Finished? ==> Snapshot() == old(Snapshot())
    {
      var committed := todos;
      var g := Snapshot();
      ghost var target := Run(g, tasks, fuel);
      var pending := tasks;
      var remaining := fuel;
      while pending != [] && remaining > 0
        invariant todos == g.todos && committed == old(todos)
        invariant dependencyEdges == g.dependencyEdges == old(dependencyEdges)
        invariant childEdges == g.childEdges == old(childEdges)
        invariant Run(g, pending, remaining) == target
        decreases remaining
      {
        var step := Advance(g, pending, remaining);
        if step.Abort? {
          todos := committed;
          return Aborted(step.id, step.outcome);
        }
        g, pending, remaining := step.graph, step.tasks, remaining - 1;
        todos := g.todos;
      }
      if pending == [] {
        RunDone(g, remaining);
        r := Finished(g);
      } else {
        RunOut(g, pending);
        todos := committed;
        r := Exhausted;
      }
    }

    /**
     * One step of the cascade: either the run stops here with the step's
     * abort, or it goes on from the step's new graph and work list.
     */
    static method Advance(g: Graph, pending: seq<Task>, remaining: nat) returns (step: StepResult)
      requires pending != [] && remaining > 0
      ensures step.Abort? ==> Run(g, pending, remaining) == Aborted(step.id, step.outcome)
      ensures step.Continue? ==> Run(g, pending, remaining) == Run(step.graph, step.tasks, remaining - 1)
      ensures step.Continue? ==> step.graph.dependencyEdges == g.dependencyEdges && step.graph.childEdges == g.childEdges
    {
      step := Step(g, pending);
      if step.Abort? {
        RunStops(g, pending, remaining, step.id, step.outcome);
      } else {
        RunVia(g, pending, remaining, step.graph, step.tasks);
      }
    }

    /**
     * The written row of an update and the cascade its callbacks start, in one
     * transaction: the row is rolled back with the cascade when that fails.
     */
    method WriteAndCascade(ghost g: Graph, n: Id, loaded: Todo, saved: Todo, fuel: nat) returns (r: CascadeResult)
      requires Snapshot() == g && n in g.todos
      modifies this
      ensures r == Run(UpdateRow(g, n, saved), [AfterUpdate(n, loaded, saved)], fuel)
      ensures r.Finished? ==> Snapshot() == r.graph
      ensures !r.Finished? ==> Snapshot() == g
    {
      var committed := todos;
      todos := todos[n := saved];
      assert Snapshot() == UpdateRow(g, n, saved);
      r := Cascade([AfterUpdate(n, loaded, saved)], fuel);
      if !r.Finished? {
        todos := committed;
      }
    }

    /**
     * `todo.update` of dates and plain columns: validate and write the todo,
     * then run the cascade its callbacks start; an invalid todo is not written.
     */
    method Update(n: Id, updated: Todo, fuel: nat) returns (r: CascadeResult)
      requires n in todos
      modifies this
      ensures r == UpdateRun(old(Snapshot()), n, updated, fuel)
      ensures r.Finished? ==> Snapshot() == r.graph
      ensures !r.Finished? ==> Snapshot() == old(Snapshot())
    {
      var g := Snapshot();
      match Save(g, n, todos[n], updated)
      case Invalid(o) =>
        UpdateStopsWhenInvalid(g, n, updated, fuel);
        r := Aborted(n, o);
      case Written(_, saved) =>
        UpdateVia(g, n, updated, fuel);
        r := WriteAndCascade(g, n, todos[n], saved, fuel);
    }
  }
}
