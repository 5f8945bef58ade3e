/**
 * The update callbacks of a todo (app/models/todo.rb:80-85 and 297-360) as an
 * explicit work list. Each `save!` of a neighbour validates it, runs its own
 * `before_update`, writes it and then runs its own `after_update` callbacks
 * before the loop that saved it moves on; pushing those callbacks on the front
 * of the list reproduces that depth-first order.
 */
module Timeline {
  import opened Base
  import opened Graph
  import opened TodoValidation

  // ---------------------------------------------------------------------------
  // before_update: shift_end_date (lines 81-83 and 317-325)
  // ---------------------------------------------------------------------------

  /**
   * The guard at lines 81-83 together with the debounce at line 321: the start
   * date is being changed, the end date is not being changed by a day or more,
   * and the start date moves by at least a day.
   */
  predicate ShiftEndDateApplies(was: Interval, now: Interval)
  {
    now.startDate != was.startDate
    && Abs(now.endDate - was.endDate) < Day
    && AtLeastADay(now.startDate - was.startDate)
  }

  /** The interval that is written once `shift_end_date` has run. */
  function ShiftEndDate(was: Interval, now: Interval): (r: Interval)
    ensures r.startDate == now.startDate
    ensures ShiftEndDateApplies(was, now) ==> r.endDate - now.endDate == now.startDate - was.startDate
    ensures !ShiftEndDateApplies(was, now) ==> r == now
  {
    if ShiftEndDateApplies(was, now) then
      Interval(now.startDate, now.endDate + (now.startDate - was.startDate))
    else now
  }

  /** Moving only the start date by a day or more moves the end date with it: the length is kept. */
  lemma ShiftEndDateKeepsLength(was: Interval, now: Interval)
    requires now.endDate == was.endDate && AtLeastADay(now.startDate - was.startDate)
    ensures ShiftEndDate(was, now).endDate - ShiftEndDate(was, now).startDate == was.endDate - was.startDate
  {
  }

  /** A start date moved by less than a day leaves the end date as it is. */
  lemma ShiftEndDateIgnoresSubDay(was: Interval, now: Interval)
    requires !AtLeastADay(now.startDate - was.startDate)
    ensures ShiftEndDate(was, now) == now
  {
  }

  /** An end date changed by a day or more in the same update is kept as given. */
  lemma ShiftEndDateKeepsEditedEnd(was: Interval, now: Interval)
    requires AtLeastADay(now.endDate - was.endDate)
    ensures ShiftEndDate(was, now) == now
  {
  }

  function WithInterval(t: Todo, i: Interval): Todo
  {
    t.(startDate := i.startDate, endDate := i.endDate)
  }

  /** `before_update`: the record as it will be written. */
  function BeforeUpdate(was: Todo, now: Todo): (r: Todo)
    ensures r.(endDate := now.endDate) == now
    ensures r.endDate == ShiftEndDate(IntervalOf(was), IntervalOf(now)).endDate
  {
    WithInterval(now, ShiftEndDate(IntervalOf(was), IntervalOf(now)))
  }

  // ---------------------------------------------------------------------------
  // after_update (lines 84-85) and the three timeline callbacks
  // ---------------------------------------------------------------------------

  datatype Task =
    | AfterUpdate(id: Id, was: Todo, now: Todo)          // the callbacks of one completed save
    | ChildrenTimeline(id: Id, was: Todo, now: Todo)     // update_children_timeline
    | DependentsTimeline(id: Id, was: Todo, now: Todo)   // update_dependents_timeline
    | ParentsEndDate(id: Id, was: Todo, now: Todo)       // update_parents_end_date
    | ShiftChild(child: Id, loaded: Todo, delta: int)    // one iteration of lines 333-339
    | ShiftDependent(source: Id, sourceEnd: int, dependent: Id, loaded: Todo, delta: int)  // lines 303-313
    | PullParent(source: Id, sourceEnd: int, parent: Id, loaded: Todo)                    // lines 349-357

  /** Lines 84-85: which callbacks run after a save that turned `was` into `now`, in declaration order. */
  function AfterUpdateTasks(id: Id, was: Todo, now: Todo): (r: seq<Task>)
    ensures ChildrenTimeline(id, was, now) in r <==> now.startDate != was.startDate && now.endDate != was.endDate
    ensures DependentsTimeline(id, was, now) in r <==> now.endDate != was.endDate
    ensures ParentsEndDate(id, was, now) in r <==> now.endDate != was.endDate
    ensures r == [] <==> now.endDate == was.endDate
    ensures forall t :: t in r ==> t.ChildrenTimeline? || t.DependentsTimeline? || t.ParentsEndDate?
  {
    if now.endDate == was.endDate then []
    else if now.startDate != was.startDate then
      [ChildrenTimeline(id, was, now), DependentsTimeline(id, was, now), ParentsEndDate(id, was, now)]
    else [DependentsTimeline(id, was, now), ParentsEndDate(id, was, now)]
  }

  /**
   * `update_children_timeline`: with a start date moved by at least a day, one
   * shift by that amount for every child, in the order `children` loads them,
   * each holding the child as it was loaded.
   */
  function ChildrenTimelineTasks(g: Graph, id: Id, was: Todo, now: Todo): (r: seq<Task>)
    ensures !AtLeastADay(now.startDate - was.startDate) ==> r == []
    ensures AtLeastADay(now.startDate - was.startDate) ==>
              |r| == |Children(g, id)| &&
              forall i :: 0 <= i < |r| ==>
                var c := Children(g, id)[i];
                c in g.todos && r[i] == ShiftChild(c, g.todos[c], now.startDate - was.startDate)
  {
    var delta := now.startDate - was.startDate;
    var cs := Children(g, id);
    if AtLeastADay(delta) then
      seq(|cs|, i requires 0 <= i < |cs| && cs[i] in g.todos => ShiftChild(cs[i], g.todos[cs[i]], delta))
    else []
  }

  /**
   * `update_dependents_timeline`: only an end date moved later by at least a
   * day looks at the dependents; whether each one moves is decided when its
   * turn comes.
   */
  function DependentsTimelineTasks(g: Graph, id: Id, was: Todo, now: Todo): (r: seq<Task>)
    ensures now.endDate - was.endDate < Day ==> r == []
    ensures now.endDate - was.endDate >= Day ==>
              |r| == |Dependents(g, id)| &&
              forall i :: 0 <= i < |r| ==>
                var d := Dependents(g, id)[i];
                d in g.todos && r[i] == ShiftDependent(id, now.endDate, d, g.todos[d], now.endDate - was.endDate)
  {
    var delta := now.endDate - was.endDate;
    var ds := Dependents(g, id);
    if delta >= Day then
      seq(|ds|, i requires 0 <= i < |ds| && ds[i] in g.todos =>
        ShiftDependent(id, now.endDate, ds[i], g.todos[ds[i]], delta))
    else []
  }

  /** `update_parents_end_date`: an end date moved by at least a day, either way, looks at the parents. */
  function ParentsEndDateTasks(g: Graph, id: Id, was: Todo, now: Todo): (r: seq<Task>)
    ensures !AtLeastADay(now.endDate - was.endDate) ==> r == []
    ensures AtLeastADay(now.endDate - was.endDate) ==>
              |r| == |Parents(g, id)| &&
              forall i :: 0 <= i < |r| ==>
                var q := Parents(g, id)[i];
                q in g.todos && r[i] == PullParent(id, now.endDate, q, g.todos[q])
  {
    var ps := Parents(g, id);
    if AtLeastADay(now.endDate - was.endDate) then
      seq(|ps|, i requires 0 <= i < |ps| && ps[i] in g.todos => PullParent(id, now.endDate, ps[i], g.todos[ps[i]]))
    else []
  }

  // ---------------------------------------------------------------------------
  // One `save!` of a neighbour
  // ---------------------------------------------------------------------------

  /**
   * The neighbour as its validators see it: its new dates, and the join rows
   * and `parents` association as committed.
   */
  function SaveProposal(g: Graph, n: Id, loaded: Todo, updated: Todo): Proposal
  {
    Proposal(Some(n), updated.name, Some(updated.startDate), Some(updated.endDate), updated.status, loaded.status,
             false, SourceRows(g.dependencyEdges, n), TargetRows(g.dependencyEdges, n),
             TargetRows(g.childEdges, n), SourceRows(g.childEdges, n), Parents(g, n))
  }

  /**
   * The row after an UPDATE of the changed date columns only: the columns the
   * record did not change keep what the row holds now, which may be newer than
   * what the record loaded.
   */
  function WriteDates(current: Todo, was: Todo, now: Todo): (r: Todo)
    ensures r.startDate == (if now.startDate != was.startDate then now.startDate else current.startDate)
    ensures r.endDate == (if now.endDate != was.endDate then now.endDate else current.endDate)
    ensures r.(startDate := current.startDate, endDate := current.endDate) == current
  {
    current.(startDate := if now.startDate != was.startDate then now.startDate else current.startDate,
             endDate := if now.endDate != was.endDate then now.endDate else current.endDate)
  }

  /** `after` differs from `before` at most in its dates. */
  predicate SameColumns(before: Todo, after: Todo)
  {
    after.(startDate := before.startDate, endDate := before.endDate) == before
  }

  /** The graph's shape and every todo's attributes other than its dates are the same in `h` as in `g`. */
  predicate SameShape(g: Graph, h: Graph)
  {
    && h.dependencyEdges == g.dependencyEdges && h.childEdges == g.childEdges
    && h.todos.Keys == g.todos.Keys
    && forall n {:trigger SameColumns(g.todos[n], h.todos[n])} :: n in g.todos ==> SameColumns(g.todos[n], h.todos[n])
  }

  lemma SameShapeReflexive(g: Graph)
    ensures SameShape(g, g)
  {
    forall n | n in g.todos
      ensures SameColumns(g.todos[n], g.todos[n])
    {
    }
  }

  lemma SameShapeTransitive(g: Graph, h: Graph, k: Graph)
    requires SameShape(g, h) && SameShape(h, k)
    ensures SameShape(g, k)
  {
    forall n | n in g.todos
      ensures SameColumns(g.todos[n], k.todos[n])
    {
      assert SameColumns(g.todos[n], h.todos[n]);
      assert SameColumns(h.todos[n], k.todos[n]);
    }
  }

  /** The graph after `n`'s changed dates are written; a row that is gone is left alone. */
  function WriteRow(g: Graph, n: Id, loaded: Todo, saved: Todo): (h: Graph)
    ensures h.dependencyEdges == g.dependencyEdges && h.childEdges == g.childEdges
    ensures h.todos.Keys == g.todos.Keys
    ensures forall m :: m in g.todos && m != n ==> h.todos[m] == g.todos[m]
    ensures n in g.todos ==> h.todos[n] == WriteDates(g.todos[n], loaded, saved)
  {
    if n in g.todos then g.(todos := g.todos[n := WriteDates(g.todos[n], loaded, saved)]) else g
  }

  /** A write changes dates only. */
  lemma WriteRowKeepsShape(g: Graph, n: Id, loaded: Todo, saved: Todo)
    ensures SameShape(g, WriteRow(g, n, loaded, saved))
  {
    var h := WriteRow(g, n, loaded, saved);
    forall m | m in g.todos
      ensures SameColumns(g.todos[m], h.todos[m])
    {
    }
  }

  datatype SaveResult = Written(graph: Graph, saved: Todo) | Invalid(outcome: Outcome)

  /** `save!` of a loaded neighbour: validate, run `before_update`, write the changed dates. */
  function Save(g: Graph, n: Id, loaded: Todo, updated: Todo): (r: SaveResult)
    ensures r.Invalid? <==> Validate(g, SaveProposal(g, n, loaded, updated)) != Checked([])
    ensures r.Invalid? ==> r.outcome == Validate(g, SaveProposal(g, n, loaded, updated))
    ensures r.Written? ==> r.saved == BeforeUpdate(loaded, updated)
    ensures r.Written? ==> r.graph == WriteRow(g, n, loaded, r.saved)
  {
    var outcome := Validate(g, SaveProposal(g, n, loaded, updated));
    if outcome != Checked([]) then Invalid(outcome)
    else
      var saved := BeforeUpdate(loaded, updated);
      Written(WriteRow(g, n, loaded, saved), saved)
  }

  // ---------------------------------------------------------------------------
  // The work list
  // ---------------------------------------------------------------------------

  /**
   * The callbacks of a finished save go on the front of the list, in order,
   * ahead of what the interrupted loop still has to do.
   */
  function Push(front: seq<Task>, rest: seq<Task>): seq<Task>
    decreases |front|
  {
    if front == [] then rest else [front[0]] + Push(front[1..], rest)
  }

  lemma {:induction false} PushFront(front: seq<Task>, rest: seq<Task>)
    ensures Push(front, rest) == front + rest
    decreases |front|
  {
    if front != [] {
      PushFront(front[1..], rest);
      assert front == [front[0]] + front[1..];
    }
  }

  datatype StepResult = Continue(graph: Graph, tasks: seq<Task>) | Abort(id: Id, outcome: Outcome)

  /** A saved neighbour's own callbacks run before anything else left on the list. */
  function SaveThen(g: Graph, n: Id, loaded: Todo, updated: Todo, rest: seq<Task>): (r: StepResult)
    ensures r.Abort? <==> Save(g, n, loaded, updated).Invalid?
    ensures r.Abort? ==> r.id == n && r.outcome == Save(g, n, loaded, updated).outcome
    ensures r.Continue? ==> r.graph == WriteRow(g, n, loaded, BeforeUpdate(loaded, updated))
    ensures r.Continue? ==> r.tasks == Push([AfterUpdate(n, loaded, BeforeUpdate(loaded, updated))], rest)
    ensures r.Continue? ==> SameShape(g, r.graph)
  {
    match Save(g, n, loaded, updated)
    case Invalid(o) => Abort(n, o)
    case Written(g', saved) =>
      WriteRowKeepsShape(g, n, loaded, saved);
      Continue(g', Push([AfterUpdate(n, loaded, saved)], rest))
  }

  function Shifted(t: Todo, delta: int): Todo
  {
    t.(startDate := t.startDate + delta, endDate := t.endDate + delta)
  }

  /** Lines 333-339: the child moves by the delta on both dates and is saved. */
  function ShiftChildStep(g: Graph, c: Id, loaded: Todo, delta: int, rest: seq<Task>): (r: StepResult)
    ensures r.Continue? ==> SameShape(g, r.graph)
  {
    SaveThen(g, c, loaded, Shifted(loaded, delta), rest)
  }

  /** Lines 305-307: the dependent moves only behind its latest-ending dependency, and only if they overlap. */
  predicate DependentMoves(g: Graph, source: Id, sourceEnd: int, dependent: Id, loaded: Todo)
  {
    LatestDependency(g, dependent) == Some(source) && loaded.startDate < sourceEnd
  }

  /** Lines 303-313; `latest_dependency.id` raises when the dependent has no dependency left. */
  function ShiftDependentStep(g: Graph, source: Id, sourceEnd: int, d: Id, loaded: Todo, delta: int,
                              rest: seq<Task>): (r: StepResult)
    ensures r.Continue? ==> SameShape(g, r.graph)
  {
    if LatestDependency(g, d).None? then Abort(d, Raised(NilReceiver))
    else if DependentMoves(g, source, sourceEnd, d, loaded) then SaveThen(g, d, loaded, Shifted(loaded, delta), rest)
    else SameShapeReflexive(g); Continue(g, rest)
  }

  /** Lines 351-353: the parent is pulled only by its latest-ending child, and only later. */
  predicate ParentPulled(g: Graph, source: Id, sourceEnd: int, parent: Id, loaded: Todo)
  {
    LatestChild(g, parent) == Some(source) && loaded.endDate < sourceEnd
  }

  /** Lines 349-357. */
  function PullParentStep(g: Graph, source: Id, sourceEnd: int, q: Id, loaded: Todo, rest: seq<Task>): (r: StepResult)
    ensures r.Continue? ==> SameShape(g, r.graph)
  {
    if LatestChild(g, q).None? then Abort(q, Raised(NilReceiver))
    else if ParentPulled(g, source, sourceEnd, q, loaded) then SaveThen(g, q, loaded, loaded.(endDate := sourceEnd), rest)
    else SameShapeReflexive(g); Continue(g, rest)
  }

  /** Processes the first task of the list. */
  function Step(g: Graph, tasks: seq<Task>): (r: StepResult)
    requires tasks != []
    ensures r.Continue? ==> SameShape(g, r.graph)
  {
    var rest := tasks[1..];
    SameShapeReflexive(g);
    match tasks[0]
    case AfterUpdate(id, was, now) => Continue(g, Push(AfterUpdateTasks(id, was, now), rest))
    case ChildrenTimeline(id, was, now) => Continue(g, Push(ChildrenTimelineTasks(g, id, was, now), rest))
    case DependentsTimeline(id, was, now) => Continue(g, Push(DependentsTimelineTasks(g, id, was, now), rest))
    case ParentsEndDate(id, was, now) => Continue(g, Push(ParentsEndDateTasks(g, id, was, now), rest))
    case ShiftChild(c, loaded, delta) => ShiftChildStep(g, c, loaded, delta, rest)
    case ShiftDependent(source, sourceEnd, d, loaded, delta) => ShiftDependentStep(g, source, sourceEnd, d, loaded, delta, rest)
    case PullParent(source, sourceEnd, q, loaded) => PullParentStep(g, source, sourceEnd, q, loaded, rest)
  }

  datatype CascadeResult = Finished(graph: Graph) | Aborted(id: Id, outcome: Outcome) | Exhausted

  /**
   * Runs the list to the end, at most `fuel` steps. The source recursion has no
   * bound of its own; `Exhausted` stands for a cascade that has not ended.
   */
  function Run(g: Graph, tasks: seq<Task>, fuel: nat): CascadeResult
    decreases fuel
  {
    if tasks == [] then Finished(g)
    else if fuel == 0 then Exhausted
    else
      match Step(g, tasks)
      case Abort(n, o) => Aborted(n, o)
      case Continue(g', tasks') => Run(g', tasks', fuel - 1)
  }

  /** One step of a run that continues. */
  lemma RunVia(g: Graph, tasks: seq<Task>, fuel: nat, g': Graph, tasks': seq<Task>)
    requires tasks != [] && fuel > 0 && Step(g, tasks) == Continue(g', tasks')
    ensures Run(g, tasks, fuel) == Run(g', tasks', fuel - 1)
  {
  }

  /** A run with nothing left to do has finished. */
  lemma RunDone(g: Graph, fuel: nat)
    ensures Run(g, [], fuel) == Finished(g)
  {
  }

  /** A run out of fuel with work left is exhausted. */
  lemma RunOut(g: Graph, tasks: seq<Task>)
    requires tasks != []
    ensures Run(g, tasks, 0) == Exhausted
  {
  }

  /** One step of a run that stops. */
  lemma RunStops(g: Graph, tasks: seq<Task>, fuel: nat, n: Id, o: Outcome)
    requires tasks != [] && fuel > 0 && Step(g, tasks) == Abort(n, o)
    ensures Run(g, tasks, fuel) == Aborted(n, o)
  {
  }

  // ---------------------------------------------------------------------------
  // Properties of the callbacks
  // ---------------------------------------------------------------------------

  /** A whole cascade moves dates and nothing else: no todo or join row appears or disappears. */
  lemma {:induction false} RunKeepsShape(g: Graph, tasks: seq<Task>, fuel: nat)
    ensures Run(g, tasks, fuel).Finished? ==> SameShape(g, Run(g, tasks, fuel).graph)
    decreases fuel
  {
    if tasks == [] {
      SameShapeReflexive(g);
    } else if fuel > 0 {
      var step := Step(g, tasks);
      if step.Abort? {
        RunStops(g, tasks, fuel, step.id, step.outcome);
      } else {
        var g', tasks' := step.graph, step.tasks;
        RunVia(g, tasks, fuel, g', tasks');
        RunKeepsShape(g', tasks', fuel - 1);
        if Run(g', tasks', fuel - 1).Finished? {
          SameShapeTransitive(g, g', Run(g', tasks', fuel - 1).graph);
        }
      }
    }
  }

  /** A save that leaves both dates where they were starts no callback: propagation is idempotent. */
  lemma UnchangedSaveStopsCascade(g: Graph, id: Id, was: Todo, now: Todo, fuel: nat)
    requires IntervalOf(now) == IntervalOf(was) && fuel >= 1
    ensures Run(g, [AfterUpdate(id, was, now)], fuel) == Finished(g)
  {
    assert AfterUpdateTasks(id, was, now) == [];
  }

  /** A change of less than a day in either date starts no shift in any of the three callbacks. */
  lemma SubDayChangesDoNotPropagate(g: Graph, id: Id, was: Todo, now: Todo)
    requires !AtLeastADay(now.startDate - was.startDate) && !AtLeastADay(now.endDate - was.endDate)
    ensures ChildrenTimelineTasks(g, id, was, now) == []
    ensures DependentsTimelineTasks(g, id, was, now) == []
    ensures ParentsEndDateTasks(g, id, was, now) == []
  {
  }

  /** An end date moved earlier never moves a dependent. */
  lemma EarlierEndLeavesDependents(g: Graph, id: Id, was: Todo, now: Todo)
    requires now.endDate <= was.endDate
    ensures DependentsTimelineTasks(g, id, was, now) == []
  {
  }

  /** A neighbour saved with both dates moved by at least a day keeps exactly the moved dates. */
  lemma ShiftedSaveWrites(g: Graph, n: Id, delta: int, rest: seq<Task>)
    requires n in g.todos && AtLeastADay(delta)
    requires Save(g, n, g.todos[n], Shifted(g.todos[n], delta)).Written?
    ensures var r := SaveThen(g, n, g.todos[n], Shifted(g.todos[n], delta), rest);
            && r.Continue?
            && r.graph.todos[n] == Shifted(g.todos[n], delta)
            && (forall m :: m in g.todos && m != n ==> r.graph.todos[m] == g.todos[m])
            && r.tasks == [AfterUpdate(n, g.todos[n], Shifted(g.todos[n], delta))] + rest
  {
    var loaded := g.todos[n];
    assert !ShiftEndDateApplies(IntervalOf(loaded), IntervalOf(Shifted(loaded, delta)));
    PushFront([AfterUpdate(n, loaded, Shifted(loaded, delta))], rest);
  }

  /** A child is moved by the start date's delta on both dates, whatever its dates are. */
  lemma ChildShiftMovesBothDates(g: Graph, c: Id, delta: int, rest: seq<Task>)
    requires c in g.todos && AtLeastADay(delta)
    requires Save(g, c, g.todos[c], Shifted(g.todos[c], delta)).Written?
    ensures var r := ShiftChildStep(g, c, g.todos[c], delta, rest);
            && r.Continue?
            && r.graph.todos[c] == Shifted(g.todos[c], delta)
            && (forall m :: m in g.todos && m != c ==> r.graph.todos[m] == g.todos[m])
            && r.tasks == [AfterUpdate(c, g.todos[c], Shifted(g.todos[c], delta))] + rest
  {
    ShiftedSaveWrites(g, c, delta, rest);
  }

  /** A dependent that is not gated in is left exactly as it is. */
  lemma UngatedDependentUntouched(g: Graph, source: Id, sourceEnd: int, d: Id, loaded: Todo, delta: int,
                                  rest: seq<Task>)
    requires LatestDependency(g, d).Some? && !DependentMoves(g, source, sourceEnd, d, loaded)
    ensures ShiftDependentStep(g, source, sourceEnd, d, loaded, delta, rest) == Continue(g, rest)
  {
  }

  /**
   * A gated dependent is saved with both dates moved by the delta (what that
   * save writes is `ShiftedSaveWrites`); the gate only opens behind a
   * dependency that ends no earlier than any other.
   */
  lemma GatedDependentShifts(g: Graph, source: Id, sourceEnd: int, d: Id, loaded: Todo, delta: int, rest: seq<Task>)
    requires DependentMoves(g, source, sourceEnd, d, loaded)
    ensures ShiftDependentStep(g, source, sourceEnd, d, loaded, delta, rest)
         == SaveThen(g, d, loaded, Shifted(loaded, delta), rest)
    ensures source in g.todos && loaded.startDate < sourceEnd
    ensures forall y :: y in g.todos && Linked(g.dependencyEdges, y, d) ==>
              g.todos[y].endDate <= g.todos[source].endDate
  {
  }

  /** A dependent's task is handled by the dependent step. */
  lemma StepShiftsDependent(g: Graph, tasks: seq<Task>)
    requires tasks != [] && tasks[0].ShiftDependent?
    ensures Step(g, tasks) == ShiftDependentStep(g, tasks[0].source, tasks[0].sourceEnd, tasks[0].dependent, tasks[0].loaded, tasks[0].delta, tasks[1..])
  {
    match tasks[0]
    case ShiftDependent(source, sourceEnd, d, loaded, delta) =>
  }

  /** A save that is written puts the saved todo's callbacks on the front of the list. */
  lemma SaveThenWritten(g: Graph, n: Id, loaded: Todo, updated: Todo, rest: seq<Task>, h: Graph, saved: Todo)
    requires Save(g, n, loaded, updated) == Written(h, saved)
    ensures SaveThen(g, n, loaded, updated, rest) == Continue(h, Push([AfterUpdate(n, loaded, saved)], rest))
  {
  }

  /** A dependent that moves is saved, and its own callbacks go on the front of the list. */
  lemma DependentStepSaves(g: Graph, tasks: seq<Task>, h: Graph, saved: Todo)
    requires tasks != [] && tasks[0].ShiftDependent?
    requires DependentMoves(g, tasks[0].source, tasks[0].sourceEnd, tasks[0].dependent, tasks[0].loaded)
    requires Save(g, tasks[0].dependent, tasks[0].loaded, Shifted(tasks[0].loaded, tasks[0].delta)) == Written(h, saved)
    ensures Step(g, tasks) == Continue(h, Push([AfterUpdate(tasks[0].dependent, tasks[0].loaded, saved)], tasks[1..]))
  {
    var t := tasks[0];
    StepShiftsDependent(g, tasks);
    GatedDependentShifts(g, t.source, t.sourceEnd, t.dependent, t.loaded, t.delta, tasks[1..]);
    SaveThenWritten(g, t.dependent, t.loaded, Shifted(t.loaded, t.delta), tasks[1..], h, saved);
  }

  /**
   * A parent is only ever pulled later, to exactly the child's end date, and its
   * start date is never touched.
   */
  lemma ParentPullOnlyLater(g: Graph, source: Id, sourceEnd: int, q: Id, rest: seq<Task>)
    requires q in g.todos
    ensures var r := PullParentStep(g, source, sourceEnd, q, g.todos[q], rest);
            r.Continue? ==>
              && r.graph.todos[q].startDate == g.todos[q].startDate
              && g.todos[q].endDate <= r.graph.todos[q].endDate
              && (r.graph.todos[q].endDate != g.todos[q].endDate ==> r.graph.todos[q].endDate == sourceEnd)
              && (forall m :: m in g.todos && m != q ==> r.graph.todos[m] == g.todos[m])
  {
    var loaded := g.todos[q];
    assert IntervalOf(BeforeUpdate(loaded, loaded.(endDate := sourceEnd))) == Interval(loaded.startDate, sourceEnd);
  }

  /** Nothing is written for a neighbour whose validation fails; the cascade stops at it. */
  lemma InvalidSaveAborts(g: Graph, n: Id, loaded: Todo, updated: Todo, rest: seq<Task>)
    requires Validate(g, SaveProposal(g, n, loaded, updated)) != Checked([])
    ensures SaveThen(g, n, loaded, updated, rest) == Abort(n, Validate(g, SaveProposal(g, n, loaded, updated)))
  {
  }

  // ---------------------------------------------------------------------------
  // A whole update
  // ---------------------------------------------------------------------------

  /**
   * The updated todo's own row once `update` has saved it: every column it
   * assigns, as `before_update` leaves them. The row was loaded in the same
   * request, so writing the changed columns writes all of them.
   */
  function UpdateRow(g: Graph, n: Id, saved: Todo): (h: Graph)
    requires n in g.todos
    ensures h.dependencyEdges == g.dependencyEdges && h.childEdges == g.childEdges
    ensures h.todos.Keys == g.todos.Keys && h.todos[n] == saved
    ensures forall m :: m in g.todos && m != n ==> h.todos[m] == g.todos[m]
  {
    g.(todos := g.todos[n := saved])
  }

  /**
   * `todo.update(attrs)` of dates and plain columns: the todo's own save, then
   * the cascade its callbacks start. Any failure leaves the graph as it was,
   * since the whole update runs in one transaction.
   */
  function UpdateRun(g: Graph, n: Id, updated: Todo, fuel: nat): CascadeResult
    requires n in g.todos
  {
    match Save(g, n, g.todos[n], updated)
    case Invalid(o) => Aborted(n, o)
    case Written(_, saved) => Run(UpdateRow(g, n, saved), [AfterUpdate(n, g.todos[n], saved)], fuel)
  }

  /** An update whose own save fails validation stops with that outcome, and nothing runs. */
  lemma UpdateStopsWhenInvalid(g: Graph, n: Id, updated: Todo, fuel: nat)
    requires n in g.todos && Save(g, n, g.todos[n], updated).Invalid?
    ensures UpdateRun(g, n, updated, fuel) == Aborted(n, Validate(g, SaveProposal(g, n, g.todos[n], updated)))
    ensures Validate(g, SaveProposal(g, n, g.todos[n], updated)) != Checked([])
  {
  }

  /**
   * An update whose own save passes validation writes the todo as
   * `before_update` leaves it and continues with that save's callbacks.
   */
  lemma UpdateVia(g: Graph, n: Id, updated: Todo, fuel: nat)
    requires n in g.todos && Save(g, n, g.todos[n], updated).Written?
    ensures var saved := BeforeUpdate(g.todos[n], updated);
            UpdateRun(g, n, updated, fuel) == Run(UpdateRow(g, n, saved), [AfterUpdate(n, g.todos[n], saved)], fuel)
  {
  }

  /**
   * A completed update has written the todo's own columns as `before_update`
   * leaves them, and the cascade after it has changed dates only: no todo or
   * join row appears or disappears, and no other todo changes anything but
   * its dates.
   */
  lemma UpdateKeepsShape(g: Graph, n: Id, updated: Todo, fuel: nat)
    requires n in g.todos
    ensures var r := UpdateRun(g, n, updated, fuel);
            r.Finished? ==> SameShape(UpdateRow(g, n, BeforeUpdate(g.todos[n], updated)), r.graph)
  {
    match Save(g, n, g.todos[n], updated)
    case Invalid(_) =>
    case Written(_, saved) =>
      RunKeepsShape(UpdateRow(g, n, saved), [AfterUpdate(n, g.todos[n], saved)], fuel);
  }
}
