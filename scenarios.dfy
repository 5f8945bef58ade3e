/**
 * Concrete cascades over a two-todo graph: todo 1 runs from day 1 to day 10
 * and is the only dependency of todo 2, which runs from day 12 to day 20.
 * Days are counted from an arbitrary first midnight `origin`, so every scenario
 * holds whatever date the schedule starts on.
 */
module Scenarios {
  import opened Base
  import opened Graph
  import opened TodoValidation
  import opened Timeline

  /** Midnight of the given day of the schedule, day 1 starting at `origin` (seconds). */
  function DayAt(origin: int, day: nat): int
  {
    origin + (day - 1) * Day
  }

  function Plan(origin: int): Todo
  {
    Todo("a", 1, "c", DayAt(origin, 1), DayAt(origin, 10), Some(false), false, Some(0))
  }

  function Build(origin: int): Todo
  {
    Todo("b", 1, "c", DayAt(origin, 12), DayAt(origin, 20), Some(false), false, Some(0))
  }

  function Project(origin: int): Graph
  {
    Graph(map[1 := Plan(origin), 2 := Build(origin)], [Edge(10, 1, 2)], [])
  }

  /** A through association over one existing far end loads just that todo. */
  lemma AssociatedSingle(todos: map<Id, Todo>, x: Id)
    requires x in todos
    ensures Associated(todos, [x]) == [x]
  {
    assert Existing(todos, [x]) == [x] by {
      assert [x][1..] == [];
    }
    assert SortByStart(todos, [x]) == InsertByStart(todos, x, SortByStart(todos, [])) by {
      assert [x][..0] == [];
    }
  }

  /** What the associations load in any graph of this shape. */
  lemma Associations(g: Graph)
    requires g.dependencyEdges == [Edge(10, 1, 2)] && g.childEdges == [] && 1 in g.todos && 2 in g.todos
    ensures Dependencies(g, 1) == [] && Dependents(g, 1) == [2]
    ensures Dependencies(g, 2) == [1] && Dependents(g, 2) == []
    ensures Children(g, 1) == [] && Parents(g, 1) == []
    ensures Children(g, 2) == [] && Parents(g, 2) == []
    ensures LatestDependency(g, 2) == Some(1)
  {
    var edges := g.dependencyEdges;
    assert edges[1..] == [];
    assert TargetRows(edges, 1) == [2] && SourceRows(edges, 1) == [];
    assert TargetRows(edges, 2) == [] && SourceRows(edges, 2) == [1];
    AssociatedSingle(g.todos, 1);
    AssociatedSingle(g.todos, 2);
  }

  function Plan15(origin: int): Todo
  {
    Plan(origin).(endDate := DayAt(origin, 15))
  }

  function Build17(origin: int): Todo
  {
    Build(origin).(startDate := DayAt(origin, 17), endDate := DayAt(origin, 25))
  }

  /** The graph once the dependency's new end is written. */
  function PlanMoved(origin: int): Graph
  {
    Project(origin).(todos := Project(origin).todos[1 := Plan15(origin)])
  }

  /** The graph once the dependent has followed. */
  function BuildMoved(origin: int): Graph
  {
    PlanMoved(origin).(todos := PlanMoved(origin).todos[2 := Build17(origin)])
  }

  /** The dependency's own save of its later end date passes validation and starts two callbacks. */
  lemma PlanSaveWritten(origin: int)
    ensures Save(Project(origin), 1, Plan(origin), Plan15(origin)) == Written(PlanMoved(origin), Plan15(origin))
  {
    var g := Project(origin);
    var p := SaveProposal(g, 1, Plan(origin), Plan15(origin));
    Associations(g);
    assert p.todoDependencies == [] && p.todoDependents == [2] && p.todoChildren == [] && p.todoParents == [];
    assert CommittedDependencies(g, p) == [];
    assert !IsSpace(p.name[0]);
    assert Present(p);
    assert DatesOrdered(g, p);
    assert DependentsOfAll(g, Dependents(g, 2)) == [];
    assert !DependentOfAny(g, 2, [2]);
    assert RelationsHold(g, p);
    assert StatusGateHolds(g, p);
    ValidateAccepts(g, p);
    assert Acceptable(g, p);
    assert Validate(g, p) == Checked([]);
    assert BeforeUpdate(Plan(origin), Plan15(origin)) == Plan15(origin);
    assert WriteDates(Plan(origin), Plan(origin), Plan15(origin)) == Plan15(origin);
    assert WriteRow(g, 1, Plan(origin), Plan15(origin)) == PlanMoved(origin);
  }

  /** The dependent's save of both dates moved five days passes validation. */
  lemma BuildSaveWritten(origin: int)
    ensures Save(PlanMoved(origin), 2, Build(origin), Build17(origin)) == Written(BuildMoved(origin), Build17(origin))
  {
    var g := PlanMoved(origin);
    var p := SaveProposal(g, 2, Build(origin), Build17(origin));
    Associations(g);
    assert p.todoDependencies == [1] && p.todoDependents == [] && p.todoChildren == [] && p.todoParents == [];
    assert CommittedDependents(g, p) == [];
    assert !IsSpace(p.name[0]);
    assert Present(p);
    assert DatesOrdered(g, p);
    assert DependenciesOfAll(g, Dependencies(g, 1)) == [];
    assert !DependencyOfAny(g, 1, [1]);
    assert RelationsHold(g, p);
    assert StatusGateHolds(g, p);
    ValidateAccepts(g, p);
    assert Acceptable(g, p);
    assert Validate(g, p) == Checked([]);
    BuildWrite(origin);
  }

  /** Both dates of the dependent move, so both are written and its end is not shifted again. */
  lemma BuildWrite(origin: int)
    ensures BeforeUpdate(Build(origin), Build17(origin)) == Build17(origin)
    ensures WriteRow(PlanMoved(origin), 2, Build(origin), Build17(origin)) == BuildMoved(origin)
  {
    assert !ShiftEndDateApplies(IntervalOf(Build(origin)), IntervalOf(Build17(origin)));
    assert WriteDates(Build(origin), Build(origin), Build17(origin)) == Build17(origin);
  }

  /** The dependency's save changed only its end date: the dependents and parents callbacks run. */
  lemma PlanCallbacks(origin: int)
    ensures AfterUpdateTasks(1, Plan(origin), Plan15(origin))
         == [DependentsTimeline(1, Plan(origin), Plan15(origin)), ParentsEndDate(1, Plan(origin), Plan15(origin))]
  {
  }

  /** Its only dependent is queued with the five-day delta. */
  lemma PlanDependents(origin: int)
    ensures DependentsTimelineTasks(PlanMoved(origin), 1, Plan(origin), Plan15(origin))
         == [ShiftDependent(1, DayAt(origin, 15), 2, Build(origin), 5 * Day)]
  {
    Associations(PlanMoved(origin));
    SingleDependentQueued(PlanMoved(origin), 1, Plan(origin), Plan15(origin), 2);
  }

  /** An end moved later by a day or more queues the only dependent with the delta. */
  lemma SingleDependentQueued(g: Graph, id: Id, was: Todo, now: Todo, d: Id)
    requires Dependents(g, id) == [d] && d in g.todos && now.endDate - was.endDate >= Day
    ensures DependentsTimelineTasks(g, id, was, now)
         == [ShiftDependent(id, now.endDate, d, g.todos[d], now.endDate - was.endDate)]
  {
    var r := DependentsTimelineTasks(g, id, was, now);
    assert |r| == 1;
  }

  /** It has no parent to pull. */
  lemma PlanParents(origin: int)
    ensures ParentsEndDateTasks(BuildMoved(origin), 1, Plan(origin), Plan15(origin)) == []
  {
    Associations(BuildMoved(origin));
  }

  /** The dependent is gated in and shifted. */
  lemma BuildShifted(origin: int, rest: seq<Task>)
    ensures Step(PlanMoved(origin), [ShiftDependent(1, DayAt(origin, 15), 2, Build(origin), 5 * Day)] + rest)
         == Continue(BuildMoved(origin), [AfterUpdate(2, Build(origin), Build17(origin))] + rest)
  {
    var g := PlanMoved(origin);
    Associations(g);
    assert DependentMoves(g, 1, DayAt(origin, 15), 2, Build(origin));
    assert Shifted(Build(origin), 5 * Day) == Build17(origin);
    BuildSaveWritten(origin);
    var tasks := [ShiftDependent(1, DayAt(origin, 15), 2, Build(origin), 5 * Day)] + rest;
    assert tasks[0] == ShiftDependent(1, DayAt(origin, 15), 2, Build(origin), 5 * Day) && tasks[1..] == rest;
    DependentStepSaves(g, tasks, BuildMoved(origin), Build17(origin));
    PushFront([AfterUpdate(2, Build(origin), Build17(origin))], rest);
  }

  /** The dependent's save changed both dates: all three callbacks run. */
  lemma BuildCallbacks(origin: int)
    ensures AfterUpdateTasks(2, Build(origin), Build17(origin))
         == [ChildrenTimeline(2, Build(origin), Build17(origin)), DependentsTimeline(2, Build(origin), Build17(origin)),
             ParentsEndDate(2, Build(origin), Build17(origin))]
  {
  }

  /** The dependent has no child to shift. */
  lemma BuildChildren(origin: int)
    ensures ChildrenTimelineTasks(BuildMoved(origin), 2, Build(origin), Build17(origin)) == []
  {
    Associations(BuildMoved(origin));
  }

  /** The dependent has no dependent of its own. */
  lemma BuildDependents(origin: int)
    ensures DependentsTimelineTasks(BuildMoved(origin), 2, Build(origin), Build17(origin)) == []
  {
    Associations(BuildMoved(origin));
  }

  /** The dependent has no parent to pull. */
  lemma BuildParents(origin: int)
    ensures ParentsEndDateTasks(BuildMoved(origin), 2, Build(origin), Build17(origin)) == []
  {
    Associations(BuildMoved(origin));
  }

  /** A callback task only expands into the tasks it queues. */
  lemma StepExpands(g: Graph, tasks: seq<Task>, queued: seq<Task>)
    requires tasks != []
    requires tasks[0].AfterUpdate? || tasks[0].ChildrenTimeline? || tasks[0].DependentsTimeline? || tasks[0].ParentsEndDate?
    requires queued == match tasks[0]
               case AfterUpdate(id, was, now) => AfterUpdateTasks(id, was, now)
               case ChildrenTimeline(id, was, now) => ChildrenTimelineTasks(g, id, was, now)
               case DependentsTimeline(id, was, now) => DependentsTimelineTasks(g, id, was, now)
               case ParentsEndDate(id, was, now) => ParentsEndDateTasks(g, id, was, now)
               case _ => []
    ensures Step(g, tasks) == Continue(g, Push(queued, tasks[1..]))
  {
  }

  /** The dependency's callbacks queue the dependent's shift ahead of the parents callback. */
  lemma PlanCascadeQueues(origin: int, fuel: nat)
    requires fuel >= 2
    ensures Run(PlanMoved(origin), [AfterUpdate(1, Plan(origin), Plan15(origin))], fuel)
         == Run(PlanMoved(origin), [ShiftDependent(1, DayAt(origin, 15), 2, Build(origin), 5 * Day), ParentsEndDate(1, Plan(origin), Plan15(origin))],
                fuel - 2)
  {
    PlanCallbacks(origin);
    PlanDependents(origin);
    var g1 := PlanMoved(origin);
    var t0 := [AfterUpdate(1, Plan(origin), Plan15(origin))];
    var t1 := [DependentsTimeline(1, Plan(origin), Plan15(origin)), ParentsEndDate(1, Plan(origin), Plan15(origin))];
    var t2 := [ShiftDependent(1, DayAt(origin, 15), 2, Build(origin), 5 * Day), ParentsEndDate(1, Plan(origin), Plan15(origin))];
    StepExpands(g1, t0, AfterUpdateTasks(1, Plan(origin), Plan15(origin)));
    PushFront(AfterUpdateTasks(1, Plan(origin), Plan15(origin)), t0[1..]);
    assert AfterUpdateTasks(1, Plan(origin), Plan15(origin)) + t0[1..] == t1;
    RunVia(g1, t0, fuel, g1, t1);
    StepExpands(g1, t1, DependentsTimelineTasks(g1, 1, Plan(origin), Plan15(origin)));
    PushFront(DependentsTimelineTasks(g1, 1, Plan(origin), Plan15(origin)), t1[1..]);
    assert DependentsTimelineTasks(g1, 1, Plan(origin), Plan15(origin)) + t1[1..] == t2;
    RunVia(g1, t1, fuel - 1, g1, t2);
  }

  /** Shifting the dependent is the third step of the run. */
  lemma BuildShiftedRun(origin: int, fuel: nat)
    requires fuel >= 3
    ensures Run(PlanMoved(origin), [ShiftDependent(1, DayAt(origin, 15), 2, Build(origin), 5 * Day), ParentsEndDate(1, Plan(origin), Plan15(origin))], fuel - 2)
         == Run(BuildMoved(origin), [AfterUpdate(2, Build(origin), Build17(origin)), ParentsEndDate(1, Plan(origin), Plan15(origin))], fuel - 3)
  {
    var last := [ParentsEndDate(1, Plan(origin), Plan15(origin))];
    var t2 := [ShiftDependent(1, DayAt(origin, 15), 2, Build(origin), 5 * Day)] + last;
    var t3 := [AfterUpdate(2, Build(origin), Build17(origin))] + last;
    BuildShifted(origin, last);
    RunVia(PlanMoved(origin), t2, fuel - 2, BuildMoved(origin), t3);
    assert t3 == [AfterUpdate(2, Build(origin), Build17(origin)), ParentsEndDate(1, Plan(origin), Plan15(origin))];
    assert t2 == [ShiftDependent(1, DayAt(origin, 15), 2, Build(origin), 5 * Day), ParentsEndDate(1, Plan(origin), Plan15(origin))];
  }

  /** The dependency's callbacks run until the dependent has been saved. */
  lemma PlanCascadeHead(origin: int, fuel: nat)
    requires fuel >= 3
    ensures Run(PlanMoved(origin), [AfterUpdate(1, Plan(origin), Plan15(origin))], fuel)
         == Run(BuildMoved(origin), [AfterUpdate(2, Build(origin), Build17(origin)), ParentsEndDate(1, Plan(origin), Plan15(origin))], fuel - 3)
  {
    PlanCascadeQueues(origin, fuel);
    BuildShiftedRun(origin, fuel);
  }

  /** The dependent's callbacks and the dependency's last one find nothing to move. */
  lemma PlanCascadeTail(origin: int, fuel: nat)
    requires fuel >= 5
    ensures Run(BuildMoved(origin), [AfterUpdate(2, Build(origin), Build17(origin)), ParentsEndDate(1, Plan(origin), Plan15(origin))], fuel)
         == Finished(BuildMoved(origin))
  {
    PlanParents(origin);
    BuildCallbacks(origin);
    BuildChildren(origin);
    BuildDependents(origin);
    BuildParents(origin);
    var g2 := BuildMoved(origin);
    var last := [ParentsEndDate(1, Plan(origin), Plan15(origin))];
    var t3 := [AfterUpdate(2, Build(origin), Build17(origin)), ParentsEndDate(1, Plan(origin), Plan15(origin))];
    var t4 := [ChildrenTimeline(2, Build(origin), Build17(origin)), DependentsTimeline(2, Build(origin), Build17(origin)),
               ParentsEndDate(2, Build(origin), Build17(origin)), ParentsEndDate(1, Plan(origin), Plan15(origin))];
    StepExpands(g2, t3, AfterUpdateTasks(2, Build(origin), Build17(origin)));
    PushFront(AfterUpdateTasks(2, Build(origin), Build17(origin)), t3[1..]);
    assert AfterUpdateTasks(2, Build(origin), Build17(origin)) + t3[1..] == t4;
    RunVia(g2, t3, fuel, g2, t4);
    StepExpands(g2, t4, []);
    RunVia(g2, t4, fuel - 1, g2, t4[1..]);
    StepExpands(g2, t4[1..], []);
    assert t4[1..][1..] == t4[2..];
    RunVia(g2, t4[1..], fuel - 2, g2, t4[2..]);
    StepExpands(g2, t4[2..], []);
    assert t4[2..][1..] == t4[3..];
    RunVia(g2, t4[2..], fuel - 3, g2, t4[3..]);
    StepExpands(g2, t4[3..], []);
    RunVia(g2, t4[3..], fuel - 4, g2, []);
  }

  /**
   * Once the dependency's end has moved five days later (day 10 to day 15, see
   * `PlanSaveWritten`), its callbacks move the overlapping dependent by five
   * days on both dates (to days 17 and 25) and then stop: nothing else changes.
   */
  lemma LaterEndShiftsDependent(origin: int, fuel: nat)
    requires fuel >= 8
    ensures Run(PlanMoved(origin), [AfterUpdate(1, Plan(origin), Plan15(origin))], fuel) == Finished(BuildMoved(origin))
  {
    PlanCascadeHead(origin, fuel);
    PlanCascadeTail(origin, fuel - 3);
  }

  // ---------------------------------------------------------------------------
  // A change of less than a day
  // ---------------------------------------------------------------------------

  /** The dependency's end moved 23 hours later. */
  function PlanNudged(origin: int): Todo
  {
    Plan(origin).(endDate := DayAt(origin, 10) + 23 * 3600)
  }

  function NudgedGraph(origin: int): Graph
  {
    Project(origin).(todos := Project(origin).todos[1 := PlanNudged(origin)])
  }

  /** The dependency's save of its 23-hour later end passes validation and is written. */
  lemma NudgeSaveWritten(origin: int)
    ensures Save(Project(origin), 1, Plan(origin), PlanNudged(origin)) == Written(NudgedGraph(origin), PlanNudged(origin))
  {
    var g := Project(origin);
    var p := SaveProposal(g, 1, Plan(origin), PlanNudged(origin));
    Associations(g);
    assert p.todoDependencies == [] && p.todoDependents == [2] && p.todoChildren == [] && p.todoParents == [];
    assert CommittedDependencies(g, p) == [];
    assert !IsSpace(p.name[0]);
    assert Present(p);
    assert DatesOrdered(g, p);
    assert DependentsOfAll(g, Dependents(g, 2)) == [];
    assert !DependentOfAny(g, 2, [2]);
    assert RelationsHold(g, p);
    assert StatusGateHolds(g, p);
    ValidateAccepts(g, p);
    assert Validate(g, p) == Checked([]);
    NudgeWrite(origin);
  }

  /** Only the end date changed, so only the end date is written. */
  lemma NudgeWrite(origin: int)
    ensures BeforeUpdate(Plan(origin), PlanNudged(origin)) == PlanNudged(origin)
    ensures WriteRow(Project(origin), 1, Plan(origin), PlanNudged(origin)) == NudgedGraph(origin)
  {
    assert WriteDates(Plan(origin), Plan(origin), PlanNudged(origin)) == PlanNudged(origin);
  }

  /**
   * Once the dependency's end has moved by 23 hours (see `NudgeSaveWritten`),
   * its callbacks move nothing: the dependent keeps its dates.
   */
  lemma SubDayEndChangeStays(origin: int, fuel: nat)
    requires fuel >= 3
    ensures Run(NudgedGraph(origin), [AfterUpdate(1, Plan(origin), PlanNudged(origin))], fuel) == Finished(NudgedGraph(origin))
    ensures NudgedGraph(origin).todos[2] == Build(origin)
  {
    var g := NudgedGraph(origin);
    var t0 := [AfterUpdate(1, Plan(origin), PlanNudged(origin))];
    var t1 := [DependentsTimeline(1, Plan(origin), PlanNudged(origin)), ParentsEndDate(1, Plan(origin), PlanNudged(origin))];
    assert AfterUpdateTasks(1, Plan(origin), PlanNudged(origin)) == t1;
    SubDayChangesDoNotPropagate(g, 1, Plan(origin), PlanNudged(origin));
    StepExpands(g, t0, AfterUpdateTasks(1, Plan(origin), PlanNudged(origin)));
    PushFront(AfterUpdateTasks(1, Plan(origin), PlanNudged(origin)), t0[1..]);
    RunVia(g, t0, fuel, g, t1);
    StepExpands(g, t1, []);
    RunVia(g, t1, fuel - 1, g, t1[1..]);
    StepExpands(g, t1[1..], []);
    RunVia(g, t1[1..], fuel - 2, g, []);
  }

  // ---------------------------------------------------------------------------
  // The status gate
  // ---------------------------------------------------------------------------

  /** Marking the dependent done while its dependency is open fails validation, and nothing is written. */
  lemma OpenDependencyBlocksDone(origin: int, fuel: nat)
    ensures var p := SaveProposal(Project(origin), 2, Build(origin), Build(origin).(status := Some(true)));
            && Validate(Project(origin), p) != Checked([])
            && UpdateRun(Project(origin), 2, Build(origin).(status := Some(true)), fuel) == Aborted(2, Validate(Project(origin), p))
  {
    var g := Project(origin);
    var done := Build(origin).(status := Some(true));
    var p := SaveProposal(g, 2, Build(origin), done);
    Associations(g);
    assert p.todoDependencies == [1];
    assert ChangingToDone(p);
    assert g.todos[1].status == Some(false);
    assert !StatusGateHolds(g, p);
    ValidateAccepts(g, p);
    assert g.todos[2] == Build(origin);
  }
}
