/**
 * The validators of a todo (app/models/todo.rb:59-78 and 113-273): pure checks
 * over a proposed todo, the join rows staged with it and the committed graph.
 */
module TodoValidation {
  import opened Base
  import opened Graph

  /** The attribute an error is added to. */
  datatype Field = OnName | OnStartDate | OnEndDate | OnStatus | OnDependencies | OnDependents
                 | OnChildren | OnParents | OnTodoId | OnDependentId

  datatype Rule =
    | CantBeBlank | TooLong | Taken | SelfReference
    | EarlierThanDependencyEnd | EarlierThanParentStart | LaterThanChildStart
    | EarlierThanStart | LaterThanDependentStart | LaterThanParentEnd | EarlierThanChildEnd
    | DependentAsDependency | DependencysDependency | DependencyAsDependent | DependentsDependent
    | DependencyOpen

  /** One entry of `errors`: the attribute it is added to, the rule, and the todo it names. */
  datatype Violation = Violation(field: Field, rule: Rule, about: Option<Id>)

  /** The errors of two validators, in the order they were added. */
  function Join(mine: seq<Violation>, theirs: seq<Violation>): (r: seq<Violation>)
    ensures |r| == |mine| + |theirs|
    decreases |mine|
  {
    if mine == [] then theirs else [mine[0]] + Join(mine[1..], theirs)
  }

  /** Errors accumulate: the later validator's come after the earlier one's. */
  lemma {:induction false} JoinAppends(mine: seq<Violation>, theirs: seq<Violation>)
    ensures Join(mine, theirs) == mine + theirs
    decreases |mine|
  {
    if mine != [] {
      JoinAppends(mine[1..], theirs);
      assert mine == [mine[0]] + mine[1..];
    }
  }

  /** What running the validators yields: the errors added, or the exception that stopped them. */
  datatype Outcome = Checked(violations: seq<Violation>) | Raised(error: Exception)
  {
    /** Runs `next` after this one: an exception stops everything, errors accumulate in order. */
    function Then(next: Outcome): Outcome
    {
      match this
      case Raised(_) => this
      case Checked(mine) =>
        match next
        case Raised(_) => next
        case Checked(theirs) => Checked(Join(mine, theirs))
    }
  }

  /**
   * A todo as it is about to be saved. The `todo*` lists carry the far end of every
   * staged join row, rows marked for destruction included (the association still holds
   * them while validating). `parents` is the association that line 62 counts.
   */
  datatype Proposal = Proposal(
    id: Option<Id>,
    name: string,
    startDate: Option<int>,
    endDate: Option<int>,
    status: Option<bool>,
    statusWas: Option<bool>,
    creating: bool,
    todoDependencies: seq<Id>,
    todoDependents: seq<Id>,
    todoChildren: seq<Id>,
    todoParents: seq<Id>,
    parents: seq<Id>)

  /** The committed `dependents` association; a todo that is not saved yet has none. */
  function CommittedDependents(g: Graph, p: Proposal): seq<Id>
  {
    if p.id.Some? then Dependents(g, p.id.value) else []
  }

  /** The committed `dependencies` association. */
  function CommittedDependencies(g: Graph, p: Proposal): seq<Id>
  {
    if p.id.Some? then Dependencies(g, p.id.value) else []
  }

  /** `will_save_change_to_attribute?(:status, to: true)` (line 78). */
  predicate ChangingToDone(p: Proposal)
  {
    p.status == Some(true) && p.statusWas != Some(true)
  }

  /** One violation, naming `d`, for every `d` of `ds` that is also in `among`, in order. */
  function FlaggedIn(ds: seq<Id>, among: seq<Id>, field: Field, rule: Rule): (r: seq<Violation>)
    ensures forall v :: v in r <==> exists d :: d in ds && d in among && v == Violation(field, rule, Some(d))
    ensures r == [] <==> forall d :: d in ds ==> d !in among
    ensures NoDuplicates(ds) ==> NoDuplicates(r)
  {
    if ds == [] then []
    else
      var rest := FlaggedIn(ds[1..], among, field, rule);
      assert forall d :: d in ds <==> d == ds[0] || d in ds[1..];
      assert ds == [ds[0]] + ds[1..];
      NoDuplicatesCons(ds[0], ds[1..]);
      var head := Violation(field, rule, Some(ds[0]));
      NoDuplicatesCons(head, rest);
      if ds[0] in among then [head] + rest else rest
  }

  /** A todo that is loaded and still open. */
  predicate Open(g: Graph, d: Id)
  {
    d in g.todos && g.todos[d].status == Some(false)
  }

  /** One `DependencyOpen` violation, naming `d`, for every open `d` of `ds`, in order. */
  function FlaggedOpen(g: Graph, ds: seq<Id>): (r: seq<Violation>)
    ensures forall v :: v in r <==> exists d :: d in ds && Open(g, d) && v == Violation(OnStatus, DependencyOpen, Some(d))
    ensures r == [] <==> forall d :: d in ds ==> !Open(g, d)
    ensures NoDuplicates(ds) ==> NoDuplicates(r)
  {
    if ds == [] then []
    else
      var rest := FlaggedOpen(g, ds[1..]);
      assert forall d :: d in ds <==> d == ds[0] || d in ds[1..];
      assert ds == [ds[0]] + ds[1..];
      NoDuplicatesCons(ds[0], ds[1..]);
      var head := Violation(OnStatus, DependencyOpen, Some(ds[0]));
      NoDuplicatesCons(head, rest);
      if Open(g, ds[0]) then [head] + rest else rest
  }

  // ---------------------------------------------------------------------------
  // Presence and cardinality (lines 59-62)
  // ---------------------------------------------------------------------------

  function PresenceErrors(p: Proposal): (r: seq<Violation>)
    ensures Violation(OnName, CantBeBlank, None) in r <==> Blank(p.name)
    ensures Violation(OnStartDate, CantBeBlank, None) in r <==> p.startDate.None?
    ensures Violation(OnEndDate, CantBeBlank, None) in r <==> p.endDate.None?
    ensures forall v :: v in r ==> v.rule == CantBeBlank && v.about == None
  {
    (if Blank(p.name) then [Violation(OnName, CantBeBlank, None)] else [])
    + (if p.startDate.None? then [Violation(OnStartDate, CantBeBlank, None)] else [])
    + (if p.endDate.None? then [Violation(OnEndDate, CantBeBlank, None)] else [])
  }

  function ParentsLengthErrors(p: Proposal): (r: seq<Violation>)
    ensures r == [] <==> |p.parents| <= 1
    ensures forall v :: v in r ==> v.field == OnParents
  {
    if |p.parents| > 1 then [Violation(OnParents, TooLong, None)] else []
  }

  // ---------------------------------------------------------------------------
  // Date rules (lines 113-120 and 215-273)
  // ---------------------------------------------------------------------------

  datatype Bound = NotBeforeLatest | NotAfterEarliest

  /** `own` is on the right side of `theirs`. */
  predicate Respects(own: int, theirs: int, bound: Bound)
  {
    match bound
    case NotBeforeLatest => theirs <= own
    case NotAfterEarliest => own <= theirs
  }

  /**
   * The shape shared by the six neighbour date rules: find the todos of the staged
   * rows, take the one with the latest (or earliest) date, and compare it with
   * the todo's own date. Empty rows never yield an error.
   */
  function DateRule(todos: map<Id, Todo>, ids: seq<Id>, own: Option<int>, theirs: DateField,
                    bound: Bound, field: Field, rule: Rule): (r: Outcome)
    ensures ids == [] ==> r == Checked([])
    ensures ids != [] && !AllFound(todos, ids) ==> r == Raised(RecordNotFound)
    ensures ids != [] && AllFound(todos, ids) && own.None? ==> r == Raised(NilComparison)
    ensures AllFound(todos, ids) && own.Some? ==>
              r.Checked? &&
              (r.violations == [] <==> forall i :: i in ids ==> Respects(own.value, DateOf(todos[i], theirs), bound))
    ensures own.Some? ==>
              (r == Checked([]) <==> forall i :: i in ids ==> i in todos && Respects(own.value, DateOf(todos[i], theirs), bound))
    ensures r.Checked? && r.violations != [] ==>
              own.Some? &&
              exists i :: i in ids && i in todos && r.violations == [Violation(field, rule, Some(i))] &&
                !Respects(own.value, DateOf(todos[i], theirs), bound) &&
                (bound == NotBeforeLatest ==> forall j :: j in ids ==> DateOf(todos[j], theirs) <= DateOf(todos[i], theirs)) &&
                (bound == NotAfterEarliest ==> forall j :: j in ids ==> DateOf(todos[i], theirs) <= DateOf(todos[j], theirs))
  {
    if ids == [] then Checked([])
    else
      match Find(todos, ids)
      case Failure(e) => Raised(e)
      case Success(found) =>
        if own.None? then Raised(NilComparison)
        else
          var pick := match bound
                      case NotBeforeLatest => MaxBy(todos, found, theirs)
                      case NotAfterEarliest => MinBy(todos, found, theirs);
          if Respects(own.value, DateOf(todos[pick], theirs), bound) then Checked([])
          else Checked([Violation(field, rule, Some(pick))])
  }

  /** `start_date_cannot_earlier_than_dependencies_end_date` (lines 215-223). */
  function StartNotBeforeDependenciesEnd(g: Graph, p: Proposal): (r: Outcome)
    ensures p.todoDependencies == [] ==> r == Checked([])
    ensures p.todoDependencies != [] && (!AllFound(g.todos, p.todoDependencies) || p.startDate.None?) ==> r.Raised?
    ensures p.startDate.Some? ==>
              (r == Checked([]) <==> forall d :: d in p.todoDependencies ==> d in g.todos && g.todos[d].endDate <= p.startDate.value)
    ensures r.Checked? ==> forall v :: v in r.violations ==> v.field == OnStartDate
  {
    DateRule(g.todos, p.todoDependencies, p.startDate, EndField, NotBeforeLatest, OnStartDate, EarlierThanDependencyEnd)
  }

  /** `start_date_cannot_earlier_than_parents_start_date` (lines 235-243). */
  function StartNotBeforeParentsStart(g: Graph, p: Proposal): (r: Outcome)
    ensures p.todoParents == [] ==> r == Checked([])
    ensures p.todoParents != [] && (!AllFound(g.todos, p.todoParents) || p.startDate.None?) ==> r.Raised?
    ensures p.startDate.Some? ==>
              (r == Checked([]) <==> forall q :: q in p.todoParents ==> q in g.todos && g.todos[q].startDate <= p.startDate.value)
    ensures r.Checked? ==> forall v :: v in r.violations ==> v.field == OnStartDate
  {
    DateRule(g.todos, p.todoParents, p.startDate, StartField, NotBeforeLatest, OnStartDate, EarlierThanParentStart)
  }

  /** `start_date_cannot_later_than_children_start_date` (lines 245-253), run on create only. */
  function StartNotAfterChildrenStart(g: Graph, p: Proposal): (r: Outcome)
    ensures p.todoChildren == [] ==> r == Checked([])
    ensures p.todoChildren != [] && (!AllFound(g.todos, p.todoChildren) || p.startDate.None?) ==> r.Raised?
    ensures p.startDate.Some? ==>
              (r == Checked([]) <==> forall c :: c in p.todoChildren ==> c in g.todos && p.startDate.value <= g.todos[c].startDate)
    ensures r.Checked? ==> forall v :: v in r.violations ==> v.field == OnStartDate
  {
    DateRule(g.todos, p.todoChildren, p.startDate, StartField, NotAfterEarliest, OnStartDate, LaterThanChildStart)
  }

  /** `end_date_cannot_earlier_than_start_date` (lines 113-120): skipped when a date is nil. */
  function EndNotBeforeStart(p: Proposal): (r: seq<Violation>)
    ensures r != [] <==> p.startDate.Some? && p.endDate.Some? && p.endDate.value < p.startDate.value
    ensures forall v :: v in r ==> v.field == OnEndDate
  {
    if p.startDate.Some? && p.endDate.Some? && p.endDate.value < p.startDate.value
    then [Violation(OnEndDate, EarlierThanStart, None)] else []
  }

  /** `end_date_cannot_later_than_dependents_start_date` (lines 225-233), run on create only. */
  function EndNotAfterDependentsStart(g: Graph, p: Proposal): (r: Outcome)
    ensures p.todoDependents == [] ==> r == Checked([])
    ensures p.todoDependents != [] && (!AllFound(g.todos, p.todoDependents) || p.endDate.None?) ==> r.Raised?
    ensures p.endDate.Some? ==>
              (r == Checked([]) <==> forall d :: d in p.todoDependents ==> d in g.todos && p.endDate.value <= g.todos[d].startDate)
    ensures r.Checked? ==> forall v :: v in r.violations ==> v.field == OnEndDate
  {
    DateRule(g.todos, p.todoDependents, p.endDate, StartField, NotAfterEarliest, OnEndDate, LaterThanDependentStart)
  }

  /** `end_date_cannot_later_than_parents_end_date` (lines 255-263), run on create only. */
  function EndNotAfterParentsEnd(g: Graph, p: Proposal): (r: Outcome)
    ensures p.todoParents == [] ==> r == Checked([])
    ensures p.todoParents != [] && (!AllFound(g.todos, p.todoParents) || p.endDate.None?) ==> r.Raised?
    ensures p.endDate.Some? ==>
              (r == Checked([]) <==> forall q :: q in p.todoParents ==> q in g.todos && p.endDate.value <= g.todos[q].endDate)
    ensures r.Checked? ==> forall v :: v in r.violations ==> v.field == OnEndDate
  {
    DateRule(g.todos, p.todoParents, p.endDate, EndField, NotAfterEarliest, OnEndDate, LaterThanParentEnd)
  }

  /** `end_date_cannot_earlier_than_children_end_date` (lines 265-273), run on every save. */
  function EndNotBeforeChildrenEnd(g: Graph, p: Proposal): (r: Outcome)
    ensures p.todoChildren == [] ==> r == Checked([])
    ensures p.todoChildren != [] && (!AllFound(g.todos, p.todoChildren) || p.endDate.None?) ==> r.Raised?
    ensures p.endDate.Some? ==>
              (r == Checked([]) <==> forall c :: c in p.todoChildren ==> c in g.todos && g.todos[c].endDate <= p.endDate.value)
    ensures r.Checked? ==> forall v :: v in r.violations ==> v.field == OnEndDate
  {
    DateRule(g.todos, p.todoChildren, p.endDate, EndField, NotBeforeLatest, OnEndDate, EarlierThanChildEnd)
  }

  // ---------------------------------------------------------------------------
  // Self references (lines 122-130, 157-163, 199-213)
  // ---------------------------------------------------------------------------

  /** A staged row of `rows` points back at the todo itself (an unsaved todo has no id to match). */
  predicate PointsToSelf(p: Proposal, rows: seq<Id>)
  {
    p.id.Some? && p.id.value in rows
  }

  function SelfErrors(p: Proposal, rows: seq<Id>, field: Field): (r: seq<Violation>)
    ensures r != [] <==> PointsToSelf(p, rows)
    ensures r != [] ==> r == [Violation(field, SelfReference, None)]
  {
    if PointsToSelf(p, rows) then [Violation(field, SelfReference, None)] else []
  }

  // ---------------------------------------------------------------------------
  // One-hop precedence rules (lines 132-155 and 165-185)
  // ---------------------------------------------------------------------------

  /** `d` is a (committed) dependency of one of `ids`. */
  predicate DependencyOfAny(g: Graph, d: Id, ids: seq<Id>)
  {
    exists e :: e in ids && d in Dependencies(g, e)
  }

  /** `d` is a (committed) dependent of one of `ids`. */
  predicate DependentOfAny(g: Graph, d: Id, ids: seq<Id>)
  {
    exists e :: e in ids && d in Dependents(g, e)
  }

  /** `dependencies.map { |dependency| dependency.dependencies }.flatten`. */
  function DependenciesOfAll(g: Graph, ids: seq<Id>): (r: seq<Id>)
    ensures forall d :: d in r <==> DependencyOfAny(g, d, ids)
  {
    if ids == [] then []
    else
      assert forall e :: e in ids <==> e == ids[0] || e in ids[1..];
      Dependencies(g, ids[0]) + DependenciesOfAll(g, ids[1..])
  }

  /** `dependents.map { |dependent| dependent.dependents }.flatten`. */
  function DependentsOfAll(g: Graph, ids: seq<Id>): (r: seq<Id>)
    ensures forall d :: d in r <==> DependentOfAny(g, d, ids)
  {
    if ids == [] then []
    else
      assert forall e :: e in ids <==> e == ids[0] || e in ids[1..];
      Dependents(g, ids[0]) + DependentsOfAll(g, ids[1..])
  }

  /** `todo_dependencies_cannot_include_dependents` (lines 132-142). */
  function DependenciesExcludeDependents(g: Graph, p: Proposal): (r: Outcome)
    ensures r == Checked([]) <==> forall d :: d in p.todoDependencies ==> d in g.todos && d !in CommittedDependents(g, p)
    ensures p.todoDependencies != [] ==> (r.Raised? <==> !AllFound(g.todos, p.todoDependencies))
    ensures r.Checked? ==> forall v :: v in r.violations <==>
              exists d :: d in CommittedDependents(g, p) && d in p.todoDependencies
                          && v == Violation(OnDependencies, DependentAsDependency, Some(d))
  {
    if p.todoDependencies == [] then Checked([])
    else
      match Find(g.todos, p.todoDependencies)
      case Failure(e) => Raised(e)
      case Success(found) =>
        assert forall d :: d in found <==> d in p.todoDependencies;
        var flagged := FlaggedIn(CommittedDependents(g, p), found, OnDependencies, DependentAsDependency);
        assert flagged == [] <==> forall d :: d in CommittedDependents(g, p) ==> d !in p.todoDependencies;
        Checked(flagged)
  }

  /** `todo_dependencies_cannot_include_deps_dependencies` (lines 144-155): one hop, not the closure. */
  function DependenciesExcludeDepsDependencies(g: Graph, p: Proposal): (r: Outcome)
    ensures r == Checked([]) <==> forall d :: d in p.todoDependencies ==> d in g.todos && !DependencyOfAny(g, d, p.todoDependencies)
    ensures p.todoDependencies == [] ==> r == Checked([])
    ensures p.todoDependencies != [] ==> (r.Raised? <==> !AllFound(g.todos, p.todoDependencies))
    ensures r.Checked? ==> forall v :: v in r.violations <==>
              exists d :: d in p.todoDependencies && DependencyOfAny(g, d, p.todoDependencies)
                          && v == Violation(OnDependencies, DependencysDependency, Some(d))
  {
    if p.todoDependencies == [] then Checked([])
    else
      match Find(g.todos, p.todoDependencies)
      case Failure(e) => Raised(e)
      case Success(found) =>
        var depsDependencies := DependenciesOfAll(g, found);
        Checked(FlaggedIn(found, depsDependencies, OnDependencies, DependencysDependency))
  }

  /** `todo_dependents_cannot_include_dependencies` (lines 165-172). */
  function DependentsExcludeDependencies(g: Graph, p: Proposal): (r: Outcome)
    ensures r == Checked([]) <==> forall d :: d in p.todoDependents ==> d in g.todos && d !in CommittedDependencies(g, p)
    ensures p.todoDependents != [] ==> (r.Raised? <==> !AllFound(g.todos, p.todoDependents))
    ensures r.Checked? ==> forall v :: v in r.violations <==>
              exists d :: d in CommittedDependencies(g, p) && d in p.todoDependents
                          && v == Violation(OnDependents, DependencyAsDependent, Some(d))
  {
    if p.todoDependents == [] then Checked([])
    else
      match Find(g.todos, p.todoDependents)
      case Failure(e) => Raised(e)
      case Success(found) =>
        assert forall d :: d in found <==> d in p.todoDependents;
        var flagged := FlaggedIn(CommittedDependencies(g, p), found, OnDependents, DependencyAsDependent);
        assert flagged == [] <==> forall d :: d in CommittedDependencies(g, p) ==> d !in p.todoDependents;
        Checked(flagged)
  }

  /** `todo_dependents_cannot_include_depts_dependents` (lines 174-185). */
  function DependentsExcludeDeptsDependents(g: Graph, p: Proposal): (r: Outcome)
    ensures r == Checked([]) <==> forall d :: d in p.todoDependents ==> d in g.todos && !DependentOfAny(g, d, p.todoDependents)
    ensures p.todoDependents == [] ==> r == Checked([])
    ensures p.todoDependents != [] ==> (r.Raised? <==> !AllFound(g.todos, p.todoDependents))
    ensures r.Checked? ==> forall v :: v in r.violations <==>
              exists d :: d in p.todoDependents && DependentOfAny(g, d, p.todoDependents)
                          && v == Violation(OnDependents, DependentsDependent, Some(d))
  {
    if p.todoDependents == [] then Checked([])
    else
      match Find(g.todos, p.todoDependents)
      case Failure(e) => Raised(e)
      case Success(found) =>
        var deptsDependents := DependentsOfAll(g, found);
        Checked(FlaggedIn(found, deptsDependents, OnDependents, DependentsDependent))
  }

  // ---------------------------------------------------------------------------
  // Status gate (lines 78 and 187-197)
  // ---------------------------------------------------------------------------

  /** `cannot_mark_as_done_if_dependencies_not_done`: one error per open dependency, in order. */
  function DependenciesDone(g: Graph, p: Proposal): (r: Outcome)
    ensures r == Checked([]) <==> forall d :: d in p.todoDependencies ==> d in g.todos && g.todos[d].status != Some(false)
    ensures p.todoDependencies == [] ==> r == Checked([])
    ensures p.todoDependencies != [] ==> (r.Raised? <==> !AllFound(g.todos, p.todoDependencies))
    ensures r.Checked? ==> forall v :: v in r.violations <==>
              exists d :: d in p.todoDependencies && d in g.todos && g.todos[d].status == Some(false)
                          && v == Violation(OnStatus, DependencyOpen, Some(d))
  {
    if p.todoDependencies == [] then Checked([])
    else
      match Find(g.todos, p.todoDependencies)
      case Failure(e) => Raised(e)
      case Success(found) =>
        Checked(FlaggedOpen(g, found))
  }

  // ---------------------------------------------------------------------------
  // All validators, in the order lines 59-78 declare them
  // ---------------------------------------------------------------------------

  function OnCreate(p: Proposal, o: Outcome): Outcome
  {
    if p.creating then o else Checked([])
  }

  /** Lines 59-62. */
  function PresenceChecks(p: Proposal): Outcome
  {
    Checked(PresenceErrors(p) + ParentsLengthErrors(p))
  }

  /** Lines 63-65: the rules on the start date, in that order. */
  function StartDateChecks(g: Graph, p: Proposal): Outcome
  {
    StartNotBeforeDependenciesEnd(g, p)
      .Then(StartNotBeforeParentsStart(g, p))
      .Then(OnCreate(p, StartNotAfterChildrenStart(g, p)))
  }

  /** Lines 66-69: the rules on the end date, in that order. */
  function EndDateChecks(g: Graph, p: Proposal): Outcome
  {
    Checked(EndNotBeforeStart(p))
      .Then(OnCreate(p, EndNotAfterDependentsStart(g, p)))
      .Then(OnCreate(p, EndNotAfterParentsEnd(g, p)))
      .Then(EndNotBeforeChildrenEnd(g, p))
  }

  /** Lines 63-69, in that order. */
  function DateChecks(g: Graph, p: Proposal): Outcome
  {
    StartDateChecks(g, p).Then(EndDateChecks(g, p))
  }

  /** Lines 70-77, in that order. */
  function RelationChecks(g: Graph, p: Proposal): Outcome
  {
    Checked(SelfErrors(p, p.todoDependencies, OnDependencies))
      .Then(DependenciesExcludeDependents(g, p))
      .Then(DependenciesExcludeDepsDependencies(g, p))
      .Then(Checked(SelfErrors(p, p.todoDependents, OnDependents)))
      .Then(DependentsExcludeDependencies(g, p))
      .Then(DependentsExcludeDeptsDependents(g, p))
      .Then(Checked(SelfErrors(p, p.todoChildren, OnChildren)))
      .Then(Checked(SelfErrors(p, p.todoParents, OnParents)))
  }

  /** Line 78: the status gate runs only while the status is changing to done. */
  function StatusCheck(g: Graph, p: Proposal): Outcome
  {
    if ChangingToDone(p) then DependenciesDone(g, p) else Checked([])
  }

  /** Every validator of the todo, in the order lines 59-78 declare them, as one outcome. */
  function Validate(g: Graph, p: Proposal): Outcome
  {
    PresenceChecks(p).Then(DateChecks(g, p)).Then(RelationChecks(g, p)).Then(StatusCheck(g, p))
  }

  /**
   * The conditions the validators enforce, stated independently of how they are
   * checked: the required attributes, every referenced todo exists, the dates
   * obey each ordering rule (the creation-only ones when creating), no join row
   * points back at the todo, the one-hop precedence rules, and the status gate.
   */
  predicate Acceptable(g: Graph, p: Proposal)
  {
    Present(p) && DatesOrdered(g, p) && RelationsHold(g, p) && StatusGateHolds(g, p)
  }

  predicate Present(p: Proposal)
  {
    !Blank(p.name) && p.startDate.Some? && p.endDate.Some? && |p.parents| <= 1
  }

  predicate DatesOrdered(g: Graph, p: Proposal)
    requires Present(p)
  {
    StartOrdered(g, p) && EndOrdered(g, p)
  }

  /** The start date follows every dependency's end and every parent's start, and precedes every new child's start. */
  predicate StartOrdered(g: Graph, p: Proposal)
    requires Present(p)
  {
    var start := p.startDate.value;
    && (forall d :: d in p.todoDependencies ==> d in g.todos && g.todos[d].endDate <= start)
    && (forall q :: q in p.todoParents ==> q in g.todos && g.todos[q].startDate <= start)
    && (p.creating ==> forall c :: c in p.todoChildren ==> c in g.todos && start <= g.todos[c].startDate)
  }

  /** The end date follows the start and every child's end, and precedes every new dependent's start and parent's end. */
  predicate EndOrdered(g: Graph, p: Proposal)
    requires Present(p)
  {
    var start, end := p.startDate.value, p.endDate.value;
    && start <= end
    && (p.creating ==> forall d :: d in p.todoDependents ==> d in g.todos && end <= g.todos[d].startDate)
    && (p.creating ==> forall q :: q in p.todoParents ==> q in g.todos && end <= g.todos[q].endDate)
    && (forall c :: c in p.todoChildren ==> c in g.todos && g.todos[c].endDate <= end)
  }

  predicate RelationsHold(g: Graph, p: Proposal)
  {
    && !PointsToSelf(p, p.todoDependencies) && !PointsToSelf(p, p.todoDependents)
    && !PointsToSelf(p, p.todoChildren) && !PointsToSelf(p, p.todoParents)
    && (forall d :: d in p.todoDependencies ==>
          d in g.todos && d !in CommittedDependents(g, p) && !DependencyOfAny(g, d, p.todoDependencies))
    && (forall d :: d in p.todoDependents ==>
          d in g.todos && d !in CommittedDependencies(g, p) && !DependentOfAny(g, d, p.todoDependents))
  }

  predicate StatusGateHolds(g: Graph, p: Proposal)
  {
    ChangingToDone(p) ==> forall d :: d in p.todoDependencies ==> d in g.todos && g.todos[d].status != Some(false)
  }

  lemma ThenAccepts(a: Outcome, b: Outcome)
    ensures a.Then(b) == Checked([]) <==> a == Checked([]) && b == Checked([])
  {
    if a.Checked? && b.Checked? && a.Then(b) == Checked([]) {
      assert |Join(a.violations, b.violations)| == 0;
    }
  }

  lemma PresenceAccepts(p: Proposal)
    ensures PresenceChecks(p) == Checked([]) <==> Present(p)
  {
    if !Present(p) {
      if Blank(p.name) { assert Violation(OnName, CantBeBlank, None) in PresenceErrors(p); }
      else if p.startDate.None? { assert Violation(OnStartDate, CantBeBlank, None) in PresenceErrors(p); }
      else if p.endDate.None? { assert Violation(OnEndDate, CantBeBlank, None) in PresenceErrors(p); }
    }
  }

  lemma StartDateChecksAccept(g: Graph, p: Proposal)
    requires Present(p)
    ensures StartDateChecks(g, p) == Checked([]) <==> StartOrdered(g, p)
  {
    var s0 := StartNotBeforeDependenciesEnd(g, p);
    var s1 := StartNotBeforeParentsStart(g, p);
    var s2 := OnCreate(p, StartNotAfterChildrenStart(g, p));
    ThenAccepts(s0, s1);
    ThenAccepts(s0.Then(s1), s2);
  }

  /** A chain of four validators passes iff each of them passes. */
  lemma Then4Accepts(a: Outcome, b: Outcome, c: Outcome, d: Outcome)
    ensures a.Then(b).Then(c).Then(d) == Checked([]) <==>
            a == Checked([]) && b == Checked([]) && c == Checked([]) && d == Checked([])
  {
    ThenAccepts(a, b);
    ThenAccepts(a.Then(b), c);
    ThenAccepts(a.Then(b).Then(c), d);
  }

  /** Each end-date rule passes iff its ordering holds (the creation-only ones when creating). */
  lemma EndNotBeforeStartAccepts(p: Proposal)
    requires Present(p)
    ensures Checked(EndNotBeforeStart(p)) == Checked([]) <==> p.startDate.value <= p.endDate.value
  {
  }

  lemma EndNotAfterDependentsStartAccepts(g: Graph, p: Proposal)
    requires Present(p)
    ensures OnCreate(p, EndNotAfterDependentsStart(g, p)) == Checked([]) <==>
            (p.creating ==> forall d :: d in p.todoDependents ==> d in g.todos && p.endDate.value <= g.todos[d].startDate)
  {
  }

  lemma EndNotAfterParentsEndAccepts(g: Graph, p: Proposal)
    requires Present(p)
    ensures OnCreate(p, EndNotAfterParentsEnd(g, p)) == Checked([]) <==>
            (p.creating ==> forall q :: q in p.todoParents ==> q in g.todos && p.endDate.value <= g.todos[q].endDate)
  {
  }

  lemma EndNotBeforeChildrenEndAccepts(g: Graph, p: Proposal)
    requires Present(p)
    ensures EndNotBeforeChildrenEnd(g, p) == Checked([]) <==>
            forall c :: c in p.todoChildren ==> c in g.todos && g.todos[c].endDate <= p.endDate.value
  {
  }

  lemma EndDateChecksAccept(g: Graph, p: Proposal)
    requires Present(p)
    ensures EndDateChecks(g, p) == Checked([]) <==> EndOrdered(g, p)
  {
    EndNotBeforeStartAccepts(p);
    EndNotAfterDependentsStartAccepts(g, p);
    EndNotAfterParentsEndAccepts(g, p);
    EndNotBeforeChildrenEndAccepts(g, p);
    Then4Accepts(Checked(EndNotBeforeStart(p)), OnCreate(p, EndNotAfterDependentsStart(g, p)),
                 OnCreate(p, EndNotAfterParentsEnd(g, p)), EndNotBeforeChildrenEnd(g, p));
  }

  lemma DateChecksAccept(g: Graph, p: Proposal)
    requires Present(p)
    ensures DateChecks(g, p) == Checked([]) <==> DatesOrdered(g, p)
  {
    ThenAccepts(StartDateChecks(g, p), EndDateChecks(g, p));
    StartDateChecksAccept(g, p);
    EndDateChecksAccept(g, p);
  }

  lemma RelationChecksAccept(g: Graph, p: Proposal)
    ensures RelationChecks(g, p) == Checked([]) <==> RelationsHold(g, p)
  {
    var s0 := Checked(SelfErrors(p, p.todoDependencies, OnDependencies));
    var s1 := DependenciesExcludeDependents(g, p);
    var s2 := DependenciesExcludeDepsDependencies(g, p);
    var s3 := Checked(SelfErrors(p, p.todoDependents, OnDependents));
    var s4 := DependentsExcludeDependencies(g, p);
    var s5 := DependentsExcludeDeptsDependents(g, p);
    var s6 := Checked(SelfErrors(p, p.todoChildren, OnChildren));
    var s7 := Checked(SelfErrors(p, p.todoParents, OnParents));
    ThenAccepts(s0, s1);
    ThenAccepts(s0.Then(s1), s2);
    ThenAccepts(s0.Then(s1).Then(s2), s3);
    ThenAccepts(s0.Then(s1).Then(s2).Then(s3), s4);
    ThenAccepts(s0.Then(s1).Then(s2).Then(s3).Then(s4), s5);
    ThenAccepts(s0.Then(s1).Then(s2).Then(s3).Then(s4).Then(s5), s6);
    ThenAccepts(s0.Then(s1).Then(s2).Then(s3).Then(s4).Then(s5).Then(s6), s7);
  }

  lemma StatusCheckAccepts(g: Graph, p: Proposal)
    ensures StatusCheck(g, p) == Checked([]) <==> StatusGateHolds(g, p)
  {
  }

  /** The validators pass exactly when the todo is acceptable: both directions. */
  lemma ValidateAccepts(g: Graph, p: Proposal)
    ensures Validate(g, p) == Checked([]) <==> Acceptable(g, p)
  {
    var a := PresenceChecks(p);
    var b := DateChecks(g, p);
    var c := RelationChecks(g, p);
    var d := StatusCheck(g, p);
    ThenAccepts(a, b);
    ThenAccepts(a.Then(b), c);
    ThenAccepts(a.Then(b).Then(c), d);
    PresenceAccepts(p);
    if Present(p) {
      DateChecksAccept(g, p);
    }
    RelationChecksAccept(g, p);
    StatusCheckAccepts(g, p);
  }
}
