/**
 * Creation-time generation of repeat children (`generate_punched_tasks`,
 * app/models/todo.rb:275-295) behind the `before_create` guard of line 80, and
 * the `before_add` hook `change_as_repeat` on `children` (lines 362-364).
 *
 * The calendar part of the computation (`in_weeks`, `in_months`, the float
 * `ceil` and `floor`) is taken as given: `periods` is the number of repeat
 * periods the todo spans and `intervalDays` the whole number of days between
 * two punched children.
 */
module PunchedTasks {
  import opened Base
  import opened Graph

  /** The attribute hash of one generated child (lines 285-291). */
  datatype ChildAttrs = ChildAttrs(name: string, projectId: nat, startDate: int, endDate: int, color: string)

  /** `"##{i + 1}"`: a hash sign followed by the one-based index in decimal. */
  function PunchedName(i: nat): (r: string)
    ensures |r| >= 2 && r[0] == '#'
    ensures r[1..] == DecimalString(i + 1)
  {
    "#" + DecimalString(i + 1)
  }

  /** The `i`-th child: a zero-length todo `i` intervals after the parent's start, in the parent's project and colour. */
  function PunchedChild(t: Todo, i: nat, interval: int): ChildAttrs
  {
    var s := t.startDate + i * interval;
    ChildAttrs(PunchedName(i), t.projectId, s, s, t.color)
  }

  /**
   * What the loop of lines 281-292 produces: child `i` for every `i` below the
   * first that would start after the parent's end, and no more than `number`.
   */
  predicate PunchedSchedule(t: Todo, number: nat, interval: int, cs: seq<ChildAttrs>)
  {
    && |cs| <= number
    && (forall i :: 0 <= i < |cs| ==> cs[i] == PunchedChild(t, i, interval))
    && (forall i :: 0 <= i < |cs| ==> t.startDate + i * interval <= t.endDate)
    && (|cs| < number ==> t.startDate + |cs| * interval > t.endDate)
  }

  /** Lines 275-295, with `number_of_repeat_periods` and the interval in days given. */
  method GeneratePunchedTasks(t: Todo, periods: nat, intervalDays: nat) returns (children: seq<ChildAttrs>)
    requires t.repeatTimes.Some? && t.repeatTimes.value > 0
    ensures PunchedSchedule(t, t.repeatTimes.value * periods, intervalDays * Day, children)
    ensures forall i :: 0 <= i < |children| ==> children[i].startDate == children[i].endDate
    ensures forall i :: 0 <= i < |children| ==> t.startDate <= children[i].startDate <= t.endDate
  {
    var number: nat := t.repeatTimes.value * periods;
    var interval: nat := intervalDays * Day;
    children := [];
    var i := 0;
    while i < number
      invariant 0 <= i <= number && |children| == i
      invariant forall k :: 0 <= k < i ==> children[k] == PunchedChild(t, k, interval)
      invariant forall k :: 0 <= k < i ==> t.startDate + k * interval <= t.endDate
    {
      var start := t.startDate + i * interval;
      if start > t.endDate {
        break;
      }
      children := children + [ChildAttrs(PunchedName(i), t.projectId, start, start, t.color)];
      i := i + 1;
    }
    forall k | 0 <= k < |children|
      ensures t.startDate <= children[k].startDate
    {
      assert children[k] == PunchedChild(t, k, interval);
      assert k * interval >= 0;
    }
  }

  /** The loop's result is determined by its inputs: two schedules for the same todo agree. */
  lemma PunchedScheduleUnique(t: Todo, number: nat, interval: int, a: seq<ChildAttrs>, b: seq<ChildAttrs>)
    requires PunchedSchedule(t, number, interval, a) && PunchedSchedule(t, number, interval, b)
    ensures a == b
  {
  }

  /** No two generated children share a name. */
  lemma PunchedNamesDistinct(t: Todo, number: nat, interval: int, cs: seq<ChildAttrs>)
    requires PunchedSchedule(t, number, interval, cs)
    ensures forall i, j :: 0 <= i < j < |cs| ==> cs[i].name != cs[j].name
  {
    forall i, j | 0 <= i < j < |cs|
      ensures cs[i].name != cs[j].name
    {
      assert cs[i].name == PunchedName(i) && cs[j].name == PunchedName(j);
      if PunchedName(i) == PunchedName(j) {
        assert DecimalString(i + 1) == PunchedName(i)[1..];
        DecimalStringInjective(i + 1, j + 1);
      }
    }
  }

  /** With a zero interval every child starts with the parent, and all `number` of them are made. */
  lemma ZeroIntervalFillsNumber(t: Todo, number: nat, cs: seq<ChildAttrs>)
    requires t.startDate <= t.endDate && PunchedSchedule(t, number, 0, cs)
    ensures |cs| == number
    ensures forall i :: 0 <= i < |cs| ==> cs[i].startDate == t.startDate
  {
    forall i | 0 <= i < |cs|
      ensures cs[i].startDate == t.startDate
    {
      assert cs[i] == PunchedChild(t, i, 0);
    }
  }

  /** `change_as_repeat`: adding a child marks its parent as repeating and changes nothing else. */
  function ChangeAsRepeat(t: Todo): (r: Todo)
    ensures r.repeat
    ensures r.(repeat := t.repeat) == t
    ensures t.repeat ==> r == t
  {
    if t.repeat then t else t.(repeat := true)
  }

  /**
   * The guard `-> { repeat_times > 0 }` of line 80 as written: `repeat_times`
   * has no default, and a nil one has no `>`, so the guard raises.
   */
  function RepeatGuardAsWritten(t: Todo): (r: Result<bool, Exception>)
    ensures r.Failure? <==> t.repeatTimes.None?
    ensures r.Failure? ==> r.error == NilReceiver
    ensures r.Success? ==> (r.value <==> t.repeatTimes.value > 0)
  {
    match t.repeatTimes
    case None => Failure(NilReceiver)
    case Some(n) => Success(n > 0)
  }

  /** The guard as intended: a todo without `repeat_times` generates nothing. */
  function RepeatGuard(t: Todo): (r: bool)
    ensures r <==> t.repeatTimes.Some? && t.repeatTimes.value > 0
    ensures RepeatGuardAsWritten(t).Success? ==> r == RepeatGuardAsWritten(t).value
  {
    t.repeatTimes.Some? && t.repeatTimes.value > 0
  }

  datatype CreateHook =
    | Generated(todo: Todo, children: seq<ChildAttrs>)   // children_attributes assigned
    | Skipped                                           // the guard was false
    | HookRaised(error: Exception)                      // the guard raised

  /**
   * The `before_create` hook as written: the guard, then the generation;
   * assigning the children builds each one through `children`, whose
   * `before_add` marks the todo as repeating.
   */
  method BeforeCreateAsWritten(t: Todo, periods: nat, intervalDays: nat) returns (r: CreateHook)
    ensures r.HookRaised? <==> t.repeatTimes.None?
    ensures r.HookRaised? ==> r.error == NilReceiver
    ensures r.Skipped? <==> t.repeatTimes.Some? && t.repeatTimes.value <= 0
    ensures r.Generated? ==> PunchedSchedule(t, t.repeatTimes.value * periods, intervalDays * Day, r.children)
    ensures r.Generated? ==> r.todo == (if r.children == [] then t else ChangeAsRepeat(t))
  {
    match RepeatGuardAsWritten(t)
    case Failure(e) =>
      r := HookRaised(e);
    case Success(run) =>
      if !run {
        r := Skipped;
      } else {
        var children := GeneratePunchedTasks(t, periods, intervalDays);
        var parent := if children == [] then t else ChangeAsRepeat(t);
        r := Generated(parent, children);
      }
  }

  /** The `before_create` hook with the intended guard: it never raises. */
  method BeforeCreate(t: Todo, periods: nat, intervalDays: nat) returns (r: CreateHook)
    ensures !r.HookRaised?
    ensures r.Skipped? <==> !RepeatGuard(t)
    ensures r.Generated? ==> PunchedSchedule(t, t.repeatTimes.value * periods, intervalDays * Day, r.children)
    ensures r.Generated? ==> r.todo == (if r.children == [] then t else ChangeAsRepeat(t))
  {
    if !RepeatGuard(t) {
      r := Skipped;
    } else {
      var children := GeneratePunchedTasks(t, periods, intervalDays);
      var parent := if children == [] then t else ChangeAsRepeat(t);
      r := Generated(parent, children);
    }
  }

  /** The row a generated child becomes: no status, not repeating and no `repeat_times`. */
  function ChildTodo(a: ChildAttrs): (r: Todo)
    ensures r.name == a.name && r.projectId == a.projectId && r.color == a.color
    ensures IntervalOf(r) == Interval(a.startDate, a.endDate)
    ensures r.repeatTimes.None?
  {
    Todo(a.name, a.projectId, a.color, a.startDate, a.endDate, None, false, None)
  }

  /**
   * As written, a generated child carries no `repeat_times`, so its own
   * `before_create` guard raises and the parent cannot be created.
   */
  lemma GeneratedChildGuardRaises(a: ChildAttrs)
    ensures RepeatGuardAsWritten(ChildTodo(a)) == Failure(NilReceiver)
  {
  }

  /** With the intended guard a generated child is created without generating children of its own. */
  lemma GeneratedChildSkipsGeneration(a: ChildAttrs)
    ensures !RepeatGuard(ChildTodo(a))
  {
  }
}
