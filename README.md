# Todo graph constraints and timeline engine

A Dafny model of the scheduling core of a todo planner. Each todo has a
`[start_date, end_date]` interval, a `status`, a project and a colour. Todos
are joined by two relations:

- precedence (`TodoDependent` rows, `dependencies` / `dependents`);
- hierarchy (`TodoChild` rows, `parents` / `children`).

What the model covers:

- **Validators of a todo** (`TodoValidation`). They are pure functions over a
  proposed todo, the join rows staged with it and the committed graph.
  - Each validator yields the field-tagged errors it adds, or the exception
    that stops it (`Todo.find` on a missing id, a nil date in a comparison).
  - `Validate` chains them in declaration order.
  - `ValidateAccepts` proves, in both directions, that they pass exactly when
    the independent predicate `Acceptable` holds.
- **Validators of a join row** (`TodoDependentValidation`): pair uniqueness,
  no self loop, and the two two-hop rules.
- **The update callbacks** (`Timeline`), run as an explicit work list.
  - `shift_end_date` runs before the write.
  - Then `update_children_timeline`, `update_dependents_timeline` and
    `update_parents_end_date`. Each neighbour's `save!` validates it, runs its
    own `before_update`, writes its changed dates and runs its own
    `after_update` callbacks, depth first.
  - `Engine.TodoStore` holds the graph as mutable state and runs a cascade,
    rolling back on failure.
- **Repeat children** (`PunchedTasks`): `generate_punched_tasks`, its guard
  and `change_as_repeat`.
- **The edge-set diff of the update action** (`TodosController`): the two
  loops of `build_todo_dependencies_attributes`, and the guard that calls it.
- **Worked scenarios** (`Scenarios`): updates on a two-todo project. Dates
  are whole days counted from an arbitrary first midnight, so each scenario
  holds wherever the calendar starts.

### Representation

- Timestamps are integer seconds. The one-day debounce is `|delta| >= 86400`,
  except in `update_dependents_timeline`, which tests `delta >= 86400` without
  the absolute value.
- `Todo.find(ids)` yields the distinct ids ordered by start date, as the
  default scope orders them, or `RecordNotFound` when an id has no row.
- `max_by` / `min_by` keep the first extreme.
- `reorder(end_date: :desc).first` picks a todo with the latest end date. SQL
  leaves the order of ties open. The model takes the first of the tied todos
  in the association's order, which is by start date and then by join-row order.
- `blank?` counts a string as blank when it is empty or holds only characters
  with the Unicode White_Space property, which is what `[[:space:]]` matches.

### Where the model follows the code rather than the design description

- A failing `save!` of a neighbour makes the whole update fail, and the
  transaction rolls back. Nothing stays partly written.
- The callbacks recurse through `save!`, so propagation is depth first.
- Children are shifted only when both dates of the parent were saved as
  changed (line 84). A todo whose start moved but whose end was shifted by
  `shift_end_date` qualifies, because both columns change.

## Model

| member | source | states |
|---|---|---|
| Base.DebounceBoundary | app/models/todo.rb:319-321 | for every delta, the debounce lets the change through iff it is a whole day or more either way, and it treats a delta and its negation alike |
| Base.Dedup | app/models/todo.rb:135 | the ids found are exactly the members of the request, no more of them, and the first id comes first |
| Base.DedupDistinct | app/models/todo.rb:135 | no id is found twice |
| Base.DecimalStringRoundTrip | app/models/todo.rb:286 | the decimal rendering of an index reads back as the same number |
| Base.DecimalStringInjective | app/models/todo.rb:286 | two different indices never render to the same digits |
| Base.DecimalString | app/models/todo.rb:286 | `Integer#to_s`: at least one decimal digit, and no leading zero unless the number is zero |
| Base.Blank | app/models/todo.rb:59 | `blank?`: a string is blank iff every character has the Unicode White_Space property, so an empty string is blank |
| Graph.TargetRows | app/models/todo.rb:16-18 | the far ends of the rows leaving a todo are exactly the todos it is joined to |
| Graph.SourceRows | app/models/todo.rb:20-22 | the near ends of the rows reaching a todo are exactly the todos joined to it |
| Graph.InsertByStart | app/models/todo.rb:42 | inserting adds that id to the list's members and nothing else |
| Graph.InsertByStartPermutes | app/models/todo.rb:42 | inserting adds exactly one copy of the id and keeps every other entry |
| Graph.InsertByStartOrdered | app/models/todo.rb:42 | inserting into a list ordered by start date keeps it ordered |
| Graph.SortByStart | app/models/todo.rb:42 | ordering by the default scope keeps exactly the members of the list |
| Graph.SortByStartSorted | app/models/todo.rb:42 | the default scope's order is a permutation of the ids, sorted by start date |
| Graph.Dependents | app/models/todo.rb:24 | `dependents` holds exactly the existing todos that a `todo_dependents` row names |
| Graph.Dependencies | app/models/todo.rb:25 | `dependencies` holds exactly the existing todos that a `todo_dependencies` row names |
| Graph.Children | app/models/todo.rb:37 | `children` holds exactly the existing todos that a `todo_children` row names |
| Graph.Parents | app/models/todo.rb:38 | `parents` holds exactly the existing todos that a `todo_parents` row names |
| Graph.Find | app/models/todo.rb:135 | `Todo.find(ids)` succeeds iff every id has a row, and then holds exactly the requested ids; otherwise it raises RecordNotFound |
| Graph.FindOrders | app/models/todo.rb:42 | a successful `Todo.find(ids)` holds each requested id once, ordered by start date |
| Graph.MaxBy | app/models/todo.rb:218 | `max_by` picks a member whose date no other member exceeds |
| Graph.MinBy | app/models/todo.rb:228 | `min_by` picks a member whose date is no later than any other's |
| Graph.MaxByFirst | app/models/todo.rb:218 | of the entries whose date no other exceeds, `max_by` picks the first |
| Graph.MinByFirst | app/models/todo.rb:228 | of the entries whose date no other undercuts, `min_by` picks the first |
| Graph.LatestDependency | app/models/todo.rb:304 | nil iff the dependent has no dependency; otherwise one of its dependencies with the latest end date |
| Graph.LatestChild | app/models/todo.rb:350 | nil iff the parent has no child; otherwise one of its children with the latest end date |
| Graph.LatestDependencyDecided | app/models/todo.rb:304-306 | a dependency that ends strictly after every other is the latest one; one that ends strictly before another is not |
| TodoValidation.JoinAppends | app/models/todo.rb:59-78 | the errors of a chain are the first validator's errors followed by the rest's, in order |
| TodoValidation.PresenceErrors | app/models/todo.rb:59-61 | a blank-name error iff the name is blank; a start-date or end-date error iff that date is nil |
| TodoValidation.ParentsLengthErrors | app/models/todo.rb:62 | an error iff there is more than one parent |
| TodoValidation.DateRule | app/models/todo.rb:215-273 | no staged rows never errs; a missing row raises; a nil own date raises; otherwise no error iff every neighbour satisfies the bound; an error is one violation naming the neighbour with the latest (or earliest) date, which breaks the bound |
| TodoValidation.StartNotBeforeDependenciesEnd | app/models/todo.rb:215-223 | passes iff every staged dependency exists and ends no later than the start date; errors are on `start_date` |
| TodoValidation.StartNotBeforeParentsStart | app/models/todo.rb:235-243 | passes iff every staged parent exists and starts no later than the start date; errors are on `start_date` |
| TodoValidation.StartNotAfterChildrenStart | app/models/todo.rb:245-253 | passes iff every staged child exists and starts no earlier than the start date; errors are on `start_date` |
| TodoValidation.EndNotBeforeStart | app/models/todo.rb:113-120 | an `end_date` error iff both dates are present and the end is before the start |
| TodoValidation.EndNotAfterDependentsStart | app/models/todo.rb:225-233 | passes iff every staged dependent exists and starts no earlier than the end date; errors are on `end_date` |
| TodoValidation.EndNotAfterParentsEnd | app/models/todo.rb:255-263 | passes iff every staged parent exists and ends no earlier than the end date; errors are on `end_date` |
| TodoValidation.EndNotBeforeChildrenEnd | app/models/todo.rb:265-273 | passes iff every staged child exists and ends no later than the end date; errors are on `end_date` |
| TodoValidation.SelfErrors | app/models/todo.rb:122-130 | one error on the relation's field iff a staged row points back at the saved todo itself |
| TodoValidation.DependenciesOfAll | app/models/todo.rb:148 | the flattened list holds exactly the dependencies of some listed todo |
| TodoValidation.DependentsOfAll | app/models/todo.rb:178 | the flattened list holds exactly the dependents of some listed todo |
| TodoValidation.DependenciesExcludeDependents | app/models/todo.rb:132-142 | an error naming each current dependent that is among the staged dependencies, and no other; raises iff a staged id is missing |
| TodoValidation.DependenciesExcludeDepsDependencies | app/models/todo.rb:144-155 | an error naming each staged dependency that is a direct dependency of another staged one (one hop), and no other |
| TodoValidation.DependentsExcludeDependencies | app/models/todo.rb:165-172 | an error naming each current dependency that is among the staged dependents, and no other; raises iff a staged id is missing |
| TodoValidation.DependentsExcludeDeptsDependents | app/models/todo.rb:174-185 | an error naming each staged dependent that is a direct dependent of another staged one (one hop), and no other |
| TodoValidation.DependenciesDone | app/models/todo.rb:187-197 | a `status` error naming each staged dependency that is still open, and none when all are done |
| TodoValidation.ThenAccepts | app/models/todo.rb:59-78 | a chain of validators passes iff each part passes |
| TodoValidation.Validate | app/models/todo.rb:59-78 | the validators of the todo as one outcome, chained in declaration order, with the first raise stopping the chain; ValidateAccepts states when it passes |
| TodoValidation.PresenceAccepts | app/models/todo.rb:59-62 | the presence and parent-count checks pass iff the name and dates are present and there is at most one parent |
| TodoValidation.DateChecksAccept | app/models/todo.rb:63-69 | the seven date rules pass iff every ordering holds, the creation-only three only when creating |
| TodoValidation.RelationChecksAccept | app/models/todo.rb:70-77 | the eight relation rules pass iff no row points to self and the one-hop precedence rules hold |
| TodoValidation.StatusCheckAccepts | app/models/todo.rb:78 | the status gate passes iff the status is not turning to done or every dependency is done |
| TodoValidation.ValidateAccepts | app/models/todo.rb:59-78 | all validators pass, in both directions, exactly when the todo is acceptable |
| TodoDependentValidation.UniquenessErrors | app/models/todo_dependent.rb:4-5 | errors on both columns iff another committed row joins the same ordered pair |
| TodoDependentValidation.SelfLoopErrors | app/models/todo_dependent.rb:12-14 | a `dependent_id` error iff the row joins a todo to itself |
| TodoDependentValidation.DependenciesDependencyErrors | app/models/todo_dependent.rb:16-20 | a `todo_id` error iff the todo is a dependency of one of the dependent's dependencies; raises iff the dependent has no row |
| TodoDependentValidation.DependentsDependentErrors | app/models/todo_dependent.rb:22-26 | a `dependent_id` error iff the dependent is a dependent of one of the todo's dependents; raises iff the todo has no row |
| TodoDependentValidation.ValidateJoinRow | app/models/todo_dependent.rb:6-8 | with a nil end, only the uniqueness checks run, and they find nothing |
| TodoDependentValidation.ValidateJoinRowAccepts | app/models/todo_dependent.rb:4-26 | the row validations pass iff the pair is new, not a self loop, both ends exist and neither two-hop rule is broken |
| TodoDependentValidation.AcceptedInsertKeepsPairsUnique | app/models/todo_dependent.rb:4-5 | inserting a row that passed validation keeps every ordered pair joined at most once |
| TodoDependentValidation.SelfLoopRejected | app/models/todo_dependent.rb:6 | a row joining a todo to itself never passes |
| Timeline.ShiftEndDate | app/models/todo.rb:317-325 | when the guard and debounce hold, the end moves by the start's delta; otherwise the interval is as given; the start is never changed |
| Timeline.ShiftEndDateApplies | app/models/todo.rb:81-83 | the guard of `before_update` with the debounce of line 321: the start changes by a day or more, and the end changes by less than a day |
| Timeline.ShiftEndDateKeepsLength | app/models/todo.rb:321-323 | moving only the start by at least a day keeps the interval's length |
| Timeline.ShiftEndDateIgnoresSubDay | app/models/todo.rb:321 | a start moved by less than a day leaves the end unchanged |
| Timeline.ShiftEndDateKeepsEditedEnd | app/models/todo.rb:81-83 | an end changed by a day or more in the same update is kept as given |
| Timeline.BeforeUpdate | app/models/todo.rb:81-83 | `before_update` changes at most the end date, to what `shift_end_date` computes |
| Timeline.AfterUpdateTasks | app/models/todo.rb:84-85 | the children callback runs iff both dates changed; the dependents and parents callbacks run iff the end changed |
| Timeline.ChildrenTimelineTasks | app/models/todo.rb:327-341 | with a start delta of at least a day, one shift by that delta per child, in load order; otherwise none |
| Timeline.DependentsTimelineTasks | app/models/todo.rb:297-303 | with an end delta of at least +1 day, one candidate shift per dependent; otherwise none |
| Timeline.ParentsEndDateTasks | app/models/todo.rb:343-349 | with an end delta of at least a day either way, one candidate pull per parent; otherwise none |
| Timeline.WriteDates | app/models/todo.rb:312 | `save!` writes only the changed date columns and keeps the row's other values |
| Timeline.WriteRow | app/models/todo.rb:312 | a write touches only the saved todo, and only its dates |
| Timeline.SaveProposal | app/models/todo.rb:311-312 | what a neighbour's `save!` validates: its new dates and columns, its committed join rows and parents, in the update context |
| Timeline.Save | app/models/todo.rb:311-312 | `save!` fails iff validation fails, with that outcome; otherwise it writes what `before_update` produced |
| Timeline.SaveThen | app/models/todo.rb:312 | a failed save aborts at that todo; a successful one writes dates only and runs its own callbacks before the rest of the list |
| Timeline.ShiftChildStep | app/models/todo.rb:333-339 | moving a child changes dates only: no todo or join row appears or disappears, and no other column changes |
| Timeline.ShiftDependentStep | app/models/todo.rb:303-313 | visiting a dependent changes dates only: no todo or join row appears or disappears, and no other column changes |
| Timeline.DependentMoves | app/models/todo.rb:304-307 | the dependent moves iff the saved todo is its latest-ending dependency and the dependent starts before the new end |
| Timeline.PullParentStep | app/models/todo.rb:349-357 | visiting a parent changes dates only: no todo or join row appears or disappears, and no other column changes |
| Timeline.ParentPulled | app/models/todo.rb:350-353 | the parent is pulled iff the saved todo is its latest-ending child and the parent ends before the new end |
| Timeline.Step | app/models/todo.rb:297-360 | every step of the cascade changes dates only: no todo or join row appears or disappears, and no other column changes |
| Timeline.DependentStepSaves | app/models/todo.rb:304-312 | a dependent that moves is saved, and its own callbacks run before the rest of the work list |
| Timeline.Run | app/models/todo.rb:297-360 | the `save!` recursion as a work list: it runs steps until the list is empty, stops at the first abort, and is exhausted when its fuel runs out; RunKeepsShape states what a finished run changes |
| Timeline.PushFront | app/models/todo.rb:312 | the callbacks of a save run before the rest of the work list, in order |
| Timeline.RunKeepsShape | app/models/todo.rb:297-360 | a completed cascade adds or removes no todo or join row and changes no column other than the dates |
| Timeline.UnchangedSaveStopsCascade | app/models/todo.rb:84-85 | a save that leaves both dates as they were starts no callback |
| Timeline.SubDayChangesDoNotPropagate | app/models/todo.rb:297-360 | changes of less than a day start no shift in any of the three callbacks |
| Timeline.EarlierEndLeavesDependents | app/models/todo.rb:299-301 | an end moved earlier never shifts a dependent |
| Timeline.ShiftedSaveWrites | app/models/todo.rb:335-338 | a neighbour saved with both dates moved by a day or more gets exactly the moved dates; nothing else changes |
| Timeline.ChildShiftMovesBothDates | app/models/todo.rb:333-339 | a child moves by the start's delta on both dates, with no overlap gate |
| Timeline.UngatedDependentUntouched | app/models/todo.rb:306 | a dependent whose latest dependency is another todo, or which starts no earlier than the new end, is left untouched |
| Timeline.GatedDependentShifts | app/models/todo.rb:304-312 | a gated dependent is saved moved by the delta; its gate opens only behind a dependency that ends no earlier than any other, and only when they overlap |
| Timeline.ParentPullOnlyLater | app/models/todo.rb:350-357 | a parent's start never changes; its end only moves later, and then to exactly the child's end |
| Timeline.InvalidSaveAborts | app/models/todo.rb:312 | a neighbour that fails validation stops the cascade with its errors |
| Timeline.UpdateStopsWhenInvalid | app/models/todo.rb:81-85 | an update whose own save fails validation stops at that todo with its errors |
| Timeline.UpdateVia | app/models/todo.rb:81-85 | an update whose own save passes validation writes the todo's columns as `before_update` leaves them, then runs the cascade that the saved todo's callbacks start |
| Timeline.UpdateRun | app/models/todo.rb:81-85 | an update is the todo's own save, followed by the cascade that its callbacks start from the row as `before_update` leaves it; UpdateStopsWhenInvalid, UpdateVia and UpdateKeepsShape state its outcomes |
| Timeline.UpdateKeepsShape | app/models/todo.rb:81-85 | a completed update has written the todo's own columns as `before_update` leaves them, and the cascade after it has changed dates only |
| PunchedTasks.PunchedName | app/models/todo.rb:286 | a child's name is `#` followed by its one-based index in decimal |
| PunchedTasks.GeneratePunchedTasks | app/models/todo.rb:275-295 | child `i` starts `i` intervals after the parent's start and has start equal to end; names and project and colour as given; never starts after the parent's end; at most `repeat_times × periods` children; stops only at the count or the end date |
| PunchedTasks.PunchedScheduleUnique | app/models/todo.rb:281-292 | the generated list is determined by the todo, the count and the interval |
| PunchedTasks.PunchedNamesDistinct | app/models/todo.rb:286 | no two generated children share a name |
| PunchedTasks.ZeroIntervalFillsNumber | app/models/todo.rb:281-283 | with a zero interval, all `number` children are made and all start with the parent |
| PunchedTasks.ChangeAsRepeat | app/models/todo.rb:362-364 | adding a child sets `repeat` and changes nothing else |
| PunchedTasks.RepeatGuardAsWritten | app/models/todo.rb:80 | the guard raises iff `repeat_times` is nil; otherwise it is `repeat_times > 0` |
| PunchedTasks.RepeatGuard | app/models/todo.rb:80 | the intended guard is true iff `repeat_times` is present and positive, and it agrees with the written one wherever that does not raise |
| PunchedTasks.BeforeCreateAsWritten | app/models/todo.rb:80 | the hook raises iff `repeat_times` is nil, is skipped iff it is not positive, and otherwise assigns the schedule and marks the todo repeating when a child is made |
| PunchedTasks.BeforeCreate | app/models/todo.rb:80 | with the intended guard the hook never raises; it is skipped iff the guard is false, and otherwise as above |
| PunchedTasks.ChildTodo | app/models/todo.rb:285-291 | a generated child's row takes the name, project, colour and dates of its attributes, and has no `repeat_times` |
| PunchedTasks.GeneratedChildGuardRaises | app/models/todo.rb:80 | as written, the guard of every generated child raises |
| PunchedTasks.GeneratedChildSkipsGeneration | app/models/todo.rb:80 | with the intended guard, a generated child generates nothing |
| TodosController.StaleRows | app/controllers/todos_controller.rb:63 | the rows to destroy are exactly the todo's dependency rows whose dependency is not requested |
| TodosController.StaleRowsDistinct | app/controllers/todos_controller.rb:63-64 | no row is listed twice for destruction |
| TodosController.RowFor | app/controllers/todos_controller.rb:73 | `find_by` is nil iff no row joins the dependency to the todo, and otherwise the id of such a row |
| TodosController.Tombstones | app/controllers/todos_controller.rb:64-69 | one `_destroy` entry per stale row, carrying its id, in order |
| TodosController.Upserts | app/controllers/todos_controller.rb:72-78 | one entry per found dependency, in order |
| TodosController.Diff | app/controllers/todos_controller.rb:60-81 | the tombstones of the stale rows, followed by one upsert per found dependency |
| TodosController.BuiltAttributes | app/controllers/todos_controller.rb:60-81 | fails with RecordNotFound iff a requested id has no todo; otherwise the diff over `Todo.find`'s result |
| TodosController.BuildTodoDependenciesAttributes | app/controllers/todos_controller.rb:60-81 | the two loops build exactly the attributes `BuiltAttributes` describes |
| TodosController.TombstonesFirst | app/controllers/todos_controller.rb:61-80 | every tombstone comes before every upsert |
| TodosController.TombstoneIffStale | app/controllers/todos_controller.rb:63-69 | an existing row is tombstoned iff its dependency is not requested |
| TodosController.TombstoneOnce | app/controllers/todos_controller.rb:63-69 | no row id is tombstoned twice |
| TodosController.UpsertPerRequestedId | app/controllers/todos_controller.rb:71-78 | every requested dependency has exactly one upsert |
| TodosController.UpsertReusesRow | app/controllers/todos_controller.rb:73-77 | an upsert carries a row id iff the row already exists, and then that row's id; it is never a destroy |
| TodosController.RewriteDependencies | app/controllers/todos_controller.rb:41-44 | the parameters are left as given when `dependencies_attributes` is absent; otherwise `todo_dependencies_attributes` is replaced by the built attributes, or the action fails with the error `find` raises |
| Engine.TodoStore.Cascade | app/models/todo.rb:297-360 | the stored graph runs the cascade of the work-list model; on success it holds the result, on failure or exhaustion it is rolled back |
| Engine.TodoStore.Advance | app/models/todo.rb:297-360 | one step of the cascade either ends the run with that step's abort or continues it from the step's graph, with the join rows untouched |
| Engine.TodoStore.WriteAndCascade | app/models/todo.rb:81-85 | the written row and the cascade after it form one transaction: on success the store holds the cascade's result, otherwise the row is rolled back with it |
| Engine.TodoStore.Update | app/models/todo.rb:81-85 | an update of the stored graph behaves as the update model: it stops when its own save is invalid and otherwise runs the cascade, with the same commit or rollback |
| Scenarios.PlanSaveWritten | app/models/todo.rb:311-312 | a todo's own save of an end five days later passes validation and is written |
| Scenarios.LaterEndShiftsDependent | app/models/todo.rb:297-315 | after that save, the callbacks shift its only dependent, which overlaps it, by five days on both dates and change nothing else |
| Scenarios.NudgeSaveWritten | app/models/todo.rb:311-312 | a todo's own save of an end 23 hours later passes validation and is written |
| Scenarios.SubDayEndChangeStays | app/models/todo.rb:301 | after that save, the callbacks shift nothing: the dependent keeps its dates |
| Scenarios.OpenDependencyBlocksDone | app/models/todo.rb:78 | marking a todo done while its dependency is open fails validation and changes nothing |

## Left out

- HTTP, authentication and rendering: `set_todo` and the rest of the controller actions, other than the guard at lines 41-44.
- The search scopes and SQL scopes, the jobs, mailers, migrations and schema.
- `logger` output; every `logger.debug` / `logger.error` line is omitted.
- The calendar and float arithmetic of `generate_punched_tasks` (`in_weeks`, `in_months`, `ceil`, `floor`). The model takes the number of periods and the interval in days as inputs.
- GeneratePunchedTasks: the generated children are returned as attributes; saving them, with their own validations, is not modelled.
- Association caching. Each callback phase reloads the neighbours it iterates when it starts, and each neighbour is held as it was loaded.
- Timeline.Run: the source recursion has no bound, and a cycle of zero-length todos can recurse forever. The model runs on fuel, and an exhausted run rolls back like a failed one.
- TodoValidation.Validate: the validations of staged join rows are not chained into a todo's validation. In the source, `accepts_nested_attributes_for` (app/models/todo.rb:16-27) validates each new or changed staged row with the rules of app/models/todo_dependent.rb:4-8 ahead of line 59 and copies its errors onto the todo; the model checks those rules only on their own, in `TodoDependentValidation.ValidateJoinRow`. A staged row that repeats a committed pair is therefore accepted by `Validate`, and a staged row whose todo is missing is reported as `RecordNotFound` instead of the NoMethodError the row's own validator raises.
- Engine.TodoStore.Update: nested join-row attributes of an update (`todo_dependencies_attributes`) are neither validated nor applied to the join rows.
- Timeline.UpdateRun: a todo's dates are plain integers, so an update that blanks a date cannot be expressed through it. Such an update is nil in the source, where the presence rule rejects it and the date rules raise on it. Only a `Proposal` with a missing date expresses it, and the validators handle that.
- The order of rows in the database is taken to be join-row order. This affects `find_by`, and it breaks ties in the start-date order of an association. A tie on end date in `reorder(end_date: :desc).first` goes to the first tied todo in the association's order.
- Request parameters are taken as integer ids. A `dependencies_attributes` that is not an array is not modelled.
- `app/models/todo_child.rb` is not part of this model; its rows are the parent/child edges.

## Findings

| source | as written | input that shows it | evidently intended | confidence | as-written member | corrected member |
|---|---|---|---|---|---|---|
| app/models/todo.rb:80 | `before_create ... if: -> { repeat_times > 0 }`; `repeat_times` has no default, so a nil one raises NoMethodError | any todo created without `repeat_times`, including every child that `generate_punched_tasks` builds (their attributes carry no `repeat_times`), so creating a repeating todo with at least one child fails | a todo without `repeat_times` generates no children | medium, not executed; the code and db/schema.rb show no default, but that schema predates later migrations (it has no `status` or `color` column and no `todo_dependents` table), so a later default cannot be ruled out, and spec/models/todo_spec.rb:9-11 expects `create(:todo)` without `repeat_times` to succeed | PunchedTasks.BeforeCreateAsWritten, PunchedTasks.GeneratedChildGuardRaises | PunchedTasks.BeforeCreate, PunchedTasks.GeneratedChildSkipsGeneration |
