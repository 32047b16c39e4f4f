/** The blackboard topology (core/orchestration/presets.py): the planner's reply is normalised
    into a task list, and a scheduler runs the tasks in dependency order. */
module Blackboard {
  import opened Common

  datatype Task = Task(id: string, title: string, worker: string, dependsOn: seq<string>)

  /** One element of the planner's list. Absent or falsy fields are `None`; an entry of
      `depends_on` that is neither a string nor an integer is `None` as well. */
  datatype RawItem =
    | NotAnObject
    | Object(id: Option<string>, title: Option<string>, worker: Option<string>, dependsOn: seq<Option<string>>)

  // ---- Normalising the plan -----------------------------------------------------------

  function ItemId(item: RawItem, position: nat): string
    requires item.Object?
  {
    if item.id.Some? then item.id.value else "t" + Decimal(position + 1)
  }

  function Stated(deps: seq<Option<string>>): seq<string> {
    if deps == [] then []
    else Stated(deps[..|deps| - 1]) +
         (if deps[|deps| - 1].Some? then [deps[|deps| - 1].value] else [])
  }

  function Ids(tasks: seq<Task>): set<string> {
    set t | t in tasks :: t.id
  }

  function Accepted(item: RawItem, position: nat, workers: seq<string>): Task
    requires item.Object? && workers != []
  {
    var worker := if item.worker.Some? then item.worker.value else "";
    Task(ItemId(item, position),
         if item.title.Some? then item.title.value else "Untitled task",
         if worker in workers then worker else workers[0],
         Stated(item.dependsOn))
  }

  /** Only dependencies on other tasks of the list are kept. */
  function Pruned(deps: seq<string>, known: set<string>, self: string): (r: seq<string>)
    ensures forall d :: d in r <==> d in deps && d in known && d != self
  {
    if deps == [] then []
    else Pruned(deps[..|deps| - 1], known, self) +
         (if deps[|deps| - 1] in known && deps[|deps| - 1] != self then [deps[|deps| - 1]] else [])
  }

  /** Position `i` of the reply is the first usable item with its id. */
  ghost predicate FirstWithId(raw: seq<RawItem>, i: nat)
    requires i < |raw|
  {
    raw[i].Object? && forall j :: 0 <= j < i && raw[j].Object? ==> ItemId(raw[j], j) != ItemId(raw[i], i)
  }

  /** What the scheduler rests on. */
  ghost predicate Normal(tasks: seq<Task>, workers: seq<string>) {
    && Distinctly(tasks)
    && (forall t :: t in tasks ==> t.worker in workers)
    && Closed(tasks)
  }

  /** No two tasks share an id. */
  ghost predicate Distinctly(tasks: seq<Task>) {
    forall i, j :: 0 <= i < j < |tasks| ==> tasks[i].id != tasks[j].id
  }

  ghost predicate Closed(tasks: seq<Task>) {
    forall t, d :: t in tasks && d in t.dependsOn ==> d in Ids(tasks) && d != t.id
  }

  /** `origin` are the places of the first usable item of each id among `raw[..n]`, in order. */
  ghost predicate Chosen(raw: seq<RawItem>, n: nat, origin: seq<nat>)
    requires n <= |raw|
  {
    && |origin| <= n
    && (forall i :: 0 <= i < |origin| ==> origin[i] < n && FirstWithId(raw, origin[i]))
    && (forall p: nat :: p < n && FirstWithId(raw, p) ==> p in origin)
    && (forall i, j :: 0 <= i < j < |origin| ==> origin[i] < origin[j])
  }

  /** `tasks` are the items at these places. */
  ghost predicate Picked(raw: seq<RawItem>, n: nat, workers: seq<string>, tasks: seq<Task>, origin: seq<nat>)
    requires n <= |raw| && workers != []
  {
    && |tasks| == |origin| && Chosen(raw, n, origin)
    && (forall i :: 0 <= i < |tasks| ==> tasks[i] == Accepted(raw[origin[i]], origin[i], workers))
  }

  /** The task says what the item at this position of the reply says: its id and title or what
      stands in for them, the worker it names if there is such a worker, and of its dependencies
      those on other tasks that are kept. */
  ghost predicate MadeOf(item: RawItem, position: nat, workers: seq<string>, kept: set<string>, t: Task)
    requires workers != []
  {
    && item.Object?
    && t.id == (if item.id.Some? then item.id.value else "t" + Decimal(position + 1))
    && t.title == (if item.title.Some? then item.title.value else "Untitled task")
    && (if item.worker.Some? && item.worker.value in workers then t.worker == item.worker.value
        else if item.worker.None? && "" in workers then t.worker == ""
        else t.worker == workers[0])
    && forall d :: d in t.dependsOn <==> Some(d) in item.dependsOn && d in kept && d != t.id
  }

  lemma {:induction false} StatedAreGiven(deps: seq<Option<string>>)
    ensures forall d :: d in Stated(deps) <==> Some(d) in deps
  {
    if deps != [] {
      StatedAreGiven(deps[..|deps| - 1]);
      assert deps == deps[..|deps| - 1] + [deps[|deps| - 1]];
    }
  }

  lemma PickedIdsDiffer(raw: seq<RawItem>, n: nat, workers: seq<string>, tasks: seq<Task>, origin: seq<nat>)
    requires n <= |raw| && workers != [] && Picked(raw, n, workers, tasks, origin)
    ensures forall i, j :: 0 <= i < j < |tasks| ==> tasks[i].id != tasks[j].id
  {
    forall i, j | 0 <= i < j < |tasks|
      ensures tasks[i].id != tasks[j].id
    {
      assert FirstWithId(raw, origin[i]) && FirstWithId(raw, origin[j]);
      assert origin[i] < origin[j];
      assert ItemId(raw[origin[i]], origin[i]) != ItemId(raw[origin[j]], origin[j]);
    }
  }

  ghost predicate SeenBefore(raw: seq<RawItem>, n: nat, seen: set<string>)
    requires n <= |raw|
  {
    forall s :: s in seen <==> exists p: nat :: p < n && raw[p].Object? && ItemId(raw[p], p) == s
  }

  lemma PickedStep(raw: seq<RawItem>, n: nat, workers: seq<string>, tasks: seq<Task>, origin: seq<nat>)
    requires n < |raw| && workers != [] && Picked(raw, n, workers, tasks, origin) && FirstWithId(raw, n)
    ensures Picked(raw, n + 1, workers, tasks + [Accepted(raw[n], n, workers)], origin + [n])
  {
    forall p: nat | p < n + 1 && FirstWithId(raw, p)
      ensures p in origin + [n]
    {
      assert p in origin || p == n;
    }
  }

  lemma PickedSkip(raw: seq<RawItem>, n: nat, workers: seq<string>, tasks: seq<Task>, origin: seq<nat>)
    requires n < |raw| && workers != [] && Picked(raw, n, workers, tasks, origin) && !FirstWithId(raw, n)
    ensures Picked(raw, n + 1, workers, tasks, origin)
  {}

  lemma SeenStep(raw: seq<RawItem>, n: nat, seen: set<string>)
    requires n < |raw| && SeenBefore(raw, n, seen)
    ensures FirstWithId(raw, n) <==> raw[n].Object? && ItemId(raw[n], n) !in seen
    ensures SeenBefore(raw, n + 1, if raw[n].Object? then seen + {ItemId(raw[n], n)} else seen)
  {
    var next := if raw[n].Object? then seen + {ItemId(raw[n], n)} else seen;
    forall s
      ensures s in next <==> exists p: nat :: p < n + 1 && raw[p].Object? && ItemId(raw[p], p) == s
    {
      if s in seen {
        var p: nat :| p < n && raw[p].Object? && ItemId(raw[p], p) == s;
      }
    }
  }

  /** The first loop of `_normalise_tasks`. */
  method AcceptItems(raw: seq<RawItem>, n: nat, workers: seq<string>) returns (tasks: seq<Task>, ghost origin: seq<nat>)
    requires workers != [] && n <= |raw|
    ensures Picked(raw, n, workers, tasks, origin)
  {
    tasks, origin := [], [];
    var seen: set<string> := {};
    for position := 0 to n
      invariant Picked(raw, position, workers, tasks, origin)
      invariant SeenBefore(raw, position, seen)
    {
      var item := raw[position];
      SeenStep(raw, position, seen);
      if item.Object? && ItemId(item, position) !in seen {
        PickedStep(raw, position, workers, tasks, origin);
        tasks := tasks + [Accepted(item, position, workers)];
        origin := origin + [position];
      } else {
        PickedSkip(raw, position, workers, tasks, origin);
      }
      if item.Object? {
        seen := seen + {ItemId(item, position)};
      }
    }
  }

  /** The second loop of `_normalise_tasks`: drops dependencies on anything else. */
  method PruneAll(whole: seq<Task>) returns (tasks: seq<Task>)
    ensures |tasks| == |whole|
    ensures forall i :: 0 <= i < |tasks| ==>
              tasks[i] == whole[i].(dependsOn := Pruned(whole[i].dependsOn, Ids(whole), whole[i].id))
    ensures Ids(tasks) == Ids(whole)
  {
    tasks := whole;
    var known := Ids(whole);
    for k := 0 to |whole|
      invariant |tasks| == |whole|
      invariant forall i :: k <= i < |tasks| ==> tasks[i] == whole[i]
      invariant forall i :: 0 <= i < k ==>
                  tasks[i] == whole[i].(dependsOn := Pruned(whole[i].dependsOn, known, whole[i].id))
    {
      tasks := tasks[k := tasks[k].(dependsOn := Pruned(tasks[k].dependsOn, known, tasks[k].id))];
    }
    SameIds(whole, tasks);
  }

  /** `_normalise_tasks`: `origin` says where in the reply each task stood. */
  method NormaliseTasks(raw: Option<seq<RawItem>>, workers: seq<string>, maxTasks: nat)
    returns (tasks: seq<Task>, ghost origin: seq<nat>)
    requires workers != []
    ensures raw.None? ==> tasks == []
    ensures |tasks| == |origin| <= maxTasks
    ensures Normal(tasks, workers)
    ensures raw.Some? ==>
              && Chosen(raw.value, Min(|raw.value|, maxTasks), origin)
              && forall i :: 0 <= i < |tasks| ==> MadeOf(raw.value[origin[i]], origin[i], workers, Ids(tasks), tasks[i])
  {
    tasks, origin := [], [];
    if raw.Some? {
      var accepted;
      accepted, origin := AcceptItems(raw.value, Min(|raw.value|, maxTasks), workers);
      PickedIdsDiffer(raw.value, Min(|raw.value|, maxTasks), workers, accepted, origin);
      tasks := PruneAll(accepted);
      forall i | 0 <= i < |tasks|
        ensures MadeOf(raw.value[origin[i]], origin[i], workers, Ids(tasks), tasks[i])
      {
        StatedAreGiven(raw.value[origin[i]].dependsOn);
      }
    }
  }

  lemma SameIds(a: seq<Task>, b: seq<Task>)
    requires |a| == |b| && forall i :: 0 <= i < |a| ==> a[i].id == b[i].id
    ensures Ids(a) == Ids(b)
  {
    forall s
      ensures s in Ids(a) <==> s in Ids(b)
    {
      if s in Ids(a) {
        var i :| 0 <= i < |a| && a[i].id == s;
        assert b[i] in b;
      }
      if s in Ids(b) {
        var i :| 0 <= i < |b| && b[i].id == s;
        assert a[i] in a;
      }
    }
  }

  // ---- Dependencies -------------------------------------------------------------------

  ghost predicate DependsOn(tasks: seq<Task>, a: string, b: string) {
    exists t :: t in tasks && t.id == a && b in t.dependsOn
  }

  /** A chain of task ids, each depending on the next. */
  ghost predicate DependencyPath(tasks: seq<Task>, p: seq<string>) {
    |p| > 0 && forall k :: 0 <= k < |p| - 1 ==> DependsOn(tasks, p[k], p[k + 1])
  }

  ghost predicate Repeats(p: seq<string>) {
    exists i, j :: 0 <= i < j < |p| && p[i] == p[j]
  }

  /** Following dependencies from `id` one can run into a cycle. */
  ghost predicate LeadsToCycle(tasks: seq<Task>, id: string) {
    exists p :: DependencyPath(tasks, p) && p[0] == id && Repeats(p)
  }

  ghost predicate Cyclic(tasks: seq<Task>) {
    exists id :: LeadsToCycle(tasks, id)
  }

  /** No task that has not run is ready. */
  ghost predicate Stuck(tasks: seq<Task>, done: set<string>) {
    forall t :: t in tasks && t.id !in done ==> exists d :: d in t.dependsOn && d !in done
  }

  /** Among stuck tasks one can always follow one more dependency. */
  lemma {:induction false} Descend(tasks: seq<Task>, done: set<string>, id: string, n: nat) returns (p: seq<string>)
    requires Closed(tasks) && Stuck(tasks, done) && id in Ids(tasks) && id !in done
    ensures |p| == n + 1 && p[0] == id && DependencyPath(tasks, p)
    ensures forall k :: 0 <= k < |p| ==> p[k] in Ids(tasks) && p[k] !in done
  {
    if n == 0 {
      p := [id];
    } else {
      var q := Descend(tasks, done, id, n - 1);
      var t :| t in tasks && t.id == q[n - 1];
      var d :| d in t.dependsOn && d !in done;
      p := q + [d];
      assert DependsOn(tasks, q[n - 1], d);
    }
  }

  lemma StuckLeadsToCycle(tasks: seq<Task>, done: set<string>, t: Task)
    requires Closed(tasks) && Stuck(tasks, done) && t in tasks && t.id !in done
    ensures LeadsToCycle(tasks, t.id)
  {
    var p := Descend(tasks, done, t.id, |Ids(tasks)|);
    Pigeonhole(p, Ids(tasks));
  }

  // ---- Scheduling ---------------------------------------------------------------------

  /** One finished task; `forced` when it ran although its dependencies had not. */
  datatype Ran = Ran(task: Task, forced: bool)

  function RanIds(log: seq<Ran>): set<string> {
    set r | r in log :: r.task.id
  }

  /** Every task at most once; after its dependencies, unless nothing at all was ready. */
  ghost predicate Orderly(tasks: seq<Task>, log: seq<Ran>) {
    && (forall i :: 0 <= i < |log| ==> log[i].task in tasks)
    && (forall i, j :: 0 <= i < j < |log| ==> log[i].task.id != log[j].task.id)
    && (forall i :: 0 <= i < |log| ==>
          if log[i].forced then Stuck(tasks, RanIds(log[..i]))
          else forall d :: d in log[i].task.dependsOn ==> d in RanIds(log[..i]))
  }

  ghost predicate Complete(tasks: seq<Task>, log: seq<Ran>) {
    forall t :: t in tasks ==> exists i :: 0 <= i < |log| && log[i].task == t
  }

  /** The fallback runs a task only when it and every other task still waiting depends, in the
      end, on a cycle. A task that does not is never forced. */
  lemma ForcedOnlyOnCycles(tasks: seq<Task>, log: seq<Ran>, i: nat)
    requires Closed(tasks) && Orderly(tasks, log) && i < |log| && log[i].forced
    ensures LeadsToCycle(tasks, log[i].task.id)
    ensures forall t :: t in tasks && t.id !in RanIds(log[..i]) ==> LeadsToCycle(tasks, t.id)
  {
    forall t | t in tasks && t.id !in RanIds(log[..i])
      ensures LeadsToCycle(tasks, t.id)
    {
      StuckLeadsToCycle(tasks, RanIds(log[..i]), t);
    }
    assert log[i].task.id !in RanIds(log[..i]);
  }

  lemma EarlierInLog(tasks: seq<Task>, log: seq<Ran>, a: string, b: string) returns (i: nat, j: nat)
    requires Distinctly(tasks) && Orderly(tasks, log) && Complete(tasks, log)
    requires forall k :: 0 <= k < |log| ==> !log[k].forced
    requires DependsOn(tasks, a, b)
    ensures j < i < |log| && log[i].task.id == a && log[j].task.id == b
  {
    var t :| t in tasks && t.id == a && b in t.dependsOn;
    i :| 0 <= i < |log| && log[i].task == t;
    assert b in RanIds(log[..i]);
    var r :| r in log[..i] && r.task.id == b;
    j :| 0 <= j < i && log[j] == r;
  }

  /** Along a dependency path the tasks ran in the opposite order. */
  lemma {:induction false} PathRunsBackwards(tasks: seq<Task>, log: seq<Ran>, p: seq<string>, a: nat, b: nat)
    returns (i: nat, j: nat)
    requires Distinctly(tasks) && Orderly(tasks, log) && Complete(tasks, log)
    requires forall k :: 0 <= k < |log| ==> !log[k].forced
    requires DependencyPath(tasks, p) && a < b < |p|
    ensures j < i < |log| && log[i].task.id == p[a] && log[j].task.id == p[b]
    decreases b
  {
    if b == a + 1 {
      i, j := EarlierInLog(tasks, log, p[a], p[b]);
    } else {
      var k;
      i, k := PathRunsBackwards(tasks, log, p, a, b - 1);
      var k';
      k', j := EarlierInLog(tasks, log, p[b - 1], p[b]);
      assert k' == k;
    }
  }

  /** The fallback fires exactly on cyclic plans, so on an acyclic one every task runs after
      all its dependencies. */
  lemma FallbackIffCyclic(tasks: seq<Task>, log: seq<Ran>)
    requires Closed(tasks) && Distinctly(tasks) && Orderly(tasks, log) && Complete(tasks, log)
    ensures (exists i :: 0 <= i < |log| && log[i].forced) <==> Cyclic(tasks)
  {
    if i :| 0 <= i < |log| && log[i].forced {
      ForcedOnlyOnCycles(tasks, log, i);
    } else if Cyclic(tasks) {
      var id :| LeadsToCycle(tasks, id);
      var p :| DependencyPath(tasks, p) && p[0] == id && Repeats(p);
      var a, b :| 0 <= a < b < |p| && p[a] == p[b];
      var i, j := PathRunsBackwards(tasks, log, p, a, b);
      assert false;
    }
  }

  /** `pending` are the tasks not run yet. */
  ghost predicate Waiting(tasks: seq<Task>, log: seq<Ran>, pending: seq<Task>) {
    && (forall t :: t in pending <==> t in tasks && t.id !in RanIds(log))
    && Distinctly(pending)
    && |pending| + |log| == |tasks|
  }

  function Ready(pending: seq<Task>, done: set<string>): (r: seq<Task>)
    ensures forall t :: t in r <==> t in pending && forall d :: d in t.dependsOn ==> d in done
    ensures Distinctly(pending) ==> Distinctly(r)
    ensures |r| <= |pending|
  {
    if pending == [] then []
    else
      var last := pending[|pending| - 1];
      Ready(pending[..|pending| - 1], done) + (if forall d :: d in last.dependsOn ==> d in done then [last] else [])
  }

  /** `list.remove`: the first equal element goes. */
  function Remove(pending: seq<Task>, t: Task): (r: seq<Task>)
    requires t in pending
    ensures |r| == |pending| - 1
  {
    if pending[0] == t then pending[1..] else [pending[0]] + Remove(pending[1..], t)
  }

  lemma {:induction false} RemoveMembers(pending: seq<Task>, t: Task)
    requires t in pending && Distinctly(pending)
    ensures Distinctly(Remove(pending, t)) && forall u :: u in Remove(pending, t) <==> u in pending && u != t
  {
    var first, rest := pending[0], pending[1..];
    assert pending == [first] + rest;
    if first != t {
      RemoveMembers(rest, t);
      FirstStays(first, rest, Remove(rest, t), t);
    }
  }

  lemma FirstStays(first: Task, rest: seq<Task>, left: seq<Task>, t: Task)
    requires Distinctly([first] + rest) && Distinctly(left) && first != t
    requires forall u :: u in left <==> u in rest && u != t
    ensures Distinctly([first] + left)
  {
    forall k | 0 <= k < |left|
      ensures left[k].id != first.id
    {
      assert left[k] in left && left[k] in rest;
      var i :| 0 <= i < |rest| && rest[i] == left[k];
      assert ([first] + rest)[0] == first && ([first] + rest)[i + 1] == left[k];
    }
  }

  lemma RanIdsAppend(log: seq<Ran>, r: Ran)
    ensures RanIds(log + [r]) == RanIds(log) + {r.task.id}
  {
    assert forall q :: q in log + [r] <==> q in log || q == r;
  }

  lemma SameTask(tasks: seq<Task>, a: Task, b: Task)
    requires Distinctly(tasks) && a in tasks && b in tasks && a.id == b.id
    ensures a == b
  {}

  lemma RunStep(tasks: seq<Task>, log: seq<Ran>, pending: seq<Task>, t: Task, forced: bool)
    requires Distinctly(tasks) && Orderly(tasks, log) && Waiting(tasks, log, pending) && t in pending
    requires if forced then Stuck(tasks, RanIds(log)) else forall d :: d in t.dependsOn ==> d in RanIds(log)
    ensures Orderly(tasks, log + [Ran(t, forced)])
    ensures Waiting(tasks, log + [Ran(t, forced)], Remove(pending, t))
  {
    var log' := log + [Ran(t, forced)];
    RemoveMembers(pending, t);
    RanIdsAppend(log, Ran(t, forced));
    assert log'[..|log|] == log;
    forall i | 0 <= i < |log|
      ensures log'[..i] == log[..i] && log[i].task.id != t.id
    {
      assert log[i] in log;
    }
    forall u | u in tasks
      ensures u in Remove(pending, t) <==> u.id !in RanIds(log')
    {
      if u.id == t.id {
        SameTask(tasks, u, t);
      }
    }
  }

  // ---- The schedule as a function of the plan -----------------------------------------

  /** `pending` without the tasks whose id is in `ids`, in the same order. */
  function Without(pending: seq<Task>, ids: set<string>): (r: seq<Task>)
    ensures |r| <= |pending|
    ensures forall t :: t in r <==> t in pending && t.id !in ids
  {
    if pending == [] then []
    else
      assert pending == [pending[0]] + pending[1..];
      if pending[0].id in ids then Without(pending[1..], ids) else [pending[0]] + Without(pending[1..], ids)
  }

  lemma {:induction false} WithoutShrinks(pending: seq<Task>, ids: set<string>, t: Task)
    requires t in pending && t.id in ids
    ensures |Without(pending, ids)| < |pending|
  {
    assert pending == [pending[0]] + pending[1..];
    if pending[0].id !in ids {
      WithoutShrinks(pending[1..], ids, t);
    }
  }

  lemma {:induction false} RemoveIsWithout(pending: seq<Task>, ids: set<string>, t: Task)
    requires Distinctly(pending) && t in pending && t.id !in ids
    ensures Remove(Without(pending, ids), t) == Without(pending, ids + {t.id})
  {
    var first, rest := pending[0], pending[1..];
    assert pending == [first] + rest;
    if first == t {
      NoneToTake(rest, ids, t.id);
    } else {
      assert t in rest && first.id != t.id;
      RemoveIsWithout(rest, ids, t);
    }
  }

  lemma {:induction false} NoneToTake(pending: seq<Task>, ids: set<string>, id: string)
    requires forall k :: 0 <= k < |pending| ==> pending[k].id != id
    ensures Without(pending, ids + {id}) == Without(pending, ids)
  {
    if pending != [] {
      NoneToTake(pending[1..], ids, id);
    }
  }

  lemma {:induction false} WithoutNone(pending: seq<Task>)
    ensures Without(pending, {}) == pending
  {
    if pending != [] {
      WithoutNone(pending[1..]);
    }
  }

  function Runs(batch: seq<Task>, forced: bool): seq<Ran> {
    seq(|batch|, i requires 0 <= i < |batch| => Ran(batch[i], forced))
  }

  /** The next round: everything that is ready, or else the first task that waits. */
  function Batch(pending: seq<Task>, done: set<string>): (r: seq<Task>)
    requires pending != []
    ensures r != [] && forall t :: t in r ==> t in pending
  {
    if Ready(pending, done) == [] then pending[..1] else Ready(pending, done)
  }

  /** The order in which a plan is worked off. */
  function Schedule(pending: seq<Task>, done: set<string>): seq<Ran>
    decreases |pending|
  {
    if pending == [] then []
    else
      var batch := Batch(pending, done);
      WithoutShrinks(pending, Ids(batch), batch[0]);
      Runs(batch, Ready(pending, done) == []) + Schedule(Without(pending, Ids(batch)), done + Ids(batch))
  }

  lemma RunsPrefix(log: seq<Ran>, batch: seq<Task>, forced: bool, k: nat)
    requires k < |batch|
    ensures log + Runs(batch, forced)[..k + 1] == (log + Runs(batch, forced)[..k]) + [Ran(batch[k], forced)]
  {}

  lemma IdsSplit(batch: seq<Task>, k: nat)
    requires k < |batch|
    ensures Ids(batch[..k + 1]) == Ids(batch[..k]) + {batch[k].id}
  {
    assert batch[..k + 1] == batch[..k] + [batch[k]];
  }

  /** The scheduler between two tasks. */
  ghost predicate Working(tasks: seq<Task>, log: seq<Ran>, pending: seq<Task>, done: set<string>) {
    Orderly(tasks, log) && Waiting(tasks, log, pending) && done == RanIds(log)
  }

  lemma TaskRan(tasks: seq<Task>, log0: seq<Ran>, waiting: seq<Task>, done0: set<string>, ready: seq<Task>, forced: bool,
                k: nat, log: seq<Ran>, pending: seq<Task>, done: set<string>)
    requires Distinctly(tasks) && Working(tasks, log, pending, done) && Distinctly(waiting)
    requires Distinctly(ready) && k < |ready| && ready[k] in waiting
    requires if forced then |ready| == 1 && Stuck(tasks, done0) else forall d :: d in ready[k].dependsOn ==> d in done0
    requires pending == Without(waiting, Ids(ready[..k])) && done == done0 + Ids(ready[..k])
    requires log == log0 + Runs(ready, forced)[..k]
    ensures Working(tasks, log0 + Runs(ready, forced)[..k + 1], Without(waiting, Ids(ready[..k + 1])), done0 + Ids(ready[..k + 1]))
  {
    IdsSplit(ready, k);
    assert ready[k].id !in Ids(ready[..k]);
    RunStep(tasks, log, pending, ready[k], forced);
    RanIdsAppend(log, Ran(ready[k], forced));
    RemoveIsWithout(waiting, Ids(ready[..k]), ready[k]);
    RunsPrefix(log0, ready, forced, k);
  }

  /** What may run next: tasks whose dependencies are done, or one of the stuck ones. */
  ghost predicate MayRun(tasks: seq<Task>, waiting: seq<Task>, done: set<string>, ready: seq<Task>, forced: bool) {
    && Distinctly(ready) && (forall t :: t in ready ==> t in waiting)
    && if forced then |ready| == 1 && Stuck(tasks, done) else forall t, d :: t in ready && d in t.dependsOn ==> d in done
  }

  lemma {:induction false} BatchRan(tasks: seq<Task>, log: seq<Ran>, waiting: seq<Task>, done: set<string>, ready: seq<Task>,
                                    forced: bool, k: nat)
    requires Distinctly(tasks) && Working(tasks, log, waiting, done) && MayRun(tasks, waiting, done, ready, forced)
    requires k <= |ready|
    ensures Working(tasks, log + Runs(ready, forced)[..k], Without(waiting, Ids(ready[..k])), done + Ids(ready[..k]))
  {
    if k == 0 {
      WithoutNone(waiting);
      assert Ids(ready[..0]) == {} && Runs(ready, forced)[..0] == [];
      assert log + [] == log && done + {} == done;
    } else {
      BatchRan(tasks, log, waiting, done, ready, forced, k - 1);
      TaskRan(tasks, log, waiting, done, ready, forced, k - 1, log + Runs(ready, forced)[..k - 1],
              Without(waiting, Ids(ready[..k - 1])), done + Ids(ready[..k - 1]));
    }
  }

  lemma NextBatchMayRun(tasks: seq<Task>, log: seq<Ran>, pending: seq<Task>, done: set<string>)
    requires Working(tasks, log, pending, done) && pending != []
    ensures MayRun(tasks, pending, done, Batch(pending, done), Ready(pending, done) == [])
  {
    if Ready(pending, done) == [] {
      forall t | t in tasks && t.id !in done
        ensures exists d :: d in t.dependsOn && d !in done
      {
        assert t in pending && t !in Ready(pending, done);
      }
    }
  }

  lemma RoundRan(tasks: seq<Task>, log: seq<Ran>, pending: seq<Task>, done: set<string>)
    requires Distinctly(tasks) && Working(tasks, log, pending, done) && pending != []
    ensures var batch := Batch(pending, done);
            Working(tasks, log + Runs(batch, Ready(pending, done) == []), Without(pending, Ids(batch)), done + Ids(batch))
  {
    var batch, forced := Batch(pending, done), Ready(pending, done) == [];
    NextBatchMayRun(tasks, log, pending, done);
    BatchRan(tasks, log, pending, done, batch, forced, |batch|);
    Whole(batch);
    Whole(Runs(batch, forced));
  }

  lemma Whole<T>(s: seq<T>)
    ensures s[..|s|] == s
  {}

  lemma OneRound(pending: seq<Task>, done: set<string>)
    requires pending != []
    ensures var ready := Batch(pending, done);
            && |Without(pending, Ids(ready))| < |pending|
            && Schedule(pending, done) ==
               Runs(ready, Ready(pending, done) == []) + Schedule(Without(pending, Ids(ready)), done + Ids(ready))
  {
    var ready := Batch(pending, done);
    WithoutShrinks(pending, Ids(ready), ready[0]);
  }

  lemma Joined(a: seq<Ran>, b: seq<Ran>, c: seq<Ran>)
    ensures a + (b + c) == (a + b) + c
  {}

  lemma {:induction false} ScheduleWorks(tasks: seq<Task>, log: seq<Ran>, pending: seq<Task>, done: set<string>)
    requires Distinctly(tasks) && Working(tasks, log, pending, done)
    ensures Working(tasks, log + Schedule(pending, done), [], RanIds(log + Schedule(pending, done)))
    decreases |pending|
  {
    if pending == [] {
      assert log + [] == log;
    } else {
      var batch, forced := Batch(pending, done), Ready(pending, done) == [];
      RoundRan(tasks, log, pending, done);
      OneRound(pending, done);
      var rest, later := Without(pending, Ids(batch)), done + Ids(batch);
      ScheduleWorks(tasks, log + Runs(batch, forced), rest, later);
      Joined(log, Runs(batch, forced), Schedule(rest, later));
    }
  }

  /** Every task runs exactly once, after its dependencies unless nothing at all was ready. */
  lemma ScheduleIsOrderly(tasks: seq<Task>)
    requires Distinctly(tasks)
    ensures var log := Schedule(tasks, {});
            Orderly(tasks, log) && Complete(tasks, log) && |log| == |tasks|
  {
    var log := Schedule(tasks, {});
    assert RanIds([]) == {};
    ScheduleWorks(tasks, [], tasks, {});
    assert [] + log == log;
    AllRan(tasks, log);
  }

  lemma AllRan(tasks: seq<Task>, log: seq<Ran>)
    requires Distinctly(tasks) && Orderly(tasks, log) && Waiting(tasks, log, [])
    ensures Complete(tasks, log)
  {
    forall t | t in tasks
      ensures exists i :: 0 <= i < |log| && log[i].task == t
    {
      assert t !in [];
      var r :| r in log && r.task.id == t.id;
      SameTask(tasks, r.task, t);
    }
  }

  /** A plan falls back exactly when it has a cycle. */
  lemma PlanFallsBackIffCyclic(tasks: seq<Task>)
    requires Closed(tasks) && Distinctly(tasks)
    ensures var log := Schedule(tasks, {});
            (exists i :: 0 <= i < |log| && log[i].forced) <==> Cyclic(tasks)
  {
    ScheduleIsOrderly(tasks);
    FallbackIffCyclic(tasks, Schedule(tasks, {}));
  }

  // ---- Rounds -------------------------------------------------------------------------

  /** `a` stands before `b` in the list. */
  ghost predicate Before(tasks: seq<Task>, a: Task, b: Task) {
    exists p, q :: 0 <= p < q < |tasks| && tasks[p] == a && tasks[q] == b
  }

  ghost predicate InDeclaredOrder(tasks: seq<Task>, some: seq<Task>) {
    forall i, j :: 0 <= i < j < |some| ==> Before(tasks, some[i], some[j])
  }

  /** What is waiting, with nothing left to wait for. */
  ghost predicate IsReady(t: Task, done: set<string>) {
    t.id !in done && forall d :: d in t.dependsOn ==> d in done
  }

  /** One round of the scheduler, when `done` are done: in declared order, all those that are ready,
      or else the first of those that wait. */
  ghost predicate IsRound(tasks: seq<Task>, done: set<string>, round: seq<Ran>) {
    round != [] &&
    if forall t :: t in tasks ==> !IsReady(t, done) then IsForcedRound(tasks, done, round)
    else IsReadyRound(tasks, done, round)
  }

  ghost predicate IsForcedRound(tasks: seq<Task>, done: set<string>, round: seq<Ran>) {
    && |round| == 1 && round[0].forced && round[0].task in tasks && round[0].task.id !in done
    && forall t :: t in tasks && t.id !in done && t != round[0].task ==> Before(tasks, round[0].task, t)
  }

  ghost predicate IsReadyRound(tasks: seq<Task>, done: set<string>, round: seq<Ran>) {
    && (forall i :: 0 <= i < |round| ==> !round[i].forced)
    && (forall i, j :: 0 <= i < j < |round| ==> Before(tasks, round[i].task, round[j].task))
    && forall t :: t in tasks ==> (IsReady(t, done) <==> exists i :: 0 <= i < |round| && round[i].task == t)
  }

  lemma {:induction false} ReadyInOrder(tasks: seq<Task>, pending: seq<Task>, done: set<string>)
    requires InDeclaredOrder(tasks, pending)
    ensures InDeclaredOrder(tasks, Ready(pending, done))
  {
    if pending != [] {
      var front, last := pending[..|pending| - 1], pending[|pending| - 1];
      ReadyInOrder(tasks, front, done);
      var ready := Ready(front, done);
      forall i | 0 <= i < |ready|
        ensures Before(tasks, ready[i], last)
      {
        assert ready[i] in front;
      }
    }
  }

  lemma {:induction false} WithoutInOrder(tasks: seq<Task>, pending: seq<Task>, ids: set<string>)
    requires InDeclaredOrder(tasks, pending)
    ensures InDeclaredOrder(tasks, Without(pending, ids))
  {
    if pending != [] {
      var first, rest := pending[0], pending[1..];
      WithoutInOrder(tasks, rest, ids);
      var left := Without(rest, ids);
      forall i | 0 <= i < |left|
        ensures Before(tasks, first, left[i])
      {
        assert left[i] in rest;
      }
    }
  }

  lemma ReadyAreReady(tasks: seq<Task>, log: seq<Ran>, pending: seq<Task>, done: set<string>)
    requires Working(tasks, log, pending, done)
    ensures forall t :: t in tasks ==> (IsReady(t, done) <==> t in Ready(pending, done))
    ensures forall t :: t in Ready(pending, done) ==> t in tasks
  {}

  lemma RunsAreReady(tasks: seq<Task>, done: set<string>, ready: seq<Task>)
    requires InDeclaredOrder(tasks, ready) && forall t :: t in tasks ==> (IsReady(t, done) <==> t in ready)
    ensures IsReadyRound(tasks, done, Runs(ready, false))
  {
    var round := Runs(ready, false);
    forall t | t in tasks
      ensures IsReady(t, done) <==> exists i :: 0 <= i < |round| && round[i].task == t
    {
      if t in ready {
        var i :| 0 <= i < |ready| && ready[i] == t;
        assert round[i].task == t;
      }
    }
  }

  lemma FirstIsForced(tasks: seq<Task>, log: seq<Ran>, pending: seq<Task>, done: set<string>)
    requires Working(tasks, log, pending, done) && InDeclaredOrder(tasks, pending) && pending != []
    ensures IsForcedRound(tasks, done, Runs(pending[..1], true))
  {
    forall t | t in tasks && t.id !in done && t != pending[0]
      ensures Before(tasks, pending[0], t)
    {
      var j :| 0 <= j < |pending| && pending[j] == t;
    }
  }

  lemma BatchIsRound(tasks: seq<Task>, log: seq<Ran>, pending: seq<Task>, done: set<string>)
    requires Working(tasks, log, pending, done) && InDeclaredOrder(tasks, pending) && pending != []
    ensures IsRound(tasks, done, Runs(Batch(pending, done), Ready(pending, done) == []))
  {
    ReadyAreReady(tasks, log, pending, done);
    if Ready(pending, done) == [] {
      FirstIsForced(tasks, log, pending, done);
    } else {
      ReadyInOrder(tasks, pending, done);
      RunsAreReady(tasks, done, Ready(pending, done));
      assert IsReady(Ready(pending, done)[0], done);
    }
  }

  /** One round after the other. */
  ghost predicate InRounds(tasks: seq<Task>, done: set<string>, rounds: seq<seq<Ran>>) 
    decreases |rounds|
  {
    rounds == [] || (IsRound(tasks, done, rounds[0]) && InRounds(tasks, done + RanIds(rounds[0]), rounds[1..]))
  }

  function Flat(rounds: seq<seq<Ran>>): seq<Ran> {
    if rounds == [] then [] else rounds[0] + Flat(rounds[1..])
  }

  lemma RunsIds(batch: seq<Task>, forced: bool)
    ensures RanIds(Runs(batch, forced)) == Ids(batch)
  {
    var runs := Runs(batch, forced);
    assert forall i :: 0 <= i < |batch| ==> runs[i] in runs && runs[i].task == batch[i];
  }

  lemma {:induction false} RoundsFrom(tasks: seq<Task>, log: seq<Ran>, pending: seq<Task>, done: set<string>)
    returns (rounds: seq<seq<Ran>>)
    requires Distinctly(tasks) && Working(tasks, log, pending, done) && InDeclaredOrder(tasks, pending)
    ensures InRounds(tasks, done, rounds) && Flat(rounds) == Schedule(pending, done)
    decreases |pending|
  {
    if pending == [] {
      rounds := [];
    } else {
      var batch, forced := Batch(pending, done), Ready(pending, done) == [];
      RoundRan(tasks, log, pending, done);
      OneRound(pending, done);
      BatchIsRound(tasks, log, pending, done);
      WithoutInOrder(tasks, pending, Ids(batch));
      RunsIds(batch, forced);
      var later := RoundsFrom(tasks, log + Runs(batch, forced), Without(pending, Ids(batch)), done + Ids(batch));
      rounds := [Runs(batch, forced)] + later;
      assert rounds[1..] == later;
    }
  }

  /** The schedule goes in rounds, and the rounds leave no choice: each is all that is ready by
      then, in declared order, or the first task that waits. */
  lemma ScheduleGoesInRounds(tasks: seq<Task>) returns (rounds: seq<seq<Ran>>)
    requires Distinctly(tasks)
    ensures InRounds(tasks, {}, rounds) && Flat(rounds) == Schedule(tasks, {})
  {
    assert RanIds([]) == {};
    forall i, j | 0 <= i < j < |tasks|
      ensures Before(tasks, tasks[i], tasks[j])
    {}
    rounds := RoundsFrom(tasks, [], tasks, {});
  }

  // ---- The loops ----------------------------------------------------------------------

  lemma {:induction false} WithoutKeepsDistinct(pending: seq<Task>, ids: set<string>)
    requires Distinctly(pending)
    ensures Distinctly(Without(pending, ids))
  {
    if pending != [] {
      WithoutKeepsDistinct(pending[1..], ids);
      var rest := Without(pending[1..], ids);
      assert forall k :: 0 <= k < |rest| ==> rest[k] in pending[1..];
    }
  }

  /** The inner loop: one round. The engine lets `calls` calls through in all and then raises (a
      ceiling, a cancellation, a provider error), which ends the run. */
  method RunBatch(log0: seq<Ran>, waiting: seq<Task>, done0: set<string>, ready: seq<Task>, forced: bool, calls: nat)
    returns (log: seq<Ran>, pending: seq<Task>, done: set<string>, aborted: bool)
    requires Distinctly(waiting) && Distinctly(ready) && (forall t :: t in ready ==> t in waiting) && |log0| <= calls
    ensures aborted ==> calls < |log0| + |ready| && log == log0 + Runs(ready, forced)[..calls - |log0|]
    ensures !aborted ==> && log == log0 + Runs(ready, forced) && |log| <= calls
                         && pending == Without(waiting, Ids(ready)) && done == done0 + Ids(ready)
  {
    log, pending, done := log0, waiting, done0;
    WithoutNone(waiting);
    assert Ids(ready[..0]) == {};
    for k := 0 to |ready|
      invariant pending == Without(waiting, Ids(ready[..k])) && done == done0 + Ids(ready[..k])
      invariant log == log0 + Runs(ready, forced)[..k] && |log| <= calls
    {
      if |log| == calls {
        return log, pending, done, true;
      }
      IdsSplit(ready, k);
      assert ready[k] in waiting && ready[k].id !in Ids(ready[..k]);
      RemoveIsWithout(waiting, Ids(ready[..k]), ready[k]);
      RunsPrefix(log0, ready, forced, k);
      log := log + [Ran(ready[k], forced)];
      done := done + {ready[k].id};
      pending := Remove(pending, ready[k]);
    }
    assert ready[..|ready|] == ready;
    aborted := false;
  }

  /** One turn of the outer loop: what is ready, or else the first task that waits. */
  method RunRound(log0: seq<Ran>, waiting: seq<Task>, done0: set<string>, calls: nat, ghost whole: seq<Ran>)
    returns (log: seq<Ran>, pending: seq<Task>, done: set<string>, aborted: bool)
    requires Distinctly(waiting) && |log0| <= calls && waiting != [] && log0 + Schedule(waiting, done0) == whole
    ensures aborted ==> calls < |whole| && log == whole[..calls]
    ensures !aborted ==> && |log| <= calls && |pending| < |waiting| && Distinctly(pending)
                         && log + Schedule(pending, done) == whole
  {
    var ready := Ready(waiting, done0);
    var forced := ready == [];
    if forced {
      ready := waiting[..1];
    }
    WithoutKeepsDistinct(waiting, Ids(ready));
    OneRound(waiting, done0);
    PartOf(log0, Runs(ready, forced), Schedule(Without(waiting, Ids(ready)), done0 + Ids(ready)), whole, calls);
    log, pending, done, aborted := RunBatch(log0, waiting, done0, ready, forced, calls);
  }

  /** The loop of `run_blackboard`: it works the schedule off, as far as the engine lets it. */
  method RunTasks(tasks: seq<Task>, calls: nat) returns (log: seq<Ran>, aborted: bool)
    requires Distinctly(tasks)
    ensures var whole := Schedule(tasks, {});
            if calls < |whole| then aborted && log == whole[..calls] else !aborted && log == whole
  {
    log := [];
    var done: set<string> := {};
    var pending := tasks;
    ghost var whole := Schedule(tasks, {});
    while pending != []
      invariant Distinctly(pending) && |log| <= calls && log + Schedule(pending, done) == whole
      decreases |pending|
    {
      log, pending, done, aborted := RunRound(log, pending, done, calls, whole);
      if aborted {
        return;
      }
    }
    aborted := false;
    NothingLeft(log, pending, done, whole);
  }

  lemma PartOf(log: seq<Ran>, runs: seq<Ran>, later: seq<Ran>, whole: seq<Ran>, calls: nat)
    requires log + (runs + later) == whole && |log| <= calls
    ensures (log + runs) + later == whole
    ensures |log| + |runs| > calls ==> calls < |whole| && log + runs[..calls - |log|] == whole[..calls]
  {}

  lemma NothingLeft(log: seq<Ran>, pending: seq<Task>, done: set<string>, whole: seq<Ran>)
    requires log + Schedule(pending, done) == whole && pending == []
    ensures log == whole
  {
    assert log + [] == log;
  }
}
