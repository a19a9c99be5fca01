/**
 * The planning agent: a plan from objectives and tasks, with tasks grouped
 * under the first objective that claims them, an end date, and Gantt data
 * (a schedule per task plus a chain of finish-to-start dependencies).
 * Dates are day numbers; `mint` stands for `uuidv4`.
 */
module Planner {
  import opened Wrappers
  import opened Text
  import opened Sorting
  import opened Dates
  import Config

  /** A task as the planner reads it; a falsy `dueDate` is `None`, a falsy `assignee` is `""`. */
  datatype PlanTask = PlanTask(id: string, text: string, status: string, dueDate: Option<int>, assignee: string)

  /** An objective as the planner reads it; `relatedTasks` may be absent. */
  datatype Goal = Goal(id: string, text: string, relatedTasks: Option<seq<string>>)

  datatype PlanObjective = PlanObjective(id: string, text: string, tasks: seq<PlanTask>)

  datatype GanttTask = GanttTask(id: string, text: string, start: int, end: int, progress: real, assignee: string)

  /** A dependency; `kind` 0 is finish-to-start. */
  datatype Dependency = Dependency(id: string, source: string, target: string, kind: int)

  datatype Gantt = Gantt(tasks: seq<GanttTask>, dependencies: seq<Dependency>)

  datatype Plan = Plan(id: string, name: string, description: string, startDate: int, endDate: int,
                       objectives: seq<PlanObjective>, unassignedTasks: seq<PlanTask>, gantt: Gantt)

  /** The stored plans, the identifiers drawn so far, and the configured default duration. */
  datatype Agent = Agent(plans: map<string, Plan>, minted: nat, defaultDuration: int)

  const UnassignedKey: string := "unassigned"
  const Unassigned: string := "Sin asignar"
  const Description: string := "Plan generado automáticamente basado en objetivos y tareas de la reunión"
  const MissingInputError: string := "Se requieren objetivos y tareas para crear un plan"
  const NoTasksError: string := "Se requieren tareas para generar una carta Gantt"

  /** `options.defaultDuration || 14` */
  function DefaultDuration(option: Option<int>): (d: int)
    ensures option.Some? && option.value != 0 ==> d == option.value
    ensures option.None? || option.value == 0 ==> d == 14
  {
    if option.Some? && option.value != 0 then option.value else 14
  }

  // ---------------------------------------------------------------------------
  // End date
  // ---------------------------------------------------------------------------

  predicate Dated(t: PlanTask) { t.dueDate.Some? }

  /** The latest due date among `tasks`, if any task has one. */
  function LatestDue(tasks: seq<PlanTask>): (r: Option<int>)
    ensures r.None? <==> forall i :: 0 <= i < |tasks| ==> !Dated(tasks[i])
    ensures r.Some? ==> ((exists i :: 0 <= i < |tasks| && tasks[i].dueDate == r)
      && forall i :: 0 <= i < |tasks| && Dated(tasks[i]) ==> tasks[i].dueDate.value <= r.value)
  {
    if tasks == [] then None
    else
      var n := |tasks| - 1;
      var before := LatestDue(tasks[..n]);
      assert forall i :: 0 <= i < n ==> tasks[..n][i] == tasks[i];
      if !Dated(tasks[n]) then before
      else if before.Some? && before.value >= tasks[n].dueDate.value then before
      else tasks[n].dueDate
  }

  /** `_calculateEndDate(tasks, defaultDuration)` */
  function EndDate(tasks: seq<PlanTask>, defaultDuration: int, today: int): (d: int)
    ensures (forall i :: 0 <= i < |tasks| ==> !Dated(tasks[i])) ==> d == today + defaultDuration
    ensures (exists i :: 0 <= i < |tasks| && Dated(tasks[i])) ==>
      (exists i :: 0 <= i < |tasks| && tasks[i].dueDate == Some(d))
      && forall i :: 0 <= i < |tasks| && Dated(tasks[i]) ==> tasks[i].dueDate.value <= d
  {
    match LatestDue(tasks)
    case Some(latest) => latest
    case None => today + defaultDuration
  }

  // ---------------------------------------------------------------------------
  // Grouping tasks under objectives
  // ---------------------------------------------------------------------------

  predicate Claims(g: Goal, taskId: string) {
    g.relatedTasks.Some? && taskId in g.relatedTasks.value
  }

  /** The index of the first objective whose `relatedTasks` lists the task. */
  function Owner(goals: seq<Goal>, taskId: string): (r: Option<nat>)
    ensures r.Some? ==> (r.value < |goals| && Claims(goals[r.value], taskId)
      && forall j :: 0 <= j < r.value ==> !Claims(goals[j], taskId))
    ensures r.None? ==> forall j :: 0 <= j < |goals| ==> !Claims(goals[j], taskId)
  {
    if goals == [] then None
    else if Claims(goals[0], taskId) then Some(0)
    else match Owner(goals[1..], taskId)
      case Some(k) => Some(k + 1)
      case None => None
  }

  /** The buckets before any task: `unassigned` and one per objective id, all empty. */
  function EmptyBuckets(goals: seq<Goal>): (m: map<string, seq<PlanTask>>)
    ensures m.Keys == {UnassignedKey} + set i | 0 <= i < |goals| :: goals[i].id
    ensures forall k :: k in m ==> m[k] == []
    decreases |goals|
  {
    if goals == [] then map[UnassignedKey := []]
    else
      var n := |goals| - 1;
      assert (set i | 0 <= i < |goals| :: goals[i].id) == (set i | 0 <= i < n :: goals[..n][i].id) + {goals[n].id};
      EmptyBuckets(goals[..n])[goals[n].id := []]
  }

  /** The key of the bucket for owner `b`: the objective's id, or `unassigned`. */
  function KeyOf(goals: seq<Goal>, b: Option<nat>): string
    requires b.Some? ==> b.value < |goals|
  {
    match b
    case Some(i) => goals[i].id
    case None => UnassignedKey
  }

  /** The bucket key a task is pushed to. */
  function BucketKey(goals: seq<Goal>, t: PlanTask): string {
    KeyOf(goals, Owner(goals, t.id))
  }

  /** `_organizeTasksByObjective(objectives, tasks)`: each task pushed to its bucket, in task order. */
  function Organize(goals: seq<Goal>, tasks: seq<PlanTask>): (m: map<string, seq<PlanTask>>)
    ensures m.Keys == EmptyBuckets(goals).Keys
    decreases |tasks|
  {
    if tasks == [] then EmptyBuckets(goals)
    else
      var n := |tasks| - 1;
      var m := Organize(goals, tasks[..n]);
      var key := BucketKey(goals, tasks[n]);
      m[key := m[key] + [tasks[n]]]
  }

  /** The tasks, in order, whose owner is `b` (`None` for the unassigned ones). */
  function Bucket(goals: seq<Goal>, tasks: seq<PlanTask>, b: Option<nat>): (r: seq<PlanTask>)
    ensures forall x :: x in r ==> x in tasks && Owner(goals, x.id) == b
    decreases |tasks|
  {
    if tasks == [] then []
    else
      var n := |tasks| - 1;
      Bucket(goals, tasks[..n], b) + (if Owner(goals, tasks[n].id) == b then [tasks[n]] else [])
  }

  /** Objective ids are distinct and none is the key of the unassigned bucket. */
  predicate SeparateKeys(goals: seq<Goal>) {
    (forall i, j :: 0 <= i < j < |goals| ==> goals[i].id != goals[j].id)
    && forall i :: 0 <= i < |goals| ==> goals[i].id != UnassignedKey
  }

  /** With separate keys, the bucket of each objective and the unassigned bucket hold exactly the tasks `Owner` gives them. */
  lemma OrganizeBuckets(goals: seq<Goal>, tasks: seq<PlanTask>)
    ensures SeparateKeys(goals) ==> Organize(goals, tasks)[UnassignedKey] == Bucket(goals, tasks, None)
    ensures SeparateKeys(goals) ==>
      forall i :: 0 <= i < |goals| ==> Organize(goals, tasks)[goals[i].id] == Bucket(goals, tasks, Some(i))
  {
    if SeparateKeys(goals) {
      OrganizeBucketAt(goals, tasks, None);
      forall i | 0 <= i < |goals|
        ensures Organize(goals, tasks)[goals[i].id] == Bucket(goals, tasks, Some(i))
      {
        OrganizeBucketAt(goals, tasks, Some(i));
      }
    }
  }

  /** The bucket keyed for owner `b` holds exactly the tasks whose owner is `b`. */
  lemma {:induction false} OrganizeBucketAt(goals: seq<Goal>, tasks: seq<PlanTask>, b: Option<nat>)
    requires SeparateKeys(goals) && (b.Some? ==> b.value < |goals|)
    ensures KeyOf(goals, b) in Organize(goals, tasks)
    ensures Organize(goals, tasks)[KeyOf(goals, b)] == Bucket(goals, tasks, b)
    decreases |tasks|
  {
    if tasks != [] {
      var n := |tasks| - 1;
      OrganizeBucketAt(goals, tasks[..n], b);
      var o := Owner(goals, tasks[n].id);
      KeysSeparate(goals, o, b);
    }
  }

  /** With separate keys, two owners share a bucket key only when they are the same owner. */
  lemma KeysSeparate(goals: seq<Goal>, a: Option<nat>, b: Option<nat>)
    requires SeparateKeys(goals) && (a.Some? ==> a.value < |goals|) && (b.Some? ==> b.value < |goals|)
    ensures KeyOf(goals, a) == KeyOf(goals, b) <==> a == b
  {
    if a.Some? && b.Some? && a.value != b.value {
      if a.value < b.value {
        assert goals[a.value].id != goals[b.value].id;
      } else {
        assert goals[b.value].id != goals[a.value].id;
      }
    }
  }

  /** The tasks whose owner is `None` or an objective before `k`. */
  function OwnedBefore(goals: seq<Goal>, tasks: seq<PlanTask>, k: nat): seq<PlanTask>
    decreases |tasks|
  {
    if tasks == [] then []
    else
      var n := |tasks| - 1;
      var o := Owner(goals, tasks[n].id);
      OwnedBefore(goals, tasks[..n], k) + (if o.None? || o.value < k then [tasks[n]] else [])
  }

  /** The tasks owned before objective `k` are those owned before `k - 1` and those objective `k - 1` owns. */
  lemma {:induction false} OwnedBeforeStep(goals: seq<Goal>, tasks: seq<PlanTask>, k: nat)
    requires 0 < k
    ensures multiset(OwnedBefore(goals, tasks, k))
      == multiset(OwnedBefore(goals, tasks, k - 1)) + multiset(Bucket(goals, tasks, Some(k - 1)))
    decreases |tasks|
  {
    if tasks != [] {
      var n := |tasks| - 1;
      var t := tasks[n];
      OwnedBeforeStep(goals, tasks[..n], k);
      var o := Owner(goals, t.id);
      var a, b, c := OwnedBefore(goals, tasks[..n], k), OwnedBefore(goals, tasks[..n], k - 1), Bucket(goals, tasks[..n], Some(k - 1));
      var inA, inB, inC := o.None? || o.value < k, o.None? || o.value < k - 1, o == Some(k - 1);
      assert OwnedBefore(goals, tasks, k) == a + (if inA then [t] else []);
      assert OwnedBefore(goals, tasks, k - 1) == b + (if inB then [t] else []);
      assert Bucket(goals, tasks, Some(k - 1)) == c + (if inC then [t] else []);
      MultisetSnoc(a, t, inA);
      MultisetSnoc(b, t, inB);
      MultisetSnoc(c, t, inC);
      SplitOne(multiset(a), multiset(b), multiset(c), t, inA, inB, inC);
    }
  }

  /** Adding `t` to a whole that splits into two parts adds it to exactly one part. */
  lemma SplitOne(a: multiset<PlanTask>, b: multiset<PlanTask>, c: multiset<PlanTask>, t: PlanTask, inA: bool, inB: bool, inC: bool)
    requires a == b + c && inA == (inB || inC) && !(inB && inC)
    ensures a + (if inA then multiset{t} else multiset{}) ==
      (b + (if inB then multiset{t} else multiset{})) + (c + (if inC then multiset{t} else multiset{}))
  {
  }

  lemma MultisetSnoc(a: seq<PlanTask>, t: PlanTask, keep: bool)
    ensures multiset(a + (if keep then [t] else [])) == multiset(a) + (if keep then multiset{t} else multiset{})
  {
    if !keep {
      assert a + [] == a;
    }
  }

  lemma {:induction false} OwnedBeforeAll(goals: seq<Goal>, tasks: seq<PlanTask>)
    ensures OwnedBefore(goals, tasks, |goals|) == tasks
    decreases |tasks|
  {
    if tasks != [] {
      var n := |tasks| - 1;
      OwnedBeforeAll(goals, tasks[..n]);
      assert tasks[..n] + [tasks[n]] == tasks;
    }
  }

  lemma {:induction false} OwnedBeforeNone(goals: seq<Goal>, tasks: seq<PlanTask>)
    ensures OwnedBefore(goals, tasks, 0) == Bucket(goals, tasks, None)
    decreases |tasks|
  {
    if tasks != [] {
      OwnedBeforeNone(goals, tasks[..|tasks| - 1]);
    }
  }

  /** The unassigned bucket followed by the objectives' buckets, in objective order. */
  function AllBuckets(goals: seq<Goal>, tasks: seq<PlanTask>, k: nat): seq<PlanTask> {
    if k == 0 then Bucket(goals, tasks, None) else AllBuckets(goals, tasks, k - 1) + Bucket(goals, tasks, Some(k - 1))
  }

  /** Every task lands in exactly one bucket: together the buckets are a permutation of the tasks. */
  lemma BucketsPartition(goals: seq<Goal>, tasks: seq<PlanTask>)
    ensures multiset(AllBuckets(goals, tasks, |goals|)) == multiset(tasks)
  {
    BucketsUpTo(goals, tasks, |goals|);
    OwnedBeforeAll(goals, tasks);
  }

  lemma {:induction false} BucketsUpTo(goals: seq<Goal>, tasks: seq<PlanTask>, k: nat)
    ensures multiset(AllBuckets(goals, tasks, k)) == multiset(OwnedBefore(goals, tasks, k))
  {
    if k == 0 {
      BucketsNone(goals, tasks);
    } else {
      var j := k - 1;
      BucketsUpTo(goals, tasks, j);
      BucketsStep(goals, tasks, j + 1);
    }
  }

  /** Before any objective, the partition is the unassigned bucket alone. */
  lemma BucketsNone(goals: seq<Goal>, tasks: seq<PlanTask>)
    ensures multiset(AllBuckets(goals, tasks, 0)) == multiset(OwnedBefore(goals, tasks, 0))
  {
    OwnedBeforeNone(goals, tasks);
  }

  /** One more objective's bucket extends the partition by the tasks that objective owns. */
  lemma BucketsStep(goals: seq<Goal>, tasks: seq<PlanTask>, k: nat)
    requires 0 < k
    requires multiset(AllBuckets(goals, tasks, k - 1)) == multiset(OwnedBefore(goals, tasks, k - 1))
    ensures multiset(AllBuckets(goals, tasks, k)) == multiset(OwnedBefore(goals, tasks, k))
  {
    OwnedBeforeStep(goals, tasks, k);
    assert AllBuckets(goals, tasks, k) == AllBuckets(goals, tasks, k - 1) + Bucket(goals, tasks, Some(k - 1));
  }

  // ---------------------------------------------------------------------------
  // Gantt data
  // ---------------------------------------------------------------------------

  /** The sort key of a dated task. */
  function DueKey(t: PlanTask): real {
    if t.dueDate.Some? then t.dueDate.value as real else 0.0
  }

  function DatedTasks(tasks: seq<PlanTask>): (r: seq<PlanTask>)
    ensures forall x :: x in r ==> Dated(x)
    decreases |tasks|
  {
    if tasks == [] then []
    else
      var n := |tasks| - 1;
      DatedTasks(tasks[..n]) + (if Dated(tasks[n]) then [tasks[n]] else [])
  }

  function UndatedTasks(tasks: seq<PlanTask>): (r: seq<PlanTask>)
    ensures forall x :: x in r ==> !Dated(x)
    decreases |tasks|
  {
    if tasks == [] then []
    else
      var n := |tasks| - 1;
      UndatedTasks(tasks[..n]) + (if Dated(tasks[n]) then [] else [tasks[n]])
  }

  lemma {:induction false} SplitByDate(tasks: seq<PlanTask>)
    ensures multiset(DatedTasks(tasks)) + multiset(UndatedTasks(tasks)) == multiset(tasks)
    decreases |tasks|
  {
    if tasks != [] {
      var n := |tasks| - 1;
      SplitByDate(tasks[..n]);
      assert tasks[..n] + [tasks[n]] == tasks;
    }
  }

  /**
   * An order the sort may produce with the comparator `!a.dueDate ? 1 :
   * !b.dueDate ? -1 : a.dueDate - b.dueDate`: a permutation of the tasks with
   * the dated ones first, in ascending due date. The comparator is
   * inconsistent between two undated tasks, so their relative order is not
   * determined.
   */
  ghost predicate Admissible(tasks: seq<PlanTask>, order: seq<PlanTask>) {
    multiset(order) == multiset(tasks)
    && (forall i, j :: 0 <= i < j < |order| && !Dated(order[i]) ==> !Dated(order[j]))
    && (forall i, j :: 0 <= i < j < |order| && Dated(order[j]) ==> order[i].dueDate.value <= order[j].dueDate.value)
  }

  /** One admissible order: the dated tasks by due date, then the undated ones as they came. */
  function GanttOrder(tasks: seq<PlanTask>): (order: seq<PlanTask>)
    ensures Admissible(tasks, order)
    ensures |order| == |tasks|
  {
    var dated := SortBy(DatedTasks(tasks), DueKey);
    var undated := UndatedTasks(tasks);
    SplitByDate(tasks);
    DatedFirst(tasks, dated, undated);
    assert |multiset(dated + undated)| == |multiset(tasks)|;
    dated + undated
  }

  lemma DatedFirst(tasks: seq<PlanTask>, dated: seq<PlanTask>, undated: seq<PlanTask>)
    requires SortedBy(dated, DueKey) && multiset(dated) == multiset(DatedTasks(tasks))
    requires undated == UndatedTasks(tasks)
    requires multiset(DatedTasks(tasks)) + multiset(undated) == multiset(tasks)
    ensures Admissible(tasks, dated + undated)
  {
    var order := dated + undated;
    forall i | 0 <= i < |dated| ensures order[i] == dated[i] && Dated(order[i]) {
      assert dated[i] in multiset(DatedTasks(tasks));
    }
    assert forall i :: |dated| <= i < |order| ==> order[i] == undated[i - |dated|];
    forall i, j | 0 <= i < j < |order| && Dated(order[j])
      ensures order[i].dueDate.value <= order[j].dueDate.value
    {
      assert DueKey(dated[i]) <= DueKey(dated[j]);
    }
  }

  /** `task.status === 'DONE' ? 1 : task.status === 'IN_PROGRESS' ? 0.5 : 0` */
  function Progress(status: string): (p: real)
    ensures 0.0 <= p <= 1.0
    ensures p == 1.0 <==> status == "DONE"
  {
    if status == "DONE" then 1.0 else if status == "IN_PROGRESS" then 0.5 else 0.0
  }

  /** The Gantt entry of the task at sorted position `index`. */
  function Schedule(t: PlanTask, index: nat, start: int): (g: GanttTask)
    ensures g.id == t.id && g.text == t.text && g.end - g.start == 3
    ensures Dated(t) ==> g.end == t.dueDate.value
    ensures !Dated(t) ==> g.start == start + 2 * index
    ensures g.assignee == (if t.assignee == [] then Unassigned else t.assignee)
  {
    var s := if Dated(t) then t.dueDate.value - 3 else start + 2 * index;
    GanttTask(t.id, t.text, s, s + 3, Progress(t.status), if t.assignee == [] then Unassigned else t.assignee)
  }

  function ScheduleAll(order: seq<PlanTask>, start: int): (r: seq<GanttTask>)
    ensures |r| == |order|
    ensures forall i :: 0 <= i < |r| ==> r[i] == Schedule(order[i], i, start)
    decreases |order|
  {
    if order == [] then []
    else
      var n := |order| - 1;
      ScheduleAll(order[..n], start) + [Schedule(order[n], n, start)]
  }

  /** The dependency from position `i - 1` to position `i`, with id `i_(i-1)`. */
  function Link(order: seq<PlanTask>, i: nat): Dependency
    requires 0 < i < |order|
  {
    Dependency(NatToString(i) + "_" + NatToString(i - 1), order[i - 1].id, order[i].id, 0)
  }

  function Chain(order: seq<PlanTask>, k: nat): (r: seq<Dependency>)
    requires k <= |order|
    ensures |r| == (if k == 0 then 0 else k - 1)
    ensures forall i :: 0 <= i < |r| ==> r[i] == Link(order, i + 1)
  {
    if k <= 1 then [] else Chain(order, k - 1) + [Link(order, k - 1)]
  }

  /** `_generateGanttData(tasks, startDate)` */
  function GanttData(tasks: seq<PlanTask>, start: int): (g: Gantt)
    ensures |g.tasks| == |tasks|
    ensures |g.dependencies| == (if tasks == [] then 0 else |tasks| - 1)
  {
    var order := GanttOrder(tasks);
    Gantt(ScheduleAll(order, start), Chain(order, |order|))
  }

  /**
   * The Gantt data follows an admissible order: entry `i` schedules the `i`-th
   * task of that order, and dependency `i` runs from entry `i` to entry `i + 1`.
   * Every dependency therefore points forward in the list, so the chain has
   * no cycle when task ids are distinct.
   */
  lemma GanttDataSpec(tasks: seq<PlanTask>, start: int)
    ensures var g := GanttData(tasks, start);
      exists order :: |order| == |tasks| && Admissible(tasks, order)
        && (forall i :: 0 <= i < |g.tasks| ==> g.tasks[i] == Schedule(order[i], i, start))
        && (forall i :: 0 <= i < |g.dependencies| ==>
              g.dependencies[i].source == g.tasks[i].id && g.dependencies[i].target == g.tasks[i + 1].id
              && g.dependencies[i].kind == 0)
  {
    var order := GanttOrder(tasks);
    var g := GanttData(tasks, start);
    assert g.tasks == ScheduleAll(order, start) && g.dependencies == Chain(order, |order|);
    ChainLinksEntries(order, start);
    assert |order| == |tasks| && Admissible(tasks, order);
  }

  /** Dependency `i` of the chain runs from entry `i` to entry `i + 1` of the schedule. */
  lemma ChainLinksEntries(order: seq<PlanTask>, start: int)
    ensures var ts := ScheduleAll(order, start);
      var ds := Chain(order, |order|);
      forall i :: 0 <= i < |ds| ==> ds[i].source == ts[i].id && ds[i].target == ts[i + 1].id && ds[i].kind == 0
  {
    var ts := ScheduleAll(order, start);
    var ds := Chain(order, |order|);
    forall i | 0 <= i < |ds| ensures ds[i].source == ts[i].id && ds[i].target == ts[i + 1].id && ds[i].kind == 0 {
      assert ds[i] == Link(order, i + 1);
      assert ts[i] == Schedule(order[i], i, start) && ts[i + 1] == Schedule(order[i + 1], i + 1, start);
    }
  }

  /** The Gantt data carries exactly the ids of the input tasks. */
  lemma GanttCoversTasks(tasks: seq<PlanTask>, start: int)
    ensures (set x | x in GanttData(tasks, start).tasks :: x.id) == (set t | t in tasks :: t.id)
  {
    var order := GanttOrder(tasks);
    var g := ScheduleAll(order, start);
    assert g == GanttData(tasks, start).tasks;
    forall i | 0 <= i < |g| ensures g[i].id == order[i].id {
      assert g[i] == Schedule(order[i], i, start);
    }
    SameIds(g, order, tasks);
  }

  /** Entries copying the ids of a permutation of `tasks` carry exactly the ids of `tasks`. */
  lemma SameIds(g: seq<GanttTask>, order: seq<PlanTask>, tasks: seq<PlanTask>)
    requires |g| == |order| && forall i :: 0 <= i < |g| ==> g[i].id == order[i].id
    requires multiset(order) == multiset(tasks)
    ensures (set x | x in g :: x.id) == (set t | t in tasks :: t.id)
  {
    var mine := set x | x in g :: x.id;
    var theirs := set t | t in tasks :: t.id;
    forall id | id in mine ensures id in theirs {
      var x :| x in g && x.id == id;
      var i :| 0 <= i < |g| && g[i] == x;
      assert order[i] in multiset(tasks);
    }
    forall id | id in theirs ensures id in mine {
      var t :| t in tasks && t.id == id;
      assert t in multiset(order);
      var i :| 0 <= i < |order| && order[i] == t;
      assert g[i] in g;
    }
  }

  /** `generateGanttChart(tasks)`: a missing or empty list is rejected. */
  function GenerateGanttChart(tasks: Option<seq<PlanTask>>, today: int): (r: Result<Gantt>)
    ensures r.Err? <==> tasks.None? || tasks.value == []
    ensures r.Err? ==> r.message == NoTasksError
    ensures r.Ok? ==> |r.value.tasks| == |tasks.value| && |r.value.dependencies| == |tasks.value| - 1
  {
    if tasks.None? || tasks.value == [] then Err(NoTasksError) else Ok(GanttData(tasks.value, today))
  }

  // ---------------------------------------------------------------------------
  // createPlan, getPlan
  // ---------------------------------------------------------------------------

  /** The date part of an ISO timestamp, `timestamp.split('T')[0]`. */
  function IsoDate(timestamp: string): string {
    SplitOn(timestamp, 'T')[0]
  }

  /** The plan built locally from validated objectives and tasks. */
  function LocalPlan(id: string, goals: seq<Goal>, tasks: seq<PlanTask>, defaultDuration: int, clock: Clock): (p: Plan)
    ensures p.id == id && p.startDate == DayOf(clock.today)
    ensures p.endDate == EndDate(tasks, defaultDuration, DayOf(clock.today))
    ensures |p.objectives| == |goals|
    ensures forall i :: 0 <= i < |goals| ==> p.objectives[i].id == goals[i].id && p.objectives[i].text == goals[i].text
    ensures p.gantt == GanttData(tasks, DayOf(clock.today))
  {
    var today := DayOf(clock.today);
    var buckets := Organize(goals, tasks);
    Plan(id, "Plan generado el " + IsoDate(clock.timestamp), Description, today, EndDate(tasks, defaultDuration, today),
         PlanObjectives(goals, buckets), buckets[UnassignedKey], GanttData(tasks, today))
  }

  /**
   * With objective ids apart from each other and from the unassigned key, the
   * local plan files each task under the objective that claims it, and the
   * rest as unassigned.
   */
  lemma LocalPlanBuckets(id: string, goals: seq<Goal>, tasks: seq<PlanTask>, defaultDuration: int, clock: Clock)
    requires SeparateKeys(goals)
    ensures var p := LocalPlan(id, goals, tasks, defaultDuration, clock);
      p.unassignedTasks == Bucket(goals, tasks, None)
      && forall i :: 0 <= i < |goals| ==> p.objectives[i].tasks == Bucket(goals, tasks, Some(i))
  {
    OrganizeBuckets(goals, tasks);
  }

  /** `objectives.map(o => ({id, text, tasks: tasksByObjective[o.id] || []}))` */
  function PlanObjectives(goals: seq<Goal>, buckets: map<string, seq<PlanTask>>): (r: seq<PlanObjective>)
    ensures |r| == |goals|
    ensures forall i :: 0 <= i < |goals| ==>
      r[i] == PlanObjective(goals[i].id, goals[i].text, if goals[i].id in buckets then buckets[goals[i].id] else [])
  {
    if goals == [] then []
    else [PlanObjective(goals[0].id, goals[0].text, if goals[0].id in buckets then buckets[goals[0].id] else [])]
         + PlanObjectives(goals[1..], buckets)
  }

  /**
   * `createPlan(objectives, tasks, transcriptionText)`. The remote planner is
   * tried only with a transcription text and a configured key; when it fails
   * the plan is built locally.
   */
  function CreatePlan(agent: Agent, goals: Option<seq<Goal>>, tasks: Option<seq<PlanTask>>, transcription: string,
                      apiKey: string, remote: Result<Plan>, clock: Clock, mint: nat -> string): (out: (Agent, Reply<Plan>))
    ensures goals.None? || tasks.None? ==> out == (agent, Failure(MissingInputError))
    ensures out.1.Success? ==>
      out.0.plans == agent.plans[out.1.payload.id := out.1.payload]
      && out.1.service in {Some("openai"), Some("local")}
    ensures out.1.Success? && out.1.service == Some("openai") ==>
      transcription != [] && Config.RemoteConfigured(apiKey) && remote == Ok(out.1.payload)
    ensures goals.Some? && tasks.Some? && transcription != [] && Config.RemoteConfigured(apiKey) && remote.Ok? ==>
      out.1 == Success(remote.value, Some("openai")) && out.0.minted == agent.minted
    ensures goals.Some? && tasks.Some? && !(out.1.Success? && out.1.service == Some("openai")) ==>
      out.1 == Success(LocalPlan(mint(agent.minted), goals.value, tasks.value, agent.defaultDuration, clock), Some("local"))
      && out.0.minted == agent.minted + 1
  {
    if goals.None? || tasks.None? then (agent, Failure(MissingInputError))
    else if transcription != [] && Config.RemoteConfigured(apiKey) && remote.Ok? then
      (agent.(plans := agent.plans[remote.value.id := remote.value]), Success(remote.value, Some("openai")))
    else
      var p := LocalPlan(mint(agent.minted), goals.value, tasks.value, agent.defaultDuration, clock);
      (agent.(plans := agent.plans[p.id := p], minted := agent.minted + 1), Success(p, Some("local")))
  }

  /** `getPlan(planId)` */
  function GetPlan(agent: Agent, planId: string): (r: Result<Plan>)
    ensures r.Ok? <==> planId in agent.plans
    ensures r.Ok? ==> r.value == agent.plans[planId]
    ensures r.Err? ==> r.message == "Plan no encontrado: " + planId
  {
    if planId in agent.plans then Ok(agent.plans[planId]) else Err("Plan no encontrado: " + planId)
  }

  /** A plan that `createPlan` returned can be read back by its id until another plan takes that id. */
  lemma CreatedPlanIsStored(agent: Agent, goals: Option<seq<Goal>>, tasks: Option<seq<PlanTask>>, transcription: string,
                            apiKey: string, remote: Result<Plan>, clock: Clock, mint: nat -> string)
    requires CreatePlan(agent, goals, tasks, transcription, apiKey, remote, clock, mint).1.Success?
    ensures var out := CreatePlan(agent, goals, tasks, transcription, apiKey, remote, clock, mint);
      GetPlan(out.0, out.1.payload.id) == Ok(out.1.payload)
      && forall id :: id != out.1.payload.id ==> GetPlan(out.0, id) == GetPlan(agent, id)
  {
  }
}
