/**
 * The timeline model: a named span of days holding tasks keyed by id and
 * dependencies between them. Dependencies are only added when they keep the
 * dependency graph free of cycles. Dates are day numbers; the source keeps
 * them as `YYYY-MM-DD` strings and compares them through `new Date`.
 */
module Timeline {
  import opened Wrappers
  import opened Text
  import opened Sequences

  /**
   * A task as the timeline stores it: the `id`, `text` and `end_date` keys the
   * timeline reads, every other key the caller supplied in `attrs`, and the
   * two timestamps `addTask` writes.
   */
  datatype Item = Item(id: string, text: string, endDate: Option<int>, attrs: map<string, string>,
                       createdAt: Option<string>, updatedAt: string)

  /**
   * A task as handed to `addTask`; an empty `id` or `text` is a falsy one, a
   * `None` `endDate` or `createdAt` an absent key. `attrs` holds the caller's
   * other keys; any of the keys with a field of their own found there is ignored.
   */
  datatype ItemInput = ItemInput(id: string, text: string, endDate: Option<int>, createdAt: Option<string>,
                                 attrs: map<string, string>)

  /** The keys a stored task keeps in fields of their own rather than in `attrs`. */
  const Reserved: set<string> := {"id", "text", "end_date", "createdAt", "updatedAt"}

  /** `kind` is 0 finish-start, 1 start-start, 2 finish-finish or 3 start-finish. */
  datatype Dependency = Dependency(id: string, source: string, target: string, kind: int)

  datatype Timeline = Timeline(id: Option<string>, name: string, description: string, startDate: int,
                               endDate: Option<int>, tasks: seq<Item>, dependencies: seq<Dependency>,
                               meetingId: Option<string>, createdAt: string, updatedAt: string)

  /** Days added to the start date when no task has an end date. */
  const DefaultSpan: int := 30

  // ---------------------------------------------------------------------------
  // Validation
  // ---------------------------------------------------------------------------

  /** `validate()`: a non-blank name, and an end date, when present, strictly after the start date. */
  function Validate(tl: Timeline): (ok: bool)
    ensures ok ==> exists i :: 0 <= i < |tl.name| && !IsSpace(tl.name[i])
    ensures !IsBlank(tl.name) && tl.endDate.None? ==> ok
    ensures tl.endDate.Some? && !IsBlank(tl.name) ==> (ok <==> tl.startDate < tl.endDate.value)
  {
    BlankIffAllSpace(tl.name);
    if IsBlank(tl.name) then false
    else if tl.endDate.Some? && tl.endDate.value <= tl.startDate then false
    else true
  }

  // ---------------------------------------------------------------------------
  // Tasks
  // ---------------------------------------------------------------------------

  function Ids(tasks: seq<Item>): (r: seq<string>)
    ensures |r| == |tasks| && forall i :: 0 <= i < |tasks| ==> r[i] == tasks[i].id
  {
    if tasks == [] then [] else [tasks[0].id] + Ids(tasks[1..])
  }

  /** `findIndex(t => t.id === id)`: the first position holding `id`, or -1. */
  function IndexOf(tasks: seq<Item>, id: string): (r: int)
    ensures -1 <= r < |tasks|
    ensures r >= 0 ==> tasks[r].id == id && forall j :: 0 <= j < r ==> tasks[j].id != id
    ensures r == -1 <==> forall j :: 0 <= j < |tasks| ==> tasks[j].id != id
  {
    if tasks == [] then -1
    else if tasks[0].id == id then 0
    else
      var k := IndexOf(tasks[1..], id);
      if k < 0 then -1 else k + 1
  }

  /**
   * `{...existing, ...task, updatedAt}`: the caller's keys win, its
   * `createdAt` included, and the existing task's other keys stay.
   */
  function Merge(existing: Item, input: ItemInput, now: string): (r: Item)
    ensures r.id == input.id && r.text == input.text && r.updatedAt == now
    ensures r.createdAt == if input.createdAt.Some? then input.createdAt else existing.createdAt
    ensures r.endDate == if input.endDate.Some? then input.endDate else existing.endDate
    ensures forall k :: k in r.attrs <==> (k in existing.attrs || k in input.attrs) && k !in Reserved
    ensures forall k :: k in input.attrs && k !in Reserved ==> r.attrs[k] == input.attrs[k]
    ensures forall k :: k in existing.attrs && k !in input.attrs && k !in Reserved ==> r.attrs[k] == existing.attrs[k]
  {
    Item(input.id, input.text, if input.endDate.Some? then input.endDate else existing.endDate,
         (existing.attrs + input.attrs) - Reserved,
         if input.createdAt.Some? then input.createdAt else existing.createdAt, now)
  }

  /** `{...task, createdAt, updatedAt}`: both timestamps are stamped over whatever the caller gave. */
  function Fresh(input: ItemInput, now: string): (r: Item)
    ensures r.id == input.id && r.text == input.text && r.endDate == input.endDate
    ensures r.createdAt == Some(now) && r.updatedAt == now
    ensures forall k :: k in r.attrs <==> k in input.attrs && k !in Reserved
    ensures forall k :: k in r.attrs ==> r.attrs[k] == input.attrs[k]
  {
    Item(input.id, input.text, input.endDate, input.attrs - Reserved, Some(now), now)
  }

  /**
   * `addTask(task)`: rejects a task without id or text; otherwise merges it
   * into the task with the same id, or appends it when the id is new.
   */
  function AddTask(tl: Timeline, input: ItemInput, now: string): (r: (Timeline, bool))
    ensures !r.1 <==> input.id == [] || input.text == []
    ensures !r.1 ==> r.0 == tl
    ensures r.1 ==> r.0.updatedAt == now && r.0.dependencies == tl.dependencies
    ensures r.1 && input.id in Ids(tl.tasks) ==> |r.0.tasks| == |tl.tasks|
    ensures r.1 && input.id !in Ids(tl.tasks) ==> r.0.tasks == tl.tasks + [Fresh(input, now)]
  {
    if input.id == [] || input.text == [] then (tl, false)
    else
      var i := IndexOf(tl.tasks, input.id);
      var tasks := if i >= 0 then tl.tasks[i := Merge(tl.tasks[i], input, now)] else tl.tasks + [Fresh(input, now)];
      (tl.(tasks := tasks, updatedAt := now), true)
  }

  /** After a successful `AddTask` the ids are the old ids plus the new one, and every other task is untouched. */
  lemma AddTaskIds(tl: Timeline, input: ItemInput, now: string)
    requires input.id != [] && input.text != []
    ensures var tasks := AddTask(tl, input, now).0.tasks;
      (forall x :: x in Ids(tasks) <==> x in Ids(tl.tasks) || x == input.id)
      && forall j :: 0 <= j < |tl.tasks| && tl.tasks[j].id != input.id ==> tasks[j] == tl.tasks[j]
  {
    var tasks := AddTask(tl, input, now).0.tasks;
    var i := IndexOf(tl.tasks, input.id);
    if i >= 0 {
      assert Ids(tasks) == Ids(tl.tasks);
    } else {
      assert Ids(tasks) == Ids(tl.tasks) + [input.id];
    }
  }

  /** The caller's task can be found under its id afterwards, with the caller's text. */
  lemma AddTaskFinds(tl: Timeline, input: ItemInput, now: string)
    requires input.id != [] && input.text != []
    ensures var tasks := AddTask(tl, input, now).0.tasks;
      var i := IndexOf(tasks, input.id);
      i >= 0 && tasks[i].text == input.text && tasks[i].updatedAt == now
  {
    var tasks := AddTask(tl, input, now).0.tasks;
    var i := IndexOf(tl.tasks, input.id);
    var at := if i >= 0 then i else |tl.tasks|;
    assert tasks[at].id == input.id && tasks[at].text == input.text && tasks[at].updatedAt == now;
    assert forall j :: 0 <= j < at ==> tasks[j] == tl.tasks[j];
    assert IndexOf(tasks, input.id) == at;
  }

  /** Keys with fields of their own never reappear in a stored task's `attrs`. */
  lemma AddTaskKeepsReservedOut(tl: Timeline, input: ItemInput, now: string)
    requires forall j :: 0 <= j < |tl.tasks| ==> tl.tasks[j].attrs.Keys !! Reserved
    ensures var tasks := AddTask(tl, input, now).0.tasks;
      forall j :: 0 <= j < |tasks| ==> tasks[j].attrs.Keys !! Reserved
  {
  }

  /** `addTask` keeps task ids unique. */
  lemma AddTaskKeepsIdsDistinct(tl: Timeline, input: ItemInput, now: string)
    requires Distinct(Ids(tl.tasks))
    ensures Distinct(Ids(AddTask(tl, input, now).0.tasks))
  {
    var r := AddTask(tl, input, now);
    if r.1 {
      var tasks := r.0.tasks;
      var i := IndexOf(tl.tasks, input.id);
      if i >= 0 {
        assert Ids(tasks) == Ids(tl.tasks);
      } else {
        assert Ids(tasks) == Ids(tl.tasks) + [input.id];
        DistinctAppend(Ids(tl.tasks), input.id);
      }
    }
  }

  // ---------------------------------------------------------------------------
  // The dependency graph
  // ---------------------------------------------------------------------------

  predicate Edge(deps: seq<Dependency>, x: string, y: string) {
    exists k :: 0 <= k < |deps| && deps[k].source == x && deps[k].target == y
  }

  /** A walk of at least one node along dependency edges. */
  predicate Path(deps: seq<Dependency>, p: seq<string>) {
    |p| >= 1 && forall i :: 0 <= i < |p| - 1 ==> Edge(deps, p[i], p[i + 1])
  }

  /** `b` can be reached from `a` by following zero or more edges. */
  ghost predicate Reachable(deps: seq<Dependency>, a: string, b: string) {
    exists p :: Path(deps, p) && p[0] == a && p[|p| - 1] == b
  }

  /** No walk of one or more edges returns to where it started. */
  ghost predicate Acyclic(deps: seq<Dependency>) {
    forall p :: Path(deps, p) && |p| >= 2 ==> p[0] != p[|p| - 1]
  }

  lemma ReachSelf(deps: seq<Dependency>, a: string)
    ensures Reachable(deps, a, a)
  {
    assert Path(deps, [a]);
  }

  lemma ReachStep(deps: seq<Dependency>, a: string, x: string, y: string)
    requires Reachable(deps, a, x) && Edge(deps, x, y)
    ensures Reachable(deps, a, y)
  {
    var p :| Path(deps, p) && p[0] == a && p[|p| - 1] == x;
    var q := p + [y];
    assert forall i :: 0 <= i < |q| - 1 ==> q[i] == p[i] || i == |p| - 1;
    assert Path(deps, q);
  }

  /** `deps.some(d => d.source === x && d.target === y)` */
  function HasEdge(deps: seq<Dependency>, x: string, y: string): (b: bool)
    ensures b <==> Edge(deps, x, y)
  {
    if deps == [] then false
    else if deps[0].source == x && deps[0].target == y then true
    else
      var b := HasEdge(deps[1..], x, y);
      assert Edge(deps[1..], x, y) ==> Edge(deps, x, y) by {
        if Edge(deps[1..], x, y) {
          var k :| 0 <= k < |deps[1..]| && deps[1..][k].source == x && deps[1..][k].target == y;
          assert deps[k + 1] == deps[1..][k];
        }
      }
      assert Edge(deps, x, y) ==> Edge(deps[1..], x, y) by {
        if Edge(deps, x, y) {
          var k :| 0 <= k < |deps| && deps[k].source == x && deps[k].target == y;
          assert k > 0 && deps[1..][k - 1] == deps[k];
        }
      }
      b
  }

  /** The targets of the edges leaving `v`, in list order: what the search pushes for `v`. */
  function TargetsOf(deps: seq<Dependency>, v: string): (r: seq<string>)
    ensures forall x :: x in r <==> Edge(deps, v, x)
  {
    if deps == [] then []
    else
      var rest := TargetsOf(deps[1..], v);
      assert forall x :: Edge(deps[1..], v, x) ==> Edge(deps, v, x) by {
        forall x | Edge(deps[1..], v, x) ensures Edge(deps, v, x) {
          var k :| 0 <= k < |deps[1..]| && deps[1..][k].source == v && deps[1..][k].target == x;
          assert deps[k + 1] == deps[1..][k];
        }
      }
      assert forall x :: Edge(deps, v, x) ==> Edge(deps[1..], v, x) || (deps[0].source == v && deps[0].target == x) by {
        forall x | Edge(deps, v, x) ensures Edge(deps[1..], v, x) || (deps[0].source == v && deps[0].target == x) {
          var k :| 0 <= k < |deps| && deps[k].source == v && deps[k].target == x;
          if k > 0 {
            assert deps[1..][k - 1] == deps[k];
          }
        }
      }
      if deps[0].source == v then [deps[0].target] + rest else rest
  }

  function Targets(deps: seq<Dependency>): set<string> {
    set k | 0 <= k < |deps| :: deps[k].target
  }

  /** What the search knows at the top of its loop. */
  ghost predicate SearchState(deps: seq<Dependency>, s: string, t: string, nodes: set<string>,
                              visited: set<string>, stack: seq<string>) {
    && visited <= nodes
    && (forall x :: x in stack ==> x in nodes && Reachable(deps, t, x))
    && (forall x :: x in visited ==> Reachable(deps, t, x))
    && s !in visited
    && (t in visited || t in stack)
    && (forall v, y :: v in visited && Edge(deps, v, y) ==> y in visited || y in stack)
  }

  lemma SearchStarts(deps: seq<Dependency>, s: string, t: string)
    ensures SearchState(deps, s, t, {t} + Targets(deps), {}, [t])
  {
    ReachSelf(deps, t);
  }

  /** Popping a node already visited keeps the search state. */
  lemma SearchSkips(deps: seq<Dependency>, s: string, t: string, nodes: set<string>,
                    visited: set<string>, stack: seq<string>)
    requires SearchState(deps, s, t, nodes, visited, stack)
    requires |stack| > 0 && stack[|stack| - 1] in visited
    ensures SearchState(deps, s, t, nodes, visited, stack[..|stack| - 1])
  {
    assert stack == stack[..|stack| - 1] + [stack[|stack| - 1]];
    assert forall y :: y in stack <==> y in stack[..|stack| - 1] || y == stack[|stack| - 1];
  }

  /** Popping a new node other than `s` and pushing its targets keeps the search state. */
  lemma SearchVisits(deps: seq<Dependency>, s: string, t: string, visited: set<string>, stack: seq<string>)
    requires SearchState(deps, s, t, {t} + Targets(deps), visited, stack)
    requires |stack| > 0 && stack[|stack| - 1] !in visited && stack[|stack| - 1] != s
    ensures var current := stack[|stack| - 1];
      SearchState(deps, s, t, {t} + Targets(deps), visited + {current}, stack[..|stack| - 1] + TargetsOf(deps, current))
      && ({t} + Targets(deps)) - (visited + {current}) < ({t} + Targets(deps)) - visited
  {
    var nodes := {t} + Targets(deps);
    var current := stack[|stack| - 1];
    var rest := stack[..|stack| - 1];
    var pushed := TargetsOf(deps, current);
    var next := rest + pushed;
    assert stack == rest + [current];
    assert forall y :: y in stack <==> y in rest || y == current;
    assert forall y :: y in next <==> y in rest || y in pushed;
    forall y | y in pushed ensures y in nodes && Reachable(deps, t, y) {
      var k :| 0 <= k < |deps| && deps[k].source == current && deps[k].target == y;
      assert y in Targets(deps);
      ReachStep(deps, t, current, y);
    }
  }

  /** The search pops `s`: it was pushed because it is reachable from `t`. */
  lemma SearchFinds(deps: seq<Dependency>, s: string, t: string, nodes: set<string>,
                    visited: set<string>, stack: seq<string>)
    requires SearchState(deps, s, t, nodes, visited, stack)
    requires |stack| > 0 && stack[|stack| - 1] == s
    ensures Reachable(deps, t, s)
  {
    assert s in stack;
  }

  /**
   * `_hasCyclicDependency(s, t)`: whether an edge `s -> t` would close a
   * cycle, i.e. whether `s` is reachable from `t`. The reverse edge is looked
   * up first, then a depth-first search runs from `t` with an explicit stack.
   */
  method HasCyclicDependency(deps: seq<Dependency>, s: string, t: string) returns (b: bool)
    ensures b <==> Reachable(deps, t, s)
  {
    if HasEdge(deps, t, s) {
      ReachSelf(deps, t);
      ReachStep(deps, t, t, s);
      return true;
    }
    b := Search(deps, s, t);
  }

  /** The depth-first search from `t`, popping from the end of the stack. */
  method Search(deps: seq<Dependency>, s: string, t: string) returns (b: bool)
    ensures b <==> Reachable(deps, t, s)
  {
    ghost var nodes := {t} + Targets(deps);
    var visited: set<string> := {};
    var stack := [t];
    SearchStarts(deps, s, t);
    while |stack| > 0
      invariant SearchState(deps, s, t, nodes, visited, stack)
      decreases |nodes - visited|, |stack|
    {
      var current := stack[|stack| - 1];
      ghost var before := stack;
      stack := stack[..|stack| - 1];
      if current == s {
        SearchFinds(deps, s, t, nodes, visited, before);
        return true;
      }
      if current !in visited {
        SearchVisits(deps, s, t, visited, before);
        visited := visited + {current};
        stack := stack + TargetsOf(deps, current);
      } else {
        SearchSkips(deps, s, t, nodes, visited, before);
      }
    }
    SearchEnds(deps, s, t, nodes, visited);
    return false;
  }

  /** The stack ran empty without meeting `s`: the visited set is closed and misses `s`. */
  lemma SearchEnds(deps: seq<Dependency>, s: string, t: string, nodes: set<string>, visited: set<string>)
    requires SearchState(deps, s, t, nodes, visited, [])
    ensures !Reachable(deps, t, s)
  {
    ClosedHasNoExit(deps, visited, t, s);
  }

  /** A node set closed under edges holds everything reachable from its members. */
  lemma ClosedHasNoExit(deps: seq<Dependency>, visited: set<string>, t: string, s: string)
    requires t in visited && s !in visited
    requires forall v, y :: v in visited && Edge(deps, v, y) ==> y in visited
    ensures !Reachable(deps, t, s)
  {
    if Reachable(deps, t, s) {
      var p :| Path(deps, p) && p[0] == t && p[|p| - 1] == s;
      var i := 0;
      while i < |p| - 1
        invariant 0 <= i < |p| && p[i] in visited
      {
        assert Edge(deps, p[i], p[i + 1]);
        i := i + 1;
      }
    }
  }

  /** The position of the first dependency with identifier `id`, or -1. */
  function DependencyIndex(deps: seq<Dependency>, id: string): (r: int)
    ensures -1 <= r < |deps|
    ensures r >= 0 ==> deps[r].id == id
    ensures r == -1 <==> forall j :: 0 <= j < |deps| ==> deps[j].id != id
  {
    if deps == [] then -1
    else if deps[0].id == id then 0
    else
      var k := DependencyIndex(deps[1..], id);
      if k < 0 then -1 else k + 1
  }

  function DependencyId(s: string, t: string): string {
    s + "_" + t
  }

  /**
   * How the source records the edge `s -> t`: the record whose identifier is
   * `s_t` is overwritten, otherwise a new record is appended.
   */
  function InsertByIdAsWritten(deps: seq<Dependency>, s: string, t: string, kind: int): (r: seq<Dependency>)
    ensures Edge(r, s, t)
    ensures |r| == |deps| || r == deps + [Dependency(DependencyId(s, t), s, t, kind)]
    ensures forall x, y :: Edge(r, x, y) ==> Edge(deps, x, y) || (x == s && y == t)
  {
    var d := Dependency(DependencyId(s, t), s, t, kind);
    var i := DependencyIndex(deps, d.id);
    var r := if i >= 0 then deps[i := d] else deps + [d];
    assert r[if i >= 0 then i else |deps|] == d;
    forall x, y | Edge(r, x, y) && !(x == s && y == t) ensures Edge(deps, x, y) {
      var k :| 0 <= k < |r| && r[k].source == x && r[k].target == y;
      assert deps[k] == r[k];
    }
    r
  }

  /** The first dependency recording exactly the edge `s -> t`, or -1. */
  function PairIndex(deps: seq<Dependency>, s: string, t: string): (r: int)
    ensures -1 <= r < |deps|
    ensures r >= 0 ==> deps[r].source == s && deps[r].target == t
    ensures r == -1 <==> !Edge(deps, s, t)
  {
    if deps == [] then -1
    else if deps[0].source == s && deps[0].target == t then 0
    else
      var k := PairIndex(deps[1..], s, t);
      assert Edge(deps, s, t) ==> Edge(deps[1..], s, t) by {
        if Edge(deps, s, t) {
          var j :| 0 <= j < |deps| && deps[j].source == s && deps[j].target == t;
          assert j > 0 && deps[1..][j - 1] == deps[j];
        }
      }
      if k < 0 then -1 else k + 1
  }

  /**
   * The edge `s -> t` recorded under identifier `s_t`: the record already
   * holding that edge has its type updated, otherwise a record is appended.
   */
  function Insert(deps: seq<Dependency>, s: string, t: string, kind: int): (r: seq<Dependency>)
    ensures Edge(r, s, t)
    ensures Edge(deps, s, t) ==> |r| == |deps|
    ensures !Edge(deps, s, t) ==> r == deps + [Dependency(DependencyId(s, t), s, t, kind)]
    ensures forall x, y :: Edge(r, x, y) <==> Edge(deps, x, y) || (x == s && y == t)
  {
    var d := Dependency(DependencyId(s, t), s, t, kind);
    var i := PairIndex(deps, s, t);
    var r := if i >= 0 then deps[i := d] else deps + [d];
    assert r[if i >= 0 then i else |deps|] == d;
    forall x, y ensures Edge(r, x, y) <==> Edge(deps, x, y) || (x == s && y == t) {
      if Edge(deps, x, y) {
        var k :| 0 <= k < |deps| && deps[k].source == x && deps[k].target == y;
        assert r[k].source == x && r[k].target == y;
      }
      if Edge(r, x, y) && !(x == s && y == t) {
        var k :| 0 <= k < |r| && r[k].source == x && r[k].target == y;
        assert deps[k] == r[k];
      }
    }
    r
  }

  /** Recording an edge twice updates its type and leaves the number of records alone. */
  lemma InsertTwice(deps: seq<Dependency>, s: string, t: string, kind1: int, kind2: int)
    ensures var once := Insert(deps, s, t, kind1);
      var twice := Insert(once, s, t, kind2);
      |twice| == |once| && twice[PairIndex(once, s, t)].kind == kind2
  {
  }

  /**
   * With identifiers like `a_b` the `s_t` key is ambiguous: recording `a -> b_c`
   * overwrites the record of `a_b -> c`, and that edge disappears.
   */
  lemma InsertByIdDropsEdge()
    ensures var deps := [Dependency("a_b_c", "a_b", "c", 0)];
      Edge(deps, "a_b", "c") && !Edge(InsertByIdAsWritten(deps, "a", "b_c", 0), "a_b", "c")
  {
    var deps := [Dependency("a_b_c", "a_b", "c", 0)];
    assert DependencyId("a", "b_c") == "a_b_c";
    assert deps[0].source == "a_b";
    var r := InsertByIdAsWritten(deps, "a", "b_c", 0);
    assert r == [Dependency("a_b_c", "a", "b_c", 0)];
    assert r[0].source != "a_b";
  }

  function HasItem(tasks: seq<Item>, id: string): (b: bool)
    ensures b <==> id in Ids(tasks)
  {
    IndexOf(tasks, id) >= 0
  }

  /**
   * `addDependency(s, t, kind)`: refused unless both tasks exist and the edge
   * keeps the graph free of cycles; otherwise the edge is recorded under the
   * `s_t` key, which may overwrite the record of another edge.
   */
  method AddDependency(tl: Timeline, s: string, t: string, kind: int, now: string) returns (r: Timeline, ok: bool)
    ensures ok <==> s in Ids(tl.tasks) && t in Ids(tl.tasks) && !Reachable(tl.dependencies, t, s)
    ensures !ok ==> r == tl
    ensures ok ==> r.tasks == tl.tasks && r.updatedAt == now && Edge(r.dependencies, s, t)
    ensures ok ==> forall x, y :: Edge(r.dependencies, x, y) ==> Edge(tl.dependencies, x, y) || (x == s && y == t)
    ensures ok ==> r == tl.(dependencies := InsertByIdAsWritten(tl.dependencies, s, t, kind), updatedAt := now)
  {
    if !HasItem(tl.tasks, s) || !HasItem(tl.tasks, t) {
      return tl, false;
    }
    var cyclic := HasCyclicDependency(tl.dependencies, s, t);
    if cyclic {
      return tl, false;
    }
    return tl.(dependencies := InsertByIdAsWritten(tl.dependencies, s, t, kind), updatedAt := now), true;
  }

  /**
   * Adding an edge `s -> t` when `s` is not reachable from `t` keeps an acyclic
   * graph acyclic, whether the edge is recorded under the `s_t` key as written
   * or by its endpoints.
   */
  lemma InsertKeepsAcyclic(deps: seq<Dependency>, s: string, t: string, kind: int)
    requires Acyclic(deps) && !Reachable(deps, t, s)
    ensures Acyclic(InsertByIdAsWritten(deps, s, t, kind))
    ensures Acyclic(Insert(deps, s, t, kind))
  {
    AddedEdgeKeepsAcyclic(deps, InsertByIdAsWritten(deps, s, t, kind), s, t);
    AddedEdgeKeepsAcyclic(deps, Insert(deps, s, t, kind), s, t);
  }

  /** Any graph whose edges are the old ones plus at most `s -> t` stays acyclic. */
  lemma AddedEdgeKeepsAcyclic(deps: seq<Dependency>, r: seq<Dependency>, s: string, t: string)
    requires Acyclic(deps) && !Reachable(deps, t, s)
    requires forall x, y :: Edge(r, x, y) ==> Edge(deps, x, y) || (x == s && y == t)
    ensures Acyclic(r)
  {
    forall p | Path(r, p) && |p| >= 2 ensures p[0] != p[|p| - 1] {
      if p[0] == p[|p| - 1] {
        ClosedWalk(deps, r, s, t, p);
      }
    }
  }

  lemma PathSlice(deps: seq<Dependency>, p: seq<string>, i: int, j: int)
    requires Path(deps, p) && 0 <= i < j <= |p|
    ensures Path(deps, p[i..j])
  {
    forall k | 0 <= k < j - i - 1 ensures Edge(deps, p[i..j][k], p[i..j][k + 1]) {
      assert p[i..j][k] == p[i + k] && p[i..j][k + 1] == p[i + k + 1];
    }
  }

  lemma PathJoin(deps: seq<Dependency>, a: seq<string>, b: seq<string>)
    requires Path(deps, a) && Path(deps, b) && a[|a| - 1] == b[0]
    ensures Path(deps, a + b[1..]) && (a + b[1..])[0] == a[0] && (a + b[1..])[|a + b[1..]| - 1] == b[|b| - 1]
  {
    var c := a + b[1..];
    forall k | 0 <= k < |c| - 1 ensures Edge(deps, c[k], c[k + 1]) {
      if k < |a| - 1 {
        assert c[k] == a[k] && c[k + 1] == a[k + 1];
      } else {
        assert c[k] == b[k - |a| + 1] && c[k + 1] == b[k - |a| + 2];
      }
    }
  }

  /**
   * A closed walk in the graph with the new edge: either it avoids the new
   * edge and is a cycle of the old graph, or it passes through `s -> t` and
   * the rest of it leads from `t` back to `s` in the new graph.
   */
  lemma ClosedWalk(deps: seq<Dependency>, r: seq<Dependency>, s: string, t: string, p: seq<string>)
    requires forall x, y :: Edge(r, x, y) ==> Edge(deps, x, y) || (x == s && y == t)
    requires Path(r, p) && |p| >= 2 && p[0] == p[|p| - 1]
    ensures !Acyclic(deps) || Reachable(deps, t, s)
  {
    if forall i :: 0 <= i < |p| - 1 ==> Edge(deps, p[i], p[i + 1]) {
      assert Path(deps, p);
    } else {
      var i :| 0 <= i < |p| - 1 && !Edge(deps, p[i], p[i + 1]);
      ThroughNewEdge(deps, r, s, t, p, i);
    }
  }

  /** A closed walk that takes the new edge at step `i` yields a walk from `t` to `s`. */
  lemma ThroughNewEdge(deps: seq<Dependency>, r: seq<Dependency>, s: string, t: string, p: seq<string>, i: nat)
    requires forall x, y :: Edge(r, x, y) ==> Edge(deps, x, y) || (x == s && y == t)
    requires Path(r, p) && |p| >= 2 && p[0] == p[|p| - 1]
    requires i < |p| - 1 && !Edge(deps, p[i], p[i + 1])
    ensures Reachable(deps, t, s)
  {
    assert Edge(r, p[i], p[i + 1]);
    PathSlice(r, p, i + 1, |p|);
    PathSlice(r, p, 0, i + 1);
    PathJoin(r, p[i + 1..], p[..i + 1]);
    FirstArrival(deps, r, s, t, p[i + 1..] + p[..i + 1][1..]);
  }

  /** A walk from `t` to `s` in the new graph, cut at its first visit to `s`, is a walk in the old one. */
  lemma FirstArrival(deps: seq<Dependency>, r: seq<Dependency>, s: string, t: string, q: seq<string>)
    requires forall x, y :: Edge(r, x, y) ==> Edge(deps, x, y) || (x == s && y == t)
    requires Path(r, q) && q[0] == t && q[|q| - 1] == s
    ensures Reachable(deps, t, s)
  {
    var n := 0;
    while q[n] != s
      invariant 0 <= n < |q| && s !in q[..n]
      decreases |q| - n
    {
      n := n + 1;
    }
    var w := q[..n + 1];
    forall j | 0 <= j < |w| - 1 ensures Edge(deps, w[j], w[j + 1]) {
      assert q[j] in q[..n];
      assert Edge(r, q[j], q[j + 1]);
    }
    assert Path(deps, w);
  }

  /** `addDependency` keeps an acyclic dependency graph acyclic. */
  method AddDependencyKeepsAcyclic(tl: Timeline, s: string, t: string, kind: int, now: string) returns (r: Timeline, ok: bool)
    requires Acyclic(tl.dependencies)
    ensures Acyclic(r.dependencies)
    ensures ok ==> Edge(r.dependencies, s, t)
  {
    r, ok := AddDependency(tl, s, t, kind, now);
    if ok {
      InsertKeepsAcyclic(tl.dependencies, s, t, kind);
    }
  }

  // ---------------------------------------------------------------------------
  // End date and duration
  // ---------------------------------------------------------------------------

  /** The latest `end_date` among the tasks that have one. */
  function LatestEnd(tasks: seq<Item>): (r: Option<int>)
    ensures r.None? <==> forall i :: 0 <= i < |tasks| ==> tasks[i].endDate.None?
    ensures r.Some? ==> (exists i :: 0 <= i < |tasks| && tasks[i].endDate == r)
                        && forall i :: 0 <= i < |tasks| && tasks[i].endDate.Some? ==> tasks[i].endDate.value <= r.value
  {
    if tasks == [] then None
    else
      var rest := LatestEnd(tasks[1..]);
      var here := tasks[0].endDate;
      if here.None? then
        assert forall i :: 1 <= i < |tasks| ==> tasks[i] == tasks[1..][i - 1];
        rest
      else if rest.None? || rest.value <= here.value then
        assert forall i :: 1 <= i < |tasks| ==> tasks[i] == tasks[1..][i - 1];
        here
      else
        assert forall i :: 1 <= i < |tasks| ==> tasks[i] == tasks[1..][i - 1];
        var j :| 0 <= j < |tasks[1..]| && tasks[1..][j].endDate == rest;
        assert tasks[j + 1].endDate == rest;
        rest
  }

  /** `calculateEndDate()`: the latest task end date, or the start date plus 30 days. */
  function CalculateEndDate(tl: Timeline): (r: int)
    ensures (exists i :: 0 <= i < |tl.tasks| && tl.tasks[i].endDate.Some?) ==>
              (exists i :: 0 <= i < |tl.tasks| && tl.tasks[i].endDate == Some(r))
              && forall i :: 0 <= i < |tl.tasks| && tl.tasks[i].endDate.Some? ==> tl.tasks[i].endDate.value <= r
    ensures (forall i :: 0 <= i < |tl.tasks| ==> tl.tasks[i].endDate.None?) ==> r == tl.startDate + DefaultSpan
  {
    var latest := LatestEnd(tl.tasks);
    if latest.Some? then latest.value else tl.startDate + DefaultSpan
  }

  function Abs(x: int): nat {
    if x < 0 then -x else x
  }

  /**
   * `calculateDuration()`: fills in a missing end date with `calculateEndDate()`
   * and returns the number of days between start and end, in either order.
   */
  function CalculateDuration(tl: Timeline): (r: (Timeline, nat))
    ensures r.0.endDate.Some?
    ensures tl.endDate.Some? ==> r.0 == tl
    ensures tl.endDate.None? ==> r.0 == tl.(endDate := Some(CalculateEndDate(tl)))
    ensures r.1 == Abs(r.0.endDate.value - tl.startDate)
    ensures r.0.startDate + r.1 == r.0.endDate.value || r.0.startDate - r.1 == r.0.endDate.value
  {
    var end := if tl.endDate.Some? then tl.endDate.value else CalculateEndDate(tl);
    var next := if tl.endDate.Some? then tl else tl.(endDate := Some(end));
    (next, Abs(end - tl.startDate))
  }

  /** A second call finds the end date already set and returns the same duration. */
  lemma DurationIdempotent(tl: Timeline)
    ensures var first := CalculateDuration(tl);
      CalculateDuration(first.0) == first
  {
  }

  /** For a valid timeline with an end date the duration is the positive gap between start and end. */
  lemma ValidDurationPositive(tl: Timeline)
    requires Validate(tl) && tl.endDate.Some?
    ensures CalculateDuration(tl).1 == tl.endDate.value - tl.startDate > 0
  {
  }
}
