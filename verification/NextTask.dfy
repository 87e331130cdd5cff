/**
 * Next-task selection: the first incomplete task, in stable name order, all of whose
 * dependencies have ended; and what follows for whole runs of selecting and completing.
 */
module NextTask {
  import opened Common
  import opened Order

  datatype Task = Task(id: string, name: string, status: string)

  /** The targets of a task's depends-on edges, or a failed query. */
  datatype Query = Edges(targets: seq<string>) | Failed

  type Graph = string -> Query

  const TERMINAL := {"TASK_STATUS_COMPLETED", "TASK_STATUS_CANCELLED", "completed", "cancelled"}
  const INCOMPLETE := {"TASK_STATUS_IN_PROGRESS", "TASK_STATUS_PENDING", "in_progress", "pending"}

  /** The index of tasks by id; the last task of an id wins. */
  function ById(tasks: seq<Task>): map<string, Task> {
    if tasks == [] then map[]
    else
      var last := tasks[|tasks| - 1];
      ById(tasks[..|tasks| - 1])[last.id := last]
  }

  /** The dependency target exists and has ended. */
  predicate Ended(byId: map<string, Task>, target: string) {
    target in byId && byId[target].status in TERMINAL
  }

  predicate Runnable(byId: map<string, Task>, q: Query) {
    q.Edges? && forall i | 0 <= i < |q.targets| :: Ended(byId, q.targets[i])
  }

  /** Stops at the first edge whose target is unknown or has not ended. */
  method DepsSatisfied(edges: seq<string>, byId: map<string, Task>) returns (ok: bool)
    ensures ok <==> Runnable(byId, Edges(edges))
    ensures ok <==> forall i | 0 <= i < |edges| ::
      && edges[i] in byId
      && byId[edges[i]].status in {"TASK_STATUS_COMPLETED", "TASK_STATUS_CANCELLED", "completed", "cancelled"}
  {
    for i := 0 to |edges|
      invariant forall j | 0 <= j < i :: Ended(byId, edges[j])
    {
      if edges[i] !in byId || byId[edges[i]].status !in TERMINAL { return false; }
    }
    return true;
  }

  // ---------- the stable sort ----------

  /** Position i of the task list comes before position j: by name, ties by position. */
  predicate Earlier(tasks: seq<Task>, i: nat, j: nat)
    requires i < |tasks| && j < |tasks|
  {
    Before(tasks[i].name, tasks[j].name) || (tasks[i].name == tasks[j].name && i < j)
  }

  ghost predicate Positions(tasks: seq<Task>, ps: seq<nat>) {
    forall k | 0 <= k < |ps| :: ps[k] < |tasks|
  }

  ghost predicate StablySorted(tasks: seq<Task>, ps: seq<nat>)
    requires Positions(tasks, ps)
  {
    forall a, b | 0 <= a < b < |ps| :: Earlier(tasks, ps[a], ps[b])
  }

  /** The incomplete tasks' positions, in list order. */
  function Incomplete(tasks: seq<Task>): (ps: seq<nat>)
    ensures forall k | 0 <= k < |ps| :: ps[k] < |tasks| && tasks[ps[k]].status in INCOMPLETE
    ensures forall a, b | 0 <= a < b < |ps| :: ps[a] < ps[b]
    ensures forall i | 0 <= i < |tasks| && tasks[i].status in INCOMPLETE :: i in ps
  {
    if tasks == [] then []
    else
      var n := |tasks| - 1;
      assert forall i | 0 <= i < n :: tasks[..n][i] == tasks[i];
      Incomplete(tasks[..n]) + (if tasks[n].status in INCOMPLETE then [n] else [])
  }

  lemma EarlierIsTotalOrder(tasks: seq<Task>, i: nat, j: nat, k: nat)
    requires i < |tasks| && j < |tasks| && k < |tasks|
    ensures i != j ==> Earlier(tasks, i, j) || Earlier(tasks, j, i)
    ensures Earlier(tasks, i, j) && Earlier(tasks, j, k) ==> Earlier(tasks, i, k)
  {
    Total(tasks[i].name, tasks[j].name);
    if Before(tasks[i].name, tasks[j].name) && Before(tasks[j].name, tasks[k].name) {
      Transitive(tasks[i].name, tasks[j].name, tasks[k].name);
    }
  }

  /** A position put where the earlier ones end and the later ones begin leaves the order sorted. */
  lemma Inserted(tasks: seq<Task>, ps: seq<nat>, p: nat, i: nat)
    requires Positions(tasks, ps) && StablySorted(tasks, ps) && p < |tasks| && i <= |ps|
    requires forall k | 0 <= k < i :: Earlier(tasks, ps[k], p)
    requires forall k | i <= k < |ps| :: Earlier(tasks, p, ps[k])
    ensures var r := ps[..i] + [p] + ps[i..];
      Positions(tasks, r) && StablySorted(tasks, r) && multiset(r) == multiset(ps) + multiset{p}
  {
    hide Earlier;
    assert ps == ps[..i] + ps[i..];
  }

  /** Inserts a position after every position whose name is not after its own. */
  method InsertStable(tasks: seq<Task>, ps: seq<nat>, p: nat) returns (r: seq<nat>)
    requires Positions(tasks, ps) && StablySorted(tasks, ps) && p < |tasks|
    requires forall k | 0 <= k < |ps| :: ps[k] < p
    ensures Positions(tasks, r) && StablySorted(tasks, r)
    ensures multiset(r) == multiset(ps) + multiset{p}
  {
    hide StablySorted;
    var i := |ps|;
    while i > 0 && Before(tasks[p].name, tasks[ps[i - 1]].name)
      invariant 0 <= i <= |ps|
      invariant forall k | i <= k < |ps| :: Earlier(tasks, p, ps[k])
    {
      i := i - 1;
    }
    if i > 0 { EarlierUpTo(tasks, ps, p, i - 1); }
    Inserted(tasks, ps, p, i);
    r := ps[..i] + [p] + ps[i..];
  }

  /** What stands at or before a position not after p in name stands before p. */
  lemma EarlierUpTo(tasks: seq<Task>, ps: seq<nat>, p: nat, last: nat)
    requires Positions(tasks, ps) && StablySorted(tasks, ps) && p < |tasks| && last < |ps|
    requires ps[last] < p && !Before(tasks[p].name, tasks[ps[last]].name)
    ensures forall k | 0 <= k <= last :: Earlier(tasks, ps[k], p)
  {
    assert Earlier(tasks, ps[last], p) by { Total(tasks[p].name, tasks[ps[last]].name); }
    hide Earlier;
    forall k | 0 <= k < last ensures Earlier(tasks, ps[k], p) {
      EarlierIsTotalOrder(tasks, ps[k], ps[last], p);
    }
  }

  /** Sorts positions by task name, keeping list order among equal names. */
  method SortByName(tasks: seq<Task>, ps: seq<nat>) returns (r: seq<nat>)
    requires Positions(tasks, ps) && forall a, b | 0 <= a < b < |ps| :: ps[a] < ps[b]
    ensures Positions(tasks, r) && StablySorted(tasks, r)
    ensures multiset(r) == multiset(ps)
    ensures forall a, b | 0 <= a < b < |r| ::
      || Lexicographic(tasks[r[a]].name, tasks[r[b]].name)
      || (tasks[r[a]].name == tasks[r[b]].name && r[a] < r[b])
  {
    r := [];
    for k := 0 to |ps|
      invariant Positions(tasks, r) && StablySorted(tasks, r)
      invariant multiset(r) == multiset(ps[..k])
    {
      forall i | 0 <= i < |r| ensures r[i] < ps[k] {
        assert r[i] in multiset(r);
        assert r[i] in ps[..k];
      }
      r := InsertStable(tasks, r, ps[k]);
      assert ps[..k + 1] == ps[..k] + [ps[k]];
    }
    assert ps[..|ps|] == ps;
    forall a, b | 0 <= a < b < |r|
      ensures || Lexicographic(tasks[r[a]].name, tasks[r[b]].name)
              || (tasks[r[a]].name == tasks[r[b]].name && r[a] < r[b])
    {
      assert Earlier(tasks, r[a], r[b]);
      BeforeIff(tasks[r[a]].name, tasks[r[b]].name);
    }
  }

  // ---------- selection ----------

  /** The task at position i is incomplete and its dependencies, as far as known, have all ended. */
  predicate CanRun(tasks: seq<Task>, graph: Graph, i: nat)
    requires i < |tasks|
  {
    tasks[i].status in INCOMPLETE && Runnable(ById(tasks), graph(tasks[i].id))
  }

  /** The right choice: the first position, in stable name order, that can run; none if none can. */
  ghost predicate IsSelection(tasks: seq<Task>, graph: Graph, picked: Option<nat>) {
    match picked
    case None => forall i | 0 <= i < |tasks| :: !CanRun(tasks, graph, i)
    case Some(p) =>
      && p < |tasks| && CanRun(tasks, graph, p)
      && forall i | 0 <= i < |tasks| && CanRun(tasks, graph, i) && i != p :: Earlier(tasks, p, i)
  }

  /** The first of the positions whose dependencies have ended; a failed query passes over its task. */
  method Scan(tasks: seq<Task>, graph: Graph, byId: map<string, Task>, order: seq<nat>) returns (picked: Option<nat>)
    requires Positions(tasks, order)
    ensures picked.None? ==> forall k | 0 <= k < |order| :: !Runnable(byId, graph(tasks[order[k]].id))
    ensures picked.Some? ==> exists k | 0 <= k < |order| ::
      && order[k] == picked.value
      && Runnable(byId, graph(tasks[order[k]].id))
      && forall j | 0 <= j < k :: !Runnable(byId, graph(tasks[order[j]].id))
  {
    for k := 0 to |order|
      invariant forall j | 0 <= j < k :: !Runnable(byId, graph(tasks[order[j]].id))
    {
      var q := graph(tasks[order[k]].id);
      if q.Edges? {
        var ok := DepsSatisfied(q.targets, byId);
        if ok { return Some(order[k]); }
      }
    }
    return None;
  }

  /**
   * The reference meaning of being runnable: the task is pending or in progress, its query
   * answers, and of every target the last task with that id is completed or cancelled.
   */
  ghost predicate MayRun(tasks: seq<Task>, graph: Graph, i: nat)
    requires i < |tasks|
  {
    && tasks[i].status in {"TASK_STATUS_IN_PROGRESS", "TASK_STATUS_PENDING", "in_progress", "pending"}
    && graph(tasks[i].id).Edges?
    && forall b | b in graph(tasks[i].id).targets :: exists j | 0 <= j < |tasks| ::
      && tasks[j].id == b
      && tasks[j].status in {"TASK_STATUS_COMPLETED", "TASK_STATUS_CANCELLED", "completed", "cancelled"}
      && forall l | j < l < |tasks| :: tasks[l].id != b
  }

  /** The index holds, under each id, the last task that has it. */
  lemma {:induction false} ByIdIsLast(tasks: seq<Task>, j: nat)
    requires j < |tasks| && forall l | j < l < |tasks| :: tasks[l].id != tasks[j].id
    ensures tasks[j].id in ById(tasks) && ById(tasks)[tasks[j].id] == tasks[j]
  {
    var n := |tasks| - 1;
    if j < n {
      assert forall l | 0 <= l < n :: tasks[..n][l] == tasks[l];
      ByIdIsLast(tasks[..n], j);
    }
  }

  /** Every indexed id has a last task. */
  lemma {:induction false} LastOfId(tasks: seq<Task>, id: string) returns (j: nat)
    requires id in ById(tasks)
    ensures j < |tasks| && tasks[j].id == id && forall l | j < l < |tasks| :: tasks[l].id != id
  {
    j := |tasks| - 1;
    if tasks[j].id != id { j := LastOfId(tasks[..j], id); }
  }

  lemma MayRunIff(tasks: seq<Task>, graph: Graph, i: nat)
    requires i < |tasks|
    ensures CanRun(tasks, graph, i) <==> MayRun(tasks, graph, i)
  {
    if graph(tasks[i].id).Edges? {
      var targets := graph(tasks[i].id).targets;
      forall b | b in targets
        ensures Ended(ById(tasks), b) <==> exists j | 0 <= j < |tasks| ::
          tasks[j].id == b && tasks[j].status in TERMINAL && forall l | j < l < |tasks| :: tasks[l].id != b
      {
        EndedIff(tasks, b);
      }
      assert (forall k | 0 <= k < |targets| :: Ended(ById(tasks), targets[k])) <==> forall b | b in targets :: Ended(ById(tasks), b);
    }
  }

  lemma EndedIff(tasks: seq<Task>, b: string)
    ensures Ended(ById(tasks), b) <==> exists j | 0 <= j < |tasks| ::
      tasks[j].id == b && tasks[j].status in TERMINAL && forall l | j < l < |tasks| :: tasks[l].id != b
  {
    if b in ById(tasks) {
      var j := LastOfId(tasks, b);
      ByIdIsLast(tasks, j);
    }
    forall j | 0 <= j < |tasks| && tasks[j].id == b && forall l | j < l < |tasks| :: tasks[l].id != b
      ensures b in ById(tasks) && ById(tasks)[b] == tasks[j]
    {
      ByIdIsLast(tasks, j);
    }
  }

  /** The selection in these terms: the first of the tasks that may run, by name, ties by position. */
  lemma SelectionPlainly(tasks: seq<Task>, graph: Graph, picked: Option<nat>)
    requires IsSelection(tasks, graph, picked)
    ensures picked.None? ==> forall i | 0 <= i < |tasks| :: !MayRun(tasks, graph, i)
    ensures picked.Some? ==> picked.value < |tasks| && MayRun(tasks, graph, picked.value)
    ensures picked.Some? ==> forall i | 0 <= i < |tasks| && MayRun(tasks, graph, i) && i != picked.value ::
      || Lexicographic(tasks[picked.value].name, tasks[i].name)
      || (tasks[picked.value].name == tasks[i].name && picked.value < i)
  {
    forall i | 0 <= i < |tasks| ensures CanRun(tasks, graph, i) <==> MayRun(tasks, graph, i) { MayRunIff(tasks, graph, i); }
    hide CanRun;
    hide MayRun;
    if picked.Some? {
      forall i | 0 <= i < |tasks| && MayRun(tasks, graph, i) && i != picked.value
        ensures || Lexicographic(tasks[picked.value].name, tasks[i].name)
                || (tasks[picked.value].name == tasks[i].name && picked.value < i)
      {
        assert Earlier(tasks, picked.value, i);
        BeforeIff(tasks[picked.value].name, tasks[i].name);
      }
    }
  }

  /** Filters, sorts and scans. */
  method Select(tasks: seq<Task>, graph: Graph) returns (picked: Option<nat>)
    ensures IsSelection(tasks, graph, picked)
    ensures picked.None? ==> forall i | 0 <= i < |tasks| :: !MayRun(tasks, graph, i)
    ensures picked.Some? ==> picked.value < |tasks| && MayRun(tasks, graph, picked.value)
    ensures picked.Some? ==> forall i | 0 <= i < |tasks| && MayRun(tasks, graph, i) && i != picked.value ::
      || Lexicographic(tasks[picked.value].name, tasks[i].name)
      || (tasks[picked.value].name == tasks[i].name && picked.value < i)
  {
    var incomplete := Incomplete(tasks);
    var order := SortByName(tasks, incomplete);
    picked := Scan(tasks, graph, ById(tasks), order);
    SameElements(order, incomplete);
    ScannedIsSelection(tasks, graph, order, picked);
    SelectionPlainly(tasks, graph, picked);
  }

  lemma SameElements(a: seq<nat>, b: seq<nat>)
    requires multiset(a) == multiset(b)
    ensures forall p: nat :: p in a <==> p in b
  {
    forall p: nat ensures p in a <==> p in b {
      assert p in a <==> p in multiset(a);
      assert p in b <==> p in multiset(b);
    }
  }

  /** The first runnable of the sorted incomplete positions is the selection. */
  lemma ScannedIsSelection(tasks: seq<Task>, graph: Graph, order: seq<nat>, picked: Option<nat>)
    requires Positions(tasks, order) && StablySorted(tasks, order)
    requires forall p: nat :: p in order <==> p in Incomplete(tasks)
    requires picked.None? ==> forall k | 0 <= k < |order| :: !Runnable(ById(tasks), graph(tasks[order[k]].id))
    requires picked.Some? ==> exists k | 0 <= k < |order| ::
      && order[k] == picked.value
      && Runnable(ById(tasks), graph(tasks[order[k]].id))
      && forall j | 0 <= j < k :: !Runnable(ById(tasks), graph(tasks[order[j]].id))
    ensures IsSelection(tasks, graph, picked)
  {
    hide Earlier;
    hide Runnable;
    forall i | 0 <= i < |tasks| && CanRun(tasks, graph, i) ensures i in order {
      assert i in Incomplete(tasks);
    }
    if picked.Some? {
      assert picked.value in order;
      var k :| 0 <= k < |order| && order[k] == picked.value
        && forall j | 0 <= j < k :: !Runnable(ById(tasks), graph(tasks[order[j]].id));
      forall i | 0 <= i < |tasks| && CanRun(tasks, graph, i) && i != picked.value
        ensures Earlier(tasks, picked.value, i)
      {
        var j :| 0 <= j < |order| && order[j] == i;
        assert k < j;
      }
    }
  }

  lemma SelectionIsUnique(tasks: seq<Task>, graph: Graph, p: Option<nat>, q: Option<nat>)
    requires IsSelection(tasks, graph, p) && IsSelection(tasks, graph, q)
    ensures p == q
  {
    if p.Some? && q.Some? && p.value != q.value {
      Total(tasks[p.value].name, tasks[q.value].name);
    }
  }

  // ---------- selection never deadlocks on an acyclic graph ----------

  predicate Settled(status: string) { status in TERMINAL || status in INCOMPLETE }

  /**
   * The query of every incomplete task answers, its targets are known, and their statuses are
   * terminal or incomplete. Other tasks are not queried.
   */
  ghost predicate Known(tasks: seq<Task>, graph: Graph) {
    forall i | 0 <= i < |tasks| && tasks[i].status in INCOMPLETE ::
      && graph(tasks[i].id).Edges?
      && forall b | b in graph(tasks[i].id).targets :: b in ById(tasks) && Settled(ById(tasks)[b].status)
  }

  ghost predicate DependsOn(graph: Graph, a: string, b: string) {
    graph(a).Edges? && b in graph(a).targets
  }

  ghost predicate IncompleteId(tasks: seq<Task>, id: string) {
    exists i | 0 <= i < |tasks| :: tasks[i].id == id && tasks[i].status in INCOMPLETE
  }

  /** Incomplete tasks, each depending on the next. */
  ghost predicate IsPath(tasks: seq<Task>, graph: Graph, path: seq<string>) {
    && (forall i | 0 <= i < |path| :: IncompleteId(tasks, path[i]))
    && forall i | 0 < i < |path| :: DependsOn(graph, path[i - 1], path[i])
  }

  ghost predicate IsCycle(tasks: seq<Task>, graph: Graph, c: seq<string>) {
    |c| >= 2 && IsPath(tasks, graph, c) && c[0] == c[|c| - 1]
  }

  lemma {:induction false} ByIdIsATask(tasks: seq<Task>, id: string)
    requires id in ById(tasks)
    ensures exists i | 0 <= i < |tasks| :: tasks[i].id == id && ById(tasks)[id] == tasks[i]
  {
    var n := |tasks| - 1;
    if tasks[n].id != id {
      ByIdIsATask(tasks[..n], id);
      var i :| 0 <= i < n && tasks[..n][i].id == id && ById(tasks[..n])[id] == tasks[..n][i];
      assert tasks[i].id == id;
    }
  }

  /** When nothing can run, every incomplete task waits for another incomplete one. */
  lemma WaitsForIncomplete(tasks: seq<Task>, graph: Graph, a: string) returns (b: string)
    requires Known(tasks, graph) && IsSelection(tasks, graph, None) && IncompleteId(tasks, a)
    ensures DependsOn(graph, a, b) && IncompleteId(tasks, b)
  {
    var i :| 0 <= i < |tasks| && tasks[i].id == a && tasks[i].status in INCOMPLETE;
    assert !CanRun(tasks, graph, i);
    var k :| 0 <= k < |graph(a).targets| && !Ended(ById(tasks), graph(a).targets[k]);
    b := graph(a).targets[k];
    ByIdIsATask(tasks, b);
    var j :| 0 <= j < |tasks| && tasks[j].id == b && ById(tasks)[b] == tasks[j];
    assert tasks[j].status in INCOMPLETE;
  }

  lemma {:induction false} LongPath(tasks: seq<Task>, graph: Graph, start: string, n: nat) returns (path: seq<string>)
    requires Known(tasks, graph) && IsSelection(tasks, graph, None) && IncompleteId(tasks, start)
    ensures |path| == n + 1 && IsPath(tasks, graph, path)
  {
    if n == 0 { return [start]; }
    var shorter := LongPath(tasks, graph, start, n - 1);
    var next := WaitsForIncomplete(tasks, graph, shorter[n - 1]);
    path := shorter + [next];
  }

  /** More entries than values: two are equal. */
  lemma {:induction false} Pigeonhole(path: seq<string>, ids: set<string>)
    requires forall i | 0 <= i < |path| :: path[i] in ids
    requires |path| > |ids|
    ensures exists i, j | 0 <= i < j < |path| :: path[i] == path[j]
    decreases |path|
  {
    var n := |path| - 1;
    var last := path[n];
    if i :| 0 <= i < n && path[i] == last {
      assert path[i] == path[n];
    } else {
      Pigeonhole(path[..n], ids - {last});
      var i, j :| 0 <= i < j < n && path[..n][i] == path[..n][j];
      assert path[i] == path[j];
    }
  }

  /** A path that comes back to a task holds a cycle. */
  lemma LoopIsCycle(tasks: seq<Task>, graph: Graph, path: seq<string>, i: nat, j: nat)
    requires IsPath(tasks, graph, path) && i < j < |path| && path[i] == path[j]
    ensures IsCycle(tasks, graph, path[i..j + 1])
  {
    hide IncompleteId;
    hide DependsOn;
    var c := path[i..j + 1];
    assert forall k | 0 <= k < |c| :: c[k] == path[i + k];
    forall k | 0 < k < |c| ensures DependsOn(graph, c[k - 1], c[k]) { assert DependsOn(graph, path[i + k - 1], path[i + k]); }
  }

  /** Selecting nothing while incomplete tasks remain means they contain a dependency cycle. */
  lemma StuckMeansCycle(tasks: seq<Task>, graph: Graph, start: string)
    requires Known(tasks, graph) && IsSelection(tasks, graph, None) && IncompleteId(tasks, start)
    ensures exists c :: IsCycle(tasks, graph, c)
  {
    var ids := set i | 0 <= i < |tasks| :: tasks[i].id;
    var path := LongPath(tasks, graph, start, |ids|);
    assert forall i | 0 <= i < |path| :: IncompleteId(tasks, path[i]);
    hide IsSelection;
    hide Known;
    hide IsCycle;
    hide DependsOn;
    Pigeonhole(path, ids);
    var i, j :| 0 <= i < j < |path| && path[i] == path[j];
    LoopIsCycle(tasks, graph, path, i, j);
  }

  // ---------- whole runs of selecting and completing ----------

  ghost predicate UniqueIds(tasks: seq<Task>) {
    forall i, j | 0 <= i < j < |tasks| :: tasks[i].id != tasks[j].id
  }

  ghost predicate Acyclic(tasks: seq<Task>, graph: Graph) {
    forall c :: !IsCycle(tasks, graph, c)
  }

  function Complete(tasks: seq<Task>, p: nat): seq<Task>
    requires p < |tasks|
  {
    tasks[p := tasks[p].(status := "TASK_STATUS_COMPLETED")]
  }

  /** The positions selected and completed, round by round, until nothing is selected. */
  ghost predicate IsRun(tasks: seq<Task>, graph: Graph, ps: seq<nat>)
    decreases |ps|
  {
    if ps == [] then IsSelection(tasks, graph, None)
    else IsSelection(tasks, graph, Some(ps[0])) && IsRun(Complete(tasks, ps[0]), graph, ps[1..])
  }

  function Open(tasks: seq<Task>): set<nat> {
    set i: nat | i < |tasks| && tasks[i].status in INCOMPLETE
  }

  lemma {:induction false} ByIdUnique(tasks: seq<Task>, i: nat)
    requires UniqueIds(tasks) && i < |tasks|
    ensures tasks[i].id in ById(tasks) && ById(tasks)[tasks[i].id] == tasks[i]
  {
    var n := |tasks| - 1;
    if i < n {
      ByIdUnique(tasks[..n], i);
      assert tasks[..n][i] == tasks[i];
    }
  }

  lemma {:induction false} ByIdKeys(tasks: seq<Task>, others: seq<Task>)
    requires |tasks| == |others| && forall i | 0 <= i < |tasks| :: tasks[i].id == others[i].id
    ensures ById(tasks).Keys == ById(others).Keys
  {
    if tasks != [] { ByIdKeys(tasks[..|tasks| - 1], others[..|tasks| - 1]); }
  }

  lemma StatusesAreDisjoint()
    ensures TERMINAL !! INCOMPLETE && "TASK_STATUS_COMPLETED" in TERMINAL
  {}

  /** Completing the selected task keeps the setting and closes just that task. */
  lemma CompleteKeepsSetting(tasks: seq<Task>, graph: Graph, p: nat)
    requires UniqueIds(tasks) && Known(tasks, graph) && Acyclic(tasks, graph)
    requires p < |tasks| && tasks[p].status in INCOMPLETE
    ensures var next := Complete(tasks, p);
      UniqueIds(next) && Known(next, graph) && Acyclic(next, graph) && Open(next) == Open(tasks) - {p}
  {
    var next := Complete(tasks, p);
    StatusesAreDisjoint();
    ByIdKeys(tasks, next);
    forall b | b in ById(tasks) && Settled(ById(tasks)[b].status) ensures Settled(ById(next)[b].status) {
      ByIdIsATask(next, b);
      var j :| 0 <= j < |next| && next[j].id == b && ById(next)[b] == next[j];
      ByIdUnique(tasks, j);
    }
    forall c ensures !IsCycle(next, graph, c) {
      if IsCycle(next, graph, c) {
        forall i | 0 <= i < |c| ensures IncompleteId(tasks, c[i]) {
          var k :| 0 <= k < |next| && next[k].id == c[i] && next[k].status in INCOMPLETE;
          assert tasks[k].id == c[i];
        }
        assert IsCycle(tasks, graph, c);
        assert false;
      }
    }
  }

  /** A task that can run has no open dependency. */
  lemma RunnableHasNoOpenDependency(tasks: seq<Task>, graph: Graph, p: nat, q: nat)
    requires UniqueIds(tasks) && p < |tasks| && q < |tasks| && CanRun(tasks, graph, p)
    requires DependsOn(graph, tasks[p].id, tasks[q].id)
    ensures q !in Open(tasks)
  {
    StatusesAreDisjoint();
    ByIdUnique(tasks, q);
    var k :| 0 <= k < |graph(tasks[p].id).targets| && graph(tasks[p].id).targets[k] == tasks[q].id;
    assert Ended(ById(tasks), tasks[q].id);
  }

  /**
   * On an acyclic graph a run takes exactly as many rounds as there are incomplete tasks
   * and completes each of them once.
   */
  lemma {:induction false} RunCompletesEachOnce(tasks: seq<Task>, graph: Graph, ps: seq<nat>)
    requires UniqueIds(tasks) && Known(tasks, graph) && Acyclic(tasks, graph) && IsRun(tasks, graph, ps)
    ensures |ps| == |Open(tasks)|
    ensures forall p: nat :: p in ps <==> p in Open(tasks)
    decreases |ps|
  {
    if ps == [] {
      if p: nat :| p in Open(tasks) {
        StuckMeansCycle(tasks, graph, tasks[p].id);
      }
      assert Open(tasks) == {};
    } else {
      CompleteKeepsSetting(tasks, graph, ps[0]);
      RunCompletesEachOnce(Complete(tasks, ps[0]), graph, ps[1..]);
      assert ps == [ps[0]] + ps[1..];
      assert ps[0] in Open(tasks);
    }
  }

  /** Every open dependency of a task in the order stands before it. */
  ghost predicate DependenciesFirst(tasks: seq<Task>, graph: Graph, ps: seq<nat>) {
    forall i, q: nat | 0 <= i < |ps| && q in Open(tasks) ::
      ps[i] < |tasks| && (DependsOn(graph, tasks[ps[i]].id, tasks[q].id) ==> q in ps[..i])
  }

  /** The order in which a run completes tasks is a linear extension of the dependency order. */
  lemma {:induction false} RunIsLinearExtension(tasks: seq<Task>, graph: Graph, ps: seq<nat>)
    requires UniqueIds(tasks) && Known(tasks, graph) && Acyclic(tasks, graph) && IsRun(tasks, graph, ps)
    ensures DependenciesFirst(tasks, graph, ps)
    decreases |ps|
  {
    if ps != [] {
      var p, next, rest := ps[0], Complete(tasks, ps[0]), ps[1..];
      RunCompletesEachOnce(tasks, graph, ps);
      CompleteKeepsSetting(tasks, graph, p);
      RunIsLinearExtension(next, graph, rest);
      forall i, q: nat | 0 <= i < |ps| && q in Open(tasks)
        ensures ps[i] < |tasks| && (DependsOn(graph, tasks[ps[i]].id, tasks[q].id) ==> q in ps[..i])
      {
        assert ps[i] in Open(tasks);
        if DependsOn(graph, tasks[ps[i]].id, tasks[q].id) {
          FirstOrLater(tasks, graph, ps, i, q);
        }
      }
    }
  }

  lemma FirstOrLater(tasks: seq<Task>, graph: Graph, ps: seq<nat>, i: nat, q: nat)
    requires UniqueIds(tasks) && ps != [] && IsSelection(tasks, graph, Some(ps[0])) && i < |ps| && q in Open(tasks)
    requires DependenciesFirst(Complete(tasks, ps[0]), graph, ps[1..])
    requires Open(Complete(tasks, ps[0])) == Open(tasks) - {ps[0]}
    requires ps[i] < |tasks| && DependsOn(graph, tasks[ps[i]].id, tasks[q].id)
    ensures q in ps[..i]
  {
    if i == 0 {
      RunnableHasNoOpenDependency(tasks, graph, ps[0], q);
    } else {
      var next, rest := Complete(tasks, ps[0]), ps[1..];
      assert ps[..i] == [ps[0]] + rest[..i - 1];
      if q != ps[0] {
        assert rest[i - 1] == ps[i] && q in Open(next);
        assert next[rest[i - 1]].id == tasks[ps[i]].id && next[q].id == tasks[q].id;
      }
    }
  }

  // ---------- runs exist ----------

  /** The selection among the first n tasks. */
  lemma {:induction false} SelectionAmong(tasks: seq<Task>, graph: Graph, n: nat) returns (p: Option<nat>)
    requires n <= |tasks|
    ensures p.None? ==> forall i | 0 <= i < n :: !CanRun(tasks, graph, i)
    ensures p.Some? ==> p.value < n && CanRun(tasks, graph, p.value)
    ensures p.Some? ==> forall i | 0 <= i < n && CanRun(tasks, graph, i) && i != p.value :: Earlier(tasks, p.value, i)
  {
    if n == 0 { return None; }
    p := SelectionAmong(tasks, graph, n - 1);
    if CanRun(tasks, graph, n - 1) {
      if p.None? { return Some(n - 1); }
      EarlierIsTotalOrder(tasks, n - 1, p.value, p.value);
      if Earlier(tasks, n - 1, p.value) {
        forall i | 0 <= i < n - 1 && CanRun(tasks, graph, i) ensures Earlier(tasks, n - 1, i) {
          EarlierIsTotalOrder(tasks, n - 1, p.value, i);
        }
        p := Some(n - 1);
      }
    }
  }

  /** From any setting, acyclic or not, selecting and completing comes to an end. */
  lemma {:induction false} RunExists(tasks: seq<Task>, graph: Graph) returns (ps: seq<nat>)
    ensures IsRun(tasks, graph, ps)
    decreases |Open(tasks)|
  {
    var p := SelectionAmong(tasks, graph, |tasks|);
    if p.None? { return []; }
    StatusesAreDisjoint();
    assert Open(Complete(tasks, p.value)) == Open(tasks) - {p.value};
    assert p.value in Open(tasks);
    var rest := RunExists(Complete(tasks, p.value), graph);
    ps := [p.value] + rest;
    assert ps[1..] == rest;
  }
}
