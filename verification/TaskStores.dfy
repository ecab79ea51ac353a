/** The task store (lib/db/task_store.c): two tables under foreign keys, the recursive cycle check run before a
    dependency is inserted, cascading deletes, and the readiness queries. */
module TaskStores {
  import opened Wrappers
  import opened Graphs
  import opened Subtrees

  datatype Status = Pending | InProgress | Completed

  datatype Task = Task(session: string, parent: Option<Id>, content: string, status: Status, priority: int,
                       createdAt: int)

  /** The two tables. A key of tasks is a primary key, and so is a pair of deps. */
  datatype Store = Store(tasks: map<Id, Task>, deps: Edges)

  datatype NewTask = NewTask(id: Id, parent: string, content: string, status: Status, priority: int, createdAt: int)

  /** Both foreign keys hold: an edge joins two tasks, and a parent is a task. */
  ghost predicate ForeignKeys(s: Store) {
    && (forall e :: e in s.deps ==> e.0 in s.tasks && e.1 in s.tasks)
    && (forall id :: id in s.tasks && s.tasks[id].parent.Some? ==> s.tasks[id].parent.value in s.tasks)
  }

  // ----- Deletes -----

  function Children(tasks: map<Id, Task>, of: set<Id>): set<Id> {
    set id | id in tasks && tasks[id].parent.Some? && tasks[id].parent.value in of :: id
  }

  /** What ON DELETE CASCADE removes when the tasks in dead go: children, their children, and so on. The parent
      relation may hold cycles, because set_parent does not look for them. */
  function Cascade(tasks: map<Id, Task>, dead: set<Id>): (gone: set<Id>)
    requires dead <= tasks.Keys
    ensures dead <= gone <= tasks.Keys
    ensures Children(tasks, gone) <= gone
    decreases |tasks.Keys - dead|
  {
    var more := Children(tasks, dead) - dead;
    if more == {} then dead
    else
      CascadeShrinks(tasks, dead, more);
      Cascade(tasks, dead + more)
  }

  lemma CascadeShrinks(tasks: map<Id, Task>, dead: set<Id>, more: set<Id>)
    requires more != {} && more !! dead && more <= tasks.Keys
    ensures |tasks.Keys - (dead + more)| < |tasks.Keys - dead|
  {
    var x :| x in more;
    StrictSubsetSmaller(tasks.Keys - (dead + more), tasks.Keys - dead, x);
  }

  /** The cascade takes nothing it does not have to: any set that holds the roots and is closed under children
      holds all of it. */
  lemma {:induction false} CascadeIsLeast(tasks: map<Id, Task>, dead: set<Id>, closed: set<Id>)
    requires dead <= tasks.Keys && dead <= closed && Children(tasks, closed) <= closed
    ensures Cascade(tasks, dead) <= closed
    decreases |tasks.Keys - dead|
  {
    var more := Children(tasks, dead) - dead;
    if more != {} {
      CascadeShrinks(tasks, dead, more);
      assert Children(tasks, dead) <= Children(tasks, closed);
      CascadeIsLeast(tasks, dead + more, closed);
    }
  }

  /** The parents as the subtree query sees them. */
  function ParentMap(tasks: map<Id, Task>): Parents {
    map id | id in tasks && tasks[id].parent.Some? :: tasks[id].parent.value
  }

  /** A cascading delete of one task takes it and exactly what lies below it. */
  lemma CascadeIsSubtree(tasks: map<Id, Task>, root: Id)
    requires root in tasks
    ensures Cascade(tasks, {root}) == {root} + Descendants(ParentMap(tasks), root)
  {
    var parents, gone := ParentMap(tasks), Cascade(tasks, {root});
    var closed := {root} + Descendants(parents, root);
    forall id | id in Children(tasks, closed)
      ensures id in closed
    {
      EdgeReaches(Links(parents), id, parents[id]);
      if parents[id] != root {
        ReachesTransitive(Links(parents), id, parents[id], root);
      }
    }
    CascadeIsLeast(tasks, {root}, closed);
    forall id | id in Descendants(parents, root)
      ensures id in gone
    {
      var p :| Connects(Links(parents), p, id, root);
      PathIsGone(tasks, gone, p, id, root);
    }
  }

  lemma {:induction false} PathIsGone(tasks: map<Id, Task>, gone: set<Id>, p: seq<Id>, id: Id, root: Id)
    requires Children(tasks, gone) <= gone && root in gone && Connects(Links(ParentMap(tasks)), p, id, root)
    ensures id in gone
    decreases |p|
  {
    FirstStep(Links(ParentMap(tasks)), p, id, root);
    if |p| > 2 {
      PathIsGone(tasks, gone, p[1..], p[1], root);
    }
    assert id in Children(tasks, gone);
  }

  function Without(s: Store, gone: set<Id>): Store {
    Store(s.tasks - gone, set e | e in s.deps && e.0 !in gone && e.1 !in gone)
  }

  function Deleted(s: Store, dead: set<Id>): Store
    requires dead <= s.tasks.Keys
  {
    Without(s, Cascade(s.tasks, dead))
  }

  // ----- Inserts -----

  function ParentOf(parent: string): Option<Id> {
    if parent == "" then None else Some(parent)
  }

  /** INSERT INTO tasks: refused when the id is taken or the parent is no task. A task may name itself. */
  function InsertTask(s: Store, id: Id, t: Task): Option<Store> {
    if id in s.tasks || (t.parent.Some? && t.parent.value != id && t.parent.value !in s.tasks) then None
    else Some(s.(tasks := s.tasks[id := t]))
  }

  function RowOf(session: string, n: NewTask, now: int): Task {
    Task(session, ParentOf(n.parent), n.content, n.status, n.priority, if n.createdAt > 0 then n.createdAt else now)
  }

  predicate HexDigit(c: char) {
    '0' <= c <= '9' || 'a' <= c <= 'f' || 'A' <= c <= 'F'
  }

  /** uuid_is_valid (lib/util/uuid_utils.c:43-71). */
  predicate IsUuid(id: Id) {
    |id| == 36 && forall i :: 0 <= i < 36 ==> if i in {8, 13, 18, 23} then id[i] == '-' else HexDigit(id[i])
  }

  predicate AllHex(s: string) {
    forall i :: 0 <= i < |s| ==> s[i] in "0123456789abcdefABCDEF"
  }

  /** A uuid is five groups of 8, 4, 4, 4 and 12 hexadecimal digits of either case, joined by hyphens. */
  lemma UuidMeans(a: string, b: string, c: string, d: string, e: string)
    requires |a| == 8 && |b| == |c| == |d| == 4 && |e| == 12
    ensures IsUuid(a + "-" + b + "-" + c + "-" + d + "-" + e)
            <==> AllHex(a) && AllHex(b) && AllHex(c) && AllHex(d) && AllHex(e)
  {
    var id := a + "-" + b + "-" + c + "-" + d + "-" + e;
    assert id[..8] == a && id[9..13] == b && id[14..18] == c && id[19..23] == d && id[24..] == e;
    forall x: char
      ensures HexDigit(x) <==> x in "0123456789abcdefABCDEF"
    {
      HexIsListed(x);
    }
  }

  lemma UuidHasGroups(id: Id) returns (a: string, b: string, c: string, d: string, e: string)
    requires IsUuid(id)
    ensures |a| == 8 && |b| == |c| == |d| == 4 && |e| == 12
    ensures id == a + "-" + b + "-" + c + "-" + d + "-" + e
  {
    a, b, c, d, e := id[..8], id[9..13], id[14..18], id[19..23], id[24..];
  }

  lemma HexIsListed(c: char)
    ensures HexDigit(c) <==> c in "0123456789abcdefABCDEF"
  {
    var digits := "0123456789abcdefABCDEF";
    if HexDigit(c) {
      var k := if c <= '9' then (c - '0') as int else if c <= 'F' then (c - 'A') as int + 16 else (c - 'a') as int + 10;
      assert digits[k] == c;
    }
  }

  /** The rows from k on, in order. A row whose id is no uuid gets the one that is drawn for it, if any is. */
  function InsertFrom(s: Store, session: string, rows: seq<NewTask>, draw: nat -> Option<Id>, now: int, k: nat)
    : Option<Store>
    decreases |rows| - k
  {
    if k >= |rows| then Some(s)
    else
      match if IsUuid(rows[k].id) then Some(rows[k].id) else draw(k)
      case None => None
      case Some(id) =>
        match InsertTask(s, id, RowOf(session, rows[k], now))
        case None => None
        case Some(s') => InsertFrom(s', session, rows, draw, now, k + 1)
  }

  function InSession(s: Store, session: string): set<Id> {
    set id | id in s.tasks && s.tasks[id].session == session
  }

  // ----- The store's calls -----

  datatype Call =
    | Create(id: Id, session: string, content: string, priority: int, parent: string, now: int)
    | UpdateStatus(id: Id, status: Status)
    | SetParent(id: Id, parent: string)
    | AddDependency(id: Id, blockedBy: Id)
    | RemoveDependency(id: Id, blockedBy: Id)
    | Delete(id: Id)
    | Replace(session: string, rows: seq<NewTask>, draw: nat -> Option<Id>, now: int)

  /** The tables and the return code after one call that runs to completion. */
  ghost function Apply(s: Store, c: Call): (Store, int) {
    match c
    case Create(id, session, content, priority, parent, now) =>
      (match InsertTask(s, id, Task(session, ParentOf(parent), content, Pending, priority, now))
       case None => (s, -1)
       case Some(s') => (s', 0))
    case UpdateStatus(id, status) =>
      if id in s.tasks then (s.(tasks := s.tasks[id := s.tasks[id].(status := status)]), 0) else (s, -1)
    case SetParent(id, parent) =>
      if id in s.tasks && (parent == "" || parent in s.tasks)
      then (s.(tasks := s.tasks[id := s.tasks[id].(parent := ParentOf(parent))]), 0)
      else (s, -1)
    case AddDependency(id, blockedBy) =>
      if ReachesOrIs(s.deps, blockedBy, id) then (s, -2)
      else if id !in s.tasks || blockedBy !in s.tasks then (s, -1)
      else (s.(deps := s.deps + {(id, blockedBy)}), 0)
    case RemoveDependency(id, blockedBy) =>
      (s.(deps := s.deps - {(id, blockedBy)}), 0)
    case Delete(id) =>
      if id in s.tasks then (Deleted(s, {id}), 0) else (s, -1)
    case Replace(session, rows, draw, now) =>
      (match InsertFrom(Deleted(s, InSession(s, session)), session, rows, draw, now, 0)
       case None => (s, -1)
       case Some(s') => (s', 0))
  }

  class TaskStore {
    var tasks: map<Id, Task>
    var deps: Edges

    function State(): Store
      reads this
    {
      Store(tasks, deps)
    }

    constructor ()
      ensures State() == Store(map[], {}) && WellFormed(State())
    {
      tasks, deps := map[], {};
      new;
      EmptyAcyclic();
    }

    /** The recursive query: a queue of rows, with UNION dropping every row already produced. It ends on any
        graph, cyclic or not, and yields exactly the tasks that start reaches. */
    method DependencyChain(start: Id) returns (chain: set<Id>)
      ensures forall x :: x in chain <==> Reaches(deps, start, x)
    {
      var queue := Successors(deps, start);
      var produced := queue;
      chain := {};
      forall x | x in produced
        ensures Reaches(deps, start, x)
      {
        EdgeReaches(deps, start, x);
      }
      while queue != {}
        invariant Successors(deps, start) <= produced <= Targets(deps)
        invariant queue <= produced && chain == produced - queue
        invariant forall x :: x in produced ==> Reaches(deps, start, x)
        invariant forall x :: x in chain ==> Successors(deps, x) <= produced
        decreases Targets(deps) - chain
      {
        var x :| x in queue;
        var next := Successors(deps, x) - produced;
        forall y | y in next
          ensures Reaches(deps, start, y)
        {
          EdgeReaches(deps, x, y);
          ReachesTransitive(deps, start, x, y);
        }
        queue := queue - {x} + next;
        produced := produced + next;
        chain := chain + {x};
      }
      forall x | Reaches(deps, start, x)
        ensures x in chain
      {
        var p :| Connects(deps, p, start, x);
        ClosedSetHoldsPath(deps, chain, p, start, x);
      }
    }

    method AddDependency(id: Id, blockedBy: Id) returns (rc: int)
      modifies this
      ensures (State(), rc) == Apply(old(State()), Call.AddDependency(id, blockedBy))
      ensures rc == 0 ==> tasks == old(tasks) && deps == old(deps) + {(id, blockedBy)}
      ensures rc != 0 ==> tasks == old(tasks) && deps == old(deps)
      ensures rc == -2 <==> ReachesOrIs(old(deps), blockedBy, id)
      ensures rc == -1 <==> !ReachesOrIs(old(deps), blockedBy, id) && (id !in tasks || blockedBy !in tasks)
      ensures rc in {0, -1, -2}
    {
      if id == blockedBy {
        return -2;
      }
      var chain := DependencyChain(blockedBy);
      if id in chain {
        return -2;
      }
      if id !in tasks || blockedBy !in tasks {
        return -1;
      }
      deps := deps + {(id, blockedBy)};
      rc := 0;
    }

    method RemoveDependency(id: Id, blockedBy: Id) returns (rc: int)
      modifies this`deps
      ensures (State(), rc) == Apply(old(State()), Call.RemoveDependency(id, blockedBy))
      ensures rc == 0 && tasks == old(tasks) && (id, blockedBy) !in deps
      ensures forall e :: e != (id, blockedBy) ==> (e in deps <==> e in old(deps))
    {
      deps := deps - {(id, blockedBy)};
      rc := 0;
    }

    method CreateTask(id: Id, session: string, content: string, priority: int, parent: string, now: int)
      returns (rc: int)
      modifies this`tasks
      ensures (State(), rc) == Apply(old(State()), Create(id, session, content, priority, parent, now))
      ensures rc == if id in old(tasks) || (parent != "" && parent != id && parent !in old(tasks)) then -1 else 0
      ensures rc == 0 ==>
                tasks == old(tasks)[id := Task(session, if parent == "" then None else Some(parent), content, Pending,
                                               priority, now)]
      ensures rc != 0 ==> tasks == old(tasks)
    {
      match InsertTask(State(), id, Task(session, ParentOf(parent), content, Pending, priority, now))
      case None => rc := -1;
      case Some(s) => tasks, rc := s.tasks, 0;
    }

    method SetStatus(id: Id, status: Status) returns (rc: int)
      modifies this`tasks
      ensures (State(), rc) == Apply(old(State()), UpdateStatus(id, status))
      ensures rc == if id in old(tasks) then 0 else -1
      ensures tasks.Keys == old(tasks).Keys && (id in tasks ==> tasks[id] == old(tasks)[id].(status := status))
      ensures forall other :: other in tasks && other != id ==> tasks[other] == old(tasks)[other]
    {
      if id !in tasks {
        return -1;
      }
      tasks := tasks[id := tasks[id].(status := status)];
      rc := 0;
    }

    method SetParent(id: Id, parent: string) returns (rc: int)
      modifies this`tasks
      ensures (State(), rc) == Apply(old(State()), Call.SetParent(id, parent))
      ensures rc == if id in old(tasks) && (parent == "" || parent in old(tasks)) then 0 else -1
      ensures tasks.Keys == old(tasks).Keys
      ensures rc == 0 ==> tasks[id] == old(tasks)[id].(parent := if parent == "" then None else Some(parent))
      ensures forall other :: other in tasks && (other != id || rc != 0) ==> tasks[other] == old(tasks)[other]
    {
      if id !in tasks || (parent != "" && parent !in tasks) {
        return -1;
      }
      tasks := tasks[id := tasks[id].(parent := ParentOf(parent))];
      rc := 0;
    }

    /** get_subtree, where its query ends: each row that is taken out brings the rows of its children with it. */
    method GetSubtree(root: Id) returns (rows: seq<Id>)
      requires !Below(ParentMap(tasks), root, root)
      ensures multiset(rows) == multiset(Descendants(ParentMap(tasks), root))
    {
      var parents := ParentMap(tasks);
      var queue := multiset(Kids(parents, root));
      rows := [];
      while queue != multiset{}
        invariant IsRun(parents, root, rows) && queue == Queue(parents, root, rows)
        decreases |Descendants(parents, root)| - |rows|
      {
        var id :| id in queue;
        assert (rows + [id])[..|rows|] == rows;
        queue, rows := queue - multiset{id} + multiset(Kids(parents, id)), rows + [id];
        RunIsBounded(parents, root, rows);
      }
      EndedYieldsDescendants(parents, root, rows);
    }

    method DeleteTask(id: Id) returns (rc: int)
      modifies this
      ensures (State(), rc) == Apply(old(State()), Delete(id))
      ensures rc == if id in old(tasks) then 0 else -1
      ensures var gone := if id in old(tasks) then {id} + Descendants(ParentMap(old(tasks)), id) else {};
              && tasks == old(tasks) - gone
              && forall e :: e in deps <==> e in old(deps) && (rc == 0 ==> e.0 !in gone && e.1 !in gone)
    {
      if id !in tasks {
        return -1;
      }
      CascadeIsSubtree(tasks, id);
      var s := Deleted(State(), {id});
      tasks, deps := s.tasks, s.deps;
      rc := 0;
    }

    /** One transaction: delete the session's tasks, insert the new rows in order, and roll everything back at
        the first row that is refused or gets no id. */
    method ReplaceSessionTasks(session: string, rows: seq<NewTask>, draw: nat -> Option<Id>, now: int)
      returns (rc: int)
      modifies this
      ensures (State(), rc) == Apply(old(State()), Replace(session, rows, draw, now))
    {
      var before := State();
      var cleared := Deleted(before, InSession(before, session));
      tasks, deps := cleared.tasks, cleared.deps;
      for k := 0 to |rows|
        invariant InsertFrom(cleared, session, rows, draw, now, 0)
               == InsertFrom(State(), session, rows, draw, now, k)
      {
        var id := if IsUuid(rows[k].id) then Some(rows[k].id) else draw(k);
        if id.None? {
          tasks, deps := before.tasks, before.deps;
          return -1;
        }
        match InsertTask(State(), id.value, RowOf(session, rows[k], now))
        case None =>
          tasks, deps := before.tasks, before.deps;
          return -1;
        case Some(s) =>
          tasks, deps := s.tasks, s.deps;
      }
      rc := 0;
    }
  }

  // ----- Safety over runs -----

  ghost predicate WellFormed(s: Store) {
    ForeignKeys(s) && Acyclic(s.deps)
  }

  ghost function Run(s: Store, calls: seq<Call>): Store
    decreases |calls|
  {
    if calls == [] then s else Run(Apply(s, calls[0]).0, calls[1..])
  }

  lemma WithoutWellFormed(s: Store, dead: set<Id>)
    requires WellFormed(s) && dead <= s.tasks.Keys
    ensures WellFormed(Deleted(s, dead))
  {
    var gone := Cascade(s.tasks, dead);
    SubgraphAcyclic(Deleted(s, dead).deps, s.deps);
    forall id | id in s.tasks - gone && s.tasks[id].parent.Some?
      ensures s.tasks[id].parent.value in s.tasks - gone
    {
      assert s.tasks[id].parent.value in gone ==> id in Children(s.tasks, gone);
    }
  }

  lemma {:induction false} InsertFromWellFormed(s: Store, session: string, rows: seq<NewTask>,
                                                draw: nat -> Option<Id>, now: int, k: nat)
    requires WellFormed(s)
    ensures var r := InsertFrom(s, session, rows, draw, now, k); r.Some? ==> WellFormed(r.value)
    decreases |rows| - k
  {
    if k < |rows| {
      var id := if IsUuid(rows[k].id) then Some(rows[k].id) else draw(k);
      if id.Some? {
        var r := InsertTask(s, id.value, RowOf(session, rows[k], now));
        if r.Some? {
          InsertFromWellFormed(r.value, session, rows, draw, now, k + 1);
        }
      }
    }
  }

  lemma CallKeepsWellFormed(s: Store, c: Call)
    requires WellFormed(s)
    ensures WellFormed(Apply(s, c).0)
  {
    match c
    case AddDependency(id, blockedBy) =>
      AddEdgeClosesCycleIff(s.deps, id, blockedBy);
    case RemoveDependency(id, blockedBy) =>
      SubgraphAcyclic(s.deps - {(id, blockedBy)}, s.deps);
    case Delete(id) =>
      if id in s.tasks {
        WithoutWellFormed(s, {id});
      }
    case Replace(session, rows, draw, now) =>
      var cleared := Deleted(s, InSession(s, session));
      WithoutWellFormed(s, InSession(s, session));
      InsertFromWellFormed(cleared, session, rows, draw, now, 0);
    case _ =>
  }

  /** No run of calls, each running to completion, ever makes a task wait for itself. */
  lemma {:induction false} RunStaysAcyclic(s: Store, calls: seq<Call>)
    requires WellFormed(s)
    ensures WellFormed(Run(s, calls))
    decreases |calls|
  {
    if calls != [] {
      CallKeepsWellFormed(s, calls[0]);
      RunStaysAcyclic(Apply(s, calls[0]).0, calls[1..]);
    }
  }

  /** add_dependency answers -2 exactly when the edge would close a cycle. */
  lemma RefusedIffCycle(s: Store, id: Id, blockedBy: Id)
    requires Acyclic(s.deps)
    ensures Apply(s, AddDependency(id, blockedBy)).1 == -2 <==> !Acyclic(s.deps + {(id, blockedBy)})
  {
    AddEdgeClosesCycleIff(s.deps, id, blockedBy);
  }

  // ----- Replacing a session -----

  /** The id that row k goes in under, if it gets one. */
  function IdFor(rows: seq<NewTask>, draw: nat -> Option<Id>, k: nat): Option<Id>
    requires k < |rows|
  {
    if IsUuid(rows[k].id) then Some(rows[k].id) else draw(k)
  }

  predicate IsIdFor(rows: seq<NewTask>, draw: nat -> Option<Id>, k: nat, id: Id) {
    k < |rows| && IdFor(rows, draw, k) == Some(id)
  }

  /** One of the rows from k to j goes in under that id. */
  predicate Among(rows: seq<NewTask>, draw: nat -> Option<Id>, k: nat, j: nat, id: Id) {
    exists i :: k <= i < j && IsIdFor(rows, draw, i, id)
  }

  lemma AmongFirst(rows: seq<NewTask>, draw: nat -> Option<Id>, k: nat, j: nat, id: Id)
    requires k < j
    ensures Among(rows, draw, k, j, id) <==> IsIdFor(rows, draw, k, id) || Among(rows, draw, k + 1, j, id)
  {
    if i :| k + 1 <= i < j && IsIdFor(rows, draw, i, id) {
      assert Among(rows, draw, k, j, id);
    }
    if i :| k <= i < j && IsIdFor(rows, draw, i, id) {
      assert i == k || Among(rows, draw, k + 1, j, id);
    }
  }

  /** Row j gets an id that nothing before it has, and its parent is none, itself, or a task that is there by then. */
  predicate RowFits(s: Store, rows: seq<NewTask>, draw: nat -> Option<Id>, k: nat, j: nat)
    requires k <= j < |rows|
  {
    && IdFor(rows, draw, j).Some?
    && var id, parent := IdFor(rows, draw, j).value, rows[j].parent;
       && id !in s.tasks && !Among(rows, draw, k, j, id)
       && (parent in {"", id} || parent in s.tasks || Among(rows, draw, k, j, parent))
  }

  predicate AllFit(s: Store, rows: seq<NewTask>, draw: nat -> Option<Id>, k: nat) {
    forall j :: k <= j < |rows| ==> RowFits(s, rows, draw, k, j)
  }

  /** The rows from k on are in the table, as they were given, and nothing else is new. */
  ghost predicate RowsAreIn(s: Store, t: Store, session: string, rows: seq<NewTask>, draw: nat -> Option<Id>, now: int,
                            k: nat)
  {
    && t.deps == s.deps
    && (forall id :: id in s.tasks ==> id in t.tasks && t.tasks[id] == s.tasks[id])
    && (forall j :: k <= j < |rows| ==>
                      IdFor(rows, draw, j).Some? && IsRow(t, IdFor(rows, draw, j).value, session, rows[j], now))
    && (forall id :: id in t.tasks ==> id in s.tasks || Among(rows, draw, k, |rows|, id))
  }

  predicate IsRow(t: Store, id: Id, session: string, n: NewTask, now: int) {
    id in t.tasks
    && t.tasks[id] == Task(session, if n.parent == "" then None else Some(n.parent), n.content, n.status, n.priority,
                           if n.createdAt > 0 then n.createdAt else now)
  }

  lemma {:induction false} InsertFromMeans(s: Store, session: string, rows: seq<NewTask>, draw: nat -> Option<Id>,
                                           now: int, k: nat)
    requires k <= |rows|
    ensures var r := InsertFrom(s, session, rows, draw, now, k);
            r.Some? ==> RowsAreIn(s, r.value, session, rows, draw, now, k)
    decreases |rows| - k
  {
    if k < |rows| && IdFor(rows, draw, k).Some? {
      var r := InsertTask(s, IdFor(rows, draw, k).value, RowOf(session, rows[k], now));
      if r.Some? {
        InsertFromMeans(r.value, session, rows, draw, now, k + 1);
        var t := InsertFrom(s, session, rows, draw, now, k);
        if t.Some? {
          OneRowMore(s, r.value, t.value, session, rows, draw, now, k);
        }
      }
    }
  }

  lemma OneRowMore(s: Store, r: Store, t: Store, session: string, rows: seq<NewTask>, draw: nat -> Option<Id>, now: int,
                   k: nat)
    requires k < |rows| && IdFor(rows, draw, k).Some?
    requires InsertTask(s, IdFor(rows, draw, k).value, RowOf(session, rows[k], now)) == Some(r)
    requires RowsAreIn(r, t, session, rows, draw, now, k + 1)
    ensures RowsAreIn(s, t, session, rows, draw, now, k)
  {
    assert IsRow(r, IdFor(rows, draw, k).value, session, rows[k], now);
    forall id | id in t.tasks
      ensures id in s.tasks || Among(rows, draw, k, |rows|, id)
    {
      AmongFirst(rows, draw, k, |rows|, id);
    }
  }

  lemma {:induction false} InsertFromIff(s: Store, session: string, rows: seq<NewTask>, draw: nat -> Option<Id>,
                                         now: int, k: nat)
    requires k <= |rows|
    ensures InsertFrom(s, session, rows, draw, now, k).Some?
            <==> AllFit(s, rows, draw, k)
    decreases |rows| - k
  {
    if k < |rows| {
      var id := IdFor(rows, draw, k);
      if id.Some? && InsertTask(s, id.value, RowOf(session, rows[k], now)).Some? {
        var t := InsertTask(s, id.value, RowOf(session, rows[k], now)).value;
        InsertFromIff(t, session, rows, draw, now, k + 1);
        forall j | k < j < |rows|
          ensures RowFits(s, rows, draw, k, j) <==> RowFits(t, rows, draw, k + 1, j)
        {
          FitsAfterOne(s, t, rows, draw, k, j);
        }
        assert RowFits(s, rows, draw, k, k);
        AllFitFrom(s, t, rows, draw, k);
      } else {
        assert !RowFits(s, rows, draw, k, k);
        assert !AllFit(s, rows, draw, k);
      }
    }
  }

  lemma AllFitFrom(s: Store, t: Store, rows: seq<NewTask>, draw: nat -> Option<Id>, k: nat)
    requires k < |rows| && RowFits(s, rows, draw, k, k)
    requires forall j :: k < j < |rows| ==> (RowFits(s, rows, draw, k, j) <==> RowFits(t, rows, draw, k + 1, j))
    ensures AllFit(s, rows, draw, k) <==> AllFit(t, rows, draw, k + 1)
  {
    if AllFit(t, rows, draw, k + 1) {
      forall j | k <= j < |rows|
        ensures RowFits(s, rows, draw, k, j)
      {
        assert j == k || RowFits(t, rows, draw, k + 1, j);
      }
    }
    if AllFit(s, rows, draw, k) {
      var next := k + 1;
      forall j | next <= j < |rows|
        ensures RowFits(t, rows, draw, next, j)
      {
        assert RowFits(s, rows, draw, k, j);
      }
    }
  }

  lemma FitsAfterOne(s: Store, t: Store, rows: seq<NewTask>, draw: nat -> Option<Id>, k: nat, j: nat)
    requires k < j < |rows| && IdFor(rows, draw, k).Some? && t.tasks.Keys == s.tasks.Keys + {IdFor(rows, draw, k).value}
    ensures RowFits(s, rows, draw, k, j) <==> RowFits(t, rows, draw, k + 1, j)
  {
    if IdFor(rows, draw, j).Some? {
      AmongFirst(rows, draw, k, j, IdFor(rows, draw, j).value);
      AmongFirst(rows, draw, k, j, rows[j].parent);
    }
  }

  /** replace_session_tasks succeeds exactly when each row fits what is left without the session's old tasks and with
      the rows before it; the table then holds what is left and the rows. */
  lemma ReplaceMeans(s: Store, session: string, rows: seq<NewTask>, draw: nat -> Option<Id>, now: int)
    ensures var (t, rc) := Apply(s, Replace(session, rows, draw, now));
            var left := Without(s, Cascade(s.tasks, InSession(s, session)));
            && (rc == 0 <==> AllFit(left, rows, draw, 0))
            && (rc == 0 ==> RowsAreIn(left, t, session, rows, draw, now, 0))
            && (rc != 0 ==> rc == -1 && t == s)
  {
    var left := Deleted(s, InSession(s, session));
    InsertFromIff(left, session, rows, draw, now, 0);
    InsertFromMeans(left, session, rows, draw, now, 0);
  }

  // ----- Parents -----

  /** set_parent keeps a forest one exactly when the new parent is neither the task itself nor below it. */
  lemma SetParentClosesCycleIff(s: Store, id: Id, parent: Id)
    requires Acyclic(Links(ParentMap(s.tasks))) && id in s.tasks && parent in s.tasks && parent != ""
    ensures !Acyclic(Links(ParentMap(Apply(s, SetParent(id, parent)).0.tasks)))
            <==> ReachesOrIs(Links(ParentMap(s.tasks)), parent, id)
  {
    assert ParentMap(Apply(s, SetParent(id, parent)).0.tasks) == ParentMap(s.tasks)[id := parent];
    NewParentClosesCycleIff(ParentMap(s.tasks), id, parent);
  }

  /** Two tasks made each other's parent: the subtree query of either does not end. */
  lemma SubtreeGoesOn(s: Store, a: Id, b: Id)
    requires s.tasks.Keys == {a, b} && a != "" && b != ""
    ensures var parents := ParentMap(Run(s, [SetParent(a, b), SetParent(b, a)]).tasks);
            forall picks :: IsRun(parents, a, picks) ==> Queue(parents, a, picks) != multiset{}
  {
    var calls := [SetParent(a, b), SetParent(b, a)];
    assert calls[1..] == [SetParent(b, a)] && calls[1..][1..] == [];
    var t := Apply(s, calls[0]).0;
    var u := Apply(t, calls[1]).0;
    assert Run(t, calls[1..]) == Run(u, []) == u;
    assert Run(s, calls) == Run(t, calls[1..]);
    var parents := ParentMap(u.tasks);
    EdgeReaches(Links(parents), a, b);
    EdgeReaches(Links(parents), b, a);
    ReachesTransitive(Links(parents), a, b, a);
    forall picks | IsRun(parents, a, picks)
      ensures Queue(parents, a, picks) != multiset{}
    {
      CycleGoesOn(parents, a, picks);
    }
  }

  // ----- Readiness -----

  /** Some blocker still in the table is not completed. */
  predicate IsBlocked(s: Store, id: Id) {
    exists e :: e in s.deps && e.0 == id && e.1 in s.tasks && s.tasks[e.1].status != Completed
  }

  /** A call does not remove the dependency, nor one of its two tasks. */
  ghost predicate Spares(s: Store, c: Call, id: Id, blockedBy: Id) {
    match c
    case RemoveDependency(x, y) => (x, y) != (id, blockedBy)
    case Delete(x) => x in s.tasks ==> {id, blockedBy} !! Cascade(s.tasks, {x})
    case Replace(session, _, _, _) => {id, blockedBy} !! Cascade(s.tasks, InSession(s, session))
    case _ => true
  }

  ghost predicate AllSpare(s: Store, calls: seq<Call>, id: Id, blockedBy: Id)
    decreases |calls|
  {
    calls == [] || (Spares(s, calls[0], id, blockedBy) && AllSpare(Apply(s, calls[0]).0, calls[1..], id, blockedBy))
  }

  lemma {:induction false} InsertsKeepDeps(s: Store, session: string, rows: seq<NewTask>, draw: nat -> Option<Id>,
                                           now: int, k: nat)
    ensures var r := InsertFrom(s, session, rows, draw, now, k); r.Some? ==> r.value.deps == s.deps
    decreases |rows| - k
  {
    if k < |rows| {
      var id := if IsUuid(rows[k].id) then Some(rows[k].id) else draw(k);
      if id.Some? {
        var r := InsertTask(s, id.value, RowOf(session, rows[k], now));
        if r.Some? {
          InsertsKeepDeps(r.value, session, rows, draw, now, k + 1);
        }
      }
    }
  }

  lemma SparedStays(s: Store, c: Call, id: Id, blockedBy: Id)
    requires (id, blockedBy) in s.deps && Spares(s, c, id, blockedBy)
    ensures (id, blockedBy) in Apply(s, c).0.deps
  {
    match c
    case Replace(session, rows, draw, now) =>
      InsertsKeepDeps(Deleted(s, InSession(s, session)), session, rows, draw, now, 0);
    case _ =>
  }

  /** A dependency that was added keeps its task from being listed as ready, in every session, until its blocker is
      completed, in every run that removes neither the dependency nor its two tasks. */
  lemma {:induction false} BlockedUntilCompleted(s: Store, calls: seq<Call>, id: Id, blockedBy: Id, session: string)
    requires (id, blockedBy) in s.deps && WellFormed(s) && AllSpare(s, calls, id, blockedBy)
    ensures var t := Run(s, calls);
            && (id, blockedBy) in t.deps && blockedBy in t.tasks
            && (t.tasks[blockedBy].status != Completed ==> id !in Ready(t, session))
    decreases |calls|
  {
    if calls != [] {
      CallKeepsWellFormed(s, calls[0]);
      SparedStays(s, calls[0], id, blockedBy);
      BlockedUntilCompleted(Apply(s, calls[0]).0, calls[1..], id, blockedBy, session);
    }
  }

  /** add_dependency that answers 0: the task is not ready in any session while its blocker is not completed. */
  lemma AddedDependencyBlocks(s: Store, id: Id, blockedBy: Id, calls: seq<Call>, session: string)
    requires WellFormed(s) && Apply(s, AddDependency(id, blockedBy)).1 == 0
    requires AllSpare(Apply(s, AddDependency(id, blockedBy)).0, calls, id, blockedBy)
    ensures var t := Run(s, [AddDependency(id, blockedBy)] + calls);
            && s.deps <= Apply(s, AddDependency(id, blockedBy)).0.deps
            && blockedBy in t.tasks && (t.tasks[blockedBy].status != Completed ==> id !in Ready(t, session))
  {
    var all := [AddDependency(id, blockedBy)] + calls;
    assert all[1..] == calls;
    CallKeepsWellFormed(s, AddDependency(id, blockedBy));
    BlockedUntilCompleted(Apply(s, AddDependency(id, blockedBy)).0, calls, id, blockedBy, session);
  }

  /** A task is ready exactly when it is pending and every blocker still in the table is completed. */
  lemma ReadyIff(s: Store, session: string, id: Id)
    ensures id in Ready(s, session) <==>
            && id in s.tasks && s.tasks[id].session == session && s.tasks[id].status == Pending
            && forall b: Id :: (id, b) in s.deps && b in s.tasks ==> s.tasks[b].status == Completed
  {
    if id in s.tasks && IsBlocked(s, id) {
      var e :| e in s.deps && e.0 == id && e.1 in s.tasks && s.tasks[e.1].status != Completed;
      assert e == (id, e.1);
    }
  }

  /** The rows of list_ready, without their order. */
  function Ready(s: Store, session: string): set<Id> {
    set id | id in InSession(s, session) && s.tasks[id].status == Pending && !IsBlocked(s, id)
  }

  predicate HasPending(s: Store, session: string) {
    exists id :: id in InSession(s, session) && s.tasks[id].status in {Pending, InProgress}
  }

  /** The tasks of the session wait only for tasks of the session. */
  ghost predicate SelfContained(s: Store, session: string) {
    forall e :: e in s.deps && e.0 in InSession(s, session) ==> e.1 in InSession(s, session)
  }

  ghost predicate NoneInProgress(s: Store, session: string) {
    forall id :: id in InSession(s, session) ==> s.tasks[id].status != InProgress
  }

  ghost predicate Schedulable(s: Store, session: string) {
    WellFormed(s) && SelfContained(s, session) && NoneInProgress(s, session)
  }

  function Unfinished(s: Store, session: string): set<Id> {
    set id | id in InSession(s, session) && s.tasks[id].status != Completed
  }

  lemma HasPendingIff(s: Store, session: string)
    ensures HasPending(s, session) <==> Unfinished(s, session) != {}
  {
    if HasPending(s, session) {
      var id :| id in InSession(s, session) && s.tasks[id].status in {Pending, InProgress};
      assert id in Unfinished(s, session);
    }
    if Unfinished(s, session) != {} {
      var id :| id in Unfinished(s, session);
      assert id in InSession(s, session) && s.tasks[id].status in {Pending, InProgress};
    }
  }

  /** Any set of incomplete tasks holds one with no incomplete blocker in the set. */
  lemma SomeTaskIsFree(s: Store, pool: set<Id>) returns (m: Id)
    requires Acyclic(s.deps) && pool != {}
    requires forall id :: id in pool ==> id in s.tasks && s.tasks[id].status != Completed
    ensures SinkWithin(s.deps, pool, m)
  {
    m := SomeSink(s.deps, pool, pool);
  }

  /** Work never stalls: while a session that waits only for itself has something left to do and nothing in
      progress, some task is ready. */
  lemma NeverStuck(s: Store, session: string)
    requires Schedulable(s, session)
    ensures HasPending(s, session) <==> Ready(s, session) != {}
  {
    if HasPending(s, session) {
      var some :| some in InSession(s, session) && s.tasks[some].status in {Pending, InProgress};
      var pool := Unfinished(s, session);
      assert some in pool;
      var m := SomeTaskIsFree(s, pool);
      forall e | e in s.deps && e.0 == m && e.1 in s.tasks
        ensures s.tasks[e.1].status == Completed
      {
        assert e.1 in Successors(s.deps, m);
        assert e.1 in InSession(s, session);
      }
      assert m in Ready(s, session);
    }
    if Ready(s, session) != {} {
      var id :| id in Ready(s, session);
      assert id in InSession(s, session);
    }
  }

  /** One ready task is carried out. */
  ghost function Finish(s: Store, id: Id): Store {
    Apply(s, UpdateStatus(id, Completed)).0
  }

  ghost function FinishAll(s: Store, picks: seq<Id>): Store
    decreases |picks|
  {
    if picks == [] then s else FinishAll(Finish(s, picks[0]), picks[1..])
  }

  /** Every pick is ready when its turn comes. */
  ghost predicate ReadyRun(s: Store, session: string, picks: seq<Id>)
    decreases |picks|
  {
    picks == [] || (picks[0] in Ready(s, session) && ReadyRun(Finish(s, picks[0]), session, picks[1..]))
  }

  /** The blockers of each pick were completed at the start or come before it. */
  ghost predicate Topological(s: Store, picks: seq<Id>) {
    forall i, b :: 0 <= i < |picks| && b in Successors(s.deps, picks[i]) && b in s.tasks ==>
                     s.tasks[b].status == Completed || b in picks[..i]
  }

  lemma FinishKeepsSchedulable(s: Store, session: string, id: Id)
    requires Schedulable(s, session) && id in Ready(s, session)
    ensures Schedulable(Finish(s, id), session)
    ensures Finish(s, id).deps == s.deps && Finish(s, id).tasks.Keys == s.tasks.Keys
    ensures Unfinished(Finish(s, id), session) == Unfinished(s, session) - {id}
    ensures id in Unfinished(s, session)
  {
    CallKeepsWellFormed(s, UpdateStatus(id, Completed));
    var s' := Finish(s, id);
    assert InSession(s', session) == InSession(s, session);
  }

  lemma NothingReadyIff(s: Store, session: string)
    requires Schedulable(s, session)
    ensures Ready(s, session) == {} <==> Unfinished(s, session) == {}
  {
    NeverStuck(s, session);
    if Unfinished(s, session) != {} {
      var id :| id in Unfinished(s, session);
      assert id in InSession(s, session) && s.tasks[id].status in {Pending, InProgress};
    }
  }

  lemma PickFirst(s: Store, session: string, id: Id, rest: seq<Id>)
    requires Schedulable(s, session) && id in Ready(s, session) && Topological(Finish(s, id), rest)
    ensures Topological(s, [id] + rest)
  {
    var s', picks := Finish(s, id), [id] + rest;
    forall i, b | 0 <= i < |picks| && b in Successors(s.deps, picks[i]) && b in s.tasks
      ensures s.tasks[b].status == Completed || b in picks[..i]
    {
      if i == 0 {
        assert (id, b) in s.deps;
      } else if b != id {
        assert b in Successors(s'.deps, rest[i - 1]);
        assert s'.tasks[b] == s.tasks[b];
        assert picks[..i] == [id] + rest[..i - 1];
      } else {
        assert picks[..i][0] == id;
      }
    }
  }

  function Picked(picks: seq<Id>): set<Id> {
    set id | id in picks
  }

  predicate NoRepeat(picks: seq<Id>) {
    forall i, j :: 0 <= i < j < |picks| ==> picks[i] != picks[j]
  }

  lemma PickMore(id: Id, rest: seq<Id>)
    ensures Picked([id] + rest) == {id} + Picked(rest)
    ensures NoRepeat(rest) && id !in Picked(rest) ==> NoRepeat([id] + rest)
  {
    var picks := [id] + rest;
    forall x | x in rest
      ensures x in picks
    {
      var i :| 0 <= i < |rest| && rest[i] == x;
      assert picks[i + 1] == x;
    }
    assert picks[0] == id;
  }

  /** Completing ready tasks, in whatever order they are picked, never repeats one, respects every dependency,
      and can only stop when the whole session is done: each unfinished task has then been picked once. */
  lemma {:induction false} ReadyRunFinishes(s: Store, session: string, picks: seq<Id>)
    requires Schedulable(s, session) && ReadyRun(s, session, picks)
    ensures NoRepeat(picks) && Topological(s, picks)
    ensures Picked(picks) <= Unfinished(s, session)
    ensures Unfinished(FinishAll(s, picks), session) == Unfinished(s, session) - Picked(picks)
    ensures Ready(FinishAll(s, picks), session) == {} <==> Picked(picks) == Unfinished(s, session)
    decreases |picks|
  {
    if picks == [] {
      NothingReadyIff(s, session);
    } else {
      var id, rest := picks[0], picks[1..];
      FinishKeepsSchedulable(s, session, id);
      ReadyRunFinishes(Finish(s, id), session, rest);
      assert picks == [id] + rest;
      PickFirst(s, session, id, rest);
      PickMore(id, rest);
    }
  }
}
