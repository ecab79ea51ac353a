/** Supervisors (lib/orchestrator/orchestrator.c) and the tools that start, pause and cancel goals
    (lib/tools/orchestrator_tool.c): the pids recorded in the goal store against the process table of the one
    orchestrator process whose children they are. Children may exit between any two system calls. */
module Supervisors {
  type GoalId = string
  type Pid = nat

  datatype Status = Planning | Active | Paused | Finished | Failed

  datatype Goal = Goal(status: Status, pid: Pid)

  /** A child that has not been waited for: running, or a zombie. */
  datatype Child = Child(goal: GoalId, running: bool)

  /** The goal store, with its rows in listing order, and the children of this process. */
  datatype World = World(goals: map<GoalId, Goal>, order: seq<GoalId>, children: map<Pid, Child>)

  /** How starting a supervisor for a goal turns out. */
  datatype Luck = Started | SpawnFails | StoreFails

  /** luck is settled for each goal, and a goal's child can only exit by itself if mayExit allows it. */
  datatype Env = Env(luck: GoalId -> Luck, mayExit: GoalId -> bool)

  // ----- One supervisor each -----

  /** Every recorded pid is a child working for that goal. */
  ghost predicate RecordsAreChildren(w: World) {
    forall g :: g in w.goals ==>
                  w.goals[g].pid == 0
                  || (w.goals[g].pid in w.children && w.children[w.goals[g].pid].goal == g)
  }

  /** Every child is the one recorded for its goal. */
  ghost predicate ChildrenAreRecorded(w: World) {
    forall p :: p in w.children ==> p > 0 && w.children[p].goal in w.goals && w.goals[w.children[p].goal].pid == p
  }

  ghost predicate Listed(w: World) {
    && (forall g :: g in w.goals <==> g in w.order)
    && (forall i, j :: 0 <= i < j < |w.order| ==> w.order[i] != w.order[j])
  }

  ghost predicate OneEach(w: World) {
    RecordsAreChildren(w) && ChildrenAreRecorded(w) && Listed(w)
  }

  /** No goal has two children, and the one it has is the one on record. */
  lemma AtMostOneChild(w: World, p: Pid, q: Pid)
    requires OneEach(w) && p in w.children && q in w.children && w.children[p].goal == w.children[q].goal
    ensures p == q == w.goals[w.children[p].goal].pid
  {
  }

  function Recorded(w: World, g: GoalId, pid: Pid): World
    requires g in w.goals
  {
    w.(goals := w.goals[g := w.goals[g].(pid := pid)])
  }

  function WithStatus(w: World, g: GoalId, status: Status): World
    requires g in w.goals
  {
    w.(goals := w.goals[g := w.goals[g].(status := status)])
  }

  /** A new goal comes last in the listing. */
  function Inserted(w: World, g: GoalId): World {
    w.(goals := w.goals[g := Goal(Planning, 0)], order := w.order + [g])
  }

  /** A new child for goal g, on record. */
  function Spawned(w: World, g: GoalId, pid: Pid): World
    requires g in w.goals
  {
    Recorded(w.(children := w.children[pid := Child(g, true)]), g, pid)
  }

  /** Starting a supervisor keeps one each exactly when the goal had none on record: orchestrator_spawn_supervisor
      does not look, and a second call loses track of the first child. */
  lemma SpawnKeepsOneEachIff(w: World, g: GoalId, pid: Pid)
    requires OneEach(w) && g in w.goals && pid > 0 && pid !in w.children
    ensures OneEach(Spawned(w, g, pid)) <==> w.goals[g].pid == 0
  {
    var v := Spawned(w, g, pid);
    var lost := w.goals[g].pid;
    if lost != 0 {
      assert lost in v.children && v.goals[v.children[lost].goal].pid != lost;
    }
  }

  lemma {:induction false} SomeFreePid(used: set<Pid>) returns (pid: Pid)
    ensures pid > 0 && forall p :: p in used ==> p < pid
    decreases used
  {
    pid := 1;
    if p: Pid :| p in used {
      var q := SomeFreePid(used - {p});
      pid := if q <= p then p + 1 else q;
      assert forall r :: r in used ==> r == p || r in used - {p};
    }
  }

  // ----- Steps -----

  /** From w to v only children that may exit have exited, and nothing else has changed. */
  ghost predicate OnlyExits(w: World, v: World, mayExit: GoalId -> bool) {
    && v.goals == w.goals && v.order == w.order && v.children.Keys == w.children.Keys
    && StillChildren(w, v, mayExit)
  }

  /** Of the children in both worlds none has come back to life, and none has died that may not exit. */
  ghost predicate StillChildren(w: World, v: World, mayExit: GoalId -> bool) {
    forall p :: p in w.children && p in v.children ==>
                  && v.children[p].goal == w.children[p].goal
                  && (v.children[p].running ==> w.children[p].running)
                  && (w.children[p].running && !mayExit(w.children[p].goal) ==> v.children[p].running)
  }

  /** The pids that name no child are cleared. */
  function Cleared(w: World): World {
    w.(goals := map g | g in w.goals :: ClearedGoal(w, w.goals[g]))
  }

  function ClearedGoal(w: World, goal: Goal): Goal {
    if goal.pid in w.children then goal else goal.(pid := 0)
  }

  /** With one supervisor each there is nothing for check_stale to clear: a dead child is a zombie until it is
      reaped, and a zombie still exists. */
  lemma NothingIsStale(w: World)
    requires OneEach(w)
    ensures Cleared(w) == w
  {
    assert Cleared(w).goals == w.goals;
  }

  /** What reaping the child recorded for goal g does: it is gone, and its record cleared, unless it was running when
      waited for. */
  ghost predicate ReapStep(w: World, v: World, mayExit: GoalId -> bool, g: GoalId, pid: Pid)
    requires g in w.goals
  {
    && v.order == w.order
    && v.goals == (if pid in v.children then w.goals else w.goals[g := w.goals[g].(pid := 0)])
    && w.children.Keys - {pid} <= v.children.Keys <= w.children.Keys
    && StillChildren(w, v, mayExit)
    && (pid in v.children ==> w.children[pid].running)
    && (pid in w.children && w.children[pid].running && !mayExit(w.children[pid].goal) ==> pid in v.children)
  }

  lemma ReapKeepsOneEach(w: World, v: World, mayExit: GoalId -> bool, g: GoalId, pid: Pid)
    requires OneEach(w) && g in w.goals && w.goals[g].pid == pid && pid != 0 && ReapStep(w, v, mayExit, g, pid)
    ensures OneEach(v)
  {
  }

  lemma ExitsKeepOneEach(w: World, v: World, mayExit: GoalId -> bool)
    requires OneEach(w) && OnlyExits(w, v, mayExit)
    ensures OneEach(v)
  {
  }

  /** The reaping loop from w, once the goals in done have been looked at. */
  ghost predicate Reaped(w: World, v: World, mayExit: GoalId -> bool, done: set<GoalId>) {
    && v.order == w.order && v.goals.Keys == w.goals.Keys && v.children.Keys <= w.children.Keys
    && StillChildren(w, v, mayExit)
    && (forall g :: g in w.goals && g !in done ==> v.goals[g] == w.goals[g])
    && (forall g :: g in w.goals ==> v.goals[g] == w.goals[g] || v.goals[g] == w.goals[g].(pid := 0))
    && (forall g :: g in done && g in w.goals && v.goals[g].pid != 0 ==>
                      v.goals[g].pid in w.children && w.children[v.goals[g].pid].running)
    && (forall p :: p in w.children && w.children[p].running && !mayExit(w.children[p].goal) ==> p in v.children)
  }

  lemma ReapOneMore(w: World, u: World, v: World, mayExit: GoalId -> bool, done: set<GoalId>, g: GoalId)
    requires OneEach(u) && Reaped(w, u, mayExit, done) && g in u.goals && g !in done && w.goals[g].pid != 0
    requires ReapStep(u, v, mayExit, g, w.goals[g].pid)
    ensures Reaped(w, v, mayExit, done + {g})
  {
  }

  lemma ReapSkips(w: World, v: World, mayExit: GoalId -> bool, done: set<GoalId>, g: GoalId)
    requires Reaped(w, v, mayExit, done) && g in w.goals && w.goals[g].pid == 0
    ensures Reaped(w, v, mayExit, done + {g})
  {
  }

  function Members(list: seq<GoalId>): set<GoalId> {
    set g | g in list
  }

  /** The reaping loop from w, at its k-th goal. */
  ghost predicate ReapedUpTo(w: World, v: World, mayExit: GoalId -> bool, k: nat)
    requires k <= |w.order|
  {
    OneEach(v) && Reaped(w, v, mayExit, Members(w.order[..k]))
  }

  lemma NextMember(w: World, k: nat)
    requires Listed(w) && k < |w.order|
    ensures w.order[k] in w.goals && w.order[k] !in Members(w.order[..k])
    ensures Members(w.order[..k + 1]) == Members(w.order[..k]) + {w.order[k]}
  {
    assert w.order[k] in w.order;
    assert w.order[..k + 1] == w.order[..k] + [w.order[k]];
  }

  /** A respawning pass from w over the goals of one status, once those in done have been looked at: each of them
      without a child has one if it could be started, and nothing else has changed but for exits. */
  ghost predicate Respawned(w: World, v: World, env: Env, status: Status, done: set<GoalId>) {
    && v.order == w.order && v.goals.Keys == w.goals.Keys && w.children.Keys <= v.children.Keys
    && StillChildren(w, v, env.mayExit)
    && (forall g :: g in w.goals ==> v.goals[g].status == w.goals[g].status)
    && (forall g :: g in w.goals && !(g in done && NeedsChild(w, g, status)) ==> v.goals[g] == w.goals[g])
    && (forall g :: g in w.goals && g in done && NeedsChild(w, g, status) ==>
                      (v.goals[g].pid != 0 <==> env.luck(g) == Started))
    && (forall p :: p in v.children && p !in w.children && !env.mayExit(v.children[p].goal) ==> v.children[p].running)
  }

  predicate NeedsChild(w: World, g: GoalId, status: Status)
    requires g in w.goals
  {
    w.goals[g].status == status && w.goals[g].pid == 0
  }

  lemma RespawnThenExits(w: World, u: World, v: World, env: Env, status: Status, done: set<GoalId>)
    requires Respawned(w, u, env, status, done) && OnlyExits(u, v, env.mayExit)
    ensures Respawned(w, v, env, status, done)
  {
  }

  lemma RespawnSkips(w: World, v: World, env: Env, status: Status, done: set<GoalId>, g: GoalId)
    requires Respawned(w, v, env, status, done) && g in w.goals && g !in done
    requires NeedsChild(w, g, status) ==> env.luck(g) != Started
    ensures Respawned(w, v, env, status, done + {g})
  {
  }

  lemma RespawnSpawns(w: World, u: World, env: Env, status: Status, done: set<GoalId>, g: GoalId, pid: Pid)
    requires Respawned(w, u, env, status, done) && g in w.goals && g !in done && NeedsChild(w, g, status)
    requires pid > 0 && pid !in u.children && env.luck(g) == Started
    ensures Respawned(w, Spawned(u, g, pid), env, status, done + {g})
  {
  }

  /** The goals that had no supervisor on record and now have one. */
  function Gained(w: World, v: World): set<GoalId> {
    set g | g in w.goals && g in v.goals && w.goals[g].pid == 0 && v.goals[g].pid != 0
  }

  /** The goals among done for which a pass starts a child. */
  function Lucky(w: World, env: Env, status: Status, done: set<GoalId>): set<GoalId> {
    set g | g in done && IsLucky(w, env, status, g)
  }

  predicate IsLucky(w: World, env: Env, status: Status, g: GoalId) {
    g in w.goals && NeedsChild(w, g, status) && env.luck(g) == Started
  }

  lemma LuckyOneMore(w: World, env: Env, status: Status, done: set<GoalId>, g: GoalId)
    requires g in w.goals && g !in done
    ensures |Lucky(w, env, status, done + {g})|
            == |Lucky(w, env, status, done)| + if IsLucky(w, env, status, g) then 1 else 0
  {
    if IsLucky(w, env, status, g) {
      assert Lucky(w, env, status, done + {g}) == Lucky(w, env, status, done) + {g};
    } else {
      assert Lucky(w, env, status, done + {g}) == Lucky(w, env, status, done);
    }
  }

  /** A respawning pass from w, at its k-th goal. */
  ghost predicate RespawnedUpTo(w: World, v: World, env: Env, status: Status, k: nat)
    requires k <= |w.order|
  {
    OneEach(v) && Respawned(w, v, env, status, Members(w.order[..k]))
  }

  ghost function LuckyUpTo(w: World, env: Env, status: Status, k: nat): nat
    requires k <= |w.order|
  {
    |Lucky(w, env, status, Members(w.order[..k]))|
  }

  lemma AllMembers(w: World)
    requires Listed(w)
    ensures Members(w.order[..|w.order|]) == w.goals.Keys
  {
    assert w.order[..|w.order|] == w.order;
  }

  lemma PassBegins(w: World, env: Env, status: Status)
    requires OneEach(w)
    ensures RespawnedUpTo(w, w, env, status, 0) && LuckyUpTo(w, env, status, 0) == 0
  {
    assert Lucky(w, env, status, {}) == {};
  }

  lemma PassEnds(w: World, v: World, env: Env, status: Status)
    requires Listed(w) && RespawnedUpTo(w, v, env, status, |w.order|)
    ensures Respawned(w, v, env, status, w.goals.Keys) && LuckyUpTo(w, env, status, |w.order|) == |Gained(w, v)|
  {
    AllMembers(w);
    assert Gained(w, v) == Lucky(w, env, status, w.goals.Keys);
  }

  /** What the second pass gains comes on top of what the first one did. */
  lemma BothGain(w: World, u: World, v: World, env: Env)
    requires Respawned(w, u, env, Planning, w.goals.Keys) && Respawned(u, v, env, Active, u.goals.Keys)
    ensures |Gained(w, v)| == |Gained(w, u)| + |Gained(u, v)|
  {
    assert Gained(w, v) == Gained(w, u) + Gained(u, v);
    assert Gained(w, u) * Gained(u, v) == {};
  }

  lemma RespawnOneMore(w: World, u: World, v: World, env: Env, status: Status, done: set<GoalId>, g: GoalId, pid: Pid)
    requires OneEach(u) && Respawned(w, u, env, status, done) && g in w.goals && g !in done && NeedsChild(w, g, status)
    requires pid > 0 && pid !in u.children && env.luck(g) == Started
    requires OnlyExits(Spawned(u, g, pid), v, env.mayExit)
    ensures Respawned(w, v, env, status, done + {g}) && OneEach(v)
  {
    assert u.goals[g] == w.goals[g];
    SpawnKeepsOneEachIff(u, g, pid);
    ExitsKeepOneEach(Spawned(u, g, pid), v, env.mayExit);
    RespawnSpawns(w, u, env, status, done, g, pid);
    RespawnThenExits(w, Spawned(u, g, pid), v, env, status, done + {g});
  }

  /** The child recorded for g is gone, its record cleared and its goal given a status. */
  ghost predicate Ended(w: World, v: World, g: GoalId, status: Status, mayExit: GoalId -> bool)
    requires g in w.goals
  {
    && v.goals == w.goals[g := Goal(status, 0)] && v.order == w.order
    && v.children.Keys == w.children.Keys - {w.goals[g].pid}
    && StillChildren(w, v, mayExit)
  }

  lemma EndKeepsOneEach(w: World, v: World, g: GoalId, status: Status, mayExit: GoalId -> bool)
    requires OneEach(w) && g in w.goals && Ended(w, v, g, status, mayExit)
    ensures OneEach(v)
  {
  }

  /** The stale check from w, once the goals in done have been looked at. */
  ghost predicate StaleCleared(w: World, v: World, mayExit: GoalId -> bool, done: set<GoalId>) {
    && v.order == w.order && v.goals.Keys == w.goals.Keys && v.children.Keys == w.children.Keys
    && StillChildren(w, v, mayExit)
    && (forall g :: g in w.goals ==> v.goals[g] == if g in done then ClearedGoal(w, w.goals[g]) else w.goals[g])
  }

  /** What checking one goal does. */
  ghost predicate StaleStep(w: World, v: World, mayExit: GoalId -> bool, g: GoalId, pid: Pid)
    requires g in w.goals
  {
    OnlyExits(if pid in w.children || pid == 0 then w else Recorded(w, g, 0), v, mayExit)
  }

  lemma StaleOneMore(w: World, u: World, v: World, mayExit: GoalId -> bool, done: set<GoalId>, g: GoalId)
    requires StaleCleared(w, u, mayExit, done) && g in w.goals && g !in done
    requires StaleStep(u, v, mayExit, g, w.goals[g].pid)
    ensures StaleCleared(w, v, mayExit, done + {g})
  {
  }

  lemma StaleAll(w: World, v: World, mayExit: GoalId -> bool, done: set<GoalId>)
    requires StaleCleared(w, v, mayExit, done) && w.goals.Keys <= done
    ensures OnlyExits(Cleared(w), v, mayExit)
  {
    assert v.goals == Cleared(w).goals;
  }

  // ----- The orchestrator -----

  class Orchestrator {
    var goals: map<GoalId, Goal>
    var order: seq<GoalId>
    var children: map<Pid, Child>

    function State(): World
      reads this
    {
      World(goals, order, children)
    }

    /** Time passes: some children that may exit do. */
    method TimePasses(env: Env)
      modifies this`children
      ensures OnlyExits(old(State()), State(), env.mayExit)
    {
      var dying :| dying <= (set p | p in children && env.mayExit(children[p].goal));
      children := map p | p in children :: if p in dying then children[p].(running := false) else children[p];
    }

    /** waitpid(pid, WNOHANG): the pid of a zombie, which is gone then, 0 for a running child, -1 for no child. */
    method WaitNoHang(pid: Pid) returns (r: int)
      requires pid > 0
      modifies this`children
      ensures r == if pid !in old(children) then -1 else if old(children)[pid].running then 0 else pid
      ensures children == if r == pid then old(children) - {pid} else old(children)
    {
      if pid !in children {
        return -1;
      }
      if children[pid].running {
        return 0;
      }
      children := children - {pid};
      r := pid;
    }

    /** SIGKILL followed by a blocking waitpid. */
    method KillAndWait(pid: Pid)
      modifies this`children
      ensures children == old(children) - {pid}
    {
      children := children - {pid};
    }

    /** kill(pid, 0): zombies still exist. */
    method Exists(pid: Pid) returns (yes: bool)
      ensures yes <==> pid in children
    {
      yes := pid in children;
    }

    method UpdateSupervisor(g: GoalId, pid: Pid)
      requires g in goals
      modifies this`goals
      ensures State() == Recorded(old(State()), g, pid)
    {
      goals := goals[g := goals[g].(pid := pid)];
    }

    /** orchestrator_spawn_supervisor. */
    method SpawnSupervisor(env: Env, g: GoalId) returns (rc: int, ghost pid: Pid)
      modifies this`goals, this`children
      ensures rc == 0 <==> g in old(goals) && env.luck(g) == Started
      ensures rc == 0 || rc == -1
      ensures rc != 0 ==> OnlyExits(old(State()), State(), env.mayExit)
      ensures rc == 0 ==> pid > 0 && pid !in old(children)
                          && OnlyExits(Spawned(old(State()), g, pid), State(), env.mayExit)
    {
      pid := 0;
      TimePasses(env);
      if g !in goals || env.luck(g) == SpawnFails {
        return -1, 0;
      }
      ghost var above := SomeFreePid(children.Keys);
      assert above !in children.Keys;
      var child: Pid :| child > 0 && child !in children.Keys;
      children := children[child := Child(g, true)];
      if env.luck(g) == StoreFails {
        KillAndWait(child);
        return -1, 0;
      }
      UpdateSupervisor(g, child);
      TimePasses(env);
      rc, pid := 0, child;
    }

    /** orchestrator_supervisor_alive: a zombie counts as alive, and the pid of a process that is gone is cleared. */
    method SupervisorAlive(env: Env, g: GoalId) returns (alive: bool)
      modifies this`goals, this`children
      ensures alive <==> g in old(goals) && old(goals)[g].pid > 0 && old(goals)[g].pid in children
      ensures if alive || g !in old(goals) then OnlyExits(old(State()), State(), env.mayExit)
              else OnlyExits(Recorded(old(State()), g, 0), State(), env.mayExit)
    {
      TimePasses(env);
      if g !in goals {
        return false;
      }
      var pid := goals[g].pid;
      if pid <= 0 {
        return false;
      }
      alive := Exists(pid);
      if !alive {
        UpdateSupervisor(g, 0);
      }
    }

    /** The body of the reaping loop. */
    method ReapSupervisor(env: Env, g: GoalId, pid: Pid)
      requires g in goals && pid > 0
      modifies this`goals, this`children
      ensures ReapStep(old(State()), State(), env.mayExit, g, pid)
    {
      TimePasses(env);
      var result := WaitNoHang(pid);
      if result == pid {
        UpdateSupervisor(g, 0);
      } else if result == -1 {
        var exists_ := Exists(pid);
        if !exists_ {
          UpdateSupervisor(g, 0);
        }
      }
    }

    /** One turn of the loop, for the k-th goal as it was listed. */
    method ReapEntry(env: Env, ghost w: World, ghost k: nat, g: GoalId, pid: Pid)
      requires Listed(w) && k < |w.order| && ReapedUpTo(w, State(), env.mayExit, k)
      requires g == w.order[k] && g in w.goals && pid == w.goals[g].pid
      modifies this`goals, this`children
      ensures ReapedUpTo(w, State(), env.mayExit, k + 1)
    {
      NextMember(w, k);
      if pid > 0 {
        ghost var u := State();
        ReapSupervisor(env, g, pid);
        ReapOneMore(w, u, State(), env.mayExit, Members(w.order[..k]), g);
        ReapKeepsOneEach(u, State(), env.mayExit, g, pid);
      } else {
        ReapSkips(w, State(), env.mayExit, Members(w.order[..k]), g);
      }
    }

    /** orchestrator_reap_supervisors. */
    method ReapSupervisors(env: Env)
      requires OneEach(State())
      modifies this`goals, this`children
      ensures OneEach(State()) && Reaped(old(State()), State(), env.mayExit, goals.Keys)
    {
      ghost var w := State();
      var list, snapshot := order, goals;
      for i := 0 to |list|
        invariant ReapedUpTo(w, State(), env.mayExit, i)
      {
        NextMember(w, i);
        ReapEntry(env, w, i, list[i], snapshot[list[i]].pid);
      }
      AllMembers(w);
    }

    /** The body of the stale check. */
    method CheckSupervisor(env: Env, g: GoalId, pid: Pid)
      requires g in goals
      modifies this`goals, this`children
      ensures StaleStep(old(State()), State(), env.mayExit, g, pid)
    {
      if pid <= 0 {
        return;
      }
      TimePasses(env);
      var exists_ := Exists(pid);
      if !exists_ {
        UpdateSupervisor(g, 0);
      }
    }

    /** orchestrator_check_stale. */
    method CheckStale(env: Env)
      requires Listed(State())
      modifies this`goals, this`children
      ensures OnlyExits(Cleared(old(State())), State(), env.mayExit)
    {
      ghost var w := State();
      var list, snapshot := order, goals;
      for i := 0 to |list|
        invariant StaleCleared(w, State(), env.mayExit, Members(w.order[..i]))
      {
        NextMember(w, i);
        ghost var u := State();
        CheckSupervisor(env, list[i], snapshot[list[i]].pid);
        StaleOneMore(w, u, State(), env.mayExit, Members(w.order[..i]), list[i]);
      }
      AllMembers(w);
      StaleAll(w, State(), env.mayExit, w.goals.Keys);
    }

    /** orchestrator_kill_supervisor. */
    method KillSupervisor(env: Env, g: GoalId) returns (rc: int)
      modifies this`goals, this`children
      ensures rc == 0 <==> g in old(goals) && old(goals)[g].pid != 0
      ensures rc == 0 || rc == -1
      ensures rc != 0 ==> State() == old(State())
      ensures rc == 0 ==>
                var pid := old(goals)[g].pid;
                if pid !in old(children) then State() == Recorded(old(State()), g, 0)
                else Ended(old(State()), State(), g, Paused, env.mayExit)
    {
      if g !in goals {
        return -1;
      }
      var pid := goals[g].pid;
      if pid <= 0 {
        return -1;
      }
      var exists_ := Exists(pid);
      if !exists_ {
        UpdateSupervisor(g, 0);
        return 0;
      }
      TimePasses(env);
      var result := WaitNoHang(pid);
      if result == 0 {
        KillAndWait(pid);
      }
      UpdateSupervisor(g, 0);
      goals := goals[g := goals[g].(status := Paused)];
      rc := 0;
    }

    /** The body of the respawning loop, for a goal the listing shows without a child. */
    method RespawnGoal(env: Env, g: GoalId, ghost w: World, ghost status: Status, ghost done: set<GoalId>)
      returns (rc: int)
      requires OneEach(State()) && Respawned(w, State(), env, status, done)
      requires g in w.goals && g !in done && NeedsChild(w, g, status)
      modifies this`goals, this`children
      ensures OneEach(State()) && Respawned(w, State(), env, status, done + {g})
      ensures rc == 0 <==> env.luck(g) == Started
    {
      ghost var u := State();
      ghost var pid;
      rc, pid := SpawnSupervisor(env, g);
      if rc == 0 {
        RespawnOneMore(w, u, State(), env, status, done, g, pid);
      } else {
        ExitsKeepOneEach(u, State(), env.mayExit);
        RespawnThenExits(w, u, State(), env, status, done);
        RespawnSkips(w, State(), env, status, done, g);
      }
    }

    /** One turn of the loop, for the k-th goal as it was listed. */
    method RespawnEntry(env: Env, status: Status, ghost w: World, ghost k: nat, g: GoalId, listed: Goal)
      returns (n: nat)
      requires Listed(w) && k < |w.order| && RespawnedUpTo(w, State(), env, status, k)
      requires g == w.order[k] && g in w.goals && listed == w.goals[g]
      modifies this`goals, this`children
      ensures RespawnedUpTo(w, State(), env, status, k + 1)
      ensures LuckyUpTo(w, env, status, k + 1) == LuckyUpTo(w, env, status, k) + n
    {
      NextMember(w, k);
      ghost var done := Members(w.order[..k]);
      LuckyOneMore(w, env, status, done, g);
      n := 0;
      if listed.status == status && listed.pid == 0 {
        var rc := RespawnGoal(env, g, w, status, done);
        if rc == 0 {
          n := 1;
        }
      } else {
        RespawnSkips(w, State(), env, status, done, g);
      }
    }

    /** One pass of orchestrator_respawn_dead, over the goals of one status. */
    method RespawnStatus(env: Env, status: Status) returns (respawned: nat)
      requires OneEach(State())
      modifies this`goals, this`children
      ensures OneEach(State()) && Respawned(old(State()), State(), env, status, goals.Keys)
      ensures respawned == |Gained(old(State()), State())|
    {
      ghost var w := State();
      var list, snapshot := order, goals;
      respawned := 0;
      PassBegins(w, env, status);
      for i := 0 to |list|
        invariant RespawnedUpTo(w, State(), env, status, i) && respawned == LuckyUpTo(w, env, status, i)
      {
        NextMember(w, i);
        var n := RespawnEntry(env, status, w, i, list[i], snapshot[list[i]]);
        respawned := respawned + n;
      }
      PassEnds(w, State(), env, status);
    }

    /** orchestrator_respawn_dead: a pass over the goals that were planning, then one over the active ones. */
    method RespawnDead(env: Env) returns (respawned: nat)
      requires OneEach(State())
      modifies this`goals, this`children
      ensures OneEach(State()) && BothRespawned(old(State()), State(), env)
      ensures respawned == |Gained(old(State()), State())|
    {
      var planning := RespawnStatus(env, Planning);
      ghost var u := State();
      var active := RespawnStatus(env, Active);
      respawned := planning + active;
      BothGain(old(State()), u, State(), env);
    }

    /** The row that a new goal gets; an id already taken is refused. */
    method InsertGoal(g: GoalId) returns (rc: int)
      modifies this`goals, this`order
      ensures rc == if g in old(goals) then -1 else 0
      ensures State() == if g in old(goals) then old(State()) else Inserted(old(State()), g)
    {
      if g in goals {
        return -1;
      }
      goals, order := goals[g := Goal(Planning, 0)], order + [g];
      rc := 0;
    }

    method UpdateStatus(g: GoalId, status: Status)
      modifies this`goals
      ensures State() == if g in old(goals) then WithStatus(old(State()), g, status) else old(State())
    {
      if g in goals {
        goals := goals[g := goals[g].(status := status)];
      }
    }

    /** start_goal: it asks supervisor_alive about a pid on record before it spawns. */
    method StartGoal(env: Env, g: GoalId) returns (ok: bool, ghost pid: Pid)
      requires OneEach(State())
      modifies this`goals, this`children
      ensures ok <==> g in old(goals) && old(goals)[g].status in {Planning, Paused} && old(goals)[g].pid == 0
                      && env.luck(g) == Started
      ensures !ok ==> OnlyExits(old(State()), State(), env.mayExit)
      ensures ok ==>
                var status := if old(goals)[g].status == Paused then Active else Planning;
                && pid > 0 && pid !in old(children)
                && OnlyExits(Spawned(WithStatus(old(State()), g, status), g, pid), State(), env.mayExit)
    {
      pid := 0;
      if g !in goals || goals[g].status !in {Planning, Paused} {
        return false, 0;
      }
      var status := goals[g].status;
      if goals[g].pid > 0 {
        var alive := SupervisorAlive(env, g);
        if alive {
          return false, 0;
        }
      }
      if status == Paused {
        UpdateStatus(g, Active);
      }
      var rc;
      rc, pid := SpawnSupervisor(env, g);
      ok := rc == 0;
      if !ok && status == Paused {
        UpdateStatus(g, Paused);
        assert goals == old(goals);
      }
    }

    /** pause_goal. */
    method PauseGoal(env: Env, g: GoalId) returns (ok: bool)
      requires OneEach(State())
      modifies this`goals, this`children
      ensures ok <==> g in old(goals) && old(goals)[g].status == Active && old(goals)[g].pid != 0
      ensures if ok then Ended(old(State()), State(), g, Paused, env.mayExit) else State() == old(State())
    {
      if g !in goals || goals[g].status != Active {
        return false;
      }
      var rc := KillSupervisor(env, g);
      ok := rc == 0;
    }

    /** cancel_goal. */
    method CancelGoal(env: Env, g: GoalId) returns (ok: bool)
      requires OneEach(State())
      modifies this`goals, this`children
      ensures ok <==> g in old(goals) && old(goals)[g].status !in {Finished, Failed}
      ensures if ok then Ended(old(State()), State(), g, Failed, env.mayExit) else State() == old(State())
    {
      if g !in goals || goals[g].status in {Finished, Failed} {
        return false;
      }
      if goals[g].pid > 0 {
        var _ := KillSupervisor(env, g);
      }
      UpdateStatus(g, Failed);
      ok := true;
    }
  }

  /** One of the orchestrator's calls or goal tools, a new goal, or a status that a supervisor gives its goal; and how
      the world behaves meanwhile. */
  datatype Call =
    | Respawn(env: Env) | Reap(env: Env) | Check(env: Env)
    | Alive(env: Env, goal: GoalId) | Kill(env: Env, goal: GoalId)
    | Start(env: Env, goal: GoalId) | Pause(env: Env, goal: GoalId) | Cancel(env: Env, goal: GoalId)
    | Insert(goal: GoalId) | Report(goal: GoalId, status: Status)

  predicate IsTool(c: Call) {
    c.Start? || c.Pause? || c.Cancel? || c.Insert? || c.Report?
  }

  /** A child of g does not exit by itself during the call. */
  predicate Calm(c: Call, g: GoalId) {
    c.Insert? || c.Report? || !c.env.mayExit(g)
  }

  /** From w to v one each is kept, and a goal without a dead child has none in v. */
  ghost predicate Kept(w: World, v: World, g: GoalId, calm: bool) {
    OneEach(v) && (calm && NoDeadChild(w, g) ==> NoDeadChild(v, g))
  }

  /** The orchestrator's own calls. */
  method MakeCall(o: Orchestrator, c: Call, ghost g: GoalId)
    requires OneEach(o.State()) && !IsTool(c)
    modifies o
    ensures Kept(old(o.State()), o.State(), g, Calm(c, g))
  {
    ghost var w := o.State();
    match c
    case Respawn(env) =>
      var _ := o.RespawnDead(env);
      BothKeep(w, o.State(), env, g);
    case Reap(env) =>
      o.ReapSupervisors(env);
      ReapLeavesNoDead(w, o.State(), env.mayExit, g);
    case Check(env) =>
      NothingIsStale(w);
      o.CheckStale(env);
      ExitsKeep(w, o.State(), env.mayExit, g);
    case Alive(env, goal) =>
      var alive := o.SupervisorAlive(env, goal);
      assert goal in w.goals && !alive ==> Recorded(w, goal, 0) == w;
      ExitsKeep(w, o.State(), env.mayExit, g);
    case Kill(env, goal) =>
      var rc := o.KillSupervisor(env, goal);
      if rc == 0 {
        EndKeeps(w, o.State(), goal, Paused, env.mayExit, g);
      }
  }

  /** The goal tools, and the changes to goals that come from elsewhere. */
  method MakeToolCall(o: Orchestrator, c: Call, ghost g: GoalId)
    requires OneEach(o.State()) && IsTool(c)
    modifies o
    ensures Kept(old(o.State()), o.State(), g, Calm(c, g))
  {
    ghost var w := o.State();
    match c
    case Start(env, goal) =>
      ghost var pid;
      var ok;
      ok, pid := o.StartGoal(env, goal);
      if ok {
        var status := if w.goals[goal].status == Paused then Active else Planning;
        StartKeeps(w, o.State(), goal, status, pid, env.mayExit, g);
      } else {
        ExitsKeep(w, o.State(), env.mayExit, g);
      }
    case Pause(env, goal) =>
      var ok := o.PauseGoal(env, goal);
      if ok {
        EndKeeps(w, o.State(), goal, Paused, env.mayExit, g);
      }
    case Cancel(env, goal) =>
      var ok := o.CancelGoal(env, goal);
      if ok {
        EndKeeps(w, o.State(), goal, Failed, env.mayExit, g);
      }
    case Insert(goal) =>
      var rc := o.InsertGoal(goal);
      if rc == 0 {
        InsertKeeps(w, goal, g);
      }
    case Report(goal, status) =>
      o.UpdateStatus(goal, status);
      if goal in w.goals {
        StatusKeeps(w, goal, status, g);
      }
  }

  /** Every run of the orchestrator's calls and the goal tools, with goals added, statuses changed and children exiting
      between any two system calls, keeps one supervisor each. And a goal that has no dead child gets none, as long as
      its own does not exit. */
  method RunCalls(o: Orchestrator, calls: seq<Call>, ghost g: GoalId)
    requires OneEach(o.State())
    modifies o
    ensures OneEach(o.State())
    ensures NoDeadChild(old(o.State()), g) && (forall k :: 0 <= k < |calls| ==> Calm(calls[k], g)) ==>
              NoDeadChild(o.State(), g)
  {
    for i := 0 to |calls|
      invariant OneEach(o.State())
      invariant NoDeadChild(old(o.State()), g) && (forall k :: 0 <= k < i ==> Calm(calls[k], g)) ==>
                  NoDeadChild(o.State(), g)
    {
      if IsTool(calls[i]) {
        MakeToolCall(o, calls[i], g);
      } else {
        MakeCall(o, calls[i], g);
      }
    }
  }

  /** After a reap and any calls, supervisor_alive tells the truth about a goal whose child does not exit meanwhile. */
  method AskAfterReap(o: Orchestrator, env: Env, calls: seq<Call>, g: GoalId) returns (alive: bool)
    requires OneEach(o.State()) && !env.mayExit(g)
    requires forall k :: 0 <= k < |calls| ==> Calm(calls[k], g)
    modifies o
    ensures OneEach(o.State()) && (alive <==> HasLiveChild(o.State(), g))
  {
    ghost var w := o.State();
    o.ReapSupervisors(env);
    ReapLeavesNoDead(w, o.State(), env.mayExit, g);
    RunCalls(o, calls, g);
    ghost var u := o.State();
    alive := o.SupervisorAlive(env, g);
    assert g in u.goals && !alive ==> Recorded(u, g, 0) == u;
    ExitsKeep(u, o.State(), env.mayExit, g);
  }

  ghost predicate BothRespawned(w: World, v: World, env: Env) {
    exists u :: OneEach(u) && Respawned(w, u, env, Planning, w.goals.Keys) && Respawned(u, v, env, Active, u.goals.Keys)
  }

  // ----- What the orchestrator promises -----

  /** The recorded child of g, if there is one, is running. */
  ghost predicate NoDeadChild(w: World, g: GoalId) {
    g in w.goals && w.goals[g].pid != 0 ==> HasLiveChild(w, g)
  }

  lemma ExitsKeep(w: World, v: World, mayExit: GoalId -> bool, g: GoalId)
    requires OneEach(w) && OnlyExits(w, v, mayExit)
    ensures Kept(w, v, g, !mayExit(g))
  {
    ExitsKeepOneEach(w, v, mayExit);
  }

  lemma EndKeeps(w: World, v: World, goal: GoalId, status: Status, mayExit: GoalId -> bool, g: GoalId)
    requires OneEach(w) && goal in w.goals && Ended(w, v, goal, status, mayExit)
    ensures Kept(w, v, g, !mayExit(g))
  {
    EndKeepsOneEach(w, v, goal, status, mayExit);
  }

  lemma StatusKeeps(w: World, goal: GoalId, status: Status, g: GoalId)
    requires OneEach(w) && goal in w.goals
    ensures Kept(w, WithStatus(w, goal, status), g, true)
  {
  }

  lemma SpawnKeeps(w: World, goal: GoalId, pid: Pid, g: GoalId)
    requires OneEach(w) && goal in w.goals && w.goals[goal].pid == 0 && pid > 0 && pid !in w.children
    ensures Kept(w, Spawned(w, goal, pid), g, true)
  {
    SpawnKeepsOneEachIff(w, goal, pid);
  }

  lemma InsertKeeps(w: World, goal: GoalId, g: GoalId)
    requires OneEach(w) && goal !in w.goals
    ensures Kept(w, Inserted(w, goal), g, true)
  {
  }

  lemma StartKeeps(w: World, v: World, goal: GoalId, status: Status, pid: Pid, mayExit: GoalId -> bool, g: GoalId)
    requires OneEach(w) && goal in w.goals && w.goals[goal].pid == 0 && pid > 0 && pid !in w.children
    requires OnlyExits(Spawned(WithStatus(w, goal, status), goal, pid), v, mayExit)
    ensures Kept(w, v, g, !mayExit(g))
  {
    var u := WithStatus(w, goal, status);
    StatusKeeps(w, goal, status, g);
    SpawnKeeps(u, goal, pid, g);
    ExitsKeep(Spawned(u, goal, pid), v, mayExit, g);
  }

  lemma ReapLeavesNoDead(w: World, v: World, mayExit: GoalId -> bool, g: GoalId)
    requires OneEach(w) && OneEach(v) && Reaped(w, v, mayExit, w.goals.Keys)
    ensures !mayExit(g) ==> NoDeadChild(v, g)
  {
  }

  lemma PassKeeps(w: World, v: World, env: Env, status: Status, g: GoalId)
    requires OneEach(w) && OneEach(v) && Respawned(w, v, env, status, w.goals.Keys)
    ensures !env.mayExit(g) && NoDeadChild(w, g) ==> NoDeadChild(v, g)
  {
    if !env.mayExit(g) && NoDeadChild(w, g) && g in w.goals {
      if NeedsChild(w, g, status) && env.luck(g) == Started {
        PassGivesLiveChild(w, v, env, status, g);
      } else if w.goals[g].pid != 0 {
        PassKeepsLiveChild(w, v, env, status, g);
      }
    }
  }

  lemma BothKeep(w: World, v: World, env: Env, g: GoalId)
    requires OneEach(w) && OneEach(v) && BothRespawned(w, v, env)
    ensures Kept(w, v, g, !env.mayExit(g))
  {
    var u :| OneEach(u) && Respawned(w, u, env, Planning, w.goals.Keys) && Respawned(u, v, env, Active, u.goals.Keys);
    PassKeeps(w, u, env, Planning, g);
    PassKeeps(u, v, env, Active, g);
  }

  /** What kill(pid, 0) finds when supervisor_alive asks about g. */
  predicate Exists(w: World, g: GoalId) {
    g in w.goals && w.goals[g].pid in w.children
  }

  /** The world in which the children of g have died. */
  function Died(w: World, g: GoalId): World {
    w.(children := map p | p in w.children ::
         if w.children[p].goal == g then w.children[p].(running := false) else w.children[p])
  }

  /** The answer of supervisor_alive holds good, whatever exits meanwhile, exactly for a goal without a child on record
      and for one whose child is running and does not exit. */
  lemma AliveIsTrueIff(w: World, mayExit: GoalId -> bool, g: GoalId)
    requires OneEach(w) && g in w.goals
    ensures (forall v :: OnlyExits(w, v, mayExit) ==> (HasLiveChild(v, g) <==> Exists(w, g)))
            <==> w.goals[g].pid == 0 || (HasLiveChild(w, g) && !mayExit(g))
  {
    assert OnlyExits(w, w, mayExit);
    if mayExit(g) {
      assert OnlyExits(w, Died(w, g), mayExit);
    }
  }

  /** A child that exits after the reap: supervisor_alive says yes, and nothing is running. */
  lemma AliveAfterExit(g: GoalId, mayExit: GoalId -> bool) returns (w: World, u: World, v: World)
    requires mayExit(g)
    ensures OneEach(w) && Reaped(w, u, mayExit, w.goals.Keys) && OnlyExits(u, v, mayExit)
    ensures Exists(v, g) && !HasLiveChild(v, g)
  {
    w := World(map[g := Goal(Active, 1)], [g], map[1 := Child(g, true)]);
    u := w;
    v := Died(w, g);
  }

  /** After a pass, a goal that needed a child and got one that may not exit has it running. */
  lemma PassGivesLiveChild(w: World, v: World, env: Env, status: Status, g: GoalId)
    requires OneEach(w) && OneEach(v) && g in w.goals && Respawned(w, v, env, status, w.goals.Keys)
    requires NeedsChild(w, g, status) && env.luck(g) == Started && !env.mayExit(g)
    ensures HasLiveChild(v, g)
  {
    assert v.goals[g].pid !in w.children;
  }

  ghost predicate HasLiveChild(w: World, g: GoalId) {
    g in w.goals && w.goals[g].pid in w.children && w.children[w.goals[g].pid] == Child(g, true)
  }

  lemma PassKeepsLiveChild(w: World, v: World, env: Env, status: Status, g: GoalId)
    requires Respawned(w, v, env, status, w.goals.Keys) && HasLiveChild(w, g) && !env.mayExit(g)
    requires OneEach(w)
    ensures HasLiveChild(v, g)
  {
  }

  lemma ReapClearsDead(w: World, u: World, mayExit: GoalId -> bool, g: GoalId)
    requires Reaped(w, u, mayExit, w.goals.Keys) && g in w.goals
    requires w.goals[g].pid in w.children ==> !w.children[w.goals[g].pid].running
    ensures u.goals[g] == w.goals[g].(pid := 0)
  {
  }

  lemma BothGiveLiveChild(u: World, v: World, env: Env, g: GoalId)
    requires OneEach(u) && OneEach(v) && BothRespawned(u, v, env) && g in u.goals && u.goals[g].pid == 0
    requires u.goals[g].status == Planning || u.goals[g].status == Active
    requires env.luck(g) == Started && !env.mayExit(g)
    ensures HasLiveChild(v, g)
  {
    var m :| OneEach(m) && Respawned(u, m, env, Planning, u.goals.Keys) && Respawned(m, v, env, Active, m.goals.Keys);
    if u.goals[g].status == Planning {
      PassGivesLiveChild(u, m, env, Planning, g);
      PassKeepsLiveChild(m, v, env, Active, g);
    } else {
      assert m.goals[g] == u.goals[g];
      PassGivesLiveChild(m, v, env, Active, g);
    }
  }

  /** A planning or active goal with a dead child has a live one again after the next reap and respawn, if starting it
      succeeds and the new one does not exit by itself. */
  lemma DeadIsReplaced(w: World, u: World, v: World, env: Env, g: GoalId)
    requires OneEach(u) && OneEach(v) && g in w.goals
    requires Reaped(w, u, env.mayExit, w.goals.Keys) && BothRespawned(u, v, env)
    requires w.goals[g].status == Planning || w.goals[g].status == Active
    requires w.goals[g].pid in w.children ==> !w.children[w.goals[g].pid].running
    requires env.luck(g) == Started && !env.mayExit(g)
    ensures HasLiveChild(v, g)
  {
    ReapClearsDead(w, u, env.mayExit, g);
    BothGiveLiveChild(u, v, env, g);
  }
}
