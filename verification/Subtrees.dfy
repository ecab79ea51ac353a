/** The recursive query of task_store_get_subtree (lib/db/task_store.c:220-240): UNION ALL drops no row that it has
    produced before, and nothing keeps the parent relation free of cycles. */
module Subtrees {
  import opened Graphs

  /** The parent of each task that has one. */
  type Parents = map<Id, Id>

  /** An edge leads from a task to its parent, so a task lies below all that it reaches. */
  function Links(parents: Parents): (edges: Edges)
    ensures forall a, b :: (a, b) in edges <==> a in parents && parents[a] == b
  {
    set id | id in parents :: (id, parents[id])
  }

  ghost predicate Below(parents: Parents, id: Id, root: Id) {
    Reaches(Links(parents), id, root)
  }

  function Kids(parents: Parents, of: Id): set<Id> {
    set id | id in parents && parents[id] == of
  }

  ghost function Descendants(parents: Parents, root: Id): set<Id> {
    set id | id in parents && Below(parents, id, root)
  }

  // ----- The queue -----

  /** The rows waiting when the rows in picks have been taken out, each to be replaced by those of its children. */
  ghost function Queue(parents: Parents, root: Id, picks: seq<Id>): multiset<Id> {
    if picks == [] then multiset(Kids(parents, root))
    else
      var last := picks[|picks| - 1];
      Queue(parents, root, picks[..|picks| - 1]) - multiset{last} + multiset(Kids(parents, last))
  }

  /** The query takes out rows that are waiting, in whatever order; what it takes out is what it yields. */
  ghost predicate IsRun(parents: Parents, root: Id, picks: seq<Id>) {
    picks == []
    || (IsRun(parents, root, picks[..|picks| - 1])
        && picks[|picks| - 1] in Queue(parents, root, picks[..|picks| - 1]))
  }

  ghost predicate Ended(parents: Parents, root: Id, picks: seq<Id>) {
    IsRun(parents, root, picks) && Queue(parents, root, picks) == multiset{}
  }

  /** How often an id has been queued: once as a child of the root, and once for each time its parent was taken out. */
  ghost function Queued(parents: Parents, root: Id, picks: seq<Id>, id: Id): nat {
    if id !in parents then 0
    else (if parents[id] == root then 1 else 0) + multiset(picks)[parents[id]]
  }

  lemma CountAppend(init: seq<Id>, last: Id, id: Id)
    ensures multiset(init + [last])[id] == multiset(init)[id] + if id == last then 1 else 0
  {
  }

  /** What taking out one more row does to a queue. */
  lemma QueueStep(parents: Parents, root: Id, init: seq<Id>, last: Id, id: Id)
    requires IsRun(parents, root, init + [last])
    ensures IsRun(parents, root, init) && last in Queue(parents, root, init)
    ensures Queue(parents, root, init + [last])[id]
            == Queue(parents, root, init)[id] - (if id == last then 1 else 0)
               + if id in Kids(parents, last) then 1 else 0
  {
    assert (init + [last])[..|init|] == init;
  }

  lemma {:induction false} RowsAreConservedStep(parents: Parents, root: Id, init: seq<Id>, last: Id, id: Id)
    requires IsRun(parents, root, init + [last])
    requires Queue(parents, root, init)[id] + multiset(init)[id] == Queued(parents, root, init, id)
    ensures Queue(parents, root, init + [last])[id] + multiset(init + [last])[id]
            == Queued(parents, root, init + [last], id)
  {
    QueueStep(parents, root, init, last, id);
    CountAppend(init, last, id);
    if id in parents {
      CountAppend(init, last, parents[id]);
    }
  }

  lemma Split(picks: seq<Id>) returns (init: seq<Id>, last: Id)
    requires picks != []
    ensures picks == init + [last] && |init| < |picks|
  {
    init, last := picks[..|picks| - 1], picks[|picks| - 1];
  }

  /** Every row queued is still waiting or was taken out, in every run, whether it ends or not. */
  lemma {:induction false} RowsAreConserved(parents: Parents, root: Id, picks: seq<Id>, id: Id)
    requires IsRun(parents, root, picks)
    ensures Queue(parents, root, picks)[id] + multiset(picks)[id] == Queued(parents, root, picks, id)
    decreases |picks|
  {
    if picks != [] {
      var init, last := Split(picks);
      QueueStep(parents, root, init, last, id);
      RowsAreConserved(parents, root, init, id);
      RowsAreConservedStep(parents, root, init, last, id);
    }
  }

  /** Only what lies below the root is ever queued. */
  lemma {:induction false} QueuedIsBelow(parents: Parents, root: Id, picks: seq<Id>, id: Id)
    requires IsRun(parents, root, picks)
    requires id in picks || id in Queue(parents, root, picks)
    ensures id in Descendants(parents, root)
    decreases |picks|
  {
    if picks == [] {
      EdgeReaches(Links(parents), id, root);
    } else {
      var init, last := Split(picks);
      QueueStep(parents, root, init, last, id);
      if id in init || id in Queue(parents, root, init) {
        QueuedIsBelow(parents, root, init, id);
      } else {
        QueuedIsBelow(parents, root, init, last);
        EdgeReaches(Links(parents), id, last);
        ReachesTransitive(Links(parents), id, last, root);
      }
    }
  }

  // ----- No cycle: every run ends -----

  /** Below a root that is not below itself, nothing is queued twice. */
  lemma {:induction false} QueuedOnce(parents: Parents, root: Id, picks: seq<Id>, p: seq<Id>, id: Id)
    requires IsRun(parents, root, picks) && !Below(parents, root, root) && Connects(Links(parents), p, id, root)
    ensures Queued(parents, root, picks, id) <= 1
    ensures Queue(parents, root, picks) == multiset{} ==> Queued(parents, root, picks, id) == 1
    decreases |p|
  {
    FirstStep(Links(parents), p, id, root);
    if parents[id] == root {
      if root in picks {
        QueuedIsBelow(parents, root, picks, root);
      }
    } else {
      QueuedOnce(parents, root, picks, p[1..], p[1]);
      RowsAreConserved(parents, root, picks, p[1]);
    }
  }

  lemma TakenOnce(parents: Parents, root: Id, picks: seq<Id>, id: Id)
    requires IsRun(parents, root, picks) && !Below(parents, root, root)
    ensures multiset(picks)[id] <= if id in Descendants(parents, root) then 1 else 0
    ensures Ended(parents, root, picks) ==>
              multiset(picks)[id] == if id in Descendants(parents, root) then 1 else 0
  {
    if id in Descendants(parents, root) {
      var p :| Connects(Links(parents), p, id, root);
      QueuedOnce(parents, root, picks, p, id);
      RowsAreConserved(parents, root, picks, id);
    } else if id in picks {
      QueuedIsBelow(parents, root, picks, id);
    }
  }

  /** A run that ends has yielded every descendant once and nothing else. */
  lemma EndedYieldsDescendants(parents: Parents, root: Id, picks: seq<Id>)
    requires Ended(parents, root, picks)
    ensures multiset(picks) == multiset(Descendants(parents, root))
  {
    if Below(parents, root, root) {
      CycleGoesOn(parents, root, picks);
    }
    forall id: Id
      ensures multiset(picks)[id] == multiset(Descendants(parents, root))[id]
    {
      TakenOnce(parents, root, picks, id);
    }
  }

  /** No run is longer than there are descendants. */
  lemma RunIsBounded(parents: Parents, root: Id, picks: seq<Id>)
    requires IsRun(parents, root, picks) && !Below(parents, root, root)
    ensures |picks| <= |Descendants(parents, root)|
  {
    var d := Descendants(parents, root);
    forall id: Id
      ensures multiset(picks)[id] <= multiset(d)[id]
    {
      TakenOnce(parents, root, picks, id);
    }
    assert multiset(d) == multiset(picks) + (multiset(d) - multiset(picks));
    assert |multiset(d)| == |d|;
  }

  lemma {:induction false} SomeRunEnds(parents: Parents, root: Id, picks: seq<Id>) returns (all: seq<Id>)
    requires IsRun(parents, root, picks) && !Below(parents, root, root)
    ensures Ended(parents, root, all)
    decreases |Descendants(parents, root)| - |picks|
  {
    all := picks;
    if Queue(parents, root, picks) != multiset{} {
      var id :| id in Queue(parents, root, picks);
      var more := picks + [id];
      assert more[..|picks|] == picks;
      RunIsBounded(parents, root, more);
      all := SomeRunEnds(parents, root, more);
    }
  }

  // ----- A cycle: no run ends -----

  /** With nothing left in the queue, a task below the root was taken out more often than the root. */
  lemma {:induction false} TakenMoreOften(parents: Parents, root: Id, picks: seq<Id>, p: seq<Id>, id: Id)
    requires Ended(parents, root, picks) && Connects(Links(parents), p, id, root)
    ensures multiset(picks)[id] > multiset(picks)[root]
    decreases |p|
  {
    FirstStep(Links(parents), p, id, root);
    RowsAreConserved(parents, root, picks, id);
    if |p| > 2 {
      TakenMoreOften(parents, root, picks, p[1..], p[1]);
    }
  }

  lemma CycleGoesOn(parents: Parents, root: Id, picks: seq<Id>)
    requires IsRun(parents, root, picks) && Below(parents, root, root)
    ensures Queue(parents, root, picks) != multiset{}
  {
    if Queue(parents, root, picks) == multiset{} {
      var p :| Connects(Links(parents), p, root, root);
      TakenMoreOften(parents, root, picks, p, root);
    }
  }

  /** The query ends exactly when the root is not below itself. If it is not, no run is longer than the number of
      descendants; if it is, every run can go on. */
  lemma SubtreeEndsIff(parents: Parents, root: Id)
    ensures (exists picks :: Ended(parents, root, picks)) <==> !Below(parents, root, root)
    ensures !Below(parents, root, root) ==>
              forall picks :: IsRun(parents, root, picks) ==> |picks| <= |Descendants(parents, root)|
  {
    if Below(parents, root, root) {
      forall picks
        ensures !Ended(parents, root, picks)
      {
        if IsRun(parents, root, picks) {
          CycleGoesOn(parents, root, picks);
        }
      }
    } else {
      var all := SomeRunEnds(parents, root, []);
      forall picks | IsRun(parents, root, picks)
        ensures |picks| <= |Descendants(parents, root)|
      {
        RunIsBounded(parents, root, picks);
      }
    }
  }

  /** A task below the root lies on a parent cycle only if the root does: each task has one parent. */
  lemma {:induction false} CycleHoldsRoot(parents: Parents, p: seq<Id>, id: Id, root: Id)
    requires Connects(Links(parents), p, id, root) && Below(parents, id, id)
    ensures Below(parents, root, root)
    decreases |p|
  {
    FirstStep(Links(parents), p, id, root);
    var c :| Connects(Links(parents), c, id, id);
    FirstStep(Links(parents), c, id, id);
    var up := parents[id];
    EdgeReaches(Links(parents), id, up);
    if |c| > 2 {
      assert Below(parents, up, id);
      ReachesTransitive(Links(parents), up, id, up);
    }
    if |p| > 2 {
      CycleHoldsRoot(parents, p[1..], up, root);
    }
  }

  /** So the query ends exactly when no task below the root lies on a parent cycle. */
  lemma NoCycleBelowIff(parents: Parents, root: Id)
    ensures Below(parents, root, root) <==> exists id :: Below(parents, id, root) && Below(parents, id, id)
  {
    if id :| Below(parents, id, root) && Below(parents, id, id) {
      var p :| Connects(Links(parents), p, id, root);
      CycleHoldsRoot(parents, p, id, root);
    }
  }

  /** Another parent for a task: a forest stays one exactly when the new parent is neither that task nor below it. */
  lemma NewParentClosesCycleIff(parents: Parents, id: Id, parent: Id)
    requires Acyclic(Links(parents))
    ensures !Acyclic(Links(parents[id := parent])) <==> ReachesOrIs(Links(parents), parent, id)
  {
    var rest := Links(parents - {id});
    assert Links(parents[id := parent]) == rest + {(id, parent)};
    SubgraphAcyclic(rest, Links(parents));
    AddEdgeClosesCycleIff(rest, id, parent);
    if Reaches(rest, parent, id) {
      ReachesMonotone(rest, Links(parents), parent, id);
    }
    if Reaches(Links(parents), parent, id) {
      var p :| Connects(Links(parents), p, parent, id);
      PathAvoidsEnd(parents, p, parent, id);
    }
  }

  lemma PathSuffix(edges: Edges, p: seq<Id>, i: nat)
    requires IsPath(edges, p) && i < |p| - 1
    ensures Connects(edges, p[i..], p[i], p[|p| - 1])
  {
    var q := p[i..];
    forall k | 0 <= k < |q| - 1
      ensures (q[k], q[k + 1]) in edges
    {
      assert (p[i + k], p[i + k + 1]) in edges;
    }
  }

  /** In a forest a way to a task does not leave that task. */
  lemma PathAvoidsEnd(parents: Parents, p: seq<Id>, a: Id, b: Id)
    requires Acyclic(Links(parents)) && Connects(Links(parents), p, a, b)
    ensures Connects(Links(parents - {b}), p, a, b)
  {
    forall i | 0 <= i < |p| - 1
      ensures (p[i], p[i + 1]) in Links(parents - {b})
    {
      assert (p[i], p[i + 1]) in Links(parents);
      PathSuffix(Links(parents), p, i);
      assert Reaches(Links(parents), p[i], b);
      assert p[i] != b;
    }
  }
}
