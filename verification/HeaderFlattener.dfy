/** The header flattener (scripts/gen_header.py): depth-first expansion of includes with a set of visited files. */
module HeaderFlattener {
  import opened Wrappers
  import opened Graphs

  type Path = Id

  /** A line of a header: an include directive, or anything else. */
  datatype Line = Plain(text: string) | Include(name: string, quoted: bool, text: string)

  /** What the script finds on disk. join resolves a name against a directory, and inLib tells paths that start with
      the library directory. */
  datatype Tree = Tree(files: map<Path, seq<Line>>, searchPaths: seq<string>, parent: Path -> string,
                       join: (string, string) -> Path, systemHeaders: set<string>, inLib: Path -> bool,
                       shown: Path -> string)

  function Search(t: Tree, name: string, k: nat): Option<Path>
    decreases |t.searchPaths| - k
  {
    if k >= |t.searchPaths| then None
    else
      var candidate := t.join(t.searchPaths[k], name);
      if candidate in t.files then Some(candidate) else Search(t, name, k + 1)
  }

  /** Next to the including file first, for a quoted name, and then along the search paths. */
  function Resolve(t: Tree, name: string, from: Path, quoted: bool): (r: Option<Path>)
    ensures r.Some? ==> r.value in t.files
  {
    if quoted && t.join(t.parent(from), name) in t.files then Some(t.join(t.parent(from), name))
    else SearchFinds(t, name, 0); Search(t, name, 0)
  }

  lemma {:induction false} SearchFinds(t: Tree, name: string, k: nat)
    ensures Search(t, name, k).Some? ==> Search(t, name, k).value in t.files
    decreases |t.searchPaths| - k
  {
    if k < |t.searchPaths| {
      SearchFinds(t, name, k + 1);
    }
  }

  /** The search path of the least index at which the name exists. */
  lemma {:induction false} SearchIsLeast(t: Tree, name: string, k: nat)
    ensures var r := Search(t, name, k);
            if r.None? then forall i :: k <= i < |t.searchPaths| ==> t.join(t.searchPaths[i], name) !in t.files
            else
              exists i :: k <= i < |t.searchPaths| && r.value == t.join(t.searchPaths[i], name) && r.value in t.files
                          && forall j :: k <= j < i ==> t.join(t.searchPaths[j], name) !in t.files
    decreases |t.searchPaths| - k
  {
    if k < |t.searchPaths| && t.join(t.searchPaths[k], name) !in t.files {
      SearchIsLeast(t, name, k + 1);
    }
  }

  /** An include names the file next to its own if it is quoted and that exists, and otherwise the first one along the
      search paths, if there is one. */
  lemma ResolveMeans(t: Tree, name: string, from: Path, quoted: bool)
    ensures var r, near := Resolve(t, name, from, quoted), t.join(t.parent(from), name);
            if quoted && near in t.files then r == Some(near)
            else if r.None? then forall i :: 0 <= i < |t.searchPaths| ==> t.join(t.searchPaths[i], name) !in t.files
            else
              exists i :: 0 <= i < |t.searchPaths| && r.value == t.join(t.searchPaths[i], name) && r.value in t.files
                          && forall j :: 0 <= j < i ==> t.join(t.searchPaths[j], name) !in t.files
  {
    SearchIsLeast(t, name, 0);
  }

  /** A line is replaced exactly if it includes a file that is found and is no system header, and stops the script
      exactly if such a file is not found for a header of the library. */
  lemma FateMeans(t: Tree, p: Path, line: Line)
    ensures var f := FateOf(t, p, line);
            && (f.Expand? <==> line.Include? && line.name !in t.systemHeaders
                               && Resolve(t, line.name, p, line.quoted).Some?)
            && (f.Expand? ==> Resolve(t, line.name, p, line.quoted) == Some(f.file))
            && (f.Fail? <==> line.Include? && line.name !in t.systemHeaders && t.inLib(p)
                             && Resolve(t, line.name, p, line.quoted).None?)
  {
  }

  /** What a line leads to: kept as it is, replaced by a file, or an error. */
  datatype Fate = Keep | Expand(file: Path) | Fail

  function FateOf(t: Tree, p: Path, line: Line): (f: Fate)
    ensures f.Expand? ==> f.file in t.files
  {
    match line
    case Plain(_) => Keep
    case Include(name, quoted, _) =>
      if name in t.systemHeaders then Keep
      else
        match Resolve(t, name, p, quoted)
        case Some(q) => Fate.Expand(q)
        case None => if t.inLib(p) then Fail else Keep
  }

  // ----- Expansion -----

  /** The expansion as a trace: a file is opened, gives its own kept lines, and is closed. */
  datatype Item = Open(file: Path) | Code(file: Path, line: nat) | Close(file: Path)

  datatype Result = Ok(items: seq<Item>, visited: set<Path>) | Unresolved(file: Path, line: nat)

  function Unvisited(t: Tree, visited: set<Path>): nat {
    |t.files.Keys - visited|
  }

  lemma VisitingShrinks(t: Tree, visited: set<Path>, p: Path)
    requires p in t.files && p !in visited
    ensures Unvisited(t, visited + {p}) < Unvisited(t, visited)
  {
    StrictSubsetSmaller(t.files.Keys - (visited + {p}), t.files.Keys - visited, p);
  }

  /** expand on a file, given the files visited before. Each file is entered once, so this ends on cyclic includes. */
  function ExpandFile(t: Tree, p: Path, visited: set<Path>): (r: Result)
    requires p in t.files
    ensures r.Ok? ==> visited + {p} <= r.visited
    decreases Unvisited(t, visited), 0, 0
  {
    if p in visited then Ok([], visited)
    else
      VisitingShrinks(t, visited, p);
      match ExpandLines(t, p, 0, visited + {p})
      case Ok(items, v) => Ok([Open(p)] + items + [Close(p)], v)
      case Unresolved(file, line) => Unresolved(file, line)
  }

  function ExpandLines(t: Tree, p: Path, k: nat, visited: set<Path>): (r: Result)
    requires p in t.files && k <= |t.files[p]|
    ensures r.Ok? ==> visited <= r.visited
    decreases Unvisited(t, visited), 1, |t.files[p]| - k
  {
    if k == |t.files[p]| then Ok([], visited)
    else
      match FateOf(t, p, t.files[p][k])
      case Fail => Unresolved(p, k)
      case Keep => Then([Code(p, k)], ExpandLines(t, p, k + 1, visited))
      case Expand(q) =>
        var r := ExpandFile(t, q, visited);
        if r.Unresolved? then r
        else
          SubsetSize(t.files.Keys - r.visited, t.files.Keys - visited);
          Then(r.items, ExpandLines(t, p, k + 1, r.visited))
  }

  function Then(items: seq<Item>, rest: Result): Result {
    match rest
    case Ok(more, v) => Ok(items + more, v)
    case Unresolved(file, line) => Unresolved(file, line)
  }

  /** Both phases: the umbrella header, then the remaining headers in order, over one visited set. */
  function ExpandAll(t: Tree, roots: seq<Path>, visited: set<Path>): Result
    requires forall k :: 0 <= k < |roots| ==> roots[k] in t.files
    decreases |roots|
  {
    if roots == [] then Ok([], visited)
    else
      var r := ExpandFile(t, roots[0], visited);
      if r.Unresolved? then r else Then(r.items, ExpandAll(t, roots[1..], r.visited))
  }

  // ----- The include graph -----

  function TargetsOf(t: Tree, p: Path): set<Path>
    requires p in t.files
  {
    set k | 0 <= k < |t.files[p]| && FateOf(t, p, t.files[p][k]).Expand? :: FateOf(t, p, t.files[p][k]).file
  }

  function Includes(t: Tree): Edges {
    set p, q | p in t.files && q in TargetsOf(t, p) :: (p, q)
  }

  lemma TargetIsEdge(t: Tree, p: Path, k: nat)
    requires p in t.files && k < |t.files[p]| && FateOf(t, p, t.files[p][k]).Expand?
    ensures FateOf(t, p, t.files[p][k]).file in TargetsOf(t, p)
    ensures (p, FateOf(t, p, t.files[p][k]).file) in Includes(t)
  {
  }

  // ----- Which files are expanded -----

  /** The new files of an expansion are all reached from p, and everything they include has been visited. */
  ghost predicate Explored(t: Tree, p: Path, visited: set<Path>, after: set<Path>) {
    forall f :: f in after && f !in visited ==>
                  f in t.files && TargetsOf(t, f) <= after && ReachesOrIs(Includes(t), p, f)
  }

  lemma ReachOn(t: Tree, p: Path, q: Path, visited: set<Path>, after: set<Path>)
    requires (p, q) in Includes(t) && Explored(t, q, visited, after)
    ensures Explored(t, p, visited, after)
  {
    EdgeReaches(Includes(t), p, q);
    forall f | f in after && f !in visited
      ensures ReachesOrIs(Includes(t), p, f)
    {
      if f != q {
        ReachesTransitive(Includes(t), p, q, f);
      }
    }
  }

  lemma {:induction false} FileExplores(t: Tree, p: Path, visited: set<Path>)
    requires p in t.files && ExpandFile(t, p, visited).Ok?
    ensures Explored(t, p, visited, ExpandFile(t, p, visited).visited)
    decreases Unvisited(t, visited), 0, 0
  {
    if p !in visited {
      VisitingShrinks(t, visited, p);
      LinesExplore(t, p, 0, visited + {p});
    }
  }

  lemma {:induction false} LinesExplore(t: Tree, p: Path, k: nat, visited: set<Path>)
    requires p in t.files && k <= |t.files[p]| && ExpandLines(t, p, k, visited).Ok?
    ensures var after := ExpandLines(t, p, k, visited).visited;
            && Explored(t, p, visited, after)
            && forall j :: k <= j < |t.files[p]| && FateOf(t, p, t.files[p][j]).Expand? ==>
                             FateOf(t, p, t.files[p][j]).file in after
    decreases Unvisited(t, visited), 1, |t.files[p]| - k
  {
    if k < |t.files[p]| {
      match FateOf(t, p, t.files[p][k])
      case Fail =>
      case Keep => LinesExplore(t, p, k + 1, visited);
      case Expand(q) =>
        var r := ExpandFile(t, q, visited);
        FileExplores(t, q, visited);
        TargetIsEdge(t, p, k);
        ReachOn(t, p, q, visited, r.visited);
        SubsetSize(t.files.Keys - r.visited, t.files.Keys - visited);
        LinesExplore(t, p, k + 1, r.visited);
    }
  }

  ghost predicate ReachedFrom(t: Tree, roots: seq<Path>, f: Path) {
    exists k :: 0 <= k < |roots| && ReachesOrIs(Includes(t), roots[k], f)
  }

  lemma {:induction false} AllExplores(t: Tree, roots: seq<Path>, visited: set<Path>)
    requires forall k :: 0 <= k < |roots| ==> roots[k] in t.files
    requires ExpandAll(t, roots, visited).Ok?
    ensures var after := ExpandAll(t, roots, visited).visited;
            && visited <= after && (forall k :: 0 <= k < |roots| ==> roots[k] in after)
            && forall f :: f in after && f !in visited ==>
                             f in t.files && TargetsOf(t, f) <= after && ReachedFrom(t, roots, f)
    decreases |roots|
  {
    if roots != [] {
      var r := ExpandFile(t, roots[0], visited);
      FileExplores(t, roots[0], visited);
      AllExplores(t, roots[1..], r.visited);
      var after := ExpandAll(t, roots, visited).visited;
      forall f | f in after && f !in visited
        ensures f in t.files && TargetsOf(t, f) <= after && ReachedFrom(t, roots, f)
      {
        if f in r.visited {
          assert ReachesOrIs(Includes(t), roots[0], f);
        } else {
          var k :| 0 <= k < |roots[1..]| && ReachesOrIs(Includes(t), roots[1..][k], f);
          assert ReachesOrIs(Includes(t), roots[k + 1], f);
        }
      }
    }
  }

  /** Across both phases, the files visited are exactly those that some root is or reaches. */
  lemma VisitedIsReached(t: Tree, roots: seq<Path>, f: Path)
    requires forall k :: 0 <= k < |roots| ==> roots[k] in t.files
    requires ExpandAll(t, roots, {}).Ok?
    ensures f in ExpandAll(t, roots, {}).visited <==> ReachedFrom(t, roots, f)
  {
    AllExplores(t, roots, {});
    var after := ExpandAll(t, roots, {}).visited;
    if ReachedFrom(t, roots, f) {
      var k :| 0 <= k < |roots| && ReachesOrIs(Includes(t), roots[k], f);
      if f != roots[k] {
        var path :| Connects(Includes(t), path, roots[k], f);
        forall x | x in after
          ensures Successors(Includes(t), x) <= after
        {
          assert Successors(Includes(t), x) <= TargetsOf(t, x);
        }
        ClosedSetHoldsPath(Includes(t), after, path, roots[k], f);
      }
    }
  }

  // ----- Each line once -----

  /** The items a fully expanded file must give: its two marks and its kept lines. */
  predicate Expected(t: Tree, x: Item) {
    && x.file in t.files
    && (x.Code? ==> x.line < |t.files[x.file]| && FateOf(t, x.file, t.files[x.file][x.line]).Keep?)
  }

  function Count(items: seq<Item>, x: Item): nat {
    multiset(items)[x]
  }

  lemma CountAdds(a: seq<Item>, b: seq<Item>, x: Item)
    ensures Count(a + b, x) == Count(a, x) + Count(b, x)
  {
  }

  /** How often an item is due between two sets of visited files: once for a newly visited file. */
  function Due(t: Tree, visited: set<Path>, after: set<Path>, x: Item): nat {
    if x.file in after && x.file !in visited && Expected(t, x) then 1 else 0
  }

  /** And from line k of p on, once for each kept line that is left as well. */
  function DueFrom(t: Tree, p: Path, k: nat, visited: set<Path>, after: set<Path>, x: Item): nat {
    if x.Code? && x.file == p && x.line >= k && Expected(t, x) then 1 else Due(t, visited, after, x)
  }

  /** The result from line k of p on gives the item as often as it is due. */
  predicate GivesDue(t: Tree, p: Path, k: nat, visited: set<Path>, r: Result, x: Item) {
    r.Ok? && Count(r.items, x) == DueFrom(t, p, k, visited, r.visited, x)
  }

  lemma KeptLineDue(t: Tree, p: Path, k: nat, visited: set<Path>, rest: Result, x: Item)
    requires p in t.files && k < |t.files[p]| && p in visited && FateOf(t, p, t.files[p][k]).Keep?
    requires GivesDue(t, p, k + 1, visited, rest, x)
    ensures GivesDue(t, p, k, visited, Then([Code(p, k)], rest), x)
  {
    CountAdds([Code(p, k)], rest.items, x);
    assert Count([Code(p, k)], x) == (if x == Code(p, k) then 1 else 0);
  }

  lemma ExpandedLineDue(t: Tree, p: Path, k: nat, visited: set<Path>, r: Result, rest: Result, x: Item)
    requires p in t.files && k < |t.files[p]| && p in visited && FateOf(t, p, t.files[p][k]).Expand?
    requires r.Ok? && visited <= r.visited && Count(r.items, x) == Due(t, visited, r.visited, x)
    requires rest.Ok? && r.visited <= rest.visited && GivesDue(t, p, k + 1, r.visited, rest, x)
    ensures GivesDue(t, p, k, visited, Then(r.items, rest), x)
  {
    CountAdds(r.items, rest.items, x);
  }

  lemma {:induction false} FileGivesOnce(t: Tree, p: Path, visited: set<Path>, x: Item)
    requires p in t.files && ExpandFile(t, p, visited).Ok?
    ensures var r := ExpandFile(t, p, visited); Count(r.items, x) == Due(t, visited, r.visited, x)
    decreases Unvisited(t, visited), 0, 0
  {
    if p !in visited {
      VisitingShrinks(t, visited, p);
      var r := ExpandLines(t, p, 0, visited + {p});
      LinesGiveOnce(t, p, 0, visited + {p}, x, r);
      CountAdds([Open(p)] + r.items, [Close(p)], x);
      CountAdds([Open(p)], r.items, x);
      assert Count([Open(p)], x) == (if x == Open(p) then 1 else 0);
      assert Count([Close(p)], x) == (if x == Close(p) then 1 else 0);
    }
  }

  /** What the lines of p from k on expand to. */
  predicate IsExpansion(t: Tree, p: Path, k: nat, visited: set<Path>, all: Result) {
    p in t.files && k <= |t.files[p]| && all.Ok? && all == ExpandLines(t, p, k, visited)
  }

  lemma {:induction false} LinesGiveOnce(t: Tree, p: Path, k: nat, visited: set<Path>, x: Item, all: Result)
    requires p in t.files && k <= |t.files[p]| && p in visited && IsExpansion(t, p, k, visited, all)
    ensures GivesDue(t, p, k, visited, all, x)
    decreases Unvisited(t, visited), 1, |t.files[p]| - k
  {
    if k == |t.files[p]| {
      NoLinesDue(t, p, visited, all, x);
    } else {
      match FateOf(t, p, t.files[p][k])
      case Fail => NoFailure(t, p, k, visited, all);
      case Keep =>
        var rest := KeptLine(t, p, k, visited, all);
        LinesGiveOnce(t, p, k + 1, visited, x, rest);
        KeptLineDue(t, p, k, visited, rest, x);
      case Expand(q) =>
        var r, rest := ExpandedLine(t, p, k, visited, q, all);
        FileGivesOnce(t, q, visited, x);
        SubsetSize(t.files.Keys - r.visited, t.files.Keys - visited);
        LinesGiveOnce(t, p, k + 1, r.visited, x, rest);
        ExpandedLineDue(t, p, k, visited, r, rest, x);
    }
  }

  lemma NoLinesDue(t: Tree, p: Path, visited: set<Path>, all: Result, x: Item)
    requires p in t.files && IsExpansion(t, p, |t.files[p]|, visited, all)
    ensures GivesDue(t, p, |t.files[p]|, visited, all, x)
  {
  }

  lemma NoFailure(t: Tree, p: Path, k: nat, visited: set<Path>, all: Result)
    requires p in t.files && k < |t.files[p]| && IsExpansion(t, p, k, visited, all)
    ensures !FateOf(t, p, t.files[p][k]).Fail?
  {
  }

  /** The expansion from a kept line on, and from one that is replaced. */
  lemma KeptLine(t: Tree, p: Path, k: nat, visited: set<Path>, all: Result) returns (rest: Result)
    requires p in t.files && k < |t.files[p]| && IsExpansion(t, p, k, visited, all)
    requires FateOf(t, p, t.files[p][k]).Keep?
    ensures IsExpansion(t, p, k + 1, visited, rest) && all == Then([Code(p, k)], rest)
  {
    rest := ExpandLines(t, p, k + 1, visited);
  }

  lemma ExpandedLine(t: Tree, p: Path, k: nat, visited: set<Path>, q: Path, all: Result)
    returns (r: Result, rest: Result)
    requires p in t.files && k < |t.files[p]| && IsExpansion(t, p, k, visited, all)
    requires FateOf(t, p, t.files[p][k]) == Expand(q)
    ensures r.Ok? && r == ExpandFile(t, q, visited) && visited <= r.visited
    ensures rest.Ok? && IsExpansion(t, p, k + 1, r.visited, rest) && r.visited <= rest.visited
    ensures all == Then(r.items, rest)
  {
    r := ExpandFile(t, q, visited);
    SubsetSize(t.files.Keys - r.visited, t.files.Keys - visited);
    rest := ExpandLines(t, p, k + 1, r.visited);
  }

  lemma {:induction false} AllGiveOnce(t: Tree, roots: seq<Path>, visited: set<Path>, x: Item)
    requires forall k :: 0 <= k < |roots| ==> roots[k] in t.files
    requires ExpandAll(t, roots, visited).Ok?
    ensures var r := ExpandAll(t, roots, visited);
            && visited <= r.visited
            && Count(r.items, x) == Due(t, visited, r.visited, x)
    decreases |roots|
  {
    if roots != [] {
      var first := ExpandFile(t, roots[0], visited);
      FileGivesOnce(t, roots[0], visited, x);
      AllGiveOnce(t, roots[1..], first.visited, x);
      CountAdds(first.items, ExpandAll(t, roots[1..], first.visited).items, x);
    }
  }

  /** Every header that a root is or reaches is expanded exactly once over both phases, each of its kept lines exactly
      once, and no other header at all, on cyclic include graphs too. */
  lemma EachReachedOnce(t: Tree, roots: seq<Path>, x: Item)
    requires forall k :: 0 <= k < |roots| ==> roots[k] in t.files
    requires ExpandAll(t, roots, {}).Ok?
    ensures multiset(ExpandAll(t, roots, {}).items)[x]
            == if ReachedFrom(t, roots, x.file) && Expected(t, x) then 1 else 0
  {
    AllGiveOnce(t, roots, {}, x);
    VisitedIsReached(t, roots, x.file);
  }

  // ----- Includes come first -----

  function ClosedIn(items: seq<Item>): (closed: set<Path>)
    ensures forall p :: p in closed <==> Close(p) in items
  {
    set x | x in items && x.Close? :: x.file
  }

  lemma ClosedInOne(x: Item)
    ensures ClosedIn([x]) == if x.Close? then {x.file} else {}
  {
  }

  /** Everything line k and the lines before it bring in lies in closed. */
  predicate BroughtIn(t: Tree, p: Path, k: nat, closed: set<Path>)
    requires p in t.files
  {
    forall j :: 0 <= j < k && j < |t.files[p]| && FateOf(t, p, t.files[p][j]).Expand? ==>
                  FateOf(t, p, t.files[p][j]).file in closed
  }

  /** Reading on with some files closed, each kept line comes after the closing of every file that an earlier line of
      its own file includes. */
  predicate InOrder(t: Tree, closed: set<Path>, items: seq<Item>)
    decreases |items|
  {
    items == []
    || (match items[0]
        case Open(_) => InOrder(t, closed, items[1..])
        case Code(p, k) => p in t.files && BroughtIn(t, p, k, closed) && InOrder(t, closed, items[1..])
        case Close(p) => InOrder(t, closed + {p}, items[1..]))
  }

  lemma {:induction false} InOrderConcat(t: Tree, closed: set<Path>, a: seq<Item>, b: seq<Item>)
    requires InOrder(t, closed, a) && InOrder(t, closed + ClosedIn(a), b)
    ensures InOrder(t, closed, a + b)
    decreases |a|
  {
    if a == [] {
      assert a + b == b && closed + ClosedIn(a) == closed;
    } else {
      var x, rest := a[0], a[1..];
      assert (a + b)[1..] == rest + b;
      var next := if x.Close? then closed + {x.file} else closed;
      assert closed + ClosedIn(a) == next + ClosedIn(rest) by {
        assert forall y :: y in a <==> y == x || y in rest;
      }
      InOrderConcat(t, next, rest, b);
    }
  }

  lemma ClosedInConcat(a: seq<Item>, b: seq<Item>)
    ensures ClosedIn(a + b) == ClosedIn(a) + ClosedIn(b)
  {
  }

  /** The files opened but not closed all lead to p by includes. */
  ghost predicate StackLeadsTo(t: Tree, open: set<Path>, p: Path) {
    forall o :: o in open ==> ReachesOrIs(Includes(t), o, p)
  }

  lemma StackGrows(t: Tree, open: set<Path>, p: Path, q: Path)
    requires StackLeadsTo(t, open, p) && (p, q) in Includes(t)
    ensures forall o :: o in open ==> Reaches(Includes(t), o, q)
  {
    EdgeReaches(Includes(t), p, q);
    forall o | o in open
      ensures Reaches(Includes(t), o, q)
    {
      if o != p {
        ReachesTransitive(Includes(t), o, p, q);
      }
    }
  }

  /** The order is kept, what gets closed has been visited, and the same files stay open. */
  predicate OrderKept(t: Tree, closed: set<Path>, visited: set<Path>, items: seq<Item>, after: set<Path>) {
    && InOrder(t, closed, items)
    && ClosedIn(items) <= after
    && after - (closed + ClosedIn(items)) == visited - closed
  }

  lemma EnclosedKeepsOrder(t: Tree, p: Path, closed: set<Path>, visited: set<Path>, body: seq<Item>, after: set<Path>)
    requires closed <= visited && p !in visited && visited + {p} <= after
    requires OrderKept(t, closed, visited + {p}, body, after)
    ensures OrderKept(t, closed, visited, [Open(p)] + body + [Close(p)], after)
    ensures p in ClosedIn([Open(p)] + body + [Close(p)])
  {
    var front := [Open(p)] + body;
    assert front[1..] == body;
    assert [Close(p)][1..] == [];
    InOrderConcat(t, closed, front, [Close(p)]);
    ClosedInConcat([Open(p)], body);
    ClosedInConcat(front, [Close(p)]);
    ClosedInOne(Open(p));
    ClosedInOne(Close(p));
    var rest := after - (closed + ClosedIn(body));
    assert ClosedIn(front + [Close(p)]) == ClosedIn(body) + {p};
    assert after - (closed + (ClosedIn(body) + {p})) == rest - {p};
    assert rest - {p} == visited - closed;
  }

  lemma OrderKeptConcat(t: Tree, closed: set<Path>, visited: set<Path>, a: seq<Item>, mid: set<Path>, b: seq<Item>,
                        after: set<Path>)
    requires OrderKept(t, closed, visited, a, mid) && OrderKept(t, closed + ClosedIn(a), mid, b, after) && mid <= after
    ensures OrderKept(t, closed, visited, a + b, after)
  {
    InOrderConcat(t, closed, a, b);
    ClosedInConcat(a, b);
    assert closed + ClosedIn(a + b) == closed + ClosedIn(a) + ClosedIn(b);
  }

  lemma KeptLineInOrder(t: Tree, p: Path, k: nat, visited: set<Path>, closed: set<Path>, rest: seq<Item>,
                        after: set<Path>)
    requires p in t.files && k < |t.files[p]| && BroughtIn(t, p, k, closed)
    requires OrderKept(t, closed, visited, rest, after)
    ensures OrderKept(t, closed, visited, [Code(p, k)] + rest, after)
  {
    assert ([Code(p, k)] + rest)[1..] == rest;
    ClosedInConcat([Code(p, k)], rest);
    ClosedInOne(Code(p, k));
  }

  /** Expanding p, with the open files leading to it, keeps the order and has p closed. */
  lemma {:induction false} FileInOrder(t: Tree, p: Path, visited: set<Path>, closed: set<Path>)
    requires Acyclic(Includes(t)) && p in t.files && closed <= visited && ExpandFile(t, p, visited).Ok?
    requires forall o :: o in visited - closed ==> Reaches(Includes(t), o, p)
    ensures var r := ExpandFile(t, p, visited);
            OrderKept(t, closed, visited, r.items, r.visited) && p in closed + ClosedIn(r.items)
    decreases Unvisited(t, visited), 0, 0
  {
    if p in visited {
      assert closed + ClosedIn([]) == closed;
      assert p in visited - closed ==> Reaches(Includes(t), p, p);
      assert p in closed;
    } else {
      VisitingShrinks(t, visited, p);
      var r := ExpandLines(t, p, 0, visited + {p});
      assert visited + {p} - closed == visited - closed + {p};
      LinesInOrder(t, p, 0, visited + {p}, closed);
      EnclosedKeepsOrder(t, p, closed, visited, r.items, r.visited);
    }
  }

  lemma {:induction false} LinesInOrder(t: Tree, p: Path, k: nat, visited: set<Path>, closed: set<Path>)
    requires Acyclic(Includes(t)) && p in t.files && k <= |t.files[p]| && closed <= visited
    requires ExpandLines(t, p, k, visited).Ok? && p in visited - closed
    requires StackLeadsTo(t, visited - closed, p) && BroughtIn(t, p, k, closed)
    ensures var r := ExpandLines(t, p, k, visited); OrderKept(t, closed, visited, r.items, r.visited)
    decreases Unvisited(t, visited), 1, |t.files[p]| - k
  {
    if k == |t.files[p]| {
      assert closed + ClosedIn([]) == closed;
    } else {
      match FateOf(t, p, t.files[p][k])
      case Fail =>
      case Keep =>
        var rest := ExpandLines(t, p, k + 1, visited);
        LinesInOrder(t, p, k + 1, visited, closed);
        KeptLineInOrder(t, p, k, visited, closed, rest.items, rest.visited);
      case Expand(q) =>
        var r := ExpandFile(t, q, visited);
        TargetIsEdge(t, p, k);
        StackGrows(t, visited - closed, p, q);
        FileInOrder(t, q, visited, closed);
        SubsetSize(t.files.Keys - r.visited, t.files.Keys - visited);
        var rest := ExpandLines(t, p, k + 1, r.visited);
        LinesInOrder(t, p, k + 1, r.visited, closed + ClosedIn(r.items));
        OrderKeptConcat(t, closed, visited, r.items, r.visited, rest.items, rest.visited);
    }
  }

  lemma {:induction false} AllInOrder(t: Tree, roots: seq<Path>, visited: set<Path>)
    requires Acyclic(Includes(t)) && forall k :: 0 <= k < |roots| ==> roots[k] in t.files
    requires ExpandAll(t, roots, visited).Ok?
    ensures InOrder(t, visited, ExpandAll(t, roots, visited).items)
    decreases |roots|
  {
    if roots != [] {
      var r := ExpandFile(t, roots[0], visited);
      FileInOrder(t, roots[0], visited, visited);
      assert visited + ClosedIn(r.items) == r.visited by {
        assert r.visited - (visited + ClosedIn(r.items)) == {};
      }
      AllInOrder(t, roots[1..], r.visited);
      InOrderConcat(t, visited, r.items, ExpandAll(t, roots[1..], r.visited).items);
    }
  }

  lemma {:induction false} InOrderAt(t: Tree, closed: set<Path>, items: seq<Item>, i: nat)
    requires InOrder(t, closed, items) && i < |items| && items[i].Code?
    ensures items[i].file in t.files && BroughtIn(t, items[i].file, items[i].line, closed + ClosedIn(items[..i]))
    decreases i
  {
    if i == 0 {
      assert closed + ClosedIn(items[..0]) == closed;
    } else {
      var x, rest := items[0], items[1..];
      var next := if x.Close? then closed + {x.file} else closed;
      InOrderAt(t, next, rest, i - 1);
      assert items[..i] == [x] + rest[..i - 1];
      ClosedInConcat([x], rest[..i - 1]);
      ClosedInOne(x);
      assert closed + ClosedIn(items[..i]) == next + ClosedIn(rest[..i - 1]);
    }
  }

  /** When no header includes itself, directly or through others, every line that a header keeps comes after the end of
      each file that an earlier line of the header includes: what recursive inclusion under include guards gives. On a
      cyclic graph the guard of a file still open hides it. */
  lemma IncludesComeFirst(t: Tree, roots: seq<Path>, i: nat, j: nat)
    requires Acyclic(Includes(t)) && forall k :: 0 <= k < |roots| ==> roots[k] in t.files
    requires ExpandAll(t, roots, {}).Ok? && i < |ExpandAll(t, roots, {}).items|
    requires var x := ExpandAll(t, roots, {}).items[i];
             x.Code? && x.file in t.files && j < x.line && j < |t.files[x.file]|
             && FateOf(t, x.file, t.files[x.file][j]).Expand?
    ensures var items := ExpandAll(t, roots, {}).items;
            var p := items[i].file;
            Close(FateOf(t, p, t.files[p][j]).file) in items[..i]
  {
    AllInOrder(t, roots, {});
    InOrderAt(t, {}, ExpandAll(t, roots, {}).items, i);
  }

  // ----- Include guards -----

  /** Textual inclusion: every include line is replaced by the whole file, between the marks of its guard. A file that
      is still open would never end, and is cut to its bare guard. */
  function Inclusion(t: Tree, p: Path, open: set<Path>): seq<Item>
    requires p in t.files
    decreases Unvisited(t, open), 0, 0
  {
    if p in open then [Open(p), Close(p)]
    else VisitingShrinks(t, open, p); [Open(p)] + InclusionOf(t, p, 0, open + {p}) + [Close(p)]
  }

  function InclusionOf(t: Tree, p: Path, k: nat, open: set<Path>): seq<Item>
    requires p in t.files && k <= |t.files[p]|
    decreases Unvisited(t, open), 1, |t.files[p]| - k
  {
    if k == |t.files[p]| then []
    else
      (match FateOf(t, p, t.files[p][k])
       case Expand(q) => Inclusion(t, q, open)
       case _ => [Code(p, k)])
      + InclusionOf(t, p, k + 1, open)
  }

  /** What a preprocessor keeps of guarded text: a guard already defined skips up to its end, at any nesting depth. */
  function Preprocess(items: seq<Item>, defined: set<Path>, skip: nat): seq<Item>
    decreases |items|
  {
    if items == [] then []
    else
      var x, rest := items[0], items[1..];
      match x
      case Open(f) =>
        if skip > 0 then Preprocess(rest, defined, skip + 1)
        else if f in defined then Preprocess(rest, defined, 1)
        else [x] + Preprocess(rest, defined + {f}, 0)
      case Code(_, _) => if skip > 0 then Preprocess(rest, defined, skip) else [x] + Preprocess(rest, defined, 0)
      case Close(_) => if skip > 0 then Preprocess(rest, defined, skip - 1) else [x] + Preprocess(rest, defined, 0)
  }

  lemma {:induction false} FileSkipped(t: Tree, p: Path, open: set<Path>, rest: seq<Item>, defined: set<Path>,
                                       skip: nat)
    requires p in t.files && skip > 0
    ensures Skips(Inclusion(t, p, open), rest, defined, skip)
    decreases Unvisited(t, open), 0, 0
  {
    var tail := [Close(p)] + rest;
    assert tail[1..] == rest;
    if p in open {
      assert (Inclusion(t, p, open) + rest)[1..] == tail;
    } else {
      VisitingShrinks(t, open, p);
      var body := InclusionOf(t, p, 0, open + {p});
      assert (Inclusion(t, p, open) + rest)[1..] == body + tail;
      LinesSkipped(t, p, 0, open + {p}, tail, defined, skip + 1);
    }
  }

  /** A skipping preprocessor drops all of this text and goes on with the rest as it was. */
  predicate Skips(text: seq<Item>, rest: seq<Item>, defined: set<Path>, skip: nat) {
    Preprocess(text + rest, defined, skip) == Preprocess(rest, defined, skip)
  }

  lemma CodeSkipped(p: Path, k: nat, rest: seq<Item>, defined: set<Path>, skip: nat)
    requires skip > 0
    ensures Skips([Code(p, k)], rest, defined, skip)
  {
    assert ([Code(p, k)] + rest)[1..] == rest;
  }

  lemma SkipsThen(first: seq<Item>, second: seq<Item>, rest: seq<Item>, defined: set<Path>, skip: nat)
    requires Skips(first, second + rest, defined, skip) && Skips(second, rest, defined, skip)
    ensures Skips(first + second, rest, defined, skip)
  {
    assert first + second + rest == first + (second + rest);
  }

  lemma {:induction false} LinesSkipped(t: Tree, p: Path, k: nat, open: set<Path>, rest: seq<Item>,
                                        defined: set<Path>, skip: nat)
    requires p in t.files && k <= |t.files[p]| && skip > 0
    ensures Skips(InclusionOf(t, p, k, open), rest, defined, skip)
    decreases Unvisited(t, open), 1, |t.files[p]| - k
  {
    if k == |t.files[p]| {
      assert [] + rest == rest;
    } else {
      var more := InclusionOf(t, p, k + 1, open);
      LinesSkipped(t, p, k + 1, open, rest, defined, skip);
      match FateOf(t, p, t.files[p][k])
      case Expand(q) =>
        FileSkipped(t, q, open, more + rest, defined, skip);
        SkipsThen(Inclusion(t, q, open), more, rest, defined, skip);
      case _ =>
        CodeSkipped(p, k, more + rest, defined, skip);
        SkipsThen([Code(p, k)], more, rest, defined, skip);
    }
  }

  lemma GuardOpens(p: Path, body: seq<Item>, rest: seq<Item>, defined: set<Path>)
    ensures var tail := [Close(p)] + rest;
            Preprocess([Open(p)] + body + [Close(p)] + rest, defined, 0)
            == if p in defined then Preprocess(body + tail, defined, 1)
               else [Open(p)] + Preprocess(body + tail, defined + {p}, 0)
  {
    assert ([Open(p)] + body + [Close(p)] + rest)[1..] == body + ([Close(p)] + rest);
  }

  lemma GuardCloses(p: Path, rest: seq<Item>, defined: set<Path>)
    ensures Preprocess([Close(p)] + rest, defined, 1) == Preprocess(rest, defined, 0)
    ensures Preprocess([Close(p)] + rest, defined, 0) == [Close(p)] + Preprocess(rest, defined, 0)
  {
    assert ([Close(p)] + rest)[1..] == rest;
  }

  /** Preprocessing the text of what an expansion covers, and what comes after it, gives the expansion's items. */
  predicate Agrees(text: seq<Item>, rest: seq<Item>, visited: set<Path>, r: Result) {
    r.Ok? && Preprocess(text + rest, visited, 0) == r.items + Preprocess(rest, r.visited, 0)
  }

  lemma NewFileAgrees(p: Path, body: seq<Item>, rest: seq<Item>, visited: set<Path>, r: Result)
    requires p !in visited && Agrees(body, [Close(p)] + rest, visited + {p}, r)
    ensures Agrees([Open(p)] + body + [Close(p)], rest, visited, Ok([Open(p)] + r.items + [Close(p)], r.visited))
  {
    GuardOpens(p, body, rest, visited);
    GuardCloses(p, rest, r.visited);
    var after := Preprocess(rest, r.visited, 0);
    assert [Open(p)] + (r.items + ([Close(p)] + after)) == [Open(p)] + r.items + [Close(p)] + after;
  }

  lemma OldFileAgrees(t: Tree, p: Path, open: set<Path>, rest: seq<Item>, visited: set<Path>)
    requires p in t.files && open <= visited && p in visited
    ensures Agrees(Inclusion(t, p, open), rest, visited, Ok([], visited))
  {
    var after := Preprocess(rest, visited, 0);
    assert [] + after == after;
    GuardCloses(p, rest, visited);
    if p in open {
      GuardOpens(p, [], rest, visited);
      assert [Open(p)] + [] + [Close(p)] == [Open(p), Close(p)] && [] + ([Close(p)] + rest) == [Close(p)] + rest;
    } else {
      VisitingShrinks(t, open, p);
      GuardOpens(p, InclusionOf(t, p, 0, open + {p}), rest, visited);
      LinesSkipped(t, p, 0, open + {p}, [Close(p)] + rest, visited, 1);
    }
  }

  lemma {:induction false} FilePreprocessed(t: Tree, p: Path, open: set<Path>, rest: seq<Item>, visited: set<Path>)
    requires p in t.files && open <= visited && ExpandFile(t, p, visited).Ok?
    ensures Agrees(Inclusion(t, p, open), rest, visited, ExpandFile(t, p, visited))
    decreases Unvisited(t, open), 0, 0
  {
    if p in visited {
      OldFileAgrees(t, p, open, rest, visited);
    } else {
      VisitingShrinks(t, open, p);
      LinesPreprocessed(t, p, 0, open + {p}, [Close(p)] + rest, visited + {p});
      NewFileAgrees(p, InclusionOf(t, p, 0, open + {p}), rest, visited, ExpandLines(t, p, 0, visited + {p}));
    }
  }

  lemma CodeAgrees(p: Path, k: nat, visited: set<Path>, rest: seq<Item>)
    ensures Agrees([Code(p, k)], rest, visited, Ok([Code(p, k)], visited))
  {
    assert ([Code(p, k)] + rest)[1..] == rest;
  }

  lemma AgreesThen(first: seq<Item>, second: seq<Item>, rest: seq<Item>, visited: set<Path>, r: Result, s: Result)
    requires r.Ok? && Agrees(first, second + rest, visited, r) && Agrees(second, rest, r.visited, s)
    ensures Agrees(first + second, rest, visited, Then(r.items, s))
  {
    var after := Preprocess(rest, s.visited, 0);
    assert first + second + rest == first + (second + rest);
    assert r.items + (s.items + after) == r.items + s.items + after;
  }

  lemma {:induction false} LinesPreprocessed(t: Tree, p: Path, k: nat, open: set<Path>, rest: seq<Item>,
                                             visited: set<Path>)
    requires p in t.files && k <= |t.files[p]| && open <= visited && ExpandLines(t, p, k, visited).Ok?
    ensures Agrees(InclusionOf(t, p, k, open), rest, visited, ExpandLines(t, p, k, visited))
    decreases Unvisited(t, open), 1, |t.files[p]| - k
  {
    if k == |t.files[p]| {
      assert [] + rest == rest && [] + Preprocess(rest, visited, 0) == Preprocess(rest, visited, 0);
    } else {
      var more := InclusionOf(t, p, k + 1, open);
      match FateOf(t, p, t.files[p][k])
      case Fail =>
      case Keep =>
        CodeAgrees(p, k, visited, more + rest);
        LinesPreprocessed(t, p, k + 1, open, rest, visited);
        AgreesThen([Code(p, k)], more, rest, visited, Ok([Code(p, k)], visited), ExpandLines(t, p, k + 1, visited));
      case Expand(q) =>
        var r := ExpandFile(t, q, visited);
        FilePreprocessed(t, q, open, more + rest, visited);
        LinesPreprocessed(t, p, k + 1, open, rest, r.visited);
        AgreesThen(Inclusion(t, q, open), more, rest, visited, r, ExpandLines(t, p, k + 1, r.visited));
    }
  }

  function InclusionOfAll(t: Tree, roots: seq<Path>): seq<Item>
    requires forall k :: 0 <= k < |roots| ==> roots[k] in t.files
  {
    if roots == [] then [] else Inclusion(t, roots[0], {}) + InclusionOfAll(t, roots[1..])
  }

  lemma {:induction false} AllPreprocessed(t: Tree, roots: seq<Path>, visited: set<Path>)
    requires forall k :: 0 <= k < |roots| ==> roots[k] in t.files
    requires ExpandAll(t, roots, visited).Ok?
    ensures Preprocess(InclusionOfAll(t, roots), visited, 0) == ExpandAll(t, roots, visited).items
    decreases |roots|
  {
    if roots != [] {
      FilePreprocessed(t, roots[0], {}, InclusionOfAll(t, roots[1..]), visited);
      AllPreprocessed(t, roots[1..], ExpandFile(t, roots[0], visited).visited);
    }
  }

  /** The expansion is what a preprocessor makes of including every root textually, each header under a guard. */
  lemma EqualsGuardedInclusion(t: Tree, roots: seq<Path>)
    requires forall k :: 0 <= k < |roots| ==> roots[k] in t.files
    requires ExpandAll(t, roots, {}).Ok?
    ensures Preprocess(InclusionOfAll(t, roots), {}, 0) == ExpandAll(t, roots, {}).items
  {
    AllPreprocessed(t, roots, {});
  }

  lemma {:induction false} OpenDoesNotMatter(t: Tree, p: Path, open: set<Path>, other: set<Path>)
    requires Acyclic(Includes(t)) && p in t.files
    requires forall o :: o in open + other ==> Reaches(Includes(t), o, p)
    ensures Inclusion(t, p, open) == Inclusion(t, p, other)
    decreases Unvisited(t, open), 0, 0
  {
    assert !Reaches(Includes(t), p, p);
    VisitingShrinks(t, open, p);
    LinesOpenDoesNotMatter(t, p, 0, open + {p}, other + {p});
  }

  lemma {:induction false} LinesOpenDoesNotMatter(t: Tree, p: Path, k: nat, open: set<Path>, other: set<Path>)
    requires Acyclic(Includes(t)) && p in t.files && k <= |t.files[p]| && StackLeadsTo(t, open + other, p)
    ensures InclusionOf(t, p, k, open) == InclusionOf(t, p, k, other)
    decreases Unvisited(t, open), 1, |t.files[p]| - k
  {
    if k < |t.files[p]| {
      LinesOpenDoesNotMatter(t, p, k + 1, open, other);
      match FateOf(t, p, t.files[p][k])
      case Expand(q) =>
        TargetIsEdge(t, p, k);
        StackGrows(t, open + other, p, q);
        OpenDoesNotMatter(t, q, open, other);
      case _ =>
    }
  }

  /** The lines of a file with each include replaced by the text that its target has on its own. */
  function PlainLines(t: Tree, p: Path, k: nat): seq<Item>
    requires p in t.files && k <= |t.files[p]|
    decreases |t.files[p]| - k
  {
    if k == |t.files[p]| then []
    else
      (match FateOf(t, p, t.files[p][k])
       case Expand(q) => Inclusion(t, q, {})
       case _ => [Code(p, k)])
      + PlainLines(t, p, k + 1)
  }

  lemma {:induction false} LinesArePlain(t: Tree, p: Path, k: nat)
    requires Acyclic(Includes(t)) && p in t.files && k <= |t.files[p]|
    ensures InclusionOf(t, p, k, {p}) == PlainLines(t, p, k)
    decreases |t.files[p]| - k
  {
    if k < |t.files[p]| {
      LinesArePlain(t, p, k + 1);
      match FateOf(t, p, t.files[p][k])
      case Expand(q) =>
        TargetIsEdge(t, p, k);
        EdgeReaches(Includes(t), p, q);
        OpenDoesNotMatter(t, q, {p}, {});
      case _ =>
    }
  }

  /** On an acyclic graph nothing is cut: the text of a header is its lines with each include line replaced by the whole
      text of the header it names. */
  lemma NothingIsCut(t: Tree, p: Path)
    requires Acyclic(Includes(t)) && p in t.files
    ensures Inclusion(t, p, {}) == [Open(p)] + PlainLines(t, p, 0) + [Close(p)]
  {
    LinesArePlain(t, p, 0);
    assert {} + {p} == {p};
  }

  // ----- Errors -----

  /** A line that stops the script: a name in a library header that resolves nowhere. */
  ghost predicate Stops(t: Tree, f: Path, k: nat) {
    f in t.files && k < |t.files[f]| && FateOf(t, f, t.files[f][k]).Fail?
  }

  ghost predicate Clean(t: Tree, visited: set<Path>, after: set<Path>) {
    forall f, k: nat :: f in after && f !in visited ==> !Stops(t, f, k)
  }

  lemma {:induction false} FileErrs(t: Tree, p: Path, visited: set<Path>)
    requires p in t.files
    ensures var r := ExpandFile(t, p, visited);
            if r.Ok? then Clean(t, visited, r.visited)
            else Stops(t, r.file, r.line) && ReachesOrIs(Includes(t), p, r.file)
    decreases Unvisited(t, visited), 0, 0
  {
    if p !in visited {
      VisitingShrinks(t, visited, p);
      LinesErr(t, p, 0, visited + {p});
    }
  }

  lemma {:induction false} LinesErr(t: Tree, p: Path, k: nat, visited: set<Path>)
    requires p in t.files && k <= |t.files[p]|
    ensures var r := ExpandLines(t, p, k, visited);
            if r.Ok? then Clean(t, visited, r.visited) && forall j: nat :: k <= j ==> !Stops(t, p, j)
            else Stops(t, r.file, r.line) && ReachesOrIs(Includes(t), p, r.file)
    decreases Unvisited(t, visited), 1, |t.files[p]| - k
  {
    if k < |t.files[p]| {
      match FateOf(t, p, t.files[p][k])
      case Fail =>
      case Keep => LinesErr(t, p, k + 1, visited);
      case Expand(q) =>
        var r := ExpandFile(t, q, visited);
        FileErrs(t, q, visited);
        TargetIsEdge(t, p, k);
        EdgeReaches(Includes(t), p, q);
        match r
        case Ok(_, _) =>
          SubsetSize(t.files.Keys - r.visited, t.files.Keys - visited);
          LinesErr(t, p, k + 1, r.visited);
        case Unresolved(f, _) =>
          if f != q {
            ReachesTransitive(Includes(t), p, q, f);
          }
    }
  }

  lemma {:induction false} AllErr(t: Tree, roots: seq<Path>, visited: set<Path>)
    requires forall k :: 0 <= k < |roots| ==> roots[k] in t.files
    ensures var r := ExpandAll(t, roots, visited);
            if r.Ok? then visited <= r.visited && Clean(t, visited, r.visited)
            else Stops(t, r.file, r.line) && ReachedFrom(t, roots, r.file)
    decreases |roots|
  {
    if roots != [] {
      FileErrs(t, roots[0], visited);
      match ExpandFile(t, roots[0], visited)
      case Unresolved(f, _) => assert ReachesOrIs(Includes(t), roots[0], f);
      case Ok(_, after) =>
        AllErr(t, roots[1..], after);
        match ExpandAll(t, roots[1..], after)
        case Ok(_, _) =>
        case Unresolved(f, _) =>
          var k :| 0 <= k < |roots[1..]| && ReachesOrIs(Includes(t), roots[1..][k], f);
          assert ReachesOrIs(Includes(t), roots[k + 1], f);
    }
  }

  /** The script gives up exactly when some header reached from a root has a line that stops it, and names such a
      line. */
  lemma FailsIff(t: Tree, roots: seq<Path>)
    requires forall k :: 0 <= k < |roots| ==> roots[k] in t.files
    ensures ExpandAll(t, roots, {}).Unresolved? <==> exists f, k: nat :: Stops(t, f, k) && ReachedFrom(t, roots, f)
    ensures var r := ExpandAll(t, roots, {});
            r.Unresolved? ==> Stops(t, r.file, r.line) && ReachedFrom(t, roots, r.file)
  {
    AllErr(t, roots, {});
    if ExpandAll(t, roots, {}).Ok? {
      forall f, k: nat | ReachedFrom(t, roots, f)
        ensures !Stops(t, f, k)
      {
        VisitedIsReached(t, roots, f);
      }
    }
  }
}
