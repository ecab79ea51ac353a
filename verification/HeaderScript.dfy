/** The script itself (scripts/gen_header.py): recursive methods over a shared visited set, against the expansion. */
module HeaderScript {
  import opened Wrappers
  import opened Graphs
  import opened HeaderFlattener

  /** The lines an item gives. A header whose own content is skipped gives none, though what it includes does. */
  function Lines(t: Tree, skipped: set<Path>, x: Item): seq<string> {
    if x.file in skipped || x.file !in t.files then []
    else
      match x
      case Open(f) => ["/* --- " + t.shown(f) + " --- */"]
      case Code(f, k) => if k < |t.files[f]| then [t.files[f][k].text] else []
      case Close(_) => [""]
  }

  function Text(t: Tree, skipped: set<Path>, items: seq<Item>): seq<string> {
    if items == [] then [] else Lines(t, skipped, items[0]) + Text(t, skipped, items[1..])
  }

  lemma {:induction false} TextConcat(t: Tree, skipped: set<Path>, a: seq<Item>, b: seq<Item>)
    ensures Text(t, skipped, a + b) == Text(t, skipped, a) + Text(t, skipped, b)
  {
    if a == [] {
      assert a + b == b;
    } else {
      assert (a + b)[1..] == a[1..] + b;
      TextConcat(t, skipped, a[1..], b);
    }
  }

  /** The lines of an expansion, or None where the script exits. */
  function Printed(t: Tree, skipped: set<Path>, r: Result): Option<seq<string>> {
    if r.Ok? then Some(Text(t, skipped, r.items)) else None
  }

  lemma ThenTwice(a: seq<Item>, b: seq<Item>, rest: Result)
    ensures Then(a, Then(b, rest)) == Then(a + b, rest)
  {
    if rest.Ok? {
      assert a + (b + rest.items) == a + b + rest.items;
    }
  }

  lemma ThenNothing(rest: Result)
    ensures Then([], rest) == rest
  {
    if rest.Ok? {
      assert [] + rest.items == rest.items;
    }
  }

  lemma OneItem(t: Tree, skipped: set<Path>, x: Item)
    ensures Text(t, skipped, [x]) == Lines(t, skipped, x)
  {
    assert [x][1..] == [];
  }

  lemma Framed(t: Tree, skipped: set<Path>, p: Path, body: seq<Item>)
    ensures Text(t, skipped, [Open(p)] + body + [Close(p)])
            == Lines(t, skipped, Open(p)) + Text(t, skipped, body) + Lines(t, skipped, Close(p))
  {
    TextConcat(t, skipped, [Open(p)] + body, [Close(p)]);
    TextConcat(t, skipped, [Open(p)], body);
    OneItem(t, skipped, Open(p));
    OneItem(t, skipped, Close(p));
  }

  function TextsOf(lines: seq<Line>): seq<string> {
    seq(|lines|, k requires 0 <= k < |lines| => lines[k].text)
  }

  lemma {:induction false} PlainLines(t: Tree, skipped: set<Path>, p: Path, k: nat)
    requires p in t.files && k <= |t.files[p]| && forall j :: 0 <= j < |t.files[p]| ==> t.files[p][j].Plain?
    ensures var r := ExpandLines(t, p, k, {p});
            r.Ok? && Text(t, skipped, r.items) == if p in skipped then [] else TextsOf(t.files[p])[k..]
    decreases |t.files[p]| - k
  {
    if k < |t.files[p]| {
      PlainLines(t, skipped, p, k + 1);
      var rest := ExpandLines(t, p, k + 1, {p});
      TextConcat(t, skipped, [Code(p, k)], rest.items);
      OneItem(t, skipped, Code(p, k));
    }
  }

  /** A header without includes is given as it is, between a line with its name and an empty line; nothing of it is
      given if it is skipped. */
  lemma PlainHeader(t: Tree, skipped: set<Path>, p: Path)
    requires p in t.files && forall j :: 0 <= j < |t.files[p]| ==> t.files[p][j].Plain?
    ensures Printed(t, skipped, ExpandFile(t, p, {}))
            == Some(if p in skipped then []
                    else ["/* --- " + t.shown(p) + " --- */"] + TextsOf(t.files[p]) + [""])
  {
    VisitingShrinks(t, {}, p);
    assert {} + {p} == {p};
    PlainLines(t, skipped, p, 0);
    Framed(t, skipped, p, ExpandLines(t, p, 0, {p}).items);
  }

  /** What one line leads to. */
  function LineResult(t: Tree, p: Path, k: nat, visited: set<Path>): Result
    requires p in t.files && k < |t.files[p]|
  {
    match FateOf(t, p, t.files[p][k])
    case Fail => Unresolved(p, k)
    case Keep => Ok([Code(p, k)], visited)
    case Expand(q) => ExpandFile(t, q, visited)
  }

  lemma LineThenRest(t: Tree, p: Path, k: nat, visited: set<Path>)
    requires p in t.files && k < |t.files[p]|
    ensures var r := LineResult(t, p, k, visited);
            && (r.Ok? ==> visited <= r.visited)
            && ExpandLines(t, p, k, visited)
               == if r.Unresolved? then r else Then(r.items, ExpandLines(t, p, k + 1, r.visited))
  {
  }

  /** A line expanded after some items: they are followed by its own items, and the rest goes on from there. */
  lemma LineAdds(t: Tree, skipped: set<Path>, done: seq<Item>, p: Path, k: nat, visited: set<Path>)
    requires p in t.files && k < |t.files[p]|
    ensures var r := LineResult(t, p, k, visited);
            if r.Unresolved? then Then(done, ExpandLines(t, p, k, visited)) == r
            else
              && visited <= r.visited
              && Then(done, ExpandLines(t, p, k, visited))
                 == Then(done + r.items, ExpandLines(t, p, k + 1, r.visited))
              && Text(t, skipped, done + r.items) == Text(t, skipped, done) + Text(t, skipped, r.items)
  {
    var r := LineResult(t, p, k, visited);
    LineThenRest(t, p, k, visited);
    if r.Ok? {
      TextConcat(t, skipped, done, r.items);
      ThenTwice(done, r.items, ExpandLines(t, p, k + 1, r.visited));
    }
  }

  class Flattener {
    const t: Tree
    const skipEmit: set<Path>
    var visited: set<Path>

    constructor (t: Tree, skipEmit: set<Path>)
      ensures this.t == t && this.skipEmit == skipEmit && visited == {}
    {
      this.t, this.skipEmit, visited := t, skipEmit, {};
    }

    method FindInclude(name: string, from: Path, quoted: bool) returns (r: Option<Path>)
      ensures r == Resolve(t, name, from, quoted)
    {
      if quoted {
        var candidate := t.join(t.parent(from), name);
        if candidate in t.files {
          return Some(candidate);
        }
      }
      for k := 0 to |t.searchPaths|
        invariant Search(t, name, 0) == Search(t, name, k)
      {
        var candidate := t.join(t.searchPaths[k], name);
        if candidate in t.files {
          return Some(candidate);
        }
      }
      return None;
    }

    method Expand(p: Path) returns (r: Option<seq<string>>)
      requires p in t.files
      modifies this
      ensures var e := ExpandFile(t, p, old(visited));
              r == Printed(t, skipEmit, e) && (e.Ok? ==> visited == e.visited)
      decreases Unvisited(t, visited), 0
    {
      if p in visited {
        return Some([]);
      }
      VisitingShrinks(t, visited, p);
      visited := visited + {p};
      var body := ExpandBody(p);
      if body.None? {
        return None;
      }
      Framed(t, skipEmit, p, ExpandLines(t, p, 0, old(visited) + {p}).items);
      var emit := p !in skipEmit;
      r := Some((if emit then ["/* --- " + t.shown(p) + " --- */"] else []) + body.value
                + (if emit then [""] else []));
    }

    method ExpandBody(p: Path) returns (r: Option<seq<string>>)
      requires p in t.files
      modifies this
      ensures var e := ExpandLines(t, p, 0, old(visited));
              r == Printed(t, skipEmit, e) && (e.Ok? ==> visited == e.visited)
      decreases Unvisited(t, visited), 2
    {
      var result := [];
      ghost var whole := ExpandLines(t, p, 0, visited);
      ghost var done: seq<Item> := [];
      ThenNothing(whole);
      for k := 0 to |t.files[p]|
        invariant old(visited) <= visited
        invariant whole == Then(done, ExpandLines(t, p, k, visited))
        invariant result == Text(t, skipEmit, done)
      {
        ghost var line := LineResult(t, p, k, visited);
        LineAdds(t, skipEmit, done, p, k, visited);
        SubsetSize(t.files.Keys - visited, t.files.Keys - old(visited));
        var more := ExpandLine(p, k);
        if more.None? {
          return None;
        }
        result := result + more.value;
        done := done + line.items;
      }
      assert done + [] == done;
      return Some(result);
    }

    /** One turn of the loop over the lines of a header. */
    method ExpandLine(p: Path, k: nat) returns (r: Option<seq<string>>)
      requires p in t.files && k < |t.files[p]|
      modifies this
      ensures var e := LineResult(t, p, k, old(visited));
              r == Printed(t, skipEmit, e) && (e.Ok? ==> visited == e.visited)
      decreases Unvisited(t, visited), 1
    {
      var emit := p !in skipEmit;
      OneItem(t, skipEmit, Code(p, k));
      match t.files[p][k] {
        case Plain(text) =>
          return Some(if emit then [text] else []);
        case Include(name, quoted, text) =>
          if name in t.systemHeaders {
            return Some(if emit then [text] else []);
          }
          var found := FindInclude(name, p, quoted);
          if found.Some? {
            r := Expand(found.value);
          } else if t.inLib(p) {
            return None;
          } else {
            return Some(if emit then [text] else []);
          }
      }
    }

    /** Both phases of the script: the umbrella header, then the sweep over the library's headers. */
    method Flatten(entry: Path, libHeaders: seq<Path>) returns (r: Option<seq<string>>)
      requires entry in t.files && forall k :: 0 <= k < |libHeaders| ==> libHeaders[k] in t.files
      requires visited == {}
      modifies this
      ensures var e := ExpandAll(t, [entry] + libHeaders, {});
              r == Printed(t, skipEmit, e) && (e.Ok? ==> visited == e.visited)
    {
      ghost var roots := [entry] + libHeaders;
      ghost var whole := ExpandAll(t, roots, {});
      assert roots[0] == entry && roots[1..] == libHeaders;
      var first := Expand(entry);
      if first.None? {
        return None;
      }
      var body := first.value;
      ghost var done := ExpandFile(t, entry, {}).items;
      for k := 0 to |libHeaders|
        invariant whole == Then(done, ExpandAll(t, libHeaders[k..], visited))
        invariant body == Text(t, skipEmit, done)
      {
        ghost var inner := ExpandFile(t, libHeaders[k], visited);
        assert libHeaders[k..][1..] == libHeaders[k + 1..];
        var more := Expand(libHeaders[k]);
        if more.None? {
          return None;
        }
        TextConcat(t, skipEmit, done, inner.items);
        ThenTwice(done, inner.items, ExpandAll(t, libHeaders[k + 1..], visited));
        body := body + more.value;
        done := done + inner.items;
      }
      assert libHeaders[|libHeaders|..] == [] && done + [] == done;
      return Some(body);
    }
  }
}
