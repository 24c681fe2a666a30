/** CoordinatorAgent's cycle check: a depth-first search with a `visited`
    set and a recursion stack (`recStack`) over the DAG nodes' dependency
    ids. The search is modelled twice: as written, where an id that names
    no node stays on the recursion stack, and with that id taken off again.
    Only the second decides "some task reaches itself". */
module CoordinatorCycle {
  import opened Wrappers
  import opened AgentTypes

  /** `nodes.find(n => n.taskId === id)`: the first node with that id. */
  function FindNode(nodes: seq<DAGNode>, id: string): (r: Option<DAGNode>)
    ensures r.Some? ==> r.value in nodes && r.value.taskId == id
    ensures r.None? <==> forall i :: 0 <= i < |nodes| ==> nodes[i].taskId != id
  {
    if nodes == [] then None
    else if nodes[0].taskId == id then Some(nodes[0])
    else
      var r := FindNode(nodes[1..], id);
      assert forall i :: 1 <= i < |nodes| ==> nodes[i] == nodes[1..][i - 1];
      r
  }

  /** The search finds an id that some node carries. */
  lemma FindPresent(nodes: seq<DAGNode>, n: DAGNode)
    requires n in nodes
    ensures FindNode(nodes, n.taskId).Some?
  {
    var p :| 0 <= p < |nodes| && nodes[p] == n;
  }

  /** The search follows u -> v when v is a dependency of the node found for u. */
  ghost predicate Edge(nodes: seq<DAGNode>, u: string, v: string)
  {
    FindNode(nodes, u).Some? && v in FindNode(nodes, u).value.dependencies
  }

  /** A path of at least one edge that ends where it starts. */
  ghost predicate IsCycle(nodes: seq<DAGNode>, p: seq<string>)
  {
    |p| >= 2 && p[0] == p[|p| - 1] && forall k :: 0 <= k < |p| - 1 ==> Edge(nodes, p[k], p[k + 1])
  }

  /** Some task reaches itself through dependencies. */
  ghost predicate HasCycle(nodes: seq<DAGNode>)
  {
    exists p :: IsCycle(nodes, p)
  }

  /** Every dependency names a node. */
  ghost predicate NoDangling(nodes: seq<DAGNode>)
  {
    forall n, d :: n in nodes && d in n.dependencies ==> FindNode(nodes, d).Some?
  }

  /** Every id the search can meet: the node ids and all their dependencies. */
  ghost function Universe(nodes: seq<DAGNode>): set<string>
  {
    (set n | n in nodes :: n.taskId) + (set n, d | n in nodes && d in n.dependencies :: d)
  }

  datatype Marks = Marks(visited: set<string>, recStack: set<string>)

  ghost predicate Bounded(nodes: seq<DAGNode>, s: Marks)
  {
    s.recStack <= s.visited <= Universe(nodes)
  }

  lemma SubsetCard(x: set<string>, y: set<string>)
    requires x <= y
    ensures |x| <= |y|
  {
    assert y == x + (y - x);
    assert x * (y - x) == {};
  }

  lemma DiffShrinks(u: set<string>, a: set<string>, b: set<string>, x: string)
    requires a <= b && x in u && x !in a && x in b
    ensures |u - b| < |u - a|
  {
    var y := u - a;
    SubsetCard(u - b, y - {x});
    assert y == (y - {x}) + {x};
    assert (y - {x}) * {x} == {};
  }

  lemma DiffMonotone(u: set<string>, a: set<string>, b: set<string>)
    requires a <= b
    ensures |u - b| <= |u - a|
  {
    SubsetCard(u - b, u - a);
  }

  /** `dfs(id)`: its answer and the marks it leaves. `release` says whether
      an id that names no node is taken off the recursion stack. */
  ghost function Visit(nodes: seq<DAGNode>, id: string, s: Marks, release: bool): (r: (bool, Marks))
    requires Bounded(nodes, s) && id in Universe(nodes) && id !in s.visited
    ensures s.visited + {id} <= r.1.visited <= Universe(nodes)
    ensures r.1.recStack <= r.1.visited
    decreases |Universe(nodes) - s.visited|, 0
  {
    var s1 := Marks(s.visited + {id}, s.recStack + {id});
    DiffShrinks(Universe(nodes), s.visited, s1.visited, id);
    match FindNode(nodes, id)
    case None => (false, if release then Marks(s1.visited, s1.recStack - {id}) else s1)
    case Some(n) =>
      assert forall d :: d in n.dependencies ==> d in Universe(nodes);
      var (found, s2) := VisitDeps(nodes, n.dependencies, s1, release);
      if found then (true, s2) else (false, Marks(s2.visited, s2.recStack - {id}))
  }

  /** The loop over a node's dependencies inside `dfs`. */
  ghost function VisitDeps(nodes: seq<DAGNode>, deps: seq<string>, s: Marks, release: bool): (r: (bool, Marks))
    requires s.visited <= Universe(nodes) && s.recStack <= s.visited
    requires forall d :: d in deps ==> d in Universe(nodes)
    ensures s.visited <= r.1.visited <= Universe(nodes)
    ensures r.1.recStack <= r.1.visited
    decreases |Universe(nodes) - s.visited|, 1, |deps|
  {
    if deps == [] then (false, s)
    else
      var d := deps[0];
      if d !in s.visited then
        var (found, s2) := Visit(nodes, d, s, release);
        DiffMonotone(Universe(nodes), s.visited, s2.visited);
        if found then (true, s2) else VisitDeps(nodes, deps[1..], s2, release)
      else if d in s.recStack then (true, s)
      else VisitDeps(nodes, deps[1..], s, release)
  }

  /** The outer loop of `detectCycle`, from node i on. */
  ghost function TopLoop(nodes: seq<DAGNode>, i: nat, s: Marks, release: bool): bool
    requires i <= |nodes| && Bounded(nodes, s)
    decreases |nodes| - i
  {
    if i == |nodes| then false
    else
      var id := nodes[i].taskId;
      if id !in s.visited then
        var (found, s2) := Visit(nodes, id, s, release);
        if found then true else TopLoop(nodes, i + 1, s2, release)
      else TopLoop(nodes, i + 1, s, release)
  }

  ghost function Detects(nodes: seq<DAGNode>, release: bool): bool
  {
    TopLoop(nodes, 0, Marks({}, {}), release)
  }

  /** The `dfs` closure: the marks are passed in and handed back. */
  method Dfs(nodes: seq<DAGNode>, nodeId: string, visited: set<string>, recStack: set<string>, release: bool)
    returns (found: bool, visitedOut: set<string>, recStackOut: set<string>)
    requires Bounded(nodes, Marks(visited, recStack)) && nodeId in Universe(nodes) && nodeId !in visited
    ensures (found, Marks(visitedOut, recStackOut)) == Visit(nodes, nodeId, Marks(visited, recStack), release)
    decreases |Universe(nodes) - visited|, 0
  {
    var vis := visited + {nodeId};
    var rec := recStack + {nodeId};
    var node := FindNode(nodes, nodeId);
    if node.None? {
      if release {
        rec := rec - {nodeId};
      }
      return false, vis, rec;
    }
    var deps := node.value.dependencies;
    assert forall d :: d in deps ==> d in Universe(nodes);
    ghost var s1 := Marks(vis, rec);
    var i := 0;
    while i < |deps|
      invariant 0 <= i <= |deps|
      invariant s1.visited <= vis <= Universe(nodes) && rec <= vis
      invariant VisitDeps(nodes, deps, s1, release) == VisitDeps(nodes, deps[i..], Marks(vis, rec), release)
    {
      var depId := deps[i];
      assert deps[i..][1..] == deps[i + 1..];
      if depId !in vis {
        DiffShrinks(Universe(nodes), visited, vis, nodeId);
        var f, v2, r2 := Dfs(nodes, depId, vis, rec, release);
        if f {
          return true, v2, r2;
        }
        vis, rec := v2, r2;
      } else if depId in rec {
        return true, vis, rec;
      }
      i := i + 1;
    }
    rec := rec - {nodeId};
    return false, vis, rec;
  }

  /** `detectCycle(nodes)`, with the given treatment of ids that name no node. */
  method Search(nodes: seq<DAGNode>, release: bool) returns (found: bool)
    ensures found == Detects(nodes, release)
  {
    var visited: set<string> := {};
    var recStack: set<string> := {};
    for i := 0 to |nodes|
      invariant Bounded(nodes, Marks(visited, recStack))
      invariant Detects(nodes, release) == TopLoop(nodes, i, Marks(visited, recStack), release)
    {
      var id := nodes[i].taskId;
      if id !in visited {
        var f, v2, r2 := Dfs(nodes, id, visited, recStack, release);
        if f {
          return true;
        }
        visited, recStack := v2, r2;
      }
    }
    return false;
  }

  /** `detectCycle` as the source writes it. */
  method DetectCycleAsWritten(nodes: seq<DAGNode>) returns (b: bool)
    ensures b == Detects(nodes, false)
    ensures NoDangling(nodes) ==> (b <==> HasCycle(nodes))
  {
    b := Search(nodes, false);
    if NoDangling(nodes) {
      AsWrittenAgrees(nodes);
      DetectsIffCycle(nodes);
    }
  }

  /** `detectCycle` with an unknown id taken off the recursion stack: it
      answers exactly whether some task reaches itself. */
  method DetectCycle(nodes: seq<DAGNode>) returns (b: bool)
    ensures b <==> HasCycle(nodes)
  {
    b := Search(nodes, true);
    DetectsIffCycle(nodes);
  }

  /** The ids on the recursion stack, in the order the search entered them. */
  ghost predicate GrayPath(nodes: seq<DAGNode>, stack: seq<string>)
  {
    forall k :: 0 <= k < |stack| - 1 ==> Edge(nodes, stack[k], stack[k + 1])
  }

  /** Ids whose search has finished. */
  ghost function Black(s: Marks): set<string>
  {
    s.visited - s.recStack
  }

  ghost predicate Closed(nodes: seq<DAGNode>, b: set<string>)
  {
    forall u, v :: u in b && Edge(nodes, u, v) ==> v in b
  }

  ghost predicate Within(p: seq<string>, b: set<string>)
  {
    forall k :: 0 <= k < |p| ==> p[k] in b
  }

  ghost predicate Acyclic(nodes: seq<DAGNode>, b: set<string>)
  {
    forall p :: IsCycle(nodes, p) ==> !Within(p, b)
  }

  /** What holds at every call of `dfs`: the stack is a path of edges, and
      the finished ids are closed under edges and hold no cycle. */
  ghost predicate SearchInv(nodes: seq<DAGNode>, s: Marks, stack: seq<string>)
  {
    Bounded(nodes, s) && (forall x :: x in s.recStack <==> x in stack) && GrayPath(nodes, stack) &&
    Closed(nodes, Black(s)) && Acyclic(nodes, Black(s))
  }

  /** Finishing an id all of whose successors are finished keeps the
      finished set closed and free of cycles. */
  lemma NewBlack(nodes: seq<DAGNode>, b: set<string>, u: string)
    requires Closed(nodes, b) && Acyclic(nodes, b)
    requires forall v :: Edge(nodes, u, v) ==> v in b
    ensures Closed(nodes, b + {u}) && Acyclic(nodes, b + {u})
  {
    forall p | IsCycle(nodes, p) ensures !Within(p, b + {u}) {
      assert !Within(p, b);
      var k :| 0 <= k < |p| && p[k] !in b;
      if p[k] != u {
        assert p[k] !in b + {u};
      } else {
        var j := if k == 0 then |p| - 1 else k;
        assert p[j] == u && Edge(nodes, p[j - 1], p[j]);
        assert p[j - 1] !in b + {u};
      }
    }
  }

  /** The stack from the position of d, closed by the edge back to d. */
  lemma StackCycle(nodes: seq<DAGNode>, stack: seq<string>, d: string)
    requires GrayPath(nodes, stack) && stack != [] && d in stack
    requires Edge(nodes, stack[|stack| - 1], d)
    ensures HasCycle(nodes)
  {
    var j :| 0 <= j < |stack| && stack[j] == d;
    var p := stack[j..] + [d];
    forall k | 0 <= k < |p| - 1 ensures Edge(nodes, p[k], p[k + 1]) {
      if k < |stack| - j - 1 {
        assert p[k] == stack[j + k] && p[k + 1] == stack[j + k + 1];
      }
    }
    assert IsCycle(nodes, p);
  }

  /** What a finished call leaves: a real cycle, or the recursion stack as
      it was and more finished ids, still closed and free of cycles. */
  ghost predicate Outcome(nodes: seq<DAGNode>, s: Marks, r: (bool, Marks))
  {
    (r.0 ==> HasCycle(nodes)) &&
    (!r.0 ==> r.1.recStack == s.recStack && Black(s) <= Black(r.1) &&
              Closed(nodes, Black(r.1)) && Acyclic(nodes, Black(r.1)))
  }

  /** A search from an unvisited id either ends on a real cycle, or returns
      with the recursion stack as it found it and the id finished. */
  lemma {:induction false} VisitSpec(nodes: seq<DAGNode>, id: string, s: Marks, stack: seq<string>)
    requires SearchInv(nodes, s, stack) && id in Universe(nodes) && id !in s.visited
    requires stack != [] ==> Edge(nodes, stack[|stack| - 1], id)
    ensures Outcome(nodes, s, Visit(nodes, id, s, true))
    ensures !Visit(nodes, id, s, true).0 ==> id in Black(Visit(nodes, id, s, true).1)
    decreases |Universe(nodes) - s.visited|, 0
  {
    var s1 := Marks(s.visited + {id}, s.recStack + {id});
    DiffShrinks(Universe(nodes), s.visited, s1.visited, id);
    match FindNode(nodes, id) {
      case None =>
        VisitNoneCase(nodes, id, s);
      case Some(n) =>
        PushInv(nodes, s, stack, id);
        assert forall d :: d in n.dependencies ==> d in Universe(nodes) && Edge(nodes, id, d);
        VisitDepsSpec(nodes, n.dependencies, s1, stack + [id], id);
        VisitSomeCase(nodes, id, s, n);
    }
  }

  /** Entering an id extends the stack by one edge. */
  lemma PushInv(nodes: seq<DAGNode>, s: Marks, stack: seq<string>, id: string)
    requires SearchInv(nodes, s, stack) && id in Universe(nodes) && id !in s.visited
    requires stack != [] ==> Edge(nodes, stack[|stack| - 1], id)
    ensures SearchInv(nodes, Marks(s.visited + {id}, s.recStack + {id}), stack + [id])
  {
    var s1 := Marks(s.visited + {id}, s.recStack + {id});
    assert Black(s1) == Black(s);
    var stack' := stack + [id];
    forall k | 0 <= k < |stack'| - 1 ensures Edge(nodes, stack'[k], stack'[k + 1]) {
      if k < |stack| - 1 {
        assert stack'[k] == stack[k] && stack'[k + 1] == stack[k + 1];
      }
    }
  }

  /** `dfs` on an id that names no node, in the corrected search. */
  lemma VisitNoneCase(nodes: seq<DAGNode>, id: string, s: Marks)
    requires Bounded(nodes, s) && id in Universe(nodes) && id !in s.visited
    requires Closed(nodes, Black(s)) && Acyclic(nodes, Black(s))
    requires FindNode(nodes, id).None?
    ensures Outcome(nodes, s, Visit(nodes, id, s, true))
    ensures !Visit(nodes, id, s, true).0 ==> id in Black(Visit(nodes, id, s, true).1)
  {
    var s1 := Marks(s.visited + {id}, s.recStack + {id});
    assert s1.recStack - {id} == s.recStack;
    NewBlack(nodes, Black(s), id);
    assert Black(Visit(nodes, id, s, true).1) == Black(s) + {id};
  }

  /** The last step of `dfs` on a found node: taking the id off the stack. */
  lemma VisitSomeCase(nodes: seq<DAGNode>, id: string, s: Marks, n: DAGNode)
    requires Bounded(nodes, s) && id in Universe(nodes) && id !in s.visited && s.recStack <= s.visited
    requires FindNode(nodes, id) == Some(n)
    requires forall d :: d in n.dependencies ==> d in Universe(nodes) && Edge(nodes, id, d)
    requires var s1 := Marks(s.visited + {id}, s.recStack + {id});
      var r := VisitDeps(nodes, n.dependencies, s1, true);
      Outcome(nodes, s1, r) && (!r.0 ==> forall d :: d in n.dependencies ==> d in Black(r.1))
    ensures Outcome(nodes, s, Visit(nodes, id, s, true))
    ensures !Visit(nodes, id, s, true).0 ==> id in Black(Visit(nodes, id, s, true).1)
  {
    var s1 := Marks(s.visited + {id}, s.recStack + {id});
    assert Black(s1) == Black(s);
    var r2 := VisitDeps(nodes, n.dependencies, s1, true);
    if !r2.0 {
      assert r2.1.recStack - {id} == s.recStack;
      NewBlack(nodes, Black(r2.1), id);
      assert Black(Visit(nodes, id, s, true).1) == Black(r2.1) + {id};
    }
  }

  lemma {:induction false} VisitDepsSpec(nodes: seq<DAGNode>, deps: seq<string>, s: Marks, stack: seq<string>, u: string)
    requires SearchInv(nodes, s, stack) && stack != [] && stack[|stack| - 1] == u
    requires forall d :: d in deps ==> d in Universe(nodes) && Edge(nodes, u, d)
    ensures Outcome(nodes, s, VisitDeps(nodes, deps, s, true))
    ensures var r := VisitDeps(nodes, deps, s, true);
      !r.0 ==> forall d :: d in deps ==> d in Black(r.1)
    decreases |Universe(nodes) - s.visited|, 1, |deps|
  {
    if deps != [] {
      var d := deps[0];
      assert forall e :: e in deps ==> e == d || e in deps[1..];
      if d !in s.visited {
        VisitSpec(nodes, d, s, stack);
        var r := Visit(nodes, d, s, true);
        if !r.0 {
          DiffMonotone(Universe(nodes), s.visited, r.1.visited);
          VisitDepsSpec(nodes, deps[1..], r.1, stack, u);
        }
      } else if d in s.recStack {
        StackCycle(nodes, stack, d);
      } else {
        VisitDepsSpec(nodes, deps[1..], s, stack, u);
      }
    }
  }

  /** The outer loop finds a cycle exactly when there is one. */
  lemma {:induction false} TopSpec(nodes: seq<DAGNode>, i: nat, s: Marks)
    requires i <= |nodes| && Bounded(nodes, s) && s.recStack == {}
    requires Closed(nodes, Black(s)) && Acyclic(nodes, Black(s))
    requires forall k :: 0 <= k < i ==> nodes[k].taskId in s.visited
    ensures TopLoop(nodes, i, s, true) <==> HasCycle(nodes)
    decreases |nodes| - i
  {
    if i == |nodes| {
      assert Black(s) == s.visited;
      AllCyclesInside(nodes, s.visited);
      assert !HasCycle(nodes);
    } else {
      var id := nodes[i].taskId;
      if id !in s.visited {
        assert id in Universe(nodes);
        VisitSpec(nodes, id, s, []);
        var r := Visit(nodes, id, s, true);
        if !r.0 {
          TopSpec(nodes, i + 1, r.1);
        }
      } else {
        TopSpec(nodes, i + 1, s);
      }
    }
  }

  /** A cycle runs through node ids only. */
  lemma AllCyclesInside(nodes: seq<DAGNode>, b: set<string>)
    requires forall k :: 0 <= k < |nodes| ==> nodes[k].taskId in b
    ensures forall p :: IsCycle(nodes, p) ==> Within(p, b)
  {
    forall p | IsCycle(nodes, p) ensures Within(p, b) {
      forall k | 0 <= k < |p| ensures p[k] in b {
        var k' := if k == |p| - 1 then 0 else k;
        assert Edge(nodes, p[k'], p[k' + 1]);
        var n := FindNode(nodes, p[k']).value;
        var j :| 0 <= j < |nodes| && nodes[j] == n;
      }
    }
  }

  /** The corrected search answers "is there a cycle" for every list of nodes. */
  lemma DetectsIffCycle(nodes: seq<DAGNode>)
    ensures Detects(nodes, true) <==> HasCycle(nodes)
  {
    var s := Marks({}, {});
    forall p | IsCycle(nodes, p) ensures !Within(p, Black(s)) {
      assert p[0] !in Black(s);
    }
    TopSpec(nodes, 0, s);
  }

  /** When every id names a node, the two searches take the same steps. */
  lemma {:induction false} VisitSame(nodes: seq<DAGNode>, id: string, s: Marks)
    requires NoDangling(nodes) && Bounded(nodes, s) && id in Universe(nodes) && id !in s.visited
    requires FindNode(nodes, id).Some?
    ensures Visit(nodes, id, s, false) == Visit(nodes, id, s, true)
    decreases |Universe(nodes) - s.visited|, 0
  {
    var s1 := Marks(s.visited + {id}, s.recStack + {id});
    DiffShrinks(Universe(nodes), s.visited, s1.visited, id);
    var n := FindNode(nodes, id).value;
    assert forall d :: d in n.dependencies ==> d in Universe(nodes);
    VisitDepsSame(nodes, n.dependencies, s1);
  }

  lemma {:induction false} VisitDepsSame(nodes: seq<DAGNode>, deps: seq<string>, s: Marks)
    requires NoDangling(nodes) && Bounded(nodes, s)
    requires forall d :: d in deps ==> d in Universe(nodes) && FindNode(nodes, d).Some?
    ensures VisitDeps(nodes, deps, s, false) == VisitDeps(nodes, deps, s, true)
    decreases |Universe(nodes) - s.visited|, 1, |deps|
  {
    if deps != [] {
      var d := deps[0];
      if d !in s.visited {
        VisitSame(nodes, d, s);
        var r := Visit(nodes, d, s, true);
        DiffMonotone(Universe(nodes), s.visited, r.1.visited);
        VisitDepsSame(nodes, deps[1..], r.1);
      } else {
        VisitDepsSame(nodes, deps[1..], s);
      }
    }
  }

  lemma {:induction false} TopSame(nodes: seq<DAGNode>, i: nat, s: Marks)
    requires NoDangling(nodes) && i <= |nodes| && Bounded(nodes, s)
    ensures TopLoop(nodes, i, s, false) == TopLoop(nodes, i, s, true)
    decreases |nodes| - i
  {
    if i < |nodes| {
      var id := nodes[i].taskId;
      if id !in s.visited {
        assert id in Universe(nodes);
        assert FindNode(nodes, id).Some?;
        VisitSame(nodes, id, s);
        TopSame(nodes, i + 1, Visit(nodes, id, s, true).1);
      } else {
        TopSame(nodes, i + 1, s);
      }
    }
  }

  /** Where no dependency dangles, the search as written is correct. */
  lemma AsWrittenAgrees(nodes: seq<DAGNode>)
    requires NoDangling(nodes)
    ensures Detects(nodes, false) == Detects(nodes, true)
  {
    TopSame(nodes, 0, Marks({}, {}));
  }

  /** Ranks that fall along every edge rule out cycles. */
  lemma {:induction false} RankFalls(nodes: seq<DAGNode>, rank: map<string, nat>, p: seq<string>, k: nat)
    requires forall u, v :: Edge(nodes, u, v) ==> u in rank && v in rank && rank[v] < rank[u]
    requires 1 <= k < |p| && forall j :: 0 <= j < |p| - 1 ==> Edge(nodes, p[j], p[j + 1])
    ensures p[0] in rank && p[k] in rank && rank[p[k]] < rank[p[0]]
  {
    assert Edge(nodes, p[k - 1], p[k]);
    if k > 1 {
      RankFalls(nodes, rank, p, k - 1);
    }
  }

  lemma RankedNoCycle(nodes: seq<DAGNode>, rank: map<string, nat>)
    requires forall u, v :: Edge(nodes, u, v) ==> u in rank && v in rank && rank[v] < rank[u]
    ensures !HasCycle(nodes)
  {
    forall p | IsCycle(nodes, p) ensures p[0] in rank && p[|p| - 1] in rank && rank[p[|p| - 1]] < rank[p[0]] {
      RankFalls(nodes, rank, p, |p| - 1);
    }
  }

  /** Two tasks that both depend on an id no task has: the search as
      written reports a cycle that does not exist. */
  lemma DanglingFalseCycle(t: Task)
    ensures var nodes := [DAGNode("task-1", 0, ["task-9"], t), DAGNode("task-2", 0, ["task-9"], t)];
      Detects(nodes, false) && !HasCycle(nodes)
  {
    var n1 := DAGNode("task-1", 0, ["task-9"], t);
    var n2 := DAGNode("task-2", 0, ["task-9"], t);
    var nodes := [n1, n2];
    assert "task-1" != "task-9" && "task-2" != "task-9" && "task-1" != "task-2";
    assert FindNode(nodes, "task-9") == None;
    assert FindNode(nodes, "task-1") == Some(n1);
    assert FindNode(nodes, "task-2") == Some(n2);
    assert "task-9" in Universe(nodes) by { assert n1 in nodes && "task-9" in n1.dependencies; }
    assert "task-1" in Universe(nodes) && "task-2" in Universe(nodes);
    var e := Marks({}, {});
    var s1 := Marks({"task-1"}, {"task-1"});
    assert Bounded(nodes, s1);
    var v9 := Visit(nodes, "task-9", s1, false);
    assert s1.visited + {"task-9"} == {"task-1", "task-9"};
    assert s1.recStack + {"task-9"} == {"task-1", "task-9"};
    assert v9 == (false, Marks({"task-1", "task-9"}, {"task-1", "task-9"}));
    assert VisitDeps(nodes, ["task-9"], s1, false) == v9 by {
      assert ["task-9"][1..] == [];
    }
    assert e.visited + {"task-1"} == {"task-1"} && e.recStack + {"task-1"} == {"task-1"};
    assert {"task-1", "task-9"} - {"task-1"} == {"task-9"};
    var v1 := Visit(nodes, "task-1", e, false);
    assert v1 == (false, Marks({"task-1", "task-9"}, {"task-9"}));
    var s2 := Marks({"task-1", "task-9", "task-2"}, {"task-9", "task-2"});
    assert v1.1.visited + {"task-2"} == s2.visited && v1.1.recStack + {"task-2"} == s2.recStack;
    assert VisitDeps(nodes, ["task-9"], s2, false) == (true, s2);
    assert Visit(nodes, "task-2", v1.1, false) == (true, s2);
    assert TopLoop(nodes, 1, v1.1, false);
    assert Detects(nodes, false);
    var rank := map["task-1" := 1, "task-2" := 1, "task-9" := 0];
    RankedNoCycle(nodes, rank);
  }
}
