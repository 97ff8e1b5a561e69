/** The dependency graph with its reference counts. */
module Deps {
  /** `dependents` holds the ids the node still waits for. */
  datatype Node = Node(dependents: set<string>, pending: int)

  datatype GraphState = GraphState(nodes: map<string, Node>, refs: map<string, int>) {
    /** What reading a missing key of the Go map gives. */
    function Refs(d: string): int {
      if d in refs then refs[d] else 0
    }

    predicate Waits(t: string, d: string) {
      t in nodes && d in nodes[t].dependents
    }

    predicate Ready(t: string) {
      t !in nodes || nodes[t].pending == 0
    }

    ghost function Dependents(d: string): set<string> {
      set t | t in nodes && d in nodes[t].dependents
    }

    ghost predicate Counted() {
      forall t :: t in nodes ==> nodes[t].pending == |nodes[t].dependents|
    }
  }

  const EMPTY := GraphState(map[], map[])

  function WithNode(g: GraphState, t: string): (r: GraphState)
    ensures t in r.nodes
  {
    if t in g.nodes then g else g.(nodes := g.nodes[t := Node({}, 0)])
  }

  function AddEdge(g: GraphState, t: string, d: string): (r: GraphState)
    requires t in g.nodes
    ensures t in r.nodes
  {
    var n := g.nodes[t];
    if d == "" || d in n.dependents then g
    else GraphState(g.nodes[t := Node(n.dependents + {d}, n.pending + 1)], g.refs[d := g.Refs(d) + 1])
  }

  function AddEdges(g: GraphState, t: string, ds: seq<string>): (r: GraphState)
    requires t in g.nodes
    ensures t in r.nodes
  {
    if ds == [] then g else AddEdge(AddEdges(g, t, ds[..|ds| - 1]), t, ds[|ds| - 1])
  }

  function AddTo(g: GraphState, t: string, ds: seq<string>): GraphState {
    AddEdges(WithNode(g, t), t, ds)
  }

  function Released(n: Node, d: string): Node {
    if d in n.dependents then Node(n.dependents - {d}, if n.pending > 0 then n.pending - 1 else n.pending) else n
  }

  function ReleaseAll(g: GraphState, d: string): GraphState {
    GraphState(map t | t in g.nodes :: Released(g.nodes[t], d), g.refs - {d})
  }

  /** The outgoing references of the deleted node itself are not released. */
  function DeleteFrom(g: GraphState, t: string): GraphState {
    ReleaseAll(g.(nodes := g.nodes - {t}), t)
  }

  ghost function ReleasedExcept(nodes: map<string, Node>, todo: set<string>, d: string): map<string, Node> {
    map t | t in nodes :: if t in todo then nodes[t] else Released(nodes[t], d)
  }

  lemma OneLessToDo(nodes: map<string, Node>, waiting: set<string>, todo: set<string>, t: string, d: string)
    requires t in todo && todo <= nodes.Keys
    ensures ReleasedExcept(nodes, todo, d)[t := Released(nodes[t], d)] == ReleasedExcept(nodes, todo - {t}, d)
    ensures |waiting - (todo - {t})| == |waiting - todo| + if t in waiting then 1 else 0
  {
    assert waiting - (todo - {t}) == if t in waiting then (waiting - todo) + {t} else waiting - todo;
  }

  class Graph {
    var nodes: map<string, Node>
    var refs: map<string, int>

    ghost function View(): GraphState
      reads this
    {
      GraphState(nodes, refs)
    }

    constructor ()
      ensures View() == EMPTY
    {
      nodes, refs := map[], map[];
    }

    method Add(taskId: string, dependsOn: seq<string>)
      modifies this
      ensures View() == AddTo(old(View()), taskId, dependsOn)
    {
      if taskId !in nodes {
        nodes := nodes[taskId := Node({}, 0)];
      }
      for k := 0 to |dependsOn|
        invariant View() == AddTo(old(View()), taskId, dependsOn[..k])
      {
        assert dependsOn[..k + 1][..k] == dependsOn[..k];
        var dep := dependsOn[k];
        if dep == "" {
          continue;
        }
        var n := nodes[taskId];
        if dep !in n.dependents {
          nodes := nodes[taskId := Node(n.dependents + {dep}, n.pending + 1)];
          refs := refs[dep := (if dep in refs then refs[dep] else 0) + 1];
        }
      }
      assert dependsOn[..|dependsOn|] == dependsOn;
    }

    method ReleaseNode(t: string, d: string) returns (waited: bool)
      requires t in nodes
      modifies this`nodes
      ensures nodes == old(nodes)[t := Released(old(nodes)[t], d)]
      ensures waited == (d in old(nodes)[t].dependents)
    {
      var n := nodes[t];
      waited := d in n.dependents;
      if waited {
        nodes := nodes[t := Node(n.dependents - {d}, if n.pending > 0 then n.pending - 1 else n.pending)];
      }
    }

    /** Releases `d` at every node, in whatever order the map yields them,
        and reports how many nodes waited for it. */
    method ReleaseNodes(d: string) returns (cleared: nat)
      modifies this`nodes
      ensures nodes == map t | t in old(nodes) :: Released(old(nodes)[t], d)
      ensures cleared == |old(View()).Dependents(d)|
    {
      ghost var before, waiting := nodes, View().Dependents(d);
      cleared := 0;
      var todo := nodes.Keys;
      while todo != {}
        invariant todo <= before.Keys
        invariant nodes == ReleasedExcept(before, todo, d)
        invariant cleared == |waiting - todo|
        decreases |todo|
      {
        var t :| t in todo;
        var waited := ReleaseNode(t, d);
        if waited {
          cleared := cleared + 1;
        }
        OneLessToDo(before, waiting, todo, t, d);
        todo := todo - {t};
      }
      assert waiting - todo == waiting;
    }

    method Satisfy(d: string)
      modifies this
      ensures View() == ReleaseAll(old(View()), d)
    {
      var _ := ReleaseNodes(d);
      refs := refs - {d};
    }

    method Delete(taskId: string) returns (hadNode: bool)
      modifies this
      ensures View() == DeleteFrom(old(View()), taskId)
      ensures hadNode == (taskId in old(nodes))
    {
      hadNode := taskId in nodes;
      nodes := nodes - {taskId};
      refs := refs - {taskId};
      var _ := ReleaseNodes(taskId);
    }

    method Ready(taskId: string) returns (ready: bool)
      ensures ready == View().Ready(taskId)
    {
      return taskId !in nodes || nodes[taskId].pending == 0;
    }

    /** The number of pending (task, dependency) edges. */
    method EdgeCount() returns (total: int)
      requires View().Counted()
      ensures total == |Edges(nodes, nodes.Keys)|
    {
      total := 0;
      var todo := nodes.Keys;
      ghost var seen: set<string> := {};
      while todo != {}
        invariant todo <= nodes.Keys && seen == nodes.Keys - todo
        invariant total == |Edges(nodes, seen)|
        decreases |todo|
      {
        var t :| t in todo;
        EdgesOfOne(nodes, seen, t);
        total := total + nodes[t].pending;
        todo, seen := todo - {t}, seen + {t};
      }
      assert seen == nodes.Keys;
    }
  }

  ghost function Edges(nodes: map<string, Node>, from: set<string>): set<(string, string)> {
    set t, d | t in nodes && t in from && d in nodes[t].dependents :: (t, d)
  }

  lemma EdgesOfOne(nodes: map<string, Node>, from: set<string>, t: string)
    requires t in nodes && t !in from
    ensures |Edges(nodes, from + {t})| == |Edges(nodes, from)| + |nodes[t].dependents|
  {
    var own := set d | d in nodes[t].dependents :: (t, d);
    PairsAreCounted(t, nodes[t].dependents);
    assert Edges(nodes, from + {t}) == Edges(nodes, from) + own;
    assert Edges(nodes, from) !! own;
  }

  lemma {:induction false} PairsAreCounted(t: string, ds: set<string>)
    ensures |set d | d in ds :: (t, d)| == |ds|
  {
    if ds != {} {
      var d :| d in ds;
      PairsAreCounted(t, ds - {d});
      assert (set x | x in ds :: (t, x)) == (set x | x in ds - {d} :: (t, x)) + {(t, d)};
    }
  }

  // ---------- The graph against its history ----------

  datatype Op = OpAdd(task: string, deps: seq<string>) | OpSatisfy(dep: string) | OpDelete(task: string) {
    predicate Adds(t: string, d: string) {
      OpAdd? && task == t && d in deps
    }

    predicate Clears(t: string, d: string) {
      (OpSatisfy? && dep == d) || (OpDelete? && (task == d || task == t))
    }
  }

  function Apply(g: GraphState, op: Op): GraphState {
    match op
    case OpAdd(t, ds) => AddTo(g, t, ds)
    case OpSatisfy(d) => ReleaseAll(g, d)
    case OpDelete(t) => DeleteFrom(g, t)
  }

  function Run(h: seq<Op>): GraphState {
    if h == [] then EMPTY else Apply(Run(h[..|h| - 1]), h[|h| - 1])
  }

  /** `t` waits for `d`: some Add of the edge is later than everything that
      clears it. */
  ghost predicate Owes(h: seq<Op>, t: string, d: string) {
    d != "" && exists i :: 0 <= i < |h| && h[i].Adds(t, d) && forall j :: i < j < |h| ==> !h[j].Clears(t, d)
  }

  lemma OwesAfter(h: seq<Op>, op: Op, t: string, d: string)
    ensures Owes(h + [op], t, d) <==> d != "" && (op.Adds(t, d) || (Owes(h, t, d) && !op.Clears(t, d)))
  {
    var h' := h + [op];
    assert h'[|h|] == op && forall j :: 0 <= j < |h| ==> h'[j] == h[j];
    if Owes(h, t, d) && !op.Clears(t, d) {
      var i :| 0 <= i < |h| && h[i].Adds(t, d) && forall j :: i < j < |h| ==> !h[j].Clears(t, d);
      assert h'[i].Adds(t, d);
    }
    if Owes(h', t, d) && !op.Adds(t, d) {
      var i :| 0 <= i < |h'| && h'[i].Adds(t, d) && forall j :: i < j < |h'| ==> !h'[j].Clears(t, d);
      assert h[i].Adds(t, d) && !h'[|h|].Clears(t, d);
      forall j | i < j < |h| ensures !h[j].Clears(t, d) {
        assert !h'[j].Clears(t, d);
      }
    }
    if op.Adds(t, d) {
      assert h'[|h|].Adds(t, d);
    }
  }

  /** Adding edges adds exactly those asked for, keeps the counters, and
      raises a reference count exactly as much as the true in-degree. */
  lemma {:induction false} AddEdgesExact(g: GraphState, t: string, ds: seq<string>)
    requires t in g.nodes && g.Counted()
    ensures var r := AddEdges(g, t, ds);
      && r.Counted()
      && (forall t', d :: r.Waits(t', d) <==> g.Waits(t', d) || (t' == t && d in ds && d != ""))
      && (forall d :: r.Refs(d) - |r.Dependents(d)| == g.Refs(d) - |g.Dependents(d)|)
  {
    if ds != [] {
      var k := |ds| - 1;
      AddEdgesExact(g, t, ds[..k]);
      var m := AddEdges(g, t, ds[..k]);
      var r := AddEdge(m, t, ds[k]);
      assert ds == ds[..k] + [ds[k]];
      forall d ensures r.Refs(d) - |r.Dependents(d)| == m.Refs(d) - |m.Dependents(d)| {
        if ds[k] == "" || ds[k] in m.nodes[t].dependents || d != ds[k] {
          assert r.Dependents(d) == m.Dependents(d);
        } else {
          assert r.Dependents(d) == m.Dependents(d) + {t};
        }
      }
    }
  }

  /** After any history the pending set of a task is what its history owes,
      and its counter is the size of that set. */
  lemma {:induction false} PendingMatchesHistory(h: seq<Op>)
    ensures Run(h).Counted()
    ensures forall t, d :: Run(h).Waits(t, d) <==> Owes(h, t, d)
  {
    if h != [] {
      var h0, op := h[..|h| - 1], h[|h| - 1];
      var g := Run(h0);
      PendingMatchesHistory(h0);
      assert h == h0 + [op];
      if op.OpAdd? {
        AddEdgesExact(WithNode(g, op.task), op.task, op.deps);
      }
      forall t, d ensures Run(h).Waits(t, d) <==> Owes(h, t, d) {
        OwesAfter(h0, op, t, d);
        assert g.Waits(t, d) <==> Owes(h0, t, d);
        assert Run(h).Waits(t, d) <==> (op.Adds(t, d) && d != "") || (g.Waits(t, d) && !op.Clears(t, d));
      }
    }
  }

  /** A task is ready exactly when its history owes it nothing. */
  lemma ReadyIffNothingOwed(h: seq<Op>, t: string)
    ensures Run(h).Ready(t) <==> forall d :: !Owes(h, t, d)
  {
    PendingMatchesHistory(h);
    var g := Run(h);
    if t in g.nodes && g.nodes[t].pending != 0 {
      var d :| d in g.nodes[t].dependents;
      assert g.Waits(t, d);
    }
  }

  /** References to `d` that Delete left behind: deletions of a task still
      waiting for `d` since `d` was last satisfied or deleted. */
  ghost function Leaks(h: seq<Op>, d: string): nat {
    if h == [] then 0
    else
      var h0, op := h[..|h| - 1], h[|h| - 1];
      if op == OpSatisfy(d) || op == OpDelete(d) then 0
      else Leaks(h0, d) + if op.OpDelete? && Owes(h0, op.task, d) then 1 else 0
  }

  /** Satisfying or deleting `cleared` drops its edges and its count; all
      other counts stay, and in-degrees lose only what `gone` waited for. */
  lemma ReleaseKeepsOthers(g: GraphState, gone: set<string>, cleared: string, d: string)
    ensures var r := ReleaseAll(g.(nodes := g.nodes - gone), cleared);
      if d == cleared then r.Refs(d) == |r.Dependents(d)| == 0
      else r.Refs(d) == g.Refs(d) && r.Dependents(d) == g.Dependents(d) - gone
  {
    var r := ReleaseAll(g.(nodes := g.nodes - gone), cleared);
    if d == cleared {
      assert r.Dependents(d) == {};
    } else {
      assert forall t :: r.Waits(t, d) <==> g.Waits(t, d) && t !in gone;
    }
  }

  /** Refs is the true in-degree plus exactly the leaked references; so it
      never falls short, and is exact when nothing leaked. */
  lemma {:induction false} RefsAreInDegreePlusLeaks(h: seq<Op>, d: string)
    ensures Run(h).Refs(d) == |Run(h).Dependents(d)| + Leaks(h, d)
  {
    if h != [] {
      var h0, op := h[..|h| - 1], h[|h| - 1];
      var g := Run(h0);
      RefsAreInDegreePlusLeaks(h0, d);
      PendingMatchesHistory(h0);
      match op
      case OpAdd(t, ds) =>
        assert WithNode(g, t).Dependents(d) == g.Dependents(d);
        AddEdgesExact(WithNode(g, t), t, ds);
      case OpSatisfy(s) =>
        assert g.(nodes := g.nodes - {}) == g;
        ReleaseKeepsOthers(g, {}, s, d);
        assert g.Dependents(d) - {} == g.Dependents(d);
      case OpDelete(t) =>
        ReleaseKeepsOthers(g, {t}, t, d);
        assert Run(h) == ReleaseAll(g.(nodes := g.nodes - {t}), t);
        assert t in g.Dependents(d) <==> Owes(h0, t, d) by { assert g.Waits(t, d) <==> Owes(h0, t, d); }
        assert |g.Dependents(d) - {t}| == |g.Dependents(d)| - if t in g.Dependents(d) then 1 else 0;
    }
  }

  /** Refs really can exceed the in-degree: delete a task that still waits. */
  lemma DeleteLeaksReferences()
    ensures var g := DeleteFrom(AddTo(EMPTY, "b", ["a"]), "b");
      g.Refs("a") == 1 && g.Dependents("a") == {}
  {
    var ds := ["a"];
    assert ds[..0] == [] && ds[0] == "a";
    assert AddEdges(WithNode(EMPTY, "b"), "b", ds[..0]) == WithNode(EMPTY, "b");
    var one := AddEdges(WithNode(EMPTY, "b"), "b", ds);
    assert one == AddEdge(WithNode(EMPTY, "b"), "b", "a");
    assert one.nodes.Keys == {"b"};
    assert DeleteFrom(one, "b").nodes.Keys == {};
  }
}
