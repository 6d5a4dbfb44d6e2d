/** Every run is a walk over the graph's edges; on acyclic graphs it always ends, without repeats. */
module WorkflowPaths {
  import opened Wrappers
  import opened Conditions
  import opened GraphWorkflow

  ghost predicate HasEdge(edges: seq<Edge>, a: string, b: string) {
    exists i :: 0 <= i < |edges| && edges[i].from == a && edges[i].to == b
  }

  ghost predicate EdgePath(edges: seq<Edge>, p: seq<string>) {
    forall i :: 0 <= i < |p| - 1 ==> HasEdge(edges, p[i], p[i + 1])
  }

  /** No walk of at least one edge returns to where it began. */
  ghost predicate Acyclic(edges: seq<Edge>) {
    forall p :: |p| >= 2 && EdgePath(edges, p) ==> p[0] != p[|p| - 1]
  }

  ghost predicate Distinct(p: seq<string>) {
    forall i, j :: 0 <= i < j < |p| ==> p[i] != p[j]
  }

  function Visited(steps: seq<Step>): seq<string> {
    seq(|steps|, i requires 0 <= i < |steps| => steps[i].node)
  }

  /** The nodes visited, then the one still due, if any. */
  function Trail(wf: Workflow, lib: Numerals, steps: seq<Step>): seq<string> {
    var due := Due(wf, lib, steps, |steps|);
    Visited(steps) + if due.Some? then [due.value] else []
  }

  lemma RoutedAlongEdge(wf: Workflow, lib: Numerals, node: string, state: State)
    ensures var next := ResolveNext(wf, lib, node, state);
            next.Some? ==> HasEdge(wf.edges, node, next.value)
  {
    ResolveNextFollowsRule(wf, lib, node, state);
  }

  /** The trail of any run starts at the first node, follows edges and stays on declared nodes. */
  lemma TrailIsPath(wf: Workflow, lib: Numerals, oracle: Oracle, init: State, steps: seq<Step>)
    requires WellFormed(wf.nodes, wf.edges) && IsRun(wf, lib, oracle, init, steps)
    ensures var t := Trail(wf, lib, steps);
            && t != [] && t[0] == wf.nodes[0].id
            && EdgePath(wf.edges, t)
            && forall i :: 0 <= i < |t| ==> HasNode(wf.nodes, t[i])
  {
    var t := Trail(wf, lib, steps);
    forall i | 0 <= i < |t| ensures Due(wf, lib, steps, i) == Some(t[i]) {
      assert i < |steps| ==> IsStep(wf, lib, oracle, init, steps, i);
    }
    forall i | 0 <= i < |t| - 1 ensures HasEdge(wf.edges, t[i], t[i + 1]) {
      RoutedAlongEdge(wf, lib, steps[i].node, steps[i].routed);
    }
    forall i | 0 <= i < |t| ensures HasNode(wf.nodes, t[i]) {
      if i > 0 {
        assert HasEdge(wf.edges, t[i - 1], t[i - 1 + 1]);
        var k :| 0 <= k < |wf.edges| && wf.edges[k].from == t[i - 1] && wf.edges[k].to == t[i];
      }
    }
  }

  /** What every execution of a built workflow reports, for any oracle and any initial state. */
  lemma ExecutionReport(
    wf: Workflow, lib: Numerals, oracle: Oracle, init: State, steps: seq<Step>, r: Result<Execution, Error>)
    requires WellFormed(wf.nodes, wf.edges) && Produces(wf, lib, oracle, init, steps, r)
    ensures r.Ok? || r.error.MaxIterationsReached?
    ensures r.Ok? ==>
              && r.value.iterations == |r.value.executed| == |steps| <= wf.maxIterations
              && (forall i :: 0 <= i < |steps| ==>
                    r.value.executed[i] == steps[i].result && r.value.executed[i].nodeId == Visited(steps)[i])
              && r.value.state == (if steps == [] then init else steps[|steps| - 1].routed)
    ensures r.Ok? && steps != [] ==>
              var last := steps[|steps| - 1];
              forall e :: 0 <= e < |wf.edges| ==> !FiresAt(wf, lib, last.node, last.routed, e) && !FreeAt(wf, last.node, e)
    ensures r.Err? ==> |steps| == r.error.max == wf.maxIterations && HasNode(wf.nodes, r.error.lastNode)
    ensures r.Ok? && wf.checkpoint.Some? ==>
              && |r.value.snapshots| == |steps|
              && forall i :: 0 <= i < |steps| ==>
                   && r.value.snapshots[i].nodeId == Visited(steps)[i]
                   && r.value.snapshots[i].iteration == i
                   && r.value.snapshots[i].state == steps[i].saved
                   && (forall k :: k != "__interrupt_after" ==>
                         Get(r.value.snapshots[i].state, k) == Get(steps[i].routed, k))
    ensures r.Ok? && wf.checkpoint.None? ==> r.value.snapshots == []
  {
    TrailIsPath(wf, lib, oracle, init, steps);
    var t := Trail(wf, lib, steps);
    if r.Ok? && steps != [] {
      ResolveNextFollowsRule(wf, lib, steps[|steps| - 1].node, steps[|steps| - 1].routed);
    }
    if r.Err? {
      assert t[|steps|] == Due(wf, lib, steps, |steps|).value;
    }
    forall i | 0 <= i < |steps|
      ensures steps[i].result.nodeId == steps[i].node
      ensures steps[i].routed == MarkAfter(wf, steps[i].node, steps[i].saved)
    {
      assert IsStep(wf, lib, oracle, init, steps, i);
    }
  }

  // ── Counting ────────────────────────────────────────────────────

  ghost function Elements(p: seq<string>): set<string> {
    set i | 0 <= i < |p| :: p[i]
  }

  lemma {:induction false} DistinctCount(p: seq<string>)
    requires Distinct(p)
    ensures |Elements(p)| == |p|
  {
    if p != [] {
      var last := |p| - 1;
      DistinctCount(p[..last]);
      assert Elements(p) == Elements(p[..last]) + {p[last]};
    }
  }

  lemma {:induction false} SubsetCount(a: set<string>, b: set<string>)
    requires a <= b
    ensures |a| <= |b|
  {
    if a != {} {
      var x :| x in a;
      SubsetCount(a - {x}, b - {x});
    }
  }

  /** A walk without repeats is no longer than the list of nodes. */
  lemma Pigeonhole(nodes: seq<Node>, p: seq<string>)
    requires DistinctIds(nodes) && Distinct(p)
    requires forall i :: 0 <= i < |p| ==> HasNode(nodes, p[i])
    ensures |p| <= |nodes|
  {
    var ids := seq(|nodes|, i requires 0 <= i < |nodes| => nodes[i].id);
    DistinctCount(p);
    DistinctCount(ids);
    forall x | x in Elements(p) ensures x in Elements(ids) {
      var i :| 0 <= i < |nodes| && nodes[i].id == x;
      assert ids[i] == x;
    }
    SubsetCount(Elements(p), Elements(ids));
  }

  lemma AcyclicPathDistinct(edges: seq<Edge>, p: seq<string>)
    requires Acyclic(edges) && EdgePath(edges, p)
    ensures Distinct(p)
  {
    forall i, j | 0 <= i < j < |p| ensures p[i] != p[j] {
      var q := p[i..j + 1];
      assert EdgePath(edges, q) by {
        assert forall k :: 0 <= k < |q| - 1 ==> HasEdge(edges, q[k], q[k + 1]);
      }
    }
  }

  /**
   * On an acyclic graph with an iteration cap of at least the number of nodes, every execution
   * succeeds and runs no node twice, whatever the nodes output and however they fail.
   */
  lemma AcyclicAlwaysSucceeds(
    wf: Workflow, lib: Numerals, oracle: Oracle, init: State, steps: seq<Step>, r: Result<Execution, Error>)
    requires WellFormed(wf.nodes, wf.edges) && Acyclic(wf.edges) && |wf.nodes| <= wf.maxIterations
    requires Produces(wf, lib, oracle, init, steps, r)
    ensures r.Ok? && Distinct(Visited(steps)) && |steps| <= |wf.nodes|
  {
    TrailIsPath(wf, lib, oracle, init, steps);
    var t := Trail(wf, lib, steps);
    AcyclicPathDistinct(wf.edges, t);
    Pigeonhole(wf.nodes, t);
    forall i, j | 0 <= i < j < |steps| ensures Visited(steps)[i] != Visited(steps)[j] {
      assert t[i] == Visited(steps)[i] && t[j] == Visited(steps)[j];
    }
  }

  // ── How tight the bound is ──────────────────────────────────────

  /** With a smaller cap some acyclic workflow is cut off: a chain runs one node per iteration. */
  ghost predicate Chain(wf: Workflow) {
    && |wf.edges| == |wf.nodes| - 1
    && forall i :: 0 <= i < |wf.edges| ==>
         wf.edges[i].from == wf.nodes[i].id && wf.edges[i].to == wf.nodes[i + 1].id && wf.edges[i].condition.None?
  }

  /** Chains are acyclic, and any run of one visits the nodes in order. */
  lemma {:induction false} ChainVisitsInOrder(
    wf: Workflow, lib: Numerals, oracle: Oracle, init: State, steps: seq<Step>, i: nat)
    requires WellFormed(wf.nodes, wf.edges) && Chain(wf) && IsRun(wf, lib, oracle, init, steps)
    requires i <= |steps|
    ensures i <= |wf.nodes|
    ensures Due(wf, lib, steps, i) == if i < |wf.nodes| then Some(wf.nodes[i].id) else None
  {
    if i > 0 {
      ChainVisitsInOrder(wf, lib, oracle, init, steps, i - 1);
      assert IsStep(wf, lib, oracle, init, steps, i - 1);
      var node, state := steps[i - 1].node, steps[i - 1].routed;
      assert node == wf.nodes[i - 1].id;
      ResolveNextFollowsRule(wf, lib, node, state);
      forall k | 0 <= k < |wf.edges|
        ensures !FiresAt(wf, lib, node, state, k) && (FreeAt(wf, node, k) <==> k == i - 1)
      {
      }
      if i < |wf.nodes| {
        assert Follows(wf, lib, node, state, i - 1);
      }
    }
  }

  /** A chain succeeds exactly when its cap reaches the number of its nodes. */
  lemma ChainNeedsEveryIteration(
    wf: Workflow, lib: Numerals, oracle: Oracle, init: State, steps: seq<Step>, r: Result<Execution, Error>)
    requires WellFormed(wf.nodes, wf.edges) && Chain(wf) && Produces(wf, lib, oracle, init, steps, r)
    ensures r.Ok? <==> |wf.nodes| <= wf.maxIterations
  {
    ChainVisitsInOrder(wf, lib, oracle, init, steps, |steps|);
  }
}

