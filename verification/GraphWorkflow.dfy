/**
 * The graph workflow engine: building a workflow from its configuration, routing, state
 * reducers, and the execution loop with checkpoints, interrupts and an iteration cap.
 */
module GraphWorkflow {
  import opened Wrappers
  import opened JsonValues
  import opened Conditions

  datatype NodeType = Agent | Action | Tool

  datatype Node = Node(id: string, nodeType: NodeType, config: Json)

  datatype Edge = Edge(from: string, to: string, condition: Option<string>)

  datatype Reducer = Overwrite | Append | Sum | Custom(name: string)

  datatype StreamMode = Values | Updates | Messages | Debug

  datatype CheckpointConfig = CheckpointConfig(backend: string, path: Option<string>)

  datatype Interrupts = Interrupts(before: seq<string>, after: seq<string>)

  datatype Config = Config(
    nodes: seq<Node>,
    edges: seq<Edge>,
    reducers: map<string, Reducer>,
    checkpoint: Option<CheckpointConfig>,
    streamMode: Option<StreamMode>,
    maxIterations: Option<nat>,
    interrupts: Option<Interrupts>)

  datatype Workflow = Workflow(
    nodes: seq<Node>,
    edges: seq<Edge>,
    reducers: map<string, Reducer>,
    checkpoint: Option<CheckpointConfig>,
    streamMode: Option<StreamMode>,
    maxIterations: nat,
    interrupts: Option<Interrupts>)

  datatype Endpoint = Source | Target

  datatype Error =
    | EmptyGraph
    | DuplicateNodeId(id: string)
    | InvalidEdge(from: string, to: string, missing: Endpoint)
    | NodeNotFound(id: string)
    | MaxIterationsReached(max: nat, lastNode: string)

  const DEFAULT_MAX_ITERATIONS: nat := 100
  const INTERRUPT_BEFORE := "__interrupt_before"
  const INTERRUPT_AFTER := "__interrupt_after"

  // ── Building ────────────────────────────────────────────────────

  predicate HasNode(nodes: seq<Node>, id: string) {
    exists i :: 0 <= i < |nodes| && nodes[i].id == id
  }

  predicate DistinctIds(nodes: seq<Node>) {
    forall i, j :: 0 <= i < j < |nodes| ==> nodes[i].id != nodes[j].id
  }

  predicate EdgeKnown(nodes: seq<Node>, e: Edge) {
    HasNode(nodes, e.from) && HasNode(nodes, e.to)
  }

  /** What a validated graph guarantees to the engine. */
  predicate WellFormed(nodes: seq<Node>, edges: seq<Edge>) {
    nodes != [] && DistinctIds(nodes) && forall i :: 0 <= i < |edges| ==> EdgeKnown(nodes, edges[i])
  }

  /** A workflow is built exactly from the well-formed configurations; otherwise the first defect is named. */
  method Build(config: Config) returns (r: Result<Workflow, Error>)
    ensures r.Ok? <==> WellFormed(config.nodes, config.edges)
    ensures r.Ok? ==>
              r.value == Workflow(config.nodes, config.edges, config.reducers, config.checkpoint, config.streamMode,
                                  if config.maxIterations.Some? then config.maxIterations.value else 100,
                                  config.interrupts)
    ensures r == Err(EmptyGraph) <==> config.nodes == []
    ensures r.Err? && r.error.DuplicateNodeId? ==>
              exists j :: 0 <= j < |config.nodes| && config.nodes[j].id == r.error.id
                          && HasNode(config.nodes[..j], r.error.id) && DistinctIds(config.nodes[..j])
    ensures r.Err? && r.error.InvalidEdge? ==>
              DistinctIds(config.nodes)
              && exists j :: 0 <= j < |config.edges|
                             && (forall i :: 0 <= i < j ==> EdgeKnown(config.nodes, config.edges[i]))
                             && config.edges[j].from == r.error.from && config.edges[j].to == r.error.to
                             && HasNode(config.nodes, r.error.from) == r.error.missing.Target?
                             && (r.error.missing.Target? ==> !HasNode(config.nodes, r.error.to))
    ensures r.Err? ==> r.error.EmptyGraph? || r.error.DuplicateNodeId? || r.error.InvalidEdge?
  {
    if config.nodes == [] {
      return Err(EmptyGraph);
    }
    var seen: set<string> := {};
    for i := 0 to |config.nodes|
      invariant seen == set k | 0 <= k < i :: config.nodes[k].id
      invariant DistinctIds(config.nodes[..i])
    {
      var id := config.nodes[i].id;
      if id in seen {
        var k :| 0 <= k < i && config.nodes[k].id == id;
        return Err(DuplicateNodeId(id));
      }
      seen := seen + {id};
    }
    for i := 0 to |config.edges|
      invariant forall k :: 0 <= k < i ==> EdgeKnown(config.nodes, config.edges[k])
    {
      var e := config.edges[i];
      if !HasNode(config.nodes, e.from) {
        return Err(InvalidEdge(e.from, e.to, Source));
      }
      if !HasNode(config.nodes, e.to) {
        return Err(InvalidEdge(e.from, e.to, Target));
      }
    }
    r := Ok(Workflow(config.nodes, config.edges, config.reducers, config.checkpoint, config.streamMode,
                     if config.maxIterations.Some? then config.maxIterations.value else DEFAULT_MAX_ITERATIONS,
                     config.interrupts));
  }

  function FindNode(nodes: seq<Node>, id: string): (r: Option<Node>)
    ensures r.Some? <==> HasNode(nodes, id)
    ensures r.Some? ==> r.value in nodes && r.value.id == id
  {
    if nodes == [] then None
    else if nodes[0].id == id then Some(nodes[0])
    else
      assert nodes == [nodes[0]] + nodes[1..];
      FindNode(nodes[1..], id)
  }

  // ── Routing ─────────────────────────────────────────────────────

  function OutgoingEdges(edges: seq<Edge>, node: string): seq<Edge> {
    if edges == [] then []
    else if edges[0].from == node then [edges[0]] + OutgoingEdges(edges[1..], node)
    else OutgoingEdges(edges[1..], node)
  }

  predicate Fires(lib: Numerals, e: Edge, state: State) {
    e.condition.Some? && EvaluateCondition(lib, e.condition.value, state)
  }

  function FirstFiring(lib: Numerals, edges: seq<Edge>, state: State): Option<string> {
    if edges == [] then None
    else if Fires(lib, edges[0], state) then Some(edges[0].to)
    else FirstFiring(lib, edges[1..], state)
  }

  function FirstUnconditional(edges: seq<Edge>): Option<string> {
    if edges == [] then None
    else if edges[0].condition.None? then Some(edges[0].to)
    else FirstUnconditional(edges[1..])
  }

  /** The first conditional edge that holds, else the first unconditional edge, else nothing. */
  function ResolveNext(wf: Workflow, lib: Numerals, node: string, state: State): Option<string> {
    var edges := OutgoingEdges(wf.edges, node);
    match FirstFiring(lib, edges, state)
    case Some(to) => Some(to)
    case None => FirstUnconditional(edges)
  }

  /** Edge `i` leaves `node` and its condition holds. */
  predicate FiresAt(wf: Workflow, lib: Numerals, node: string, state: State, i: nat)
    requires i < |wf.edges|
  {
    var e := wf.edges[i];
    e.from == node && e.condition.Some? && EvaluateCondition(lib, e.condition.value, state)
  }

  predicate FreeAt(wf: Workflow, node: string, i: nat)
    requires i < |wf.edges|
  {
    wf.edges[i].from == node && wf.edges[i].condition.None?
  }

  /** The routing rule over the workflow's own edge list: edge `i` is the one followed. */
  ghost predicate Follows(wf: Workflow, lib: Numerals, node: string, state: State, i: nat) {
    && i < |wf.edges|
    && (|| (FiresAt(wf, lib, node, state, i) && forall j :: 0 <= j < i ==> !FiresAt(wf, lib, node, state, j))
        || (&& FreeAt(wf, node, i) && (forall j :: 0 <= j < i ==> !FreeAt(wf, node, j))
            && forall j :: 0 <= j < |wf.edges| ==> !FiresAt(wf, lib, node, state, j)))
  }

  lemma {:induction false} FirstFiringIndex(lib: Numerals, edges: seq<Edge>, node: string, state: State)
    returns (i: nat)
    ensures i <= |edges|
    ensures forall j :: 0 <= j < i ==> !(edges[j].from == node && Fires(lib, edges[j], state))
    ensures FirstFiring(lib, OutgoingEdges(edges, node), state)
            == if i == |edges| then None else Some(edges[i].to)
    ensures i < |edges| ==> edges[i].from == node && Fires(lib, edges[i], state)
  {
    i := 0;
    if edges != [] && edges[0].from != node {
      i := FirstFiringIndex(lib, edges[1..], node, state);
      i := i + 1;
    } else if edges != [] {
      assert OutgoingEdges(edges, node)[1..] == OutgoingEdges(edges[1..], node);
      if !Fires(lib, edges[0], state) {
        i := FirstFiringIndex(lib, edges[1..], node, state);
        i := i + 1;
      }
    }
  }

  lemma {:induction false} FirstUnconditionalIndex(edges: seq<Edge>, node: string) returns (i: nat)
    ensures i <= |edges|
    ensures forall j :: 0 <= j < i ==> !(edges[j].from == node && edges[j].condition.None?)
    ensures FirstUnconditional(OutgoingEdges(edges, node)) == if i == |edges| then None else Some(edges[i].to)
    ensures i < |edges| ==> edges[i].from == node && edges[i].condition.None?
  {
    i := 0;
    if edges != [] && edges[0].from != node {
      i := FirstUnconditionalIndex(edges[1..], node);
      i := i + 1;
    } else if edges != [] {
      if edges[0].condition.Some? {
        i := FirstUnconditionalIndex(edges[1..], node);
        i := i + 1;
      }
    }
  }

  /** The edge that `ResolveNext` takes, or the number of edges if it takes none. */
  lemma EdgeTaken(wf: Workflow, lib: Numerals, node: string, state: State) returns (k: nat)
    ensures k <= |wf.edges|
    ensures k < |wf.edges| ==>
              Follows(wf, lib, node, state, k) && ResolveNext(wf, lib, node, state) == Some(wf.edges[k].to)
    ensures k == |wf.edges| ==>
              && ResolveNext(wf, lib, node, state) == None
              && forall i :: 0 <= i < |wf.edges| ==> !FiresAt(wf, lib, node, state, i) && !FreeAt(wf, node, i)
  {
    k := FirstFiringIndex(lib, wf.edges, node, state);
    if k == |wf.edges| {
      k := FirstUnconditionalIndex(wf.edges, node);
    }
  }

  /** `ResolveNext` follows exactly the edge the routing rule names, and stops iff there is none. */
  lemma ResolveNextFollowsRule(wf: Workflow, lib: Numerals, node: string, state: State)
    ensures forall to :: ResolveNext(wf, lib, node, state) == Some(to)
                         <==> exists i: nat :: Follows(wf, lib, node, state, i) && wf.edges[i].to == to
    ensures ResolveNext(wf, lib, node, state) == None
            <==> forall i :: 0 <= i < |wf.edges| ==> !FiresAt(wf, lib, node, state, i) && !FreeAt(wf, node, i)
  {
    var k := EdgeTaken(wf, lib, node, state);
    assert forall i: nat :: Follows(wf, lib, node, state, i) ==> i == k && k < |wf.edges|;
  }

  // ── State reducers ──────────────────────────────────────────────

  function NumberOrZero(v: Option<Json>): real {
    match AsNumber(v)
    case Some(x) => x
    case None => 0.0
  }

  /** What a value adds to a list: its own items if it is one, else itself. */
  function Items(v: Json): seq<Json> {
    if v.Array? then v.items else [v]
  }

  /** The value a key holds after `value` is merged into what it held before. */
  function Merge(reducer: Reducer, prev: Option<Json>, value: Json): Json {
    match reducer
    case Overwrite => value
    case Custom(_) => value
    case Sum => Number(Float(NumberOrZero(prev) + NumberOrZero(Some(value))))
    case Append =>
      match prev
      case None => Array(Items(value))
      case Some(Array(items)) => Array(items + Items(value))
      case Some(v) => Array([v, value])
  }

  function ReducerFor(wf: Workflow, key: string): Reducer {
    if key in wf.reducers then wf.reducers[key] else Overwrite
  }

  function ApplyReducer(wf: Workflow, state: State, key: string, value: Json): State {
    state[key := Merge(ReducerFor(wf, key), Get(state, key), value)]
  }

  function Entries(output: Json): seq<(string, Json)> {
    if output.Object? then output.fields else []
  }

  function ApplyEntries(wf: Workflow, state: State, entries: seq<(string, Json)>): State
    decreases |entries|
  {
    if entries == [] then state
    else
      var last := entries[|entries| - 1];
      ApplyReducer(wf, ApplyEntries(wf, state, entries[..|entries| - 1]), last.0, last.1)
  }

  /** Merges a node's output into the state, one entry after the other. */
  method MergeOutput(wf: Workflow, initial: State, output: Json) returns (state: State)
    ensures state == ApplyEntries(wf, initial, Entries(output))
  {
    state := initial;
    var entries := Entries(output);
    for k := 0 to |entries|
      invariant state == ApplyEntries(wf, initial, entries[..k])
    {
      assert entries[..k + 1][..k] == entries[..k];
      state := ApplyReducer(wf, state, entries[k].0, entries[k].1);
    }
    assert entries[..|entries|] == entries;
  }

  // ── Execution ───────────────────────────────────────────────────

  /** What running a node yields: an output, or the text of its error. The step number makes it arbitrary over time. */
  type Oracle = (nat, Node, State) -> Result<Json, string>

  datatype NodeResult = NodeResult(nodeId: string, output: Json, error: Option<string>)

  datatype Snapshot = Snapshot(nodeId: string, state: State, iteration: nat)

  datatype Execution = Execution(
    state: State, executed: seq<NodeResult>, snapshots: seq<Snapshot>, iterations: nat)

  /** One executed node: its result, the state as checkpointed, and the state routing then looks at. */
  datatype Step = Step(node: string, result: NodeResult, saved: State, routed: State)

  function MarkBefore(wf: Workflow, id: string, state: State): State {
    if wf.interrupts.Some? && id in wf.interrupts.value.before then state[INTERRUPT_BEFORE := String(id)] else state
  }

  function MarkAfter(wf: Workflow, id: string, state: State): State {
    if wf.interrupts.Some? && id in wf.interrupts.value.after then state[INTERRUPT_AFTER := String(id)] else state
  }

  function ResultOf(id: string, outcome: Result<Json, string>): NodeResult {
    match outcome
    case Ok(output) => NodeResult(id, output, None)
    case Err(e) => NodeResult(id, Object([("error", String(e))]), Some(e))
  }

  function RunNode(wf: Workflow, oracle: Oracle, i: nat, node: Node, state: State): Step {
    var marked := MarkBefore(wf, node.id, state);
    var outcome := oracle(i, node, marked);
    var saved := if outcome.Ok? then ApplyEntries(wf, marked, Entries(outcome.value)) else marked;
    Step(node.id, ResultOf(node.id, outcome), saved, MarkAfter(wf, node.id, saved))
  }

  /** The node due after the first `i` steps. */
  function Due(wf: Workflow, lib: Numerals, steps: seq<Step>, i: nat): Option<string>
    requires i <= |steps|
  {
    if i > 0 then ResolveNext(wf, lib, steps[i - 1].node, steps[i - 1].routed)
    else if wf.nodes == [] then None
    else Some(wf.nodes[0].id)
  }

  /** The state the engine holds after the first `i` steps. */
  function StateAt(init: State, steps: seq<Step>, i: nat): State
    requires i <= |steps|
  {
    if i == 0 then init else steps[i - 1].routed
  }

  predicate IsStep(wf: Workflow, lib: Numerals, oracle: Oracle, init: State, steps: seq<Step>, i: nat)
    requires i < |steps|
  {
    var due := Due(wf, lib, steps, i);
    && due.Some? && FindNode(wf.nodes, due.value).Some?
    && steps[i] == RunNode(wf, oracle, i, FindNode(wf.nodes, due.value).value, StateAt(init, steps, i))
  }

  /** `steps` is a run of the workflow from `init`: each node due is run on the state left by the one before. */
  ghost predicate IsRun(wf: Workflow, lib: Numerals, oracle: Oracle, init: State, steps: seq<Step>) {
    forall i :: 0 <= i < |steps| ==> IsStep(wf, lib, oracle, init, steps, i)
  }

  function Results(steps: seq<Step>): seq<NodeResult> {
    seq(|steps|, i requires 0 <= i < |steps| => steps[i].result)
  }

  function Snapshots(steps: seq<Step>): seq<Snapshot> {
    seq(|steps|, i requires 0 <= i < |steps| => Snapshot(steps[i].node, steps[i].saved, i))
  }

  /** The run `steps` ends with outcome `r`. */
  ghost predicate Produces(
    wf: Workflow, lib: Numerals, oracle: Oracle, init: State, steps: seq<Step>, r: Result<Execution, Error>)
  {
    var n := |steps|;
    var due := Due(wf, lib, steps, n);
    && IsRun(wf, lib, oracle, init, steps)
    && n <= wf.maxIterations
    && match r
       case Ok(e) =>
         && due.None?
         && e == Execution(StateAt(init, steps, n), Results(steps),
                           if wf.checkpoint.Some? then Snapshots(steps) else [], n)
       case Err(MaxIterationsReached(max, last)) => n == max == wf.maxIterations && due == Some(last)
       case Err(NodeNotFound(id)) => n < wf.maxIterations && due == Some(id) && !HasNode(wf.nodes, id)
       case Err(_) => false
  }

  /** Adding a step to a run leaves the earlier ones steps of the longer run. */
  lemma RunExtends(wf: Workflow, lib: Numerals, oracle: Oracle, init: State, steps: seq<Step>, step: Step)
    requires IsRun(wf, lib, oracle, init, steps)
    requires IsStep(wf, lib, oracle, init, steps + [step], |steps|)
    ensures IsRun(wf, lib, oracle, init, steps + [step])
  {
    forall i | 0 <= i < |steps| ensures IsStep(wf, lib, oracle, init, steps + [step], i) {
      assert IsStep(wf, lib, oracle, init, steps, i);
    }
  }

  /** The loop body up to routing: interrupt marks, the node itself, reducers. */
  method ExecuteNode(wf: Workflow, oracle: Oracle, iteration: nat, node: Node, entered: State)
    returns (result: NodeResult, saved: State, state: State)
    ensures Step(node.id, result, saved, state) == RunNode(wf, oracle, iteration, node, entered)
  {
    state := entered;
    if wf.interrupts.Some? && node.id in wf.interrupts.value.before {
      state := state[INTERRUPT_BEFORE := String(node.id)];
    }
    match oracle(iteration, node, state) {
      case Ok(output) =>
        state := MergeOutput(wf, state, output);
        result := NodeResult(node.id, output, None);
      case Err(e) =>
        result := NodeResult(node.id, Object([("error", String(e))]), Some(e));
    }
    saved := state;
    if wf.interrupts.Some? && node.id in wf.interrupts.value.after {
      state := state[INTERRUPT_AFTER := String(node.id)];
    }
  }

  /** The execution loop. */
  method Execute(wf: Workflow, lib: Numerals, oracle: Oracle, initial: State)
    returns (r: Result<Execution, Error>)
    ensures exists steps :: Produces(wf, lib, oracle, initial, steps, r)
  {
    var state, iteration := initial, 0;
    var executed: seq<NodeResult>, snapshots: seq<Snapshot> := [], [];
    var current: Option<string> := if wf.nodes == [] then None else Some(wf.nodes[0].id);
    ghost var steps: seq<Step> := [];
    while current.Some?
      invariant IsRun(wf, lib, oracle, initial, steps)
      invariant |steps| == iteration <= wf.maxIterations
      invariant current == Due(wf, lib, steps, iteration)
      invariant state == StateAt(initial, steps, iteration)
      invariant executed == Results(steps)
      invariant snapshots == if wf.checkpoint.Some? then Snapshots(steps) else []
      decreases wf.maxIterations - iteration
    {
      if iteration >= wf.maxIterations {
        r := Err(MaxIterationsReached(wf.maxIterations, current.value));
        assert Produces(wf, lib, oracle, initial, steps, r);
        return;
      }
      var found := FindNode(wf.nodes, current.value);
      if found.None? {
        r := Err(NodeNotFound(current.value));
        assert Produces(wf, lib, oracle, initial, steps, r);
        return;
      }
      var node := found.value;
      var result, saved, next := ExecuteNode(wf, oracle, iteration, node, state);
      executed := executed + [result];
      if wf.checkpoint.Some? {
        snapshots := snapshots + [Snapshot(node.id, saved, iteration)];
      }
      ghost var step := Step(node.id, result, saved, next);
      RunExtends(wf, lib, oracle, initial, steps, step);
      steps := steps + [step];
      state := next;
      current := ResolveNext(wf, lib, node.id, state);
      iteration := iteration + 1;
    }
    r := Ok(Execution(state, executed, snapshots, iteration));
    assert Produces(wf, lib, oracle, initial, steps, r);
  }

  /** Two runs on the same inputs agree step by step. */
  lemma {:induction false} RunsAgree(
    wf: Workflow, lib: Numerals, oracle: Oracle, init: State, a: seq<Step>, b: seq<Step>, n: nat)
    requires IsRun(wf, lib, oracle, init, a) && IsRun(wf, lib, oracle, init, b)
    requires n <= |a| && n <= |b|
    ensures a[..n] == b[..n]
  {
    if n > 0 {
      RunsAgree(wf, lib, oracle, init, a, b, n - 1);
      assert IsStep(wf, lib, oracle, init, a, n - 1) && IsStep(wf, lib, oracle, init, b, n - 1);
    }
  }

  /** The reference definition leaves no freedom: a workflow, an oracle and a state fix steps and outcome. */
  lemma OutcomeUnique(
    wf: Workflow, lib: Numerals, oracle: Oracle, init: State,
    a: seq<Step>, b: seq<Step>, ra: Result<Execution, Error>, rb: Result<Execution, Error>)
    requires Produces(wf, lib, oracle, init, a, ra) && Produces(wf, lib, oracle, init, b, rb)
    ensures a == b && ra == rb
  {
    var n := if |a| <= |b| then |a| else |b|;
    RunsAgree(wf, lib, oracle, init, a, b, n);
    if n < |b| { Continues(wf, lib, oracle, init, b, n); }
    if n < |a| { Continues(wf, lib, oracle, init, a, n); }
    assert a == a[..n] && b == b[..n];
  }

  lemma Continues(wf: Workflow, lib: Numerals, oracle: Oracle, init: State, steps: seq<Step>, n: nat)
    requires IsRun(wf, lib, oracle, init, steps) && n < |steps|
    ensures Due(wf, lib, steps, n).Some? && HasNode(wf.nodes, Due(wf, lib, steps, n).value)
  {
    assert IsStep(wf, lib, oracle, init, steps, n);
  }
}

