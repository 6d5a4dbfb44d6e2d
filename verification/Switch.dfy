/** The switch action, and how it relates to routing over edges. */
module Switch {
  import opened Wrappers
  import opened JsonValues
  import opened Conditions
  import opened GraphWorkflow
  import opened WorkflowFolds

  function Member(v: Json, key: string): Json {
    if v.Object? then Lookup(v.fields, key) else Null
  }

  function StringOr(v: Json, default: string): string {
    if v.String? then v.s else default
  }

  function StateOf(fields: seq<(string, Json)>): State {
    if fields == [] then map[]
    else StateOf(fields[..|fields| - 1])[fields[|fields| - 1].0 := fields[|fields| - 1].1]
  }

  function Expression(cond: Json): string { StringOr(Member(cond, "expression"), "") }

  function Branch(cond: Json): string { StringOr(Member(cond, "branch"), "") }

  function Reply(branch: string, expression: string): Json {
    Object([("action", String("switch")), ("matched_branch", String(branch)), ("expression", String(expression))])
  }

  function FirstBranch(lib: Numerals, conditions: seq<Json>, default: string, state: State): Json {
    if conditions == [] then Reply(default, "default")
    else if EvaluateCondition(lib, Expression(conditions[0]), state) then
      Reply(Branch(conditions[0]), Expression(conditions[0]))
    else FirstBranch(lib, conditions[1..], default, state)
  }

  function ConditionsOf(params: Json): seq<Json> {
    var v := Member(params, "conditions");
    if v.Array? then v.items else []
  }

  function DefaultOf(params: Json): string { StringOr(Member(params, "default"), "default") }

  function SwitchState(params: Json): State {
    var v := Member(params, "state");
    if v.Object? then StateOf(v.fields) else map[]
  }

  function ExecuteSwitch(lib: Numerals, params: Json): Json {
    FirstBranch(lib, ConditionsOf(params), DefaultOf(params), SwitchState(params))
  }

  lemma {:induction false} FirstBranchAt(lib: Numerals, conds: seq<Json>, default: string, state: State, i: nat)
    requires i <= |conds|
    requires forall j :: 0 <= j < i ==> !EvaluateCondition(lib, Expression(conds[j]), state)
    requires i < |conds| ==> EvaluateCondition(lib, Expression(conds[i]), state)
    ensures FirstBranch(lib, conds, default, state)
            == Object([("action", String("switch")),
                       ("matched_branch", String(if i < |conds| then Branch(conds[i]) else default)),
                       ("expression", String(if i < |conds| then Expression(conds[i]) else "default"))])
  {
    if i > 0 {
      FirstBranchAt(lib, conds[1..], default, state, i - 1);
    }
  }

  predicate DistinctFields(v: Json) {
    v.Object? ==> forall i, j :: 0 <= i < j < |v.fields| ==> v.fields[i].0 != v.fields[j].0
  }

  /** `t` is the string under `key`, or the default if there is none. */
  ghost predicate TextUnder(v: Json, key: string, default: string, t: string) {
    if v.Object? && exists x :: (key, String(x)) in v.fields then (key, String(t)) in v.fields else t == default
  }

  /** `items` is the array under `key`, or nothing if there is none. */
  ghost predicate ItemsUnder(v: Json, key: string, items: seq<Json>) {
    if v.Object? && exists x :: (key, Array(x)) in v.fields then (key, Array(items)) in v.fields else items == []
  }

  /** `state` holds the entries of the object under `key`, or nothing if there is none. */
  ghost predicate StateUnder(v: Json, key: string, state: State) {
    if v.Object? && exists x :: (key, Object(x)) in v.fields then
      exists x :: (key, Object(x)) in v.fields && HoldsEntries(state, x)
    else state == map[]
  }

  lemma MemberIs(v: Json, key: string, x: Json)
    requires DistinctFields(v) && v.Object? && (key, x) in v.fields
    ensures Member(v, key) == x
  {
    var i :| 0 <= i < |v.fields| && v.fields[i] == (key, x);
    assert v.fields[i].0 == key;
    assert (key, Member(v, key)) in v.fields;
    var j :| 0 <= j < |v.fields| && v.fields[j] == (key, Member(v, key));
    assert v.fields[j].0 == key;
  }

  lemma MemberKnown(v: Json, key: string)
    requires v.Object? && Member(v, key) != Null
    ensures (key, Member(v, key)) in v.fields
  {
  }

  lemma TextIsUnder(v: Json, key: string, default: string, t: string)
    requires DistinctFields(v) && TextUnder(v, key, default, t)
    ensures StringOr(Member(v, key), default) == t
  {
    if v.Object? && exists x :: (key, String(x)) in v.fields {
      MemberIs(v, key, String(t));
    } else if v.Object? && Member(v, key).String? {
      MemberKnown(v, key);
    }
  }

  lemma {:induction false} StateOfEntries(fields: seq<(string, Json)>, k: string, y: Json)
    requires DistinctFields(Object(fields))
    ensures (k, y) in fields <==> Get(StateOf(fields), k) == Some(y)
  {
    if fields != [] {
      var m := |fields| - 1;
      StateOfEntries(fields[..m], k, y);
      assert fields == fields[..m] + [fields[m]];
      if (k, y) in fields[..m] {
        var i :| 0 <= i < m && fields[i] == (k, y);
        assert fields[i].0 != fields[m].0;
      }
    }
  }

  ghost predicate HoldsEntries(state: State, fields: seq<(string, Json)>) {
    DistinctFields(Object(fields)) && forall k, y :: (k, y) in fields <==> Get(state, k) == Some(y)
  }

  lemma EntriesAre(fields: seq<(string, Json)>, state: State)
    requires HoldsEntries(state, fields)
    ensures StateOf(fields) == state
  {
    forall k ensures Get(StateOf(fields), k) == Get(state, k) {
      if k in StateOf(fields) { StateOfEntries(fields, k, StateOf(fields)[k]); }
      if k in state { StateOfEntries(fields, k, state[k]); }
    }
    SameGets(StateOf(fields), state);
  }

  lemma SwitchStateIs(params: Json, state: State)
    requires DistinctFields(params) && StateUnder(params, "state", state)
    ensures SwitchState(params) == state
  {
    if params.Object? && exists x :: ("state", Object(x)) in params.fields {
      var x :| ("state", Object(x)) in params.fields && HoldsEntries(state, x);
      MemberIs(params, "state", Object(x));
      EntriesAre(x, state);
    } else if params.Object? && Member(params, "state").Object? {
      MemberKnown(params, "state");
    }
  }

  lemma ConditionsAre(params: Json, conds: seq<Json>)
    requires DistinctFields(params) && ItemsUnder(params, "conditions", conds)
    ensures ConditionsOf(params) == conds
  {
    if params.Object? && exists x :: ("conditions", Array(x)) in params.fields {
      MemberIs(params, "conditions", Array(conds));
    } else if params.Object? && Member(params, "conditions").Array? {
      MemberKnown(params, "conditions");
    }
  }

  /**
   * A switch reports the first of its conditions whose expression holds on its state, with that
   * branch, or else the default branch; what the parameters do not give is empty, and the default
   * branch is then called "default".
   */
  lemma SwitchReportsFirst(
    lib: Numerals, params: Json, conds: seq<Json>, exprs: seq<string>, branches: seq<string>, default: string,
    state: State, i: nat)
    requires DistinctFields(params) && ItemsUnder(params, "conditions", conds)
    requires TextUnder(params, "default", "default", default) && StateUnder(params, "state", state)
    requires i <= |conds| == |exprs| == |branches|
    requires forall j :: 0 <= j < |conds| ==>
               && DistinctFields(conds[j])
               && TextUnder(conds[j], "expression", "", exprs[j]) && TextUnder(conds[j], "branch", "", branches[j])
    requires forall j :: 0 <= j < i ==> !EvaluateCondition(lib, exprs[j], state)
    requires i < |conds| ==> EvaluateCondition(lib, exprs[i], state)
    ensures ExecuteSwitch(lib, params)
            == Object([("action", String("switch")),
                       ("matched_branch", String(if i < |conds| then branches[i] else default)),
                       ("expression", String(if i < |conds| then exprs[i] else "default"))])
  {
    ConditionsAre(params, conds);
    SwitchStateIs(params, state);
    TextIsUnder(params, "default", "default", default);
    forall j | 0 <= j < |conds| ensures Expression(conds[j]) == exprs[j] && Branch(conds[j]) == branches[j] {
      TextIsUnder(conds[j], "expression", "", exprs[j]);
      TextIsUnder(conds[j], "branch", "", branches[j]);
    }
    FirstBranchAt(lib, conds, default, state, i);
  }

  /** One edge per condition, in the same order. */
  function EdgesFor(node: string, conditions: seq<Json>): seq<Edge> {
    if conditions == [] then []
    else [Edge(node, Branch(conditions[0]), Some(Expression(conditions[0])))] + EdgesFor(node, conditions[1..])
  }

  /** An unconditional edge never fires, so it may stand anywhere among the conditional ones. */
  lemma {:induction false} FiringSkipsFree(lib: Numerals, a: seq<Edge>, free: Edge, b: seq<Edge>, state: State)
    requires free.condition.None?
    ensures FirstFiring(lib, a + [free] + b, state) == FirstFiring(lib, a + b, state)
  {
    if a == [] {
      assert a + b == b && (a + [free] + b)[1..] == b;
    } else {
      FiringSkipsFree(lib, a[1..], free, b, state);
      assert (a + [free] + b)[1..] == a[1..] + [free] + b && (a + b)[1..] == a[1..] + b;
    }
  }

  lemma {:induction false} FreeIsFound(a: seq<Edge>, free: Edge, b: seq<Edge>)
    requires free.condition.None? && forall i :: 0 <= i < |a| ==> a[i].condition.Some?
    ensures FirstUnconditional(a + [free] + b) == Some(free.to)
  {
    if a != [] {
      FreeIsFound(a[1..], free, b);
      assert (a + [free] + b)[1..] == a[1..] + [free] + b;
    }
  }

  lemma {:induction false} EdgesForShape(node: string, conds: seq<Json>)
    ensures |EdgesFor(node, conds)| == |conds|
    ensures forall i :: 0 <= i < |conds| ==> EdgesFor(node, conds)[i].condition.Some?
  {
    if conds != [] {
      EdgesForShape(node, conds[1..]);
    }
  }

  lemma {:induction false} FiringIsBranch(
    lib: Numerals, node: string, conds: seq<Json>, default: string, state: State)
    ensures var fired := FirstFiring(lib, EdgesFor(node, conds), state);
            Member(FirstBranch(lib, conds, default, state), "matched_branch")
            == String(if fired.Some? then fired.value else default)
  {
    if conds == [] {
      BranchOfReply(default, "default");
    } else {
      BranchOfReply(Branch(conds[0]), Expression(conds[0]));
      FiringIsBranch(lib, node, conds[1..], default, state);
    }
  }

  lemma BranchOfReply(branch: string, expression: string)
    ensures Member(Reply(branch, expression), "matched_branch") == String(branch)
  {
    var f := Reply(branch, expression).fields;
    assert f[1..][0] == ("matched_branch", String(branch));
  }

  /**
   * A switch picks the node that routing picks from the same ordered conditions and one
   * unconditional edge to the default, wherever among them that edge stands.
   */
  lemma SwitchAgreesWithRouting(wf: Workflow, lib: Numerals, node: string, params: Json, p: nat)
    requires p <= |EdgesFor(node, ConditionsOf(params))|
    requires var es := EdgesFor(node, ConditionsOf(params));
             OutgoingEdges(wf.edges, node) == es[..p] + [Edge(node, DefaultOf(params), None)] + es[p..]
    ensures exists target ::
              && ResolveNext(wf, lib, node, SwitchState(params)) == Some(target)
              && Member(ExecuteSwitch(lib, params), "matched_branch") == String(target)
  {
    var conds, state := ConditionsOf(params), SwitchState(params);
    var es, free := EdgesFor(node, conds), Edge(node, DefaultOf(params), None);
    EdgesForShape(node, conds);
    FiringSkipsFree(lib, es[..p], free, es[p..], state);
    assert es[..p] + es[p..] == es;
    FreeIsFound(es[..p], free, es[p..]);
    FiringIsBranch(lib, node, conds, DefaultOf(params), state);
  }

  /** A node with the edge pair `k == v` and `k != v` always has somewhere to go, if the pair is complementary. */
  lemma EqualityPairRoutes(
    wf: Workflow, lib: Numerals, node: string, k: string, v: string, i: nat, j: nat, state: State)
    requires i < |wf.edges| && j < |wf.edges|
    requires wf.edges[i].from == node && wf.edges[i].condition == Some(Compare(k, EQ, v))
    requires wf.edges[j].from == node && wf.edges[j].condition == Some(Compare(k, NE, v))
    requires Complementary(lib, k, v)
    ensures ResolveNext(wf, lib, node, state).Some?
  {
    ResolveNextFollowsRule(wf, lib, node, state);
    assert FiresAt(wf, lib, node, state, i) || FiresAt(wf, lib, node, state, j);
  }
}

