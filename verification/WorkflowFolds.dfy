/** What a key of the workflow state holds after a whole run, as a fold over the nodes' contributions. */
module WorkflowFolds {
  import opened Wrappers
  import opened JsonValues
  import opened Conditions
  import opened GraphWorkflow

  /** The values a list of output entries carries for `key`, in order. */
  function ValuesFor(key: string, entries: seq<(string, Json)>): seq<Json>
    decreases |entries|
  {
    if entries == [] then []
    else
      var last := entries[|entries| - 1];
      ValuesFor(key, entries[..|entries| - 1]) + if last.0 == key then [last.1] else []
  }

  /** Merging values into a key one after the other. */
  function Fold(reducer: Reducer, start: Option<Json>, values: seq<Json>): Option<Json>
    decreases |values|
  {
    if values == [] then start
    else Some(Merge(reducer, Fold(reducer, start, values[..|values| - 1]), values[|values| - 1]))
  }

  /** Contributions of a run to `key`: the values in the outputs of the nodes that succeeded, in execution order. */
  function Contributions(key: string, steps: seq<Step>): seq<Json>
    decreases |steps|
  {
    if steps == [] then []
    else
      var last := steps[|steps| - 1].result;
      Contributions(key, steps[..|steps| - 1])
      + if last.error.None? && last.output.Object? then ValuesFor(key, last.output.fields) else []
  }

  lemma {:induction false} FoldAppend(reducer: Reducer, start: Option<Json>, a: seq<Json>, b: seq<Json>)
    ensures Fold(reducer, start, a + b) == Fold(reducer, Fold(reducer, start, a), b)
    decreases |b|
  {
    if b == [] {
      assert a + b == a;
    } else {
      var m := |b| - 1;
      FoldAppend(reducer, start, a, b[..m]);
      assert (a + b)[..|a + b| - 1] == a + b[..m];
    }
  }

  /** One node's output changes each key by its own values only. */
  lemma {:induction false} EntriesFold(wf: Workflow, state: State, entries: seq<(string, Json)>, key: string)
    ensures Get(ApplyEntries(wf, state, entries), key)
            == Fold(ReducerFor(wf, key), Get(state, key), ValuesFor(key, entries))
    decreases |entries|
  {
    if entries != [] {
      var m := |entries| - 1;
      EntriesFold(wf, state, entries[..m], key);
      if entries[m].0 == key {
      } else {
        assert ValuesFor(key, entries) == ValuesFor(key, entries[..m]);
      }
    }
  }

  /** Keys other than the two interrupt markers end a run as the fold of the run's contributions. */
  lemma {:induction false} RunFold(
    wf: Workflow, lib: Numerals, oracle: Oracle, init: State, steps: seq<Step>, key: string)
    requires IsRun(wf, lib, oracle, init, steps)
    requires key != INTERRUPT_BEFORE && key != INTERRUPT_AFTER
    ensures Get(StateAt(init, steps, |steps|), key)
            == Fold(ReducerFor(wf, key), Get(init, key), Contributions(key, steps))
    decreases |steps|
  {
    if steps != [] {
      var m := |steps| - 1;
      var prior, last := steps[..m], steps[m];
      RunPrefix(wf, lib, oracle, init, steps, m);
      RunFold(wf, lib, oracle, init, prior, key);
      assert IsStep(wf, lib, oracle, init, steps, m);
      StepFold(wf, oracle, m, FindNode(wf.nodes, Due(wf, lib, steps, m).value).value, StateAt(init, steps, m), key);
      var more := if last.result.error.None? then ValuesFor(key, Entries(last.result.output)) else [];
      FoldAppend(ReducerFor(wf, key), Get(init, key), Contributions(key, prior), more);
    }
  }

  lemma RunPrefix(wf: Workflow, lib: Numerals, oracle: Oracle, init: State, steps: seq<Step>, m: nat)
    requires IsRun(wf, lib, oracle, init, steps) && m <= |steps|
    ensures IsRun(wf, lib, oracle, init, steps[..m])
  {
    forall i | 0 <= i < m ensures IsStep(wf, lib, oracle, init, steps[..m], i) {
      assert IsStep(wf, lib, oracle, init, steps, i);
    }
  }

  lemma StepFold(wf: Workflow, oracle: Oracle, i: nat, node: Node, state: State, key: string)
    requires key != INTERRUPT_BEFORE && key != INTERRUPT_AFTER
    ensures var step := RunNode(wf, oracle, i, node, state);
            Get(step.routed, key)
            == Fold(ReducerFor(wf, key), Get(state, key),
                    if step.result.error.None? then ValuesFor(key, Entries(step.result.output)) else [])
  {
    var marked := MarkBefore(wf, node.id, state);
    var outcome := oracle(i, node, marked);
    if outcome.Ok? {
      EntriesFold(wf, marked, Entries(outcome.value), key);
    }
  }

  // ── Closed forms ────────────────────────────────────────────────

  /** The number a value stands for in a sum; anything else counts as nothing. */
  function Amount(v: Json): real {
    match v
    case Number(Int(i)) => i as real
    case Number(Float(f)) => f
    case _ => 0.0
  }

  function Initial(start: Option<Json>): real { if start.Some? then Amount(start.value) else 0.0 }

  function Total(values: seq<Json>): real
    decreases |values|
  {
    if values == [] then 0.0 else Total(values[..|values| - 1]) + Amount(values[|values| - 1])
  }

  /** Contributed lists spliced in, other values one by one. */
  function Spliced(values: seq<Json>): seq<Json>
    decreases |values|
  {
    if values == [] then []
    else
      var last := values[|values| - 1];
      Spliced(values[..|values| - 1]) + if last.Array? then last.items else [last]
  }

  lemma {:induction false} SumClosedForm(start: Option<Json>, values: seq<Json>)
    requires values != []
    ensures Fold(Sum, start, values) == Some(Number(Float(Initial(start) + Total(values))))
    decreases |values|
  {
    var m := |values| - 1;
    if m > 0 {
      SumClosedForm(start, values[..m]);
    }
  }

  lemma {:induction false} AppendOntoList(items: seq<Json>, values: seq<Json>)
    ensures Fold(Append, Some(Array(items)), values) == Some(Array(items + Spliced(values)))
    decreases |values|
  {
    if values == [] {
      assert items + [] == items;
    } else {
      var m := |values| - 1;
      AppendOntoList(items, values[..m]);
      assert items + Spliced(values) == items + Spliced(values[..m]) + Items(values[m]);
    }
  }

  lemma AppendOntoNothing(values: seq<Json>)
    requires values != []
    ensures Fold(Append, None, values) == Some(Array(Spliced(values)))
  {
    var m := |values| - 1;
    if m > 0 {
      AppendOntoNothing(values[..m]);
    } else {
      assert values[..0] == [] && [] + Items(values[0]) == Items(values[0]);
    }
  }

  lemma AppendOntoOther(v: Json, values: seq<Json>)
    requires values != [] && !v.Array?
    ensures Fold(Append, Some(v), values) == Some(Array([v, values[0]] + Spliced(values[1..])))
  {
    var first, rest := [values[0]], values[1..];
    assert values == first + rest;
    FoldAppend(Append, Some(v), first, rest);
    assert first[..0] == [];
    assert Fold(Append, Some(v), first) == Some(Array([v, values[0]]));
    AppendOntoList([v, values[0]], rest);
  }

  /** The first value decides how an absent or non-list key becomes a list; the rest is spliced. */
  lemma AppendClosedForm(start: Option<Json>, values: seq<Json>)
    requires values != []
    ensures start.None? ==> Fold(Append, start, values) == Some(Array(Spliced(values)))
    ensures start.Some? && start.value.Array? ==>
              Fold(Append, start, values) == Some(Array(start.value.items + Spliced(values)))
    ensures start.Some? && !start.value.Array? ==>
              Fold(Append, start, values) == Some(Array([start.value, values[0]] + Spliced(values[1..])))
  {
    if start.None? {
      AppendOntoNothing(values);
    } else if start.value.Array? {
      AppendOntoList(start.value.items, values);
    } else {
      AppendOntoOther(start.value, values);
    }
  }

  /** The list that appending values makes of what a key held. */
  function Appended(start: Option<Json>, values: seq<Json>): Json
    requires values != []
  {
    if start.None? then Array(Spliced(values))
    else if start.value.Array? then Array(start.value.items + Spliced(values))
    else Array([start.value, values[0]] + Spliced(values[1..]))
  }

  /** What the configuration makes of values merged into a key, one after the other. */
  ghost predicate Reduced(wf: Workflow, key: string, start: Option<Json>, values: seq<Json>, final: Option<Json>) {
    && (values == [] ==> final == start)
    && (values != [] ==>
          && (key in wf.reducers && wf.reducers[key] == Sum ==>
                final == Some(Number(Float(Initial(start) + Total(values)))))
          && (key in wf.reducers && wf.reducers[key] == Append ==> final == Some(Appended(start, values)))
          && (key !in wf.reducers || wf.reducers[key] == Overwrite || wf.reducers[key].Custom? ==>
                final == Some(values[|values| - 1])))
  }

  lemma FoldIsReduced(wf: Workflow, key: string, start: Option<Json>, values: seq<Json>)
    ensures Reduced(wf, key, start, values, Fold(ReducerFor(wf, key), start, values))
  {
    if values != [] {
      SumClosedForm(start, values);
      AppendClosedForm(start, values);
    }
  }

  /**
   * Over a whole run each key but the two interrupt markers ends as its configured reducer says: a
   * sum, a list, or without one the last value.
   */
  lemma RunReducers(
    wf: Workflow, lib: Numerals, oracle: Oracle, init: State, steps: seq<Step>, key: string)
    requires IsRun(wf, lib, oracle, init, steps)
    requires key != "__interrupt_before" && key != "__interrupt_after"
    ensures Reduced(wf, key, Get(init, key), Contributions(key, steps), Get(StateAt(init, steps, |steps|), key))
  {
    RunFold(wf, lib, oracle, init, steps, key);
    FoldIsReduced(wf, key, Get(init, key), Contributions(key, steps));
  }

  /** The values that one outcome contributes to a key. */
  function Contributed(key: string, outcome: Result<Json, string>): seq<Json> {
    if outcome.Ok? && outcome.value.Object? then ValuesFor(key, outcome.value.fields) else []
  }

  /**
   * Step `i` of a run: the first node, or the one the routing rule names, runs on the state left by
   * the step before, with its id under the before-marker if it is listed there. Its output, or its
   * error, is the result recorded; an output is reduced into that state key by key, and an error
   * changes nothing. Routing then sees its id under the after-marker if it is listed there.
   */
  lemma StepMeans(wf: Workflow, lib: Numerals, oracle: Oracle, init: State, steps: seq<Step>, i: nat)
    returns (node: Node, seen: State)
    requires IsRun(wf, lib, oracle, init, steps) && i < |steps|
    ensures node in wf.nodes && node.id == steps[i].node
    ensures if i == 0 then node.id == wf.nodes[0].id
            else exists e: nat :: Follows(wf, lib, steps[i - 1].node, steps[i - 1].routed, e) && wf.edges[e].to == node.id
    ensures seen == var entered := if i == 0 then init else steps[i - 1].routed;
                    if wf.interrupts.Some? && node.id in wf.interrupts.value.before
                    then entered["__interrupt_before" := String(node.id)] else entered
    ensures steps[i].result == match oracle(i, node, seen)
                               case Ok(output) => NodeResult(node.id, output, None)
                               case Err(e) => NodeResult(node.id, Object([("error", String(e))]), Some(e))
    ensures forall key ::
              Reduced(wf, key, Get(seen, key), Contributed(key, oracle(i, node, seen)), Get(steps[i].saved, key))
    ensures steps[i].routed == if wf.interrupts.Some? && node.id in wf.interrupts.value.after
                               then steps[i].saved["__interrupt_after" := String(node.id)] else steps[i].saved
  {
    assert IsStep(wf, lib, oracle, init, steps, i);
    node := FindNode(wf.nodes, Due(wf, lib, steps, i).value).value;
    if i > 0 {
      ResolveNextFollowsRule(wf, lib, steps[i - 1].node, steps[i - 1].routed);
    }
    seen := MarkBefore(wf, node.id, StateAt(init, steps, i));
    var outcome := oracle(i, node, seen);
    forall key ensures Reduced(wf, key, Get(seen, key), Contributed(key, outcome), Get(steps[i].saved, key)) {
      FoldIsReduced(wf, key, Get(seen, key), Contributed(key, outcome));
      if outcome.Ok? {
        EntriesFold(wf, seen, Entries(outcome.value), key);
      }
    }
  }

  // ── Order of one node's output keys ─────────────────────────────

  ghost predicate DistinctKeys(entries: seq<(string, Json)>) {
    forall i, j :: 0 <= i < j < |entries| ==> entries[i].0 != entries[j].0
  }

  lemma {:induction false} SingleValue(key: string, entries: seq<(string, Json)>)
    requires DistinctKeys(entries)
    ensures forall i :: 0 <= i < |entries| && entries[i].0 == key ==> ValuesFor(key, entries) == [entries[i].1]
    ensures (forall i :: 0 <= i < |entries| ==> entries[i].0 != key) ==> ValuesFor(key, entries) == []
    decreases |entries|
  {
    if entries != [] {
      SingleValue(key, entries[..|entries| - 1]);
    }
  }

  /** Entries with distinct keys may be merged in any order. */
  lemma OutputOrderIrrelevant(wf: Workflow, state: State, a: seq<(string, Json)>, b: seq<(string, Json)>)
    requires DistinctKeys(a) && DistinctKeys(b) && multiset(a) == multiset(b)
    ensures ApplyEntries(wf, state, a) == ApplyEntries(wf, state, b)
  {
    forall key ensures Get(ApplyEntries(wf, state, a), key) == Get(ApplyEntries(wf, state, b), key) {
      SameValues(a, b, key);
      EntriesFold(wf, state, a, key);
      EntriesFold(wf, state, b, key);
    }
    SameGets(ApplyEntries(wf, state, a), ApplyEntries(wf, state, b));
  }

  lemma SameValues(a: seq<(string, Json)>, b: seq<(string, Json)>, key: string)
    requires DistinctKeys(a) && DistinctKeys(b) && multiset(a) == multiset(b)
    ensures ValuesFor(key, a) == ValuesFor(key, b)
  {
    SingleValue(key, a);
    SingleValue(key, b);
    assert forall e :: e in a <==> e in multiset(a);
    assert forall e :: e in b <==> e in multiset(b);
    assert forall i :: 0 <= i < |a| ==> a[i] in b;
    assert forall i :: 0 <= i < |b| ==> b[i] in a;
  }

  lemma SameGets(a: State, b: State)
    requires forall key :: Get(a, key) == Get(b, key)
    ensures a == b
  {
    assert forall key :: key in a ==> a[key] == Get(a, key).value;
    assert forall key :: key in b ==> b[key] == Get(b, key).value;
  }
}

