/** Per-component health checks with one alert per failure streak and one recovery per alert, as values. */
module HealthChecks {
  import opened Wrappers

  datatype Status = Healthy | Degraded(failures: nat) | Unhealthy(failures: nat)

  datatype Component = Component(status: Status, failures: nat, alerted: bool)

  datatype Event = Alert(component: string, failures: nat) | Recovery(component: string)

  const NEW := Component(Healthy, 0, false)

  /** What one check does to a component, and whether it raises an event. */
  function Check(threshold: nat, name: string, c: Component, healthy: bool): (Component, Option<Event>) {
    if healthy then
      (Component(Healthy, 0, false), if c.alerted then Some(Recovery(name)) else None)
    else
      var failures := c.failures + 1;
      var status := if failures >= threshold then Unhealthy(failures) else Degraded(failures);
      if failures >= threshold && !c.alerted then (Component(status, failures, true), Some(Alert(name, failures)))
      else (Component(status, failures, c.alerted), None)
  }

  function Listed(e: Option<Event>): seq<Event> {
    match e
    case Some(x) => [x]
    case None => []
  }

  // ── One component ───────────────────────────────────────────────

  function After(threshold: nat, name: string, checks: seq<bool>): Component
    decreases |checks|
  {
    if checks == [] then NEW
    else Check(threshold, name, After(threshold, name, checks[..|checks| - 1]), checks[|checks| - 1]).0
  }

  /** The event the last check of a sequence raises. */
  function Raised(threshold: nat, name: string, checks: seq<bool>): Option<Event>
    requires checks != []
  {
    Check(threshold, name, After(threshold, name, checks[..|checks| - 1]), checks[|checks| - 1]).1
  }

  function Events(threshold: nat, name: string, checks: seq<bool>): seq<Event>
    decreases |checks|
  {
    if checks == [] then []
    else
      Events(threshold, name, checks[..|checks| - 1])
      + Listed(Raised(threshold, name, checks))
  }

  /** How many checks in a row have failed at the end. */
  function Streak(checks: seq<bool>): nat
    decreases |checks|
  {
    if checks == [] || checks[|checks| - 1] then 0 else Streak(checks[..|checks| - 1]) + 1
  }

  /** A threshold of zero still needs one failure. */
  function Needed(threshold: nat): nat { if threshold == 0 then 1 else threshold }

  /** The component's state is the trailing streak; Unhealthy and alerted both mean it has reached the threshold. */
  lemma {:induction false} StateIsStreak(threshold: nat, name: string, checks: seq<bool>)
    ensures var c := After(threshold, name, checks);
            && c.failures == Streak(checks)
            && (c.alerted <==> Streak(checks) >= Needed(threshold))
            && c.status == if Streak(checks) == 0 then Healthy
                           else if Streak(checks) >= Needed(threshold) then Unhealthy(Streak(checks))
                           else Degraded(Streak(checks))
    decreases |checks|
  {
    if checks != [] {
      StateIsStreak(threshold, name, checks[..|checks| - 1]);
    }
  }

  /** An alert is raised exactly when the streak reaches the threshold, a recovery exactly when it ends after that. */
  lemma RaisedExactly(threshold: nat, name: string, checks: seq<bool>)
    requires checks != []
    ensures var before := Streak(checks[..|checks| - 1]);
            Raised(threshold, name, checks)
            == if Streak(checks) == Needed(threshold) then Some(Alert(name, Needed(threshold)))
               else if checks[|checks| - 1] && before >= Needed(threshold) then Some(Recovery(name))
               else None
  {
    StateIsStreak(threshold, name, checks[..|checks| - 1]);
  }

  /** Alerts and recoveries take turns, an alert first. */
  predicate Alternates(events: seq<Event>) {
    forall i :: 0 <= i < |events| ==> (events[i].Alert? <==> i % 2 == 0)
  }

  lemma {:induction false} EventsAlternate(threshold: nat, name: string, checks: seq<bool>)
    ensures Alternates(Events(threshold, name, checks))
    ensures |Events(threshold, name, checks)| % 2 == 1 <==> Streak(checks) >= Needed(threshold)
    decreases |checks|
  {
    if checks != [] {
      EventsAlternate(threshold, name, checks[..|checks| - 1]);
      RaisedExactly(threshold, name, checks);
    }
  }

  // ── All components ──────────────────────────────────────────────

  datatype CheckResult = CheckResult(component: string, healthy: bool)

  datatype Monitor = Monitor(components: map<string, Component>, events: seq<Event>)

  const EMPTY := Monitor(map[], [])

  function Find(m: Monitor, name: string): Component {
    if name in m.components then m.components[name] else NEW
  }

  function Record(threshold: nat, m: Monitor, r: CheckResult): Monitor {
    var (c, e) := Check(threshold, r.component, Find(m, r.component), r.healthy);
    Monitor(m.components[r.component := c], m.events + Listed(e))
  }

  function RecordAll(threshold: nat, trace: seq<CheckResult>): Monitor
    decreases |trace|
  {
    if trace == [] then EMPTY else Record(threshold, RecordAll(threshold, trace[..|trace| - 1]), trace[|trace| - 1])
  }

  /** The checks of one component, in order. */
  function Own(trace: seq<CheckResult>, name: string): seq<bool>
    decreases |trace|
  {
    if trace == [] then []
    else
      var last := trace[|trace| - 1];
      Own(trace[..|trace| - 1], name) + if last.component == name then [last.healthy] else []
  }

  function OwnEvents(events: seq<Event>, name: string): seq<Event>
    decreases |events|
  {
    if events == [] then []
    else
      var last := events[|events| - 1];
      OwnEvents(events[..|events| - 1], name) + if last.component == name then [last] else []
  }

  /** In any interleaving, a component's state and events depend on its own checks only. */
  lemma {:induction false} ComponentsIndependent(threshold: nat, trace: seq<CheckResult>, name: string)
    ensures var m := RecordAll(threshold, trace);
            && Find(m, name) == After(threshold, name, Own(trace, name))
            && OwnEvents(m.events, name) == Events(threshold, name, Own(trace, name))
            && (name in m.components <==> Own(trace, name) != [])
    decreases |trace|
  {
    if trace != [] {
      var k := |trace| - 1;
      ComponentsIndependent(threshold, trace[..k], name);
      RecordOwn(threshold, RecordAll(threshold, trace[..k]), trace[k], name);
      if trace[k].component != name {
        assert Own(trace, name) == Own(trace[..k], name);
      }
    }
  }

  /** A recorded check reaches its own component only. */
  lemma RecordOwn(threshold: nat, m: Monitor, r: CheckResult, name: string)
    ensures var next := Record(threshold, m, r);
            var (c, e) := Check(threshold, name, Find(m, name), r.healthy);
            && Find(next, name) == (if r.component == name then c else Find(m, name))
            && OwnEvents(next.events, name)
               == OwnEvents(m.events, name) + (if r.component == name then Listed(e) else [])
  {
    var e := Check(threshold, r.component, Find(m, r.component), r.healthy).1;
    if e.None? {
      assert m.events + Listed(e) == m.events;
    }
  }

  /**
   * The whole-run statement: for every interleaving, each component's events alternate alert and
   * recovery, it is Unhealthy exactly while an alert is outstanding, and both follow from its streak.
   */
  lemma MonitorRun(threshold: nat, trace: seq<CheckResult>, name: string)
    ensures var m := RecordAll(threshold, trace);
            var own := Own(trace, name);
            && Alternates(OwnEvents(m.events, name))
            && (Find(m, name).status.Unhealthy? <==> Streak(own) >= Needed(threshold))
            && (Find(m, name).status.Unhealthy? <==> |OwnEvents(m.events, name)| % 2 == 1)
  {
    ComponentsIndependent(threshold, trace, name);
    StateIsStreak(threshold, name, Own(trace, name));
    EventsAlternate(threshold, name, Own(trace, name));
  }
}

/** The monitor object. */
module HealthMonitor {
  import opened Wrappers
  import opened HealthChecks

  class Monitor {
    var components: map<string, Component>
    const threshold: nat
    ghost var events: seq<Event>

    ghost function View(): HealthChecks.Monitor
      reads this
    {
      HealthChecks.Monitor(components, events)
    }

    constructor (threshold: nat)
      ensures View() == EMPTY && this.threshold == threshold
    {
      this.threshold := threshold;
      components, events := map[], [];
    }

    method RecordCheck(name: string, healthy: bool) returns (event: Option<Event>)
      modifies this
      ensures View() == Record(threshold, old(View()), CheckResult(name, healthy))
      ensures event == Check(threshold, name, Find(old(View()), name), healthy).1
    {
      var health := if name in components then components[name] else NEW;
      if healthy {
        var wasAlerted := health.alerted;
        health := Component(Healthy, 0, false);
        event := if wasAlerted then Some(Recovery(name)) else None;
      } else {
        var failures := health.failures + 1;
        health := health.(failures := failures);
        if failures >= threshold {
          health := health.(status := Unhealthy(failures));
        } else {
          health := health.(status := Degraded(failures));
        }
        if failures >= threshold && !health.alerted {
          health := health.(alerted := true);
          event := Some(Alert(name, failures));
        } else {
          event := None;
        }
      }
      components := components[name := health];
      events := events + Listed(event);
    }
  }
}

