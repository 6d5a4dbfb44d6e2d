/**
 * The agent registry, its files on disk and the proxy pool, as values; the lifecycle tools as
 * sequences of elementary steps; and what holds after every tool and after every crash.
 */
module AgentState {
  import opened Wrappers

  datatype Lifecycle = Created | Starting | Running | Stopping | Stopped | Error(message: string)

  datatype AgentConfig = AgentConfig(id: string, settings: string, allow: seq<string>, deny: seq<string>)

  datatype AgentRecord = AgentRecord(config: AgentConfig, state: Lifecycle)

  type Records = map<string, AgentRecord>

  /** Memory, the persisted files by agent id, and the ports of the proxied agents. */
  datatype Gateway = Gateway(agents: Records, disk: Records, pool: map<string, nat>)

  const SYSTEM := "system"
  const CONFIGURING := " during configure"

  predicate IsValidTransition(src: Lifecycle, dst: Lifecycle) {
    match (src, dst)
    case (Created, Starting) => true
    case (Starting, Running) => true
    case (Starting, Error(_)) => true
    case (Running, Stopping) => true
    case (Running, Error(_)) => true
    case (Stopping, Stopped) => true
    case (Stopped, Starting) => true
    case (Error(_), Starting) => true
    case _ => false
  }

  // ── Elementary steps ────────────────────────────────────────────

  /** One change to memory, disk or pool; `io` says whether the file operation in it succeeds. */
  datatype Act =
    | Create(config: AgentConfig, io: bool)
    | Transition(id: string, state: Lifecycle, io: bool)
    | Update(id: string, config: AgentConfig, io: bool)
    | DropMemory(id: string)
    | DropFile(id: string, io: bool)
    | PoolAdd(id: string, port: nat)
    | PoolRemove(id: string)

  /** Memory changes even when the file cannot be written. */
  function Store(g: Gateway, id: string, r: AgentRecord, io: bool): Gateway {
    g.(agents := g.agents[id := r], disk := if io then g.disk[id := r] else g.disk)
  }

  function Do(g: Gateway, act: Act): Gateway {
    match act
    case Create(config, io) =>
      if config.id in g.agents || !io then g else Store(g, config.id, AgentRecord(config, Created), true)
    case Transition(id, state, io) =>
      if id in g.agents && IsValidTransition(g.agents[id].state, state)
      then Store(g, id, g.agents[id].(state := state), io) else g
    case Update(id, config, io) =>
      if id in g.agents && config.id == id then Store(g, id, g.agents[id].(config := config), io) else g
    case DropMemory(id) => g.(agents := g.agents - {id})
    case DropFile(id, io) => if io then g.(disk := g.disk - {id}) else g
    case PoolAdd(id, port) => g.(pool := g.pool[id := port])
    case PoolRemove(id) => g.(pool := g.pool - {id})
  }

  function DoAll(g: Gateway, acts: seq<Act>): Gateway
    decreases |acts|
  {
    if acts == [] then g else DoAll(Do(g, acts[0]), acts[1..])
  }

  // ── The tools ───────────────────────────────────────────────────

  /** How building, spawning and waiting for an agent process turn out. */
  datatype Launch = BuildFailed(reason: string) | SpawnFailed(reason: string) | NotReady(reason: string) | Up(port: nat)

  datatype Op =
    | DoCreate(config: AgentConfig)
    | DoStart(id: string, launch: Launch)
    | DoStop(id: string)
    | DoConfigure(id: string, config: AgentConfig, launch: Launch)
    | DoDelete(id: string)
    | DoHealthFailure(id: string, reason: string)

  function LaunchActs(id: string, launch: Launch, note: string, io: bool): seq<Act> {
    match launch
    case BuildFailed(why) => [Transition(id, Error("build failed" + note + ": " + why), io)]
    case SpawnFailed(why) => [Transition(id, Error("spawn failed" + note + ": " + why), io)]
    case NotReady(why) => [PoolRemove(id), Transition(id, Error("readiness check failed" + note + ": " + why), io)]
    case Up(port) => [PoolAdd(id, port), Transition(id, Running, io)]
  }

  predicate CanEnter(g: Gateway, id: string, state: Lifecycle) {
    id in g.agents && IsValidTransition(g.agents[id].state, state)
  }

  function StartActs(g: Gateway, id: string, launch: Launch, io0: bool, io1: bool): seq<Act> {
    if !CanEnter(g, id, Starting) then []
    else [Transition(id, Starting, io0)] + if io0 then LaunchActs(id, launch, "", io1) else []
  }

  function StopActs(g: Gateway, id: string, io0: bool, io1: bool): seq<Act> {
    if !CanEnter(g, id, Stopping) then []
    else [Transition(id, Stopping, io0)] + if io0 then [PoolRemove(id), Transition(id, Stopped, io1)] else []
  }

  /** The steps a tool takes from state `g`; `io(k)` is the outcome of its k-th file operation. */
  function Program(g: Gateway, op: Op, io: nat -> bool): seq<Act> {
    match op
    case DoCreate(config) => [Create(config, io(0))]
    case DoStart(id, launch) => StartActs(g, id, launch, io(0), io(1))
    case DoStop(id) => StopActs(g, id, io(0), io(1))
    case DoConfigure(id, config, launch) =>
      if config.id != id || id !in g.agents then []
      else if g.agents[id].state != Running then [Update(id, config, io(0))]
      else
        [Transition(id, Stopping, io(0))]
        + if !io(0) then [] else
          [PoolRemove(id), Transition(id, Stopped, io(1)), Update(id, config, io(2))]
          + if !io(2) then [] else
            [Transition(id, Starting, io(3))] + if io(3) then LaunchActs(id, launch, CONFIGURING, io(4)) else []
    case DoDelete(id) =>
      if id in g.agents && (g.agents[id].state == Stopped || g.agents[id].state.Error?)
      then [DropMemory(id), DropFile(id, io(0))] else []
    case DoHealthFailure(id, reason) => [PoolRemove(id), Transition(id, Error(reason), io(0))]
  }

  function Perform(g: Gateway, op: Op, io: nat -> bool): Gateway {
    DoAll(g, Program(g, op, io))
  }

  // ── Boot ────────────────────────────────────────────────────────

  function Repaired(id: string, r: AgentRecord): AgentRecord {
    if id == SYSTEM then r.(state := Running)
    else if r.state == Starting || r.state == Stopping then r.(state := Stopped)
    else r
  }

  function SystemRecord(system: AgentConfig): AgentRecord {
    AgentRecord(system.(allow := ["*"], deny := []), Created)
  }

  /** A fresh process over the files: the system agent is registered, the rest loaded, stale states repaired. */
  function Boot(files: Records, system: AgentConfig): Gateway {
    var all := files[SYSTEM := SystemRecord(system)];
    var repaired := map id | id in all :: Repaired(id, all[id]);
    Gateway(repaired, repaired, map[])
  }

  /** Reading files one after the other: each record enters memory under its config's id. */
  function ReadIn(base: Records, files: Records, order: seq<string>): Records
    requires forall f :: f in order ==> f in files
    decreases |order|
  {
    if order == [] then base
    else
      var r := files[order[|order| - 1]];
      ReadIn(base, files, order[..|order| - 1])[r.config.id := r]
  }

  lemma ReadOneMore(base: Records, files: Records, order: seq<string>, file: string)
    requires file in files && forall f :: f in order ==> f in files
    ensures forall f :: f in order + [file] <==> f in order || f == file
    ensures ReadIn(base, files, order + [file]) == ReadIn(base, files, order)[files[file].config.id := files[file]]
  {
    assert (order + [file])[..|order|] == order;
  }

  function Only(files: Records, order: seq<string>): Records {
    map f | f in files && f in order :: files[f]
  }

  /** When files are keyed by id, the order in which they are read does not matter. */
  lemma {:induction false} ReadInKeyed(base: Records, files: Records, order: seq<string>)
    requires Keyed(files) && forall f :: f in order ==> f in files
    ensures ReadIn(base, files, order) == base + Only(files, order)
    decreases |order|
  {
    if order != [] {
      var m := |order| - 1;
      ReadInKeyed(base, files, order[..m]);
      assert Only(files, order) == Only(files, order[..m])[order[m] := files[order[m]]];
    }
  }

  /** Whatever the files are called, memory is keyed by the ids in the records. */
  lemma {:induction false} ReadInIsKeyed(base: Records, files: Records, order: seq<string>)
    requires Keyed(base) && forall f :: f in order ==> f in files
    ensures Keyed(ReadIn(base, files, order))
    ensures base.Keys <= ReadIn(base, files, order).Keys
    decreases |order|
  {
    if order != [] {
      ReadInIsKeyed(base, files, order[..|order| - 1]);
    }
  }

  /** The record is that of a readable file, whatever the file is called, under the id in it. */
  ghost predicate FromFile(files: Records, readable: string -> bool, id: string, r: AgentRecord) {
    exists f :: f in files && readable(f) && files[f] == r && r.config.id == id
  }

  lemma {:induction false} ReadInSources(base: Records, files: Records, readable: string -> bool, order: seq<string>)
    requires forall f :: f in order ==> f in files && readable(f)
    ensures var m := ReadIn(base, files, order);
            && (forall id :: id in m ==> FromFile(files, readable, id, m[id]) || (id in base && m[id] == base[id]))
            && (forall f :: f in order ==> files[f].config.id in m)
    decreases |order|
  {
    if order != [] {
      ReadInSources(base, files, readable, order[..|order| - 1]);
    }
  }

  predicate AllReadable(files: Records, readable: string -> bool) {
    forall f :: f in files ==> readable(f)
  }

  ghost predicate Covers(order: seq<string>, files: Records) {
    forall f :: f in order <==> f in files
  }

  /** `order` holds readable files: all there are, or some if a file among the others cannot be read. */
  ghost predicate ReadOrder(files: Records, readable: string -> bool, order: seq<string>) {
    && (forall f :: f in order ==> f in files && readable(f))
    && (Covers(order, files) || exists f :: f in files && f !in order && !readable(f))
  }

  /** `m` is what reading the files makes of `base`, in some order, up to the first unreadable one. */
  ghost predicate LoadedFrom(base: Records, files: Records, readable: string -> bool, m: Records) {
    exists order :: ReadOrder(files, readable, order) && m == ReadIn(base, files, order)
  }

  lemma LoadedAll(base: Records, files: Records, readable: string -> bool, m: Records)
    requires LoadedFrom(base, files, readable, m)
    ensures Keyed(files) && AllReadable(files, readable) ==> m == base + files
    ensures Keyed(base) ==> Keyed(m) && base.Keys <= m.Keys
  {
    var order :| ReadOrder(files, readable, order) && m == ReadIn(base, files, order);
    if Keyed(files) {
      ReadInKeyed(base, files, order);
    }
    if Keyed(base) {
      ReadInIsKeyed(base, files, order);
    }
  }

  lemma LoadedSources(base: Records, files: Records, readable: string -> bool, m: Records)
    requires LoadedFrom(base, files, readable, m)
    ensures forall id :: id in m ==> FromFile(files, readable, id, m[id]) || (id in base && m[id] == base[id])
    ensures AllReadable(files, readable) ==> forall f :: f in files ==> files[f].config.id in m
  {
    var order :| ReadOrder(files, readable, order) && m == ReadIn(base, files, order);
    ReadInSources(base, files, readable, order);
  }

  /** The records among `done` that boot repair rewrites. */
  function Fixes(all: Records, done: set<string>): Records {
    map id | id in all && id in done && Repaired(id, all[id]) != all[id] :: Repaired(id, all[id])
  }

  lemma FixOne(all: Records, done: set<string>, id: string)
    requires id in all
    ensures Fixes(all, done + {id})
            == if Repaired(id, all[id]) != all[id] then Fixes(all, done)[id := Repaired(id, all[id])] else Fixes(all, done)
  {
  }

  /** The ids whose file can be written. */
  function Writable(ids: set<string>, io: string -> bool): set<string> {
    set id | id in ids && io(id)
  }

  /** Repairing one record of either map, or leaving it, moves to the next set of fixes. */
  lemma FixOneIn(base: Records, all: Records, done: set<string>, id: string)
    requires id in all
    ensures base + Fixes(all, done + {id})
            == if Repaired(id, all[id]) != all[id] then (base + Fixes(all, done))[id := Repaired(id, all[id])]
               else base + Fixes(all, done)
  {
    FixOne(all, done, id);
  }

  /** The same for memory and disk together. */
  lemma RepairOne(
    all: Records, files: Records, done: set<string>, id: string, pool: map<string, nat>, io: string -> bool)
    requires id in all && id !in done
    ensures var g := Gateway(all + Fixes(all, done), files + Fixes(all, Writable(done, io)), pool);
            var next := Gateway(all + Fixes(all, done + {id}), files + Fixes(all, Writable(done + {id}, io)), pool);
            && id in g.agents && g.agents[id] == all[id]
            && next == if Repaired(id, all[id]) != all[id] then Store(g, id, Repaired(id, all[id]), io(id)) else g
  {
    FixOneIn(all, all, done, id);
    FixOneIn(files, all, Writable(done, io), id);
    assert Writable(done + {id}, io) == if io(id) then Writable(done, io) + {id} else Writable(done, io);
  }

  /** `m` is `all` with the system agent Running and the agents caught mid-transition Stopped. */
  ghost predicate StaleReset(all: Records, m: Records) {
    && m.Keys == all.Keys
    && forall id :: id in all ==>
         m[id] == all[id].(state := if id == "system" then Running
                                    else if all[id].state == Starting || all[id].state == Stopping then Stopped
                                    else all[id].state)
  }

  /** `disk` is `files` with the records that were reset, where they can be written. */
  ghost predicate ResetsWritten(all: Records, m: Records, files: Records, io: string -> bool, disk: Records) {
    forall id ::
      if id in all && id in m && m[id] != all[id] && io(id) then id in disk && disk[id] == m[id]
      else Get(disk, id) == Get(files, id)
  }

  lemma FixesReset(all: Records, files: Records, io: string -> bool)
    ensures var m := all + Fixes(all, all.Keys);
            StaleReset(all, m) && ResetsWritten(all, m, files, io, files + Fixes(all, Writable(all.Keys, io)))
  {
  }

  lemma AllRepaired(all: Records)
    requires Keyed(all)
    ensures var m := all + Fixes(all, all.Keys);
            && Keyed(m) && Settled(m) && m.Keys == all.Keys
            && (SYSTEM in m ==> m[SYSTEM].state == Running)
  {
  }

  lemma LoadedOverSystem(files: Records, system: AgentConfig)
    requires Keyed(files) && system.id == SYSTEM
    ensures var all := files[SYSTEM := SystemRecord(system)];
            Keyed(all) && map[][SYSTEM := SystemRecord(system)] + all == all
  {
  }

  /** Registering, loading and repairing compose to the boot state. */
  lemma RepairedIsBoot(files: Records, system: AgentConfig, all: Records, io: string -> bool)
    requires all == files[SYSTEM := SystemRecord(system)] && forall x :: io(x)
    ensures Gateway(all + Fixes(all, all.Keys), all + Fixes(all, Writable(all.Keys, io)), map[]) == Boot(files, system)
  {
    assert Writable(all.Keys, io) == all.Keys;
  }

  // ── Invariants ──────────────────────────────────────────────────

  predicate Keyed(m: Records) {
    forall id :: id in m ==> m[id].config.id == id
  }

  predicate ProxiedRunning(g: Gateway) {
    forall id :: id in g.pool ==> id in g.agents && g.agents[id].state == Running
  }

  /** Proxied agents are Running, keys are ids, and the files are the memory. */
  predicate Inv(g: Gateway) {
    ProxiedRunning(g) && Keyed(g.agents) && g.disk == g.agents
  }

  /** No record is in a transient state. */
  predicate Settled(m: Records) {
    forall id :: id in m ==> m[id].state != Starting && m[id].state != Stopping
  }

  lemma DoAll1(g: Gateway, a: Act)
    ensures DoAll(g, [a]) == Do(g, a)
  {
  }

  lemma DoAllCons(g: Gateway, a: Act, rest: seq<Act>)
    ensures DoAll(g, [a] + rest) == DoAll(Do(g, a), rest)
  {
  }

  lemma DoAll2(g: Gateway, a: Act, b: Act)
    ensures DoAll(g, [a, b]) == Do(Do(g, a), b)
  {
    DoAll1(Do(g, a), b);
  }

  /** Reconfiguring a Running agent, step by step: it ends early at the first write that fails and is checked. */
  lemma ReconfigureSteps(g: Gateway, id: string, config: AgentConfig, launch: Launch, io: nat -> bool)
    requires config.id == id && id in g.agents && g.agents[id].state == Running
    ensures Perform(g, DoConfigure(id, config, launch), io)
            == var h := Do(g, Transition(id, Stopping, io(0)));
               if !io(0) then h else
               var k := Do(Do(Do(h, PoolRemove(id)), Transition(id, Stopped, io(1))), Update(id, config, io(2)));
               if !io(2) then k else
               var s := Do(k, Transition(id, Starting, io(3)));
               if !io(3) then s else DoAll(s, LaunchActs(id, launch, CONFIGURING, io(4)))
  {
    var launchActs := if io(3) then LaunchActs(id, launch, CONFIGURING, io(4)) else [];
    var start := if io(2) then [Transition(id, Starting, io(3))] + launchActs else [];
    var b, c, d := PoolRemove(id), Transition(id, Stopped, io(1)), Update(id, config, io(2));
    var rest := if io(0) then [b, c, d] + start else [];
    assert Program(g, DoConfigure(id, config, launch), io) == [Transition(id, Stopping, io(0))] + rest;
    DoAllCons(g, Transition(id, Stopping, io(0)), rest);
    if io(0) {
      var h := Do(g, Transition(id, Stopping, io(0)));
      assert rest == [b] + ([c] + ([d] + start));
      DoAllCons(Do(Do(h, b), c), d, start);
    }
  }

  // ── What each tool amounts to ───────────────────────────────────

  /** Memory holds `r` for the id, and its file `d`; without `d` the file is as before. */
  function Keep(g: Gateway, id: string, r: AgentRecord, d: Option<AgentRecord>): Gateway {
    g.(agents := g.agents[id := r], disk := if d.Some? then g.disk[id := d.value] else g.disk)
  }

  function Given(r: AgentRecord, io: bool): Option<AgentRecord> {
    if io then Some(r) else None
  }

  lemma KeepTwice(g: Gateway, id: string, r: AgentRecord, d: Option<AgentRecord>, r': AgentRecord, d': Option<AgentRecord>)
    ensures Keep(Keep(g, id, r, d), id, r', d') == Keep(g, id, r', if d'.Some? then d' else d)
  {
  }

  /** The end of a launch: the file holds the agent as Starting if it cannot be written again. */
  function Launched(g: Gateway, id: string, config: AgentConfig, launch: Launch, note: string, io: bool): Gateway {
    var state := match launch
      case BuildFailed(why) => Error("build failed" + note + ": " + why)
      case SpawnFailed(why) => Error("spawn failed" + note + ": " + why)
      case NotReady(why) => Error("readiness check failed" + note + ": " + why)
      case Up(_) => Running;
    var pool := match launch
      case NotReady(_) => g.pool - {id}
      case Up(port) => g.pool[id := port]
      case _ => g.pool;
    Keep(g.(pool := pool), id, AgentRecord(config, state), Some(AgentRecord(config, if io then state else Starting)))
  }

  /** Each tool as a single update, without intermediate steps, whichever of its writes fail. */
  function Outcome(g: Gateway, op: Op, io: nat -> bool): Gateway {
    match op
    case DoCreate(config) =>
      if config.id in g.agents || !io(0) then g
      else Keep(g, config.id, AgentRecord(config, Created), Some(AgentRecord(config, Created)))
    case DoStart(id, launch) =>
      if id !in g.agents || !(g.agents[id].state == Created || g.agents[id].state == Stopped || g.agents[id].state.Error?)
      then g
      else if !io(0) then Keep(g, id, g.agents[id].(state := Starting), None)
      else Launched(g, id, g.agents[id].config, launch, "", io(1))
    case DoStop(id) =>
      if id !in g.agents || g.agents[id].state != Running then g
      else if !io(0) then Keep(g, id, g.agents[id].(state := Stopping), None)
      else Keep(g.(pool := g.pool - {id}), id, g.agents[id].(state := Stopped),
                Some(g.agents[id].(state := if io(1) then Stopped else Stopping)))
    case DoConfigure(id, config, launch) =>
      if config.id != id || id !in g.agents then g
      else if g.agents[id].state != Running then
        var r := g.agents[id].(config := config);
        Keep(g, id, r, if io(0) then Some(r) else None)
      else if !io(0) then Keep(g, id, g.agents[id].(state := Stopping), None)
      else
        var h := g.(pool := g.pool - {id});
        if !io(2) then
          Keep(h, id, AgentRecord(config, Stopped), Some(g.agents[id].(state := if io(1) then Stopped else Stopping)))
        else if !io(3) then Keep(h, id, AgentRecord(config, Starting), Some(AgentRecord(config, Stopped)))
        else Launched(h, id, config, launch, " during configure", io(4))
    case DoDelete(id) =>
      if id in g.agents && (g.agents[id].state == Stopped || g.agents[id].state.Error?)
      then g.(agents := g.agents - {id}, disk := if io(0) then g.disk - {id} else g.disk) else g
    case DoHealthFailure(id, reason) =>
      var h := g.(pool := g.pool - {id});
      if id in g.agents && (g.agents[id].state == Running || g.agents[id].state == Starting)
      then
        var r := g.agents[id].(state := Error(reason));
        Keep(h, id, r, if io(0) then Some(r) else None)
      else h
  }

  lemma TransitionKeeps(g: Gateway, id: string, state: Lifecycle, io: bool)
    requires CanEnter(g, id, state)
    ensures var r := g.agents[id].(state := state); Do(g, Transition(id, state, io)) == Keep(g, id, r, Given(r, io))
  {
  }

  lemma LeaveStarting(g: Gateway, id: string, config: AgentConfig, state: Lifecycle, io: bool)
    requires state == Running || state.Error?
    ensures var starting := AgentRecord(config, Starting);
            Do(Keep(g, id, starting, Some(starting)), Transition(id, state, io))
            == Keep(g, id, AgentRecord(config, state), Some(AgentRecord(config, if io then state else Starting)))
  {
    var starting := AgentRecord(config, Starting);
    TransitionKeeps(Keep(g, id, starting, Some(starting)), id, state, io);
    KeepTwice(g, id, starting, Some(starting), AgentRecord(config, state), Given(AgentRecord(config, state), io));
  }

  lemma LaunchOutcome(g: Gateway, id: string, config: AgentConfig, launch: Launch, note: string, io: bool)
    ensures var starting := AgentRecord(config, Starting);
            DoAll(Keep(g, id, starting, Some(starting)), LaunchActs(id, launch, note, io))
            == Launched(g, id, config, launch, note, io)
  {
    var s := Keep(g, id, AgentRecord(config, Starting), Some(AgentRecord(config, Starting)));
    var acts := LaunchActs(id, launch, note, io);
    match launch {
      case BuildFailed(why) =>
        DoAll1(s, acts[0]);
        LeaveStarting(g, id, config, Error("build failed" + note + ": " + why), io);
      case SpawnFailed(why) =>
        DoAll1(s, acts[0]);
        LeaveStarting(g, id, config, Error("spawn failed" + note + ": " + why), io);
      case NotReady(why) =>
        DoAll2(s, PoolRemove(id), acts[1]);
        LeaveStarting(g.(pool := g.pool - {id}), id, config, Error("readiness check failed" + note + ": " + why), io);
      case Up(port) =>
        DoAll2(s, PoolAdd(id, port), acts[1]);
        LeaveStarting(g.(pool := g.pool[id := port]), id, config, Running, io);
    }
  }

  lemma StopOutcome(g: Gateway, id: string, io: bool)
    requires id in g.agents && g.agents[id].state == Running
    ensures Do(Do(Do(g, Transition(id, Stopping, true)), PoolRemove(id)), Transition(id, Stopped, io))
            == Keep(g.(pool := g.pool - {id}), id, g.agents[id].(state := Stopped),
                    Some(g.agents[id].(state := if io then Stopped else Stopping)))
  {
    var h := g.(pool := g.pool - {id});
    var stopping, stopped := g.agents[id].(state := Stopping), g.agents[id].(state := Stopped);
    TransitionKeeps(g, id, Stopping, true);
    TransitionKeeps(Keep(h, id, stopping, Some(stopping)), id, Stopped, io);
    KeepTwice(h, id, stopping, Some(stopping), stopped, Given(stopped, io));
  }

  lemma StartOutcome(g: Gateway, id: string, launch: Launch, io0: bool, io1: bool)
    requires CanEnter(g, id, Starting)
    ensures DoAll(g, StartActs(g, id, launch, io0, io1))
            == if io0 then Launched(g, id, g.agents[id].config, launch, "", io1)
               else Keep(g, id, g.agents[id].(state := Starting), None)
  {
    DoAllCons(g, Transition(id, Starting, io0), if io0 then LaunchActs(id, launch, "", io1) else []);
    TransitionKeeps(g, id, Starting, io0);
    if io0 {
      LaunchOutcome(g, id, g.agents[id].config, launch, "", io1);
    }
  }

  lemma StopActsOutcome(g: Gateway, id: string, io0: bool, io1: bool)
    requires CanEnter(g, id, Stopping)
    ensures DoAll(g, StopActs(g, id, io0, io1))
            == if io0 then
                 Do(Do(Do(g, Transition(id, Stopping, true)), PoolRemove(id)), Transition(id, Stopped, io1))
               else Keep(g, id, g.agents[id].(state := Stopping), None)
  {
    DoAllCons(g, Transition(id, Stopping, io0), if io0 then [PoolRemove(id), Transition(id, Stopped, io1)] else []);
    DoAll2(Do(g, Transition(id, Stopping, io0)), PoolRemove(id), Transition(id, Stopped, io1));
  }

  /** The config is replaced after the stop, and the agent starts again. */
  lemma SwapOutcome(h: Gateway, id: string, before: AgentConfig, config: AgentConfig, d: AgentRecord, io2: bool, io3: bool)
    requires config.id == id
    ensures var k := Do(Keep(h, id, AgentRecord(before, Stopped), Some(d)), Update(id, config, io2));
            && k == Keep(h, id, AgentRecord(config, Stopped), if io2 then Some(AgentRecord(config, Stopped)) else Some(d))
            && (io2 ==> Do(k, Transition(id, Starting, io3))
                        == Keep(h, id, AgentRecord(config, Starting),
                                Some(AgentRecord(config, if io3 then Starting else Stopped))))
  {
    var stopped, starting := AgentRecord(config, Stopped), AgentRecord(config, Starting);
    KeepTwice(h, id, AgentRecord(before, Stopped), Some(d), stopped, Given(stopped, io2));
    if io2 {
      TransitionKeeps(Keep(h, id, stopped, Some(stopped)), id, Starting, io3);
      KeepTwice(h, id, stopped, Some(stopped), starting, Given(starting, io3));
    }
  }

  lemma ConfigureOutcome(g: Gateway, id: string, config: AgentConfig, launch: Launch, io: nat -> bool)
    requires config.id == id && id in g.agents && g.agents[id].state == Running
    ensures Perform(g, DoConfigure(id, config, launch), io) == Outcome(g, DoConfigure(id, config, launch), io)
  {
    ReconfigureSteps(g, id, config, launch, io);
    if io(0) {
      var h := g.(pool := g.pool - {id});
      var d := g.agents[id].(state := if io(1) then Stopped else Stopping);
      StopOutcome(g, id, io(1));
      SwapOutcome(h, id, g.agents[id].config, config, d, io(2), io(3));
      LaunchOutcome(h, id, config, launch, " during configure", io(4));
    }
  }

  /** Every tool, from any state and whichever of its writes fail, changes the gateway as its single update says. */
  lemma ToolOutcome(g: Gateway, op: Op, io: nat -> bool)
    ensures Perform(g, op, io) == Outcome(g, op, io)
  {
    match op {
      case DoCreate(config) => DoAll1(g, Create(config, io(0)));
      case DoStart(id, launch) =>
        if CanEnter(g, id, Starting) { StartOutcome(g, id, launch, io(0), io(1)); }
      case DoStop(id) =>
        if CanEnter(g, id, Stopping) {
          StopActsOutcome(g, id, io(0), io(1));
          StopOutcome(g, id, io(1));
        }
      case DoConfigure(id, config, launch) =>
        if config.id == id && id in g.agents {
          if g.agents[id].state == Running {
            ConfigureOutcome(g, id, config, launch, io);
          } else {
            DoAll1(g, Update(id, config, io(0)));
          }
        }
      case DoDelete(id) => DoAll2(g, DropMemory(id), DropFile(id, io(0)));
      case DoHealthFailure(id, reason) => DoAll2(g, PoolRemove(id), Transition(id, Error(reason), io(0)));
    }
  }

  lemma LaunchedSettles(g: Gateway, id: string, config: AgentConfig, launch: Launch, note: string)
    requires Inv(g) && Settled(g.agents) && config.id == id && id !in g.pool
    ensures var h := Launched(g, id, config, launch, note, true); Inv(h) && Settled(h.agents)
  {
  }

  /** Every tool, run to completion with its writes succeeding, keeps the invariant and leaves no transient state. */
  lemma ToolKeepsInv(g: Gateway, op: Op, io: nat -> bool)
    requires Inv(g) && Settled(g.agents) && (forall k :: io(k))
    ensures Inv(Perform(g, op, io)) && Settled(Perform(g, op, io).agents)
  {
    ToolOutcome(g, op, io);
    if Outcome(g, op, io) != g {
      match op {
        case DoCreate(config) =>
        case DoStart(id, launch) => LaunchedSettles(g, id, g.agents[id].config, launch, "");
        case DoStop(id) =>
        case DoConfigure(id, config, launch) =>
          LaunchedSettles(g.(pool := g.pool - {id}), id, config, launch, CONFIGURING);
        case DoDelete(id) =>
        case DoHealthFailure(id, reason) =>
      }
    }
  }

  /** A run of tools; `io(k)` holds the outcomes of the k-th tool's file operations. */
  function PerformAll(g: Gateway, ops: seq<Op>, io: nat -> nat -> bool): Gateway
    decreases |ops|
  {
    if ops == [] then g
    else Perform(PerformAll(g, ops[..|ops| - 1], io), ops[|ops| - 1], io(|ops| - 1))
  }

  lemma BootEstablishesInv(files: Records, system: AgentConfig)
    requires Keyed(files) && system.id == "system"
    ensures var g := Boot(files, system);
            && Inv(g) && Settled(g.agents) && g.pool == map[]
            && g.agents.Keys == files.Keys + {"system"}
            && g.agents["system"] == AgentRecord(AgentConfig("system", system.settings, ["*"], []), Running)
            && forall id :: id in files && id != "system" ==>
                 g.agents[id] == if files[id].state == Starting || files[id].state == Stopping
                                 then AgentRecord(files[id].config, Stopped) else files[id]
  {
  }

  /**
   * After boot and any sequence of tools: proxied agents are Running, every key is its record's id,
   * memory equals disk, and no record is Starting or Stopping.
   */
  lemma {:induction false} LifecycleInvariant(files: Records, system: AgentConfig, ops: seq<Op>, io: nat -> nat -> bool)
    requires Keyed(files) && system.id == SYSTEM && (forall k, j :: io(k)(j))
    ensures var g := PerformAll(Boot(files, system), ops, io); Inv(g) && Settled(g.agents)
    decreases |ops|
  {
    if ops != [] {
      var m := |ops| - 1;
      LifecycleInvariant(files, system, ops[..m], io);
      ToolKeepsInv(PerformAll(Boot(files, system), ops[..m], io), ops[m], io(m));
    }
  }

  // ── Failed writes ───────────────────────────────────────────────

  /** The tools that enter Stopping before they take the proxy away, for an agent that has one. */
  predicate StopsFirst(g: Gateway, op: Op) {
    match op
    case DoStop(id) => id in g.pool
    case DoConfigure(id, config, _) => config.id == id && id in g.pool
    case _ => false
  }

  /** If their first write fails they give up with the agent in Stopping, its proxy and its file as before. */
  lemma FailedWriteLeavesProxy(g: Gateway, op: Op, io: nat -> bool)
    requires ProxiedRunning(g) && StopsFirst(g, op) && !io(0)
    ensures var h := Perform(g, op, io);
            && op.id in h.pool && op.id in h.agents && h.agents[op.id].state == Stopping
            && h.pool == g.pool && h.disk == g.disk
  {
    DoAll1(g, Transition(op.id, Stopping, false));
  }

  /**
   * Whichever writes fail, a tool keeps every proxied agent Running unless it is the stop or the
   * configure tool of a proxied agent and its first write fails.
   */
  lemma ProxiedRunningIff(g: Gateway, op: Op, io: nat -> bool)
    requires ProxiedRunning(g)
    ensures ProxiedRunning(Perform(g, op, io)) <==> !(StopsFirst(g, op) && !io(0))
  {
    ToolOutcome(g, op, io);
    if StopsFirst(g, op) && !io(0) {
      FailedWriteLeavesProxy(g, op, io);
    }
  }

  /** Stopping from the control panel changes the registry only. */
  function PanelStop(g: Gateway, id: string, io0: bool, io1: bool): Gateway {
    if !CanEnter(g, id, Stopping) then g
    else
      var h := Do(g, Transition(id, Stopping, io0));
      if io0 then Do(h, Transition(id, Stopped, io1)) else h
  }

  /** It refuses all but Running agents; memory and file end where its two writes allow, and the proxy stays. */
  lemma PanelStopOutcome(g: Gateway, id: string, io0: bool, io1: bool)
    ensures PanelStop(g, id, io0, io1)
            == if id !in g.agents || g.agents[id].state != Running then g
               else if !io0 then Keep(g, id, g.agents[id].(state := Stopping), None)
               else Keep(g, id, g.agents[id].(state := Stopped),
                         Some(g.agents[id].(state := if io1 then Stopped else Stopping)))
  {
  }

  /**
   * It leaves a proxied agent not Running exactly when the agent has a proxy, and keeps the whole
   * invariant exactly when it refuses, or the agent has no proxy and both writes succeed.
   */
  lemma PanelStopKeepsInvIff(g: Gateway, id: string, io0: bool, io1: bool)
    requires ProxiedRunning(g)
    ensures ProxiedRunning(PanelStop(g, id, io0, io1)) <==> id !in g.pool
    ensures Inv(g) ==>
            (Inv(PanelStop(g, id, io0, io1)) <==> !CanEnter(g, id, Stopping) || (id !in g.pool && io0 && io1))
  {
  }

  // ── Crashes ─────────────────────────────────────────────────────

  function Subject(op: Op): string {
    if op.DoCreate? then op.config.id else op.id
  }

  function Target(a: Act): string {
    if a.Create? then a.config.id else a.id
  }

  /** What a step of a tool may do: touch the tool's subject, with the tool's config, and no file but by deleting. */
  predicate Allowed(a: Act, op: Op) {
    && Target(a) == Subject(op)
    && (a.Create? ==> op.DoCreate? && a.config == op.config)
    && (a.Update? ==> op.DoConfigure? && a.config == op.config)
    && (a.DropFile? ==> op.DoDelete?)
  }

  lemma LaunchAllowed(op: Op, launch: Launch, note: string, io: bool)
    requires op.DoStart? || op.DoConfigure?
    ensures forall a :: a in LaunchActs(op.id, launch, note, io) ==>
              Target(a) == op.id && !a.Create? && !a.Update? && !a.DropFile?
  {
  }

  lemma ProgramAllowed(g: Gateway, op: Op, io: nat -> bool)
    ensures forall a :: a in Program(g, op, io) ==> Allowed(a, op)
  {
    match op {
      case DoStart(_, launch) => LaunchAllowed(op, launch, "", io(1));
      case DoConfigure(_, _, launch) => LaunchAllowed(op, launch, CONFIGURING, io(4));
      case _ =>
    }
  }

  /** Every record in memory has a file. */
  predicate Backed(g: Gateway) {
    g.agents.Keys <= g.disk.Keys
  }

  predicate SameElsewhere(g: Gateway, h: Gateway, id: string) {
    g.agents - {id} == h.agents - {id} && g.disk - {id} == h.disk - {id} && g.pool - {id} == h.pool - {id}
  }

  /** The configs a tool may leave its subject with: those in memory and on disk before it, and its own. */
  predicate OldOrNew(g: Gateway, op: Op, c: AgentConfig) {
    var s := Subject(op);
    || (s in g.agents && c == g.agents[s].config)
    || (s in g.disk && c == g.disk[s].config)
    || ((op.DoCreate? || op.DoConfigure?) && c == op.config)
  }

  /** How far a tool may take the gateway from `g`, at any of its steps. */
  predicate Reach(g: Gateway, h: Gateway, op: Op) {
    var s := Subject(op);
    && SameElsewhere(g, h, s) && Keyed(h.agents) && Keyed(h.disk)
    && (s in h.agents ==> OldOrNew(g, op, h.agents[s].config))
    && (s in h.disk ==> OldOrNew(g, op, h.disk[s].config))
    && (!op.DoDelete? && s in g.disk ==> s in h.disk)
    && (!op.DoCreate? && s !in g.disk ==> s !in h.disk && s !in h.agents)
  }

  lemma StepElsewhere(h: Gateway, a: Act)
    ensures SameElsewhere(h, Do(h, a), Target(a))
  {
  }

  lemma StepReaches(g: Gateway, h: Gateway, a: Act, op: Op)
    requires Reach(g, h, op) && Allowed(a, op)
    ensures Reach(g, Do(h, a), op)
  {
    StepElsewhere(h, a);
  }

  lemma {:induction false} ActsReach(g: Gateway, h: Gateway, acts: seq<Act>, op: Op)
    requires Reach(g, h, op) && forall a :: a in acts ==> Allowed(a, op)
    ensures Reach(g, DoAll(h, acts), op)
    decreases |acts|
  {
    if acts != [] {
      StepReaches(g, h, acts[0], op);
      ActsReach(g, Do(h, acts[0]), acts[1..], op);
    }
  }

  /** Any number of steps of a tool, with file operations failing or not. */
  lemma PartOfToolReaches(g: Gateway, op: Op, io: nat -> bool, n: nat)
    requires Keyed(g.agents) && Keyed(g.disk) && Backed(g) && n <= |Program(g, op, io)|
    ensures Reach(g, DoAll(g, Program(g, op, io)[..n]), op)
  {
    ProgramAllowed(g, op, io);
    ActsReach(g, g, Program(g, op, io)[..n], op);
  }

  lemma {:induction false} ActsKeepBacked(g: Gateway, acts: seq<Act>)
    requires Backed(g) && forall a :: a in acts ==> !a.DropFile?
    ensures Backed(DoAll(g, acts))
    decreases |acts|
  {
    if acts != [] {
      ActsKeepBacked(Do(g, acts[0]), acts[1..]);
    }
  }

  lemma {:induction false} ToolsKeepKeyed(g: Gateway, ops: seq<Op>, io: nat -> nat -> bool)
    requires Keyed(g.agents) && Keyed(g.disk) && Backed(g)
    ensures var h := PerformAll(g, ops, io); Keyed(h.agents) && Keyed(h.disk) && Backed(h)
    decreases |ops|
  {
    if ops != [] {
      var m := |ops| - 1;
      ToolsKeepKeyed(g, ops[..m], io);
      var h, op := PerformAll(g, ops[..m], io), ops[m];
      var acts := Program(h, op, io(m));
      ProgramAllowed(h, op, io(m));
      PartOfToolReaches(h, op, io(m), |acts|);
      assert acts[..|acts|] == acts;
      if op.DoDelete? {
        DoAll2(h, DropMemory(op.id), DropFile(op.id, io(m)(0)));
      } else {
        ActsKeepBacked(h, acts);
      }
    }
  }

  /**
   * A crash after any number of steps of any tool, after any run of tools, whichever file operations
   * failed in any of them. The next boot restores the invariant with no record transient, and
   * compared with the state `g` before the tool:
   * every other agent comes back as its file had it, but Stopped if it was Starting or Stopping, and
   * so unchanged if memory and disk agreed;
   * the tool's subject comes back with a config it had or was being given; it is lost only by the
   * delete tool, and new only by the create tool.
   */
  lemma CrashRecovery(files: Records, system: AgentConfig, ops: seq<Op>, op: Op, io: nat -> nat -> bool, n: nat)
    requires Keyed(files) && system.id == SYSTEM
    requires n <= |Program(PerformAll(Boot(files, system), ops, io), op, io(|ops|))|
    ensures var g := PerformAll(Boot(files, system), ops, io);
            var again := Boot(DoAll(g, Program(g, op, io(|ops|))[..n]).disk, system);
            var s := Subject(op);
            && Inv(again) && Settled(again.agents) && again.pool == map[] && g.agents.Keys <= g.disk.Keys
            && (forall x :: x != s && x != "system" ==>
                  && (x in again.agents <==> x in g.disk)
                  && (x in g.disk ==>
                        again.agents[x] == if g.disk[x].state == Starting || g.disk[x].state == Stopping
                                           then AgentRecord(g.disk[x].config, Stopped) else g.disk[x])
                  && (Inv(g) && Settled(g.agents) && x in g.agents ==> again.agents[x] == g.agents[x]))
            && (s != "system" ==>
                  && (s in again.agents ==> OldOrNew(g, op, again.agents[s].config))
                  && (s in g.disk && s !in again.agents ==> op.DoDelete?)
                  && (s !in g.disk && s in again.agents ==> op.DoCreate?))
  {
    BootEstablishesInv(files, system);
    ToolsKeepKeyed(Boot(files, system), ops, io);
    var g := PerformAll(Boot(files, system), ops, io);
    var crashed := DoAll(g, Program(g, op, io(|ops|))[..n]);
    PartOfToolReaches(g, op, io(|ops|), n);
    BootEstablishesInv(crashed.disk, system);
    forall x | x != Subject(op)
      ensures (x in crashed.disk <==> x in g.disk) && (x in g.disk ==> crashed.disk[x] == g.disk[x])
    {
      SameEntry(g.disk, crashed.disk, Subject(op), x);
    }
  }

  lemma SameEntry(m: Records, m': Records, id: string, x: string)
    requires m - {id} == m' - {id} && x != id
    ensures (x in m <==> x in m') && (x in m ==> m[x] == m'[x])
  {
    assert x in m <==> x in m - {id};
    assert x in m' <==> x in m' - {id};
    if x in m {
      assert (m - {id})[x] == (m' - {id})[x];
    }
  }
}

/** The registry, its files and the proxy pool as the gateway's tools update them. */
module AgentLifecycle {
  import opened Wrappers
  import opened AgentState

  /** The loop over the directory entries, in whatever order they come; the first unreadable file ends it. */
  method ReadFiles(base: Records, files: Records, readable: string -> bool)
    returns (loaded: Records, count: Option<nat>)
    ensures LoadedFrom(base, files, readable, loaded)
    ensures count == if AllReadable(files, readable) then Some(|files|) else None
  {
    loaded := base;
    var todo := files.Keys;
    var n := 0;
    ghost var order: seq<string> := [];
    assert |files| == |todo|;
    while todo != {}
      invariant todo <= files.Keys && n + |todo| == |files|
      invariant forall f :: f in order <==> f in files && f !in todo
      invariant forall f :: f in order ==> readable(f)
      invariant loaded == ReadIn(base, files, order)
      decreases todo
    {
      var file :| file in todo;
      if !readable(file) {
        assert ReadOrder(files, readable, order);
        return loaded, None;
      }
      ReadOneMore(base, files, order, file);
      loaded := loaded[files[file].config.id := files[file]];
      todo, order, n := todo - {file}, order + [file], n + 1;
    }
    assert Covers(order, files);
    assert ReadOrder(files, readable, order);
    count := Some(n);
  }

  class AgentGateway {
    var agents: Records
    var disk: Records
    var pool: map<string, nat>
    var systemAgentId: Option<string>

    function View(): Gateway
      reads this
    {
      Gateway(agents, disk, pool)
    }

    /**
     * Boot: register the system agent, load the files, reset stale states. Whatever is in the files
     * and whichever file operations fail, memory is keyed by id and holds no transient state.
     */
    constructor (files: Records, system: AgentConfig, registers: bool, readable: string -> bool, io: string -> bool)
      requires system.id == SYSTEM
      ensures Keyed(agents) && Settled(agents) && pool == map[]
      ensures SYSTEM in agents ==> agents[SYSTEM].state == Running
      ensures registers ==> SYSTEM in agents
      ensures systemAgentId == if registers then Some(SYSTEM) else None
      ensures Keyed(files) && registers && (forall f :: readable(f) && io(f)) ==> View() == Boot(files, system)
    {
      agents, disk, pool := map[], files, map[];
      systemAgentId := None;
      new;
      ghost var fine := Keyed(files) && registers && forall f :: readable(f) && io(f);
      LoadAgents(system, registers, readable);
      ghost var all := agents;
      if fine {
        RepairedIsBoot(files, system, all, io);
      }
      AllRepaired(all);
      RepairStaleStates(io);
    }

    /** The first half of boot, over an empty memory. */
    method LoadAgents(system: AgentConfig, registers: bool, readable: string -> bool)
      requires agents == map[] && systemAgentId.None? && system.id == SYSTEM
      modifies this
      ensures pool == old(pool) && Keyed(agents) && (registers ==> SYSTEM in agents)
      ensures systemAgentId == if registers then Some(SYSTEM) else None
      ensures Keyed(old(disk)) && registers && (forall f :: readable(f)) ==>
              agents == old(disk)[SYSTEM := SystemRecord(system)] && disk == agents
    {
      if Keyed(disk) {
        LoadedOverSystem(disk, system);
      }
      var _ := RegisterSystemAgent(system, registers);
      var _ := LoadFromDisk(readable);
    }

    method RegisterSystemAgent(config: AgentConfig, io: bool) returns (ok: bool)
      modifies this
      ensures ok == (old(systemAgentId).None? && io)
      ensures View() == if ok then Keep(old(View()), config.id, AgentRecord(config.(allow := ["*"], deny := []), Created),
                                        Some(AgentRecord(config.(allow := ["*"], deny := []), Created)))
                        else old(View())
      ensures systemAgentId == if ok then Some(config.id) else old(systemAgentId)
    {
      if systemAgentId.Some? {
        return false;
      }
      var record := AgentRecord(config.(allow := ["*"], deny := []), Created);
      if !io {
        return false;
      }
      disk := disk[config.id := record];
      agents := agents[config.id := record];
      systemAgentId := Some(config.id);
      ok := true;
    }

    /**
     * Reads every file, in some order, until one cannot be read; what was read stays loaded. For
     * readable files keyed by id memory becomes old plus disk.
     */
    method LoadFromDisk(readable: string -> bool) returns (count: Option<nat>)
      modifies this`agents
      ensures LoadedFrom(old(agents), disk, readable, agents)
      ensures forall id :: id in agents ==>
                FromFile(disk, readable, id, agents[id]) || (id in old(agents) && agents[id] == old(agents)[id])
      ensures AllReadable(disk, readable) ==> forall f :: f in disk ==> disk[f].config.id in agents
      ensures count == if AllReadable(disk, readable) then Some(|disk|) else None
      ensures Keyed(disk) && AllReadable(disk, readable) ==> agents == old(agents) + disk
      ensures Keyed(old(agents)) ==> Keyed(agents) && old(agents).Keys <= agents.Keys
    {
      ghost var base := agents;
      var loaded;
      loaded, count := ReadFiles(agents, disk, readable);
      agents := loaded;
      LoadedAll(base, disk, readable, loaded);
      LoadedSources(base, disk, readable, loaded);
    }

    /**
     * The system agent is made Running and agents caught mid-transition Stopped; only those are
     * written, and memory changes even where `io` says that the file cannot be.
     */
    method RepairStaleStates(io: string -> bool)
      modifies this`agents, this`disk
      ensures StaleReset(old(agents), agents) && ResetsWritten(old(agents), agents, old(disk), io, disk)
      ensures agents == old(agents) + Fixes(old(agents), old(agents).Keys)
      ensures disk == old(disk) + Fixes(old(agents), Writable(old(agents).Keys, io))
    {
      var all := agents;
      ghost var files := disk;
      ghost var done: set<string> := {};
      var todo := all.Keys;
      assert Fixes(all, {}) == map[] && Writable({}, io) == {};
      FixesReset(all, files, io);
      while todo != {}
        invariant todo + done == all.Keys && todo !! done
        invariant View() == Gateway(all + Fixes(all, done), files + Fixes(all, Writable(done, io)), pool)
        decreases todo
      {
        var id :| id in todo;
        RepairOne(all, files, done, id, pool, io);
        todo, done := todo - {id}, done + {id};
        var record := all[id];
        if id == SYSTEM && record.state != Running {
          var _ := ForceState(id, Running, io(id));
        } else if record.state == Starting || record.state == Stopping {
          var _ := ForceState(id, Stopped, io(id));
        }
      }
    }

    method ForceState(id: string, state: Lifecycle, io: bool) returns (ok: bool)
      modifies this`agents, this`disk
      ensures ok <==> id in old(agents) && io
      ensures View() == if id in old(agents) then Store(old(View()), id, old(agents)[id].(state := state), io) else old(View())
    {
      if id !in agents {
        return false;
      }
      agents := agents[id := agents[id].(state := state)];
      if io {
        disk := disk[id := agents[id]];
      }
      ok := io;
    }

    method CreateAgent(config: AgentConfig, io: bool) returns (ok: bool)
      modifies this`agents, this`disk
      ensures View() == Do(old(View()), Create(config, io))
      ensures ok <==> config.id !in old(agents) && io
    {
      if config.id in agents {
        return false;
      }
      var record := AgentRecord(config, Created);
      if !io {
        return false;
      }
      disk := disk[config.id := record];
      agents := agents[config.id := record];
      ok := true;
    }

    method Enter(id: string, state: Lifecycle, io: bool) returns (ok: bool)
      modifies this`agents, this`disk
      ensures View() == Do(old(View()), Transition(id, state, io))
      ensures ok <==> id in old(agents) && io && match (old(agents)[id].state, state)
                                                 case (_, Created) => false
                                                 case (s, Starting) => s == Created || s == Stopped || s.Error?
                                                 case (s, Running) => s == Starting
                                                 case (s, Stopping) => s == Running
                                                 case (s, Stopped) => s == Stopping
                                                 case (s, Error(_)) => s == Starting || s == Running
    {
      if id !in agents || !IsValidTransition(agents[id].state, state) {
        return false;
      }
      agents := agents[id := agents[id].(state := state)];
      if !io {
        return false;
      }
      disk := disk[id := agents[id]];
      ok := true;
    }

    method UpdateConfig(id: string, config: AgentConfig, io: bool) returns (ok: bool)
      modifies this`agents, this`disk
      ensures View() == Do(old(View()), Update(id, config, io))
      ensures ok <==> id in old(agents) && config.id == id && io
    {
      if id !in agents || config.id != id {
        return false;
      }
      agents := agents[id := agents[id].(config := config)];
      if !io {
        return false;
      }
      disk := disk[id := agents[id]];
      ok := true;
    }

    method Delete(id: string, io: bool) returns (ok: bool)
      modifies this`agents, this`disk
      ensures View() == Perform(old(View()), DoDelete(id), _ => io)
      ensures ok <==> id in old(agents) && (old(agents)[id].state == Stopped || old(agents)[id].state.Error?)
    {
      if id !in agents || !(agents[id].state == Stopped || agents[id].state.Error?) {
        return false;
      }
      DoAll2(View(), DropMemory(id), DropFile(id, io));
      agents := agents - {id};
      if io {
        disk := disk - {id};
      }
      ok := true;
    }

    /** From Starting to Running, or to Error at the first thing that goes wrong. */
    method LaunchAgent(id: string, launch: Launch, note: string, io: bool) returns (ok: bool)
      modifies this
      ensures View() == DoAll(old(View()), LaunchActs(id, launch, note, io))
      ensures systemAgentId == old(systemAgentId) && (ok <==> launch.Up?)
    {
      ghost var g := View();
      match launch {
        case BuildFailed(why) =>
          var _ := Enter(id, Error("build failed" + note + ": " + why), io);
          ok := false;
        case SpawnFailed(why) =>
          var _ := Enter(id, Error("spawn failed" + note + ": " + why), io);
          ok := false;
        case NotReady(why) =>
          DoAll2(g, PoolRemove(id), Transition(id, Error("readiness check failed" + note + ": " + why), io));
          pool := pool - {id};
          var _ := Enter(id, Error("readiness check failed" + note + ": " + why), io);
          ok := false;
        case Up(port) =>
          DoAll2(g, PoolAdd(id, port), Transition(id, Running, io));
          pool := pool[id := port];
          var _ := Enter(id, Running, io);
          ok := true;
      }
    }

    method StartTool(id: string, launch: Launch, io: nat -> bool) returns (ok: bool)
      modifies this
      ensures View() == Perform(old(View()), DoStart(id, launch), io)
      ensures ok <==> id in old(agents) && io(0) && launch.Up?
                      && var s := old(agents)[id].state; s == Created || s == Stopped || s.Error?
    {
      ghost var g := View();
      if id !in agents {
        return false;
      }
      var entered := Enter(id, Starting, io(0));
      DoAll1(g, Transition(id, Starting, io(0)));
      if !entered {
        return false;
      }
      ok := LaunchAgent(id, launch, "", io(1));
    }

    method StopTool(id: string, io: nat -> bool) returns (ok: bool)
      modifies this
      ensures View() == Perform(old(View()), DoStop(id), io)
      ensures ok <==> id in old(agents) && old(agents)[id].state == Running && io(0)
    {
      ghost var g := View();
      if id !in agents {
        return false;
      }
      var entered := Enter(id, Stopping, io(0));
      DoAll1(g, Transition(id, Stopping, io(0)));
      if !entered {
        return false;
      }
      DoAll2(View(), PoolRemove(id), Transition(id, Stopped, io(1)));
      pool := pool - {id};
      var _ := Enter(id, Stopped, io(1));
      ok := true;
    }

    method HealthFailure(id: string, reason: string, io: nat -> bool)
      modifies this
      ensures View() == Perform(old(View()), DoHealthFailure(id, reason), io)
    {
      DoAll2(View(), PoolRemove(id), Transition(id, Error(reason), io(0)));
      pool := pool - {id};
      var _ := Enter(id, Error(reason), io(0));
    }

    method ConfigureTool(id: string, config: AgentConfig, launch: Launch, io: nat -> bool) returns (ok: bool)
      modifies this
      ensures View() == Perform(old(View()), DoConfigure(id, config, launch), io)
      ensures ok <==> config.id == id && id in old(agents) && io(0)
                      && (old(agents)[id].state == Running ==> io(2) && io(3) && launch.Up?)
    {
      ghost var g := View();
      ok := false;
      if config.id != id || id !in agents {
        return;
      }
      var wasRunning := agents[id].state == Running;
      if !wasRunning {
        DoAll1(g, Update(id, config, io(0)));
        ok := UpdateConfig(id, config, io(0));
        return;
      }
      ReconfigureSteps(g, id, config, launch, io);
      var entered := Enter(id, Stopping, io(0));
      if !entered {
        return;
      }
      var updated := SwapConfig(id, config, io(1), io(2));
      if !updated {
        return;
      }
      entered := Enter(id, Starting, io(3));
      if !entered {
        return;
      }
      ok := LaunchAgent(id, launch, CONFIGURING, io(4));
    }

    /** The middle of a reconfiguration: the proxy goes, the agent is Stopped, its config replaced. */
    method SwapConfig(id: string, config: AgentConfig, io0: bool, io1: bool) returns (ok: bool)
      requires id in agents && agents[id].state == Stopping && config.id == id
      modifies this
      ensures View() == Do(Do(Do(old(View()), PoolRemove(id)), Transition(id, Stopped, io0)), Update(id, config, io1))
      ensures id in agents && agents[id].state == Stopped && (ok <==> io1)
    {
      pool := pool - {id};
      var _ := Enter(id, Stopped, io0);
      ok := UpdateConfig(id, config, io1);
    }
  }
}

