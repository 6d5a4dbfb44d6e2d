/** The cron scheduler's job table, spawned loops and cancellation tokens, as values, and what its operations keep. */
module CronTable {
  import opened Wrappers

  datatype Delivery = Delivery(channel: string, target: string)

  datatype JobTarget = SystemAgent | CustomAgent(agentId: string) | CodingAgent(agentId: string)

  datatype CronJob = CronJob(
    id: string, schedule: string, message: string, deliverTo: Option<Delivery>,
    suppressKeyword: Option<string>, target: Option<JobTarget>, workspace: Option<string>)

  datatype Status = Active | Cancelled

  /** A loop is spawned with a token and runs until that token is cancelled. */
  type Token = nat

  datatype JobState = JobState(job: CronJob, status: Status, token: Option<Token>)

  const HEARTBEAT := "heartbeat"

  /** The scheduler as a value: its table, and every loop ever spawned with the tokens cancelled so far. */
  datatype World = World(jobs: map<string, JobState>, loops: map<Token, CronJob>, cancelled: set<Token>, next: Token)

  const EMPTY := World(map[], map[], {}, 0)

  // ── The operations on values ────────────────────────────────────

  function TokenSet(t: Option<Token>): set<Token> {
    match t
    case None => {}
    case Some(x) => {x}
  }

  function Cancel(w: World, id: string): World {
    if id in w.jobs then
      w.(jobs := w.jobs[id := w.jobs[id].(status := Cancelled)], cancelled := w.cancelled + TokenSet(w.jobs[id].token))
    else w
  }

  function Schedule(w: World, job: CronJob): World {
    var c := Cancel(w, job.id);
    World(c.jobs[job.id := JobState(job, Active, Some(c.next))], c.loops[c.next := job], c.cancelled, c.next + 1)
  }

  function Ids(jobs: seq<CronJob>): set<string> {
    set i | 0 <= i < |jobs| :: jobs[i].id
  }

  /** The table entries that a reload drops. */
  function Unlisted(w: World, listed: set<string>): set<string> {
    set id | id in w.jobs && id !in listed && id != HEARTBEAT
  }

  /** Dropping a set of entries: their loops are cancelled and they leave the table. */
  function Drop(w: World, ids: set<string>): World {
    w.(jobs := w.jobs - ids,
       cancelled := w.cancelled
                    + set id | id in ids && id in w.jobs && w.jobs[id].token.Some? :: w.jobs[id].token.value)
  }

  predicate NeedsUpdate(w: World, job: CronJob) {
    job.id !in w.jobs || w.jobs[job.id].job != job || w.jobs[job.id].status == Cancelled
  }

  function Update(w: World, job: CronJob): World {
    if NeedsUpdate(w, job) then Schedule(w, job) else w
  }

  function UpdateAll(w: World, jobs: seq<CronJob>): World
    decreases |jobs|
  {
    if jobs == [] then w else Update(UpdateAll(w, jobs[..|jobs| - 1]), jobs[|jobs| - 1])
  }

  function Reconcile(w: World, jobs: seq<CronJob>): World {
    UpdateAll(Drop(w, Unlisted(w, Ids(jobs))), jobs)
  }

  // ── The live loops agree with the table ─────────────────────────

  predicate Live(w: World, t: Token) {
    t in w.loops && t !in w.cancelled
  }

  ghost predicate EntryOk(w: World, id: string)
    requires id in w.jobs
  {
    var s := w.jobs[id];
    && s.job.id == id && s.token.Some? && s.token.value in w.loops && w.loops[s.token.value] == s.job
    && (s.status == Active <==> Live(w, s.token.value))
  }

  ghost predicate LoopOk(w: World, t: Token)
    requires t in w.loops
  {
    && t < w.next
    && (Live(w, t) ==> w.loops[t].id in w.jobs && w.jobs[w.loops[t].id].token == Some(t))
  }

  /** Active entries and live loops match one to one, each with the same id, token and job. */
  ghost predicate Inv(w: World) {
    && (forall id :: id in w.jobs ==> EntryOk(w, id))
    && (forall t :: t in w.loops ==> LoopOk(w, t))
    && w.cancelled <= w.loops.Keys
  }

  datatype Op = DoSchedule(job: CronJob) | DoCancel(id: string) | DoReconcile(jobs: seq<CronJob>)

  function Apply(w: World, op: Op): World {
    match op
    case DoSchedule(job) => Schedule(w, job)
    case DoCancel(id) => Cancel(w, id)
    case DoReconcile(jobs) => Reconcile(w, jobs)
  }

  function ApplyAll(w: World, ops: seq<Op>): World
    decreases |ops|
  {
    if ops == [] then w else Apply(ApplyAll(w, ops[..|ops| - 1]), ops[|ops| - 1])
  }

  lemma CancelKeepsInv(w: World, id: string)
    requires Inv(w)
    ensures Inv(Cancel(w, id))
  {
  }

  lemma ScheduleKeepsInv(w: World, job: CronJob)
    requires Inv(w)
    ensures Inv(Schedule(w, job))
  {
  }

  lemma {:induction false} UpdateAllKeepsInv(w: World, jobs: seq<CronJob>)
    requires Inv(w)
    ensures Inv(UpdateAll(w, jobs))
    decreases |jobs|
  {
    if jobs != [] {
      UpdateAllKeepsInv(w, jobs[..|jobs| - 1]);
      ScheduleKeepsInv(UpdateAll(w, jobs[..|jobs| - 1]), jobs[|jobs| - 1]);
    }
  }

  /** The invariant holds after any sequence of schedule, cancel and reconcile calls. */
  lemma {:induction false} ReachableInv(ops: seq<Op>)
    ensures Inv(ApplyAll(EMPTY, ops))
    decreases |ops|
  {
    if ops != [] {
      ReachableInv(ops[..|ops| - 1]);
      var w := ApplyAll(EMPTY, ops[..|ops| - 1]);
      match ops[|ops| - 1] {
        case DoSchedule(job) => ScheduleKeepsInv(w, job);
        case DoCancel(id) => CancelKeepsInv(w, id);
        case DoReconcile(jobs) =>
          UpdateAllKeepsInv(Drop(w, Unlisted(w, Ids(jobs))), jobs);
      }
    }
  }

  /** No job id ever has two live loops, and a loop is live exactly when an Active entry holds its token and job. */
  lemma OneLiveLoopPerJob(ops: seq<Op>)
    ensures var w := ApplyAll(EMPTY, ops);
            && (forall t, u :: Live(w, t) && Live(w, u) && w.loops[t].id == w.loops[u].id ==> t == u)
            && (forall t :: Live(w, t) <==>
                  exists id :: id in w.jobs && t in w.loops && w.jobs[id] == JobState(w.loops[t], Active, Some(t)))
  {
    ReachableInv(ops);
    var w := ApplyAll(EMPTY, ops);
    assert forall t :: Live(w, t) ==>
        w.loops[t].id in w.jobs && w.jobs[w.loops[t].id] == JobState(w.loops[t], Active, Some(t));
    assert forall id :: id in w.jobs ==> EntryOk(w, id);
  }

  /** An id is active exactly when a live loop runs under it. */
  lemma ActiveMeansLive(w: World, id: string)
    requires Inv(w)
    ensures (id in w.jobs && w.jobs[id].status == Active) <==> exists t :: Live(w, t) && w.loops[t].id == id
  {
  }

  /** Cancelling marks the entry and ends the loop of that id, and touches nothing else. */
  lemma CancelStops(w: World, id: string)
    requires Inv(w)
    ensures var c := Cancel(w, id);
            && c.loops == w.loops && c.jobs.Keys == w.jobs.Keys
            && (id in w.jobs ==> c.jobs[id] == w.jobs[id].(status := Cancelled))
            && (forall other :: other in w.jobs && other != id ==> c.jobs[other] == w.jobs[other])
            && (forall t :: t in w.loops ==> (Live(c, t) <==> Live(w, t) && w.loops[t].id != id))
  {
  }

  /** Scheduling leaves one live loop under the id, running the job, and the other ids as they were. */
  lemma ScheduleStarts(w: World, job: CronJob)
    requires Inv(w)
    ensures var s := Schedule(w, job);
            && s.jobs.Keys == w.jobs.Keys + {job.id}
            && s.jobs[job.id].job == job && s.jobs[job.id].status == Active
            && (forall other :: other in w.jobs && other != job.id ==> s.jobs[other] == w.jobs[other])
            && (exists t :: Live(s, t) && s.loops[t] == job)
            && (forall t, u :: Live(s, t) && Live(s, u) && s.loops[t].id == s.loops[u].id == job.id ==> t == u)
            && (forall t :: t in w.loops && w.loops[t].id != job.id ==> t in s.loops && (Live(s, t) <==> Live(w, t)))
  {
    var c, s := Cancel(w, job.id), Schedule(w, job);
    CancelStops(w, job.id);
    forall t | t in w.loops ensures LoopOk(w, t) {
    }
    assert Live(s, c.next) && s.loops[c.next] == job;
    forall t | Live(s, t) && s.loops[t].id == job.id ensures t == c.next {
      assert t != c.next ==> t in w.loops && Live(c, t);
    }
  }

  // ── What a reload leaves behind ─────────────────────────────────

  /** The last listed job with this id. */
  function LastListed(id: string, jobs: seq<CronJob>): CronJob
    requires id in Ids(jobs)
    decreases |jobs|
  {
    var m := |jobs| - 1;
    if jobs[m].id == id then jobs[m] else LastListed(id, jobs[..m])
  }

  lemma IdsLast(jobs: seq<CronJob>)
    requires jobs != []
    ensures Ids(jobs) == Ids(jobs[..|jobs| - 1]) + {jobs[|jobs| - 1].id}
  {
  }

  lemma {:induction false} LastListedIds(jobs: seq<CronJob>)
    ensures forall id :: id in Ids(jobs) ==> LastListed(id, jobs).id == id
    decreases |jobs|
  {
    if jobs != [] {
      LastListedIds(jobs[..|jobs| - 1]);
    }
  }

  /** One listed job settles its own entry and no other. */
  lemma UpdateEntry(w: World, job: CronJob)
    requires job.id in w.jobs ==> w.jobs[job.id].job.id == job.id
    ensures var u := Update(w, job);
            && u.jobs.Keys == w.jobs.Keys + {job.id}
            && u.jobs[job.id].job == job && u.jobs[job.id].status == Active
            && forall id :: id in w.jobs && id != job.id ==> u.jobs[id] == w.jobs[id]
  {
  }

  /** After updating, listed ids carry their last job and are Active; the others are untouched. */
  lemma {:induction false} UpdateAllTable(w: World, jobs: seq<CronJob>)
    requires forall id :: id in w.jobs ==> w.jobs[id].job.id == id
    ensures var u := UpdateAll(w, jobs);
            && u.jobs.Keys == w.jobs.Keys + Ids(jobs)
            && (forall id :: id in Ids(jobs) ==> u.jobs[id].job == LastListed(id, jobs) && u.jobs[id].status == Active)
            && (forall id :: id in w.jobs && id !in Ids(jobs) ==> u.jobs[id] == w.jobs[id])
    decreases |jobs|
  {
    if jobs != [] {
      var m := |jobs| - 1;
      UpdateAllTable(w, jobs[..m]);
      IdsLast(jobs);
      LastListedIds(jobs[..m]);
      UpdateEntry(UpdateAll(w, jobs[..m]), jobs[m]);
    }
  }

  /**
   * After a reload the table holds exactly one Active entry per listed id, with the last job
   * listed for it, plus the old heartbeat entry, untouched, if it is not listed.
   */
  lemma ReconcileTable(w: World, jobs: seq<CronJob>)
    requires Inv(w)
    ensures var r := Reconcile(w, jobs);
            && r.jobs.Keys == Ids(jobs) + (if "heartbeat" in w.jobs then {"heartbeat"} else {})
            && (forall id :: id in Ids(jobs) ==> r.jobs[id].job == LastListed(id, jobs) && r.jobs[id].status == Active)
            && ("heartbeat" in w.jobs && "heartbeat" !in Ids(jobs) ==> r.jobs["heartbeat"] == w.jobs["heartbeat"])
  {
    var d := Drop(w, Unlisted(w, Ids(jobs)));
    forall id | id in d.jobs ensures d.jobs[id].job.id == id { assert EntryOk(w, id); }
    UpdateAllTable(d, jobs);
  }

  /** The table is what the list says, up to the heartbeat entry. */
  ghost predicate Loaded(w: World, jobs: seq<CronJob>) {
    && w.jobs.Keys - {"heartbeat"} == Ids(jobs) - {"heartbeat"}
    && forall id :: id in Ids(jobs) ==>
         id in w.jobs && w.jobs[id].job == LastListed(id, jobs) && w.jobs[id].status == Active
  }

  lemma ReconcileLoads(w: World, jobs: seq<CronJob>)
    requires Inv(w)
    ensures Inv(Reconcile(w, jobs)) && Loaded(Reconcile(w, jobs), jobs)
  {
    ReconcileTable(w, jobs);
    UpdateAllKeepsInv(Drop(w, Unlisted(w, Ids(jobs))), jobs);
  }

  /** Reloads leave the id-to-job table of the last one, whatever came before, up to the heartbeat. */
  lemma LastReloadWins(w: World, a: seq<CronJob>, b: seq<CronJob>)
    requires Inv(w)
    ensures var both, one := Reconcile(Reconcile(w, a), b), Reconcile(w, b);
            && both.jobs.Keys - {"heartbeat"} == one.jobs.Keys - {"heartbeat"}
            && forall id :: id in both.jobs && (id != "heartbeat" || id in Ids(b)) ==>
                 && id in one.jobs && both.jobs[id].job == one.jobs[id].job
                 && both.jobs[id].status == one.jobs[id].status == Active
  {
    ReconcileLoads(w, a);
    ReconcileLoads(Reconcile(w, a), b);
    ReconcileLoads(w, b);
    var both := Reconcile(Reconcile(w, a), b);
    forall id | id in both.jobs && id != "heartbeat" ensures id in Ids(b) {
      assert id in both.jobs.Keys - {"heartbeat"};
    }
  }

  /** A listed job that is already running as listed keeps its entry, and so its token. */
  lemma {:induction false} UnchangedJobsUntouched(w: World, jobs: seq<CronJob>, id: string)
    requires id in w.jobs && w.jobs[id].status == Active
    requires forall i :: 0 <= i < |jobs| && jobs[i].id == id ==> jobs[i] == w.jobs[id].job
    ensures id in UpdateAll(w, jobs).jobs && UpdateAll(w, jobs).jobs[id] == w.jobs[id]
    decreases |jobs|
  {
    if jobs != [] {
      UnchangedJobsUntouched(w, jobs[..|jobs| - 1], id);
    }
  }

  lemma RunningJobKeepsToken(w: World, jobs: seq<CronJob>, id: string)
    requires id in w.jobs && w.jobs[id].status == Active && id in Ids(jobs)
    requires forall i :: 0 <= i < |jobs| && jobs[i].id == id ==> jobs[i] == w.jobs[id].job
    ensures id in Reconcile(w, jobs).jobs && Reconcile(w, jobs).jobs[id] == w.jobs[id]
  {
    UnchangedJobsUntouched(Drop(w, Unlisted(w, Ids(jobs))), jobs, id);
  }

  /** No two listed jobs share an id and differ. */
  predicate Consistent(jobs: seq<CronJob>) {
    forall i, j :: 0 <= i < |jobs| && 0 <= j < |jobs| && jobs[i].id == jobs[j].id ==> jobs[i] == jobs[j]
  }

  lemma {:induction false} LastListedIsListed(id: string, jobs: seq<CronJob>)
    requires id in Ids(jobs)
    ensures LastListed(id, jobs) in jobs && LastListed(id, jobs).id == id
    decreases |jobs|
  {
    if jobs[|jobs| - 1].id != id {
      LastListedIsListed(id, jobs[..|jobs| - 1]);
    }
  }

  /** Updating spawns nothing exactly when every listed job is already running as listed. */
  lemma {:induction false} UpdateAllIdle(w: World, jobs: seq<CronJob>)
    ensures UpdateAll(w, jobs).next >= w.next
    ensures UpdateAll(w, jobs).next == w.next <==> forall i :: 0 <= i < |jobs| ==> !NeedsUpdate(w, jobs[i])
    ensures UpdateAll(w, jobs).next == w.next ==> UpdateAll(w, jobs) == w
    decreases |jobs|
  {
    if jobs != [] {
      UpdateAllIdle(w, jobs[..|jobs| - 1]);
    }
  }

  /**
   * Reloading the same list again changes nothing, spawns nothing and cancels nothing, exactly
   * when the list does not contradict itself; with distinct ids it never does.
   */
  lemma ReloadTwiceIff(w: World, jobs: seq<CronJob>)
    requires Inv(w)
    ensures Reconcile(Reconcile(w, jobs), jobs) == Reconcile(w, jobs) <==> Consistent(jobs)
  {
    var r := Reconcile(w, jobs);
    ReconcileTable(w, jobs);
    assert Unlisted(r, Ids(jobs)) == {};
    assert Drop(r, {}) == r;
    UpdateAllIdle(r, jobs);
    forall i | 0 <= i < |jobs| ensures !NeedsUpdate(r, jobs[i]) <==> jobs[i] == LastListed(jobs[i].id, jobs) {
      assert jobs[i].id in Ids(jobs);
    }
    if Consistent(jobs) {
      forall i | 0 <= i < |jobs| ensures !NeedsUpdate(r, jobs[i]) {
        LastListedIsListed(jobs[i].id, jobs);
      }
    }
  }
}

/** The scheduler object. */
module Cron {
  import opened Wrappers
  import opened CronTable

  class CronScheduler {
    var jobs: map<string, JobState>
    var cancelled: set<Token>
    var next: Token
    ghost var loops: map<Token, CronJob>

    ghost function View(): World
      reads this
    {
      World(jobs, loops, cancelled, next)
    }

    constructor ()
      ensures View() == EMPTY
    {
      jobs, cancelled, next, loops := map[], {}, 0, map[];
    }

    method CancelJobState(id: string)
      requires id in jobs
      modifies this
      ensures View() == CronTable.Cancel(old(View()), id)
    {
      var state := jobs[id];
      jobs := jobs[id := state.(status := Cancelled)];
      if state.token.Some? {
        cancelled := cancelled + {state.token.value};
      }
    }

    method Schedule(job: CronJob)
      modifies this
      ensures View() == CronTable.Schedule(old(View()), job)
    {
      if job.id in jobs {
        CancelJobState(job.id);
      }
      var token := next;
      next := next + 1;
      loops := loops[token := job];
      jobs := jobs[job.id := JobState(job, Active, Some(token))];
    }

    method Cancel(id: string)
      modifies this
      ensures View() == CronTable.Cancel(old(View()), id)
    {
      if id in jobs {
        CancelJobState(id);
      }
    }

    /** Hot reload: drop what is no longer listed, then add or update what is. */
    method Reconcile(newJobs: seq<CronJob>)
      modifies this
      ensures View() == CronTable.Reconcile(old(View()), newJobs)
    {
      var newIds := Ids(newJobs);
      ghost var before := View();
      var todo := jobs.Keys;
      ghost var dropped: set<string> := {};
      while todo != {}
        invariant dropped == Unlisted(before, newIds) - todo
        invariant todo <= before.jobs.Keys
        invariant View() == Drop(before, dropped)
        decreases todo
      {
        var id :| id in todo;
        todo := todo - {id};
        if id !in newIds && id != HEARTBEAT {
          Cancel(id);
          jobs := jobs - {id};
          dropped := dropped + {id};
        }
      }
      assert dropped == Unlisted(before, newIds);
      ghost var kept := View();
      for i := 0 to |newJobs|
        invariant View() == UpdateAll(kept, newJobs[..i])
      {
        assert newJobs[..i + 1][..i] == newJobs[..i];
        var job := newJobs[i];
        var needsUpdate := job.id !in jobs || jobs[job.id].job != job || jobs[job.id].status == Cancelled;
        if needsUpdate {
          Schedule(job);
        }
      }
      assert newJobs[..|newJobs|] == newJobs;
    }

    /** In every reachable state the active ids are those of the loops still running. */
    method ActiveJobIds() returns (ids: set<string>)
      requires Inv(View())
      ensures forall id :: id in ids <==> exists t :: Live(View(), t) && View().loops[t].id == id
    {
      ids := set id | id in jobs && jobs[id].status == Active;
      forall id ensures id in ids <==> exists t :: Live(View(), t) && View().loops[t].id == id {
        ActiveMeansLive(View(), id);
      }
    }

    method IsActive(id: string) returns (active: bool)
      requires Inv(View())
      ensures active <==> exists t :: Live(View(), t) && View().loops[t].id == id
    {
      active := id in jobs && jobs[id].status == Active;
    }
  }
}

