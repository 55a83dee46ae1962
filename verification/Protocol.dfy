/** The protocol between runners, crashes and recovery: every service call is one atomic step
    (apps/worker/runner.py:59-422). */
module Protocol {
  import opened Bytes
  import opened Queue

  // ---------- one run of _process_queue_item ----------

  /** Where a run is, as far as the states it writes are concerned. `handling` tells whether it is in the exception
      handler. */
  datatype Phase =
    | Created
    | Downloading(callbacks: nat)
    | Downloaded
    | Decrypting
    | Staged
    | Writing
    | Verifying
    | Settled(ok: bool, handling: bool)
    | Finished(ok: bool, handling: bool)
    | Failing
    | Dead

  datatype Txn =
    | SetItem(item: ItemUpdate)
    | ChangeJob(job: JobUpdate)
    | Log(payload: Payload)

  /** What a run does next: a committed transaction, a pool thread entering or leaving a progress callback, or an
      exception. */
  datatype Action =
    | Commit(txn: Txn, now: nat)
    | CallbackBegin
    | CallbackEnd
    | Raise

  function AfterItemWrite(phase: Phase, s: QueueState): Option<Phase> {
    match phase
    case Created => if s.DOWNLOADING? then Some(Downloading(0)) else None
    case Downloading(callbacks) =>
      if s.DOWNLOADING? && callbacks > 0 then Some(phase)
      else if s.DOWNLOADED? && callbacks == 0 then Some(Downloaded)
      else None
    case Downloaded => if s.DECRYPTING? then Some(Decrypting) else None
    case Decrypting =>
      if s.WRITING_WFS? then Some(Writing)
      else if s.FALLBACK_STAGED? then Some(Staged)
      else if s.FAILED? then Some(Settled(false, false))
      else None
    case Staged => if s.DONE? then Some(Settled(true, false)) else None
    case Writing => if s.VERIFYING? then Some(Verifying) else None
    case Verifying => if s.DONE? then Some(Settled(true, false)) else None
    case Failing => if s.FAILED? then Some(Settled(false, true)) else None
    case _ => None
  }

  function AfterJobWrite(phase: Phase, u: JobUpdate): Option<Phase> {
    match u.state
    case None =>
      if phase.Created? || phase.Settled? || phase.Finished? || phase.Failing? || phase.Dead? then None else Some(phase)
    case Some(s) =>
      if !phase.Settled? || s != (if phase.ok then JOB_DONE else JOB_FAILED) then None
      else Some(Finished(phase.ok, phase.handling))
  }

  function AfterLog(phase: Phase): Option<Phase> {
    if phase.Created? || phase.Settled? || phase.Failing? || phase.Dead? || (phase.Finished? && phase.ok) then None
    else Some(phase)
  }

  /** An exception enters the handler, or, inside the handler, ends the run. No exception passes a callback that is
      still running. */
  function AfterRaise(phase: Phase): Option<Phase> {
    match phase
    case Downloading(callbacks) => if callbacks == 0 then Some(Failing) else None
    case Settled(_, handling) => Some(if handling then Dead else Failing)
    case Finished(ok, handling) => if ok then None else Some(if handling then Dead else Failing)
    case Failing => Some(Dead)
    case Dead => None
    case _ => Some(Failing)
  }

  /** The item state a run has last written when it is in a phase. */
  function StateOf(phase: Phase): QueueState {
    match phase
    case Created => QUEUED
    case Downloading(_) => DOWNLOADING
    case Downloaded => DOWNLOADED
    case Decrypting => DECRYPTING
    case Staged => FALLBACK_STAGED
    case Writing => WRITING_WFS
    case Verifying => VERIFYING
    case Settled(ok, _) => if ok then DONE else FAILED
    case Finished(ok, _) => if ok then DONE else FAILED
    case Failing => QUEUED
    case Dead => QUEUED
  }

  /** The progress that goes with each state, and the text for the job's phase. */
  function Level(s: QueueState): real {
    match s
    case QUEUED => 0.0
    case DOWNLOADING => 0.1
    case DOWNLOADED => 0.35
    case DECRYPTING => 0.5
    case WRITING_WFS => 0.65
    case FALLBACK_STAGED => 0.75
    case VERIFYING => 0.9
    case DONE => 1.0
    case FAILED => 1.0
  }

  function PhaseText(s: QueueState): string {
    match s
    case QUEUED => "queued"
    case DOWNLOADING => "downloading"
    case DOWNLOADED => "downloaded"
    case DECRYPTING => "decrypting"
    case WRITING_WFS => "writing_wfs"
    case FALLBACK_STAGED => "fallback_staged"
    case VERIFYING => "verifying"
    case DONE => "done"
    case FAILED => "failed"
  }

  /** While downloading, progress moves between 0.1 and 0.35; every other state has its own. */
  predicate Fits(s: QueueState, progress: Option<real>) {
    progress.Some? && if s.DOWNLOADING? then 0.1 <= progress.value <= 0.35 else progress.value == Level(s)
  }

  /** An item is given an error code exactly when it fails. */
  predicate ItemFits(u: ItemUpdate) { Fits(u.state, u.progress) && (u.errorCode.Some? <==> u.state.FAILED?) }

  /** The job follows its item. */
  predicate JobFits(phase: Phase, u: JobUpdate) {
    u.phase == Some(PhaseText(StateOf(phase))) && Fits(StateOf(phase), u.progress)
  }

  function After(phase: Phase, action: Action): Option<Phase> {
    match action
    case Commit(SetItem(u), _) => if ItemFits(u) then AfterItemWrite(phase, u.state) else None
    case Commit(ChangeJob(u), _) => if JobFits(phase, u) then AfterJobWrite(phase, u) else None
    case Commit(Log(_), _) => AfterLog(phase)
    case CallbackBegin => if phase.Downloading? then Some(Downloading(phase.callbacks + 1)) else None
    case CallbackEnd =>
      if phase.Downloading? && phase.callbacks > 0 then Some(Downloading(phase.callbacks - 1)) else None
    case Raise => AfterRaise(phase)
  }

  function Effect(db: Db, itemId: nat, jobId: nat, action: Action): Db {
    match action
    case Commit(SetItem(u), now) => SetStateDb(db, itemId, u, now)
    case Commit(ChangeJob(u), now) => UpdateJobDb(db, jobId, u, now)
    case Commit(Log(payload), _) => AddEventDb(db, JobEvent(jobId, payload))
    case _ => db
  }

  // ---------- all runs together ----------

  datatype Runner = Runner(itemId: nat, phase: Phase)

  /** Runs are known by their jobs, which nobody else writes. */
  datatype Sys = Sys(db: Db, runners: map<nat, Runner>, up: bool)

  datatype SysStep =
    | AddItem(id: nat, item: Item)
    | Spawn(itemId: nat, jobId: nat, time: nat)
    | Act(jobId: nat, action: Action)
    | Crash
    | Recover(reason: string, time: nat, count: nat)

  /** The worker loop, direct executes, progress callbacks, crashes and restarts, in any order. */
  predicate Next(s: Sys, step: SysStep, t: Sys) {
    match step
    case AddItem(id, item) =>
      && s.up && id !in s.db.items && item.state == QUEUED
      && t == s.(db := s.db.(items := s.db.items[id := item]))
    case Spawn(itemId, jobId, time) =>
      && s.up && itemId in s.db.items && jobId !in s.db.jobs
      && t == s.(db := s.db.(jobs := s.db.jobs[jobId := NewJob(itemId, "queued", 0.0, time)]),
                 runners := s.runners[jobId := Runner(itemId, Created)])
    case Act(jobId, action) =>
      && s.up && jobId in s.runners
      && After(s.runners[jobId].phase, action).Some?
      && t == s.(db := Effect(s.db, s.runners[jobId].itemId, jobId, action),
                 runners := s.runners[jobId := s.runners[jobId].(phase := After(s.runners[jobId].phase, action).value)])
    case Crash => t == Sys(s.db, map[], false)
    case Recover(reason, time, count) =>
      !s.up && Recovers(s.db, t.db, reason, time, count) && t.runners == map[] && t.up
  }

  const EMPTY := Sys(Db(map[], map[], []), map[], true)

  datatype Run = Run(states: seq<Sys>, steps: seq<SysStep>)

  /** A history from the empty database. */
  predicate IsRun(run: Run) {
    && |run.states| == |run.steps| + 1
    && run.states[0] == EMPTY
    && forall k | 0 <= k < |run.steps| :: Next(run.states[k], run.steps[k], run.states[k + 1])
  }

  /** A run that still owes its item a terminal state. */
  predicate Unsettled(phase: Phase) { !phase.Settled? && !phase.Finished? }

  predicate Holds(s: Sys, itemId: nat, jobId: nat) {
    && jobId in s.db.jobs && s.db.jobs[jobId].itemId == itemId && s.db.jobs[jobId].state == RUNNING
    && (s.up ==> jobId in s.runners && Unsettled(s.runners[jobId].phase))
  }

  /** A run's job is the run's own, and is running until the run ends it. */
  predicate RunnerOk(s: Sys, jobId: nat) {
    jobId in s.runners ==>
      && jobId in s.db.jobs && s.runners[jobId].itemId in s.db.items
      && s.db.jobs[jobId].itemId == s.runners[jobId].itemId
      && match s.runners[jobId].phase
         case Settled(_, handling) => handling || s.db.jobs[jobId].state == RUNNING
         case Finished(ok, _) => s.db.jobs[jobId].state == if ok then JOB_DONE else JOB_FAILED
         case Failing => true
         case Dead => true
         case _ => s.db.jobs[jobId].state == RUNNING
  }

  predicate JobOk(s: Sys, jobId: nat) {
    jobId in s.db.jobs ==>
      && s.db.jobs[jobId].itemId in s.db.items
      && (s.db.jobs[jobId].finishedAt.Some? <==> Terminal(s.db.jobs[jobId].state))
      && (s.up && s.db.jobs[jobId].state == RUNNING ==> jobId in s.runners)
  }

  /** A job of a waiting item is running, and its run has not yet written the item. */
  predicate WaitingOk(s: Sys, jobId: nat) {
    && jobId in s.db.jobs && s.db.jobs[jobId].itemId in s.db.items
    && s.db.items[s.db.jobs[jobId].itemId].state == QUEUED ==>
      && s.db.jobs[jobId].state == RUNNING
      && (jobId in s.runners ==>
            s.runners[jobId].phase.Created? || s.runners[jobId].phase.Failing? || s.runners[jobId].phase.Dead?)
  }

  ghost predicate Invariant(s: Sys) {
    && (forall j :: RunnerOk(s, j) && JobOk(s, j) && WaitingOk(s, j))
    && (forall i | i in s.db.items && Active(s.db.items[i].state) :: exists j :: Holds(s, i, j))
  }

  lemma ActKeepsItems(s: Sys, jobId: nat, action: Action, t: Sys)
    requires Next(s, Act(jobId, action), t) && Invariant(s)
    ensures jobId in s.db.jobs && t.db.items.Keys == s.db.items.Keys && t.db.jobs.Keys == s.db.jobs.Keys
    ensures forall i | i in s.db.items && i != s.runners[jobId].itemId :: t.db.items[i] == s.db.items[i]
    ensures forall j | j in s.db.jobs && j != jobId :: t.db.jobs[j] == s.db.jobs[j]
    ensures t.db.jobs[jobId].itemId == s.db.jobs[jobId].itemId
  {
    assert RunnerOk(s, jobId);
  }

  lemma ActKeepsHolders(s: Sys, jobId: nat, action: Action, t: Sys, i: nat)
    requires Next(s, Act(jobId, action), t) && Invariant(s)
    requires i in t.db.items && Active(t.db.items[i].state)
    ensures exists j :: Holds(t, i, j)
  {
    ActKeepsItems(s, jobId, action, t);
    assert RunnerOk(s, jobId) && JobOk(s, jobId);
    var item := s.runners[jobId].itemId;
    if i == item && action.Commit? && action.txn.SetItem? {
      assert Holds(t, i, jobId);
    } else {
      assert t.db.items[i].state == s.db.items[i].state;
      var j :| Holds(s, i, j);
      if j != jobId { assert Holds(t, i, j); } else { assert Holds(t, i, jobId); }
    }
  }

  lemma ActKeepsOwnRunner(s: Sys, jobId: nat, action: Action, t: Sys)
    requires Next(s, Act(jobId, action), t) && Invariant(s)
    ensures RunnerOk(t, jobId) && JobOk(t, jobId)
  {
    assert RunnerOk(s, jobId) && JobOk(s, jobId);
  }

  lemma ActKeepsOwnWaiting(s: Sys, jobId: nat, action: Action, t: Sys)
    requires Next(s, Act(jobId, action), t) && Invariant(s)
    ensures WaitingOk(t, jobId)
  {
    assert RunnerOk(s, jobId) && JobOk(s, jobId) && WaitingOk(s, jobId);
  }

  lemma ActKeepsRunners(s: Sys, jobId: nat, action: Action, t: Sys, j: nat)
    requires Next(s, Act(jobId, action), t) && Invariant(s)
    ensures RunnerOk(t, j) && JobOk(t, j) && WaitingOk(t, j)
  {
    ActKeepsOwnRunner(s, jobId, action, t);
    ActKeepsOwnWaiting(s, jobId, action, t);
    if j != jobId {
      ActKeepsItems(s, jobId, action, t);
      assert RunnerOk(s, jobId);
      assert RunnerOk(s, j) && JobOk(s, j) && WaitingOk(s, j);
    }
  }

  lemma RecoverKeeps(s: Sys, reason: string, time: nat, count: nat, t: Sys)
    requires Next(s, Recover(reason, time, count), t) && Invariant(s)
    ensures Invariant(t)
  {
    forall j ensures RunnerOk(t, j) && JobOk(t, j) && WaitingOk(t, j) {
      assert RunnerOk(s, j) && JobOk(s, j) && WaitingOk(s, j);
    }
    forall i | i in t.db.items && Active(t.db.items[i].state) ensures false {
      NoActiveAfterRecovery(s, reason, time, count, t, i);
    }
  }

  lemma NoActiveAfterRecovery(s: Sys, reason: string, time: nat, count: nat, t: Sys, i: nat)
    requires Next(s, Recover(reason, time, count), t) && Invariant(s)
    requires i in t.db.items
    ensures !Active(t.db.items[i].state)
  {
    if Active(s.db.items[i].state) {
      var j :| Holds(s, i, j);
      assert j in RunningJobs(s.db.jobs);
    }
  }

  lemma NextKeeps(s: Sys, step: SysStep, t: Sys)
    requires Next(s, step, t) && Invariant(s)
    ensures Invariant(t)
  {
    match step {
      case AddItem(id, item) =>
        forall j ensures RunnerOk(t, j) && JobOk(t, j) && WaitingOk(t, j) {
          assert RunnerOk(s, j) && JobOk(s, j) && WaitingOk(s, j);
        }
        forall i | i in t.db.items && Active(t.db.items[i].state) ensures exists j :: Holds(t, i, j) {
          var j :| Holds(s, i, j);
          assert Holds(t, i, j);
        }
      case Spawn(itemId, jobId, time) =>
        forall j ensures RunnerOk(t, j) && JobOk(t, j) && WaitingOk(t, j) {
          assert RunnerOk(s, j) && JobOk(s, j) && WaitingOk(s, j);
        }
        forall i | i in t.db.items && Active(t.db.items[i].state) ensures exists j :: Holds(t, i, j) {
          var j :| Holds(s, i, j);
          assert Holds(t, i, j);
        }
      case Act(jobId, action) =>
        forall j ensures RunnerOk(t, j) && JobOk(t, j) && WaitingOk(t, j) { ActKeepsRunners(s, jobId, action, t, j); }
        forall i | i in t.db.items && Active(t.db.items[i].state) ensures exists j :: Holds(t, i, j) {
          ActKeepsHolders(s, jobId, action, t, i);
        }
      case Crash =>
        forall j ensures RunnerOk(t, j) && JobOk(t, j) && WaitingOk(t, j) {
          assert RunnerOk(s, j) && JobOk(s, j) && WaitingOk(s, j);
        }
        forall i | i in t.db.items && Active(t.db.items[i].state) ensures exists j :: Holds(t, i, j) {
          var j :| Holds(s, i, j);
          assert Holds(t, i, j);
        }
      case Recover(reason, time, count) =>
        RecoverKeeps(s, reason, time, count, t);
    }
  }

  /** The invariant holds throughout every history. */
  lemma {:induction false} AlwaysInvariant(run: Run, k: nat)
    requires IsRun(run) && k < |run.states|
    ensures Invariant(run.states[k])
  {
    if k > 0 {
      AlwaysInvariant(run, k - 1);
      NextKeeps(run.states[k - 1], run.steps[k - 1], run.states[k]);
    }
  }

  // ---------- the theorems ----------

  /** At every point of every history, an item being worked on has a running job. */
  lemma ActiveItemsHaveRunningJobs(run: Run, k: nat, i: nat)
    requires IsRun(run) && k < |run.states|
    requires i in run.states[k].db.items && Active(run.states[k].db.items[i].state)
    ensures exists j :: j in run.states[k].db.jobs && run.states[k].db.jobs[j].itemId == i
                        && run.states[k].db.jobs[j].state == RUNNING
  {
    AlwaysInvariant(run, k);
    var j :| Holds(run.states[k], i, j);
  }

  /** A job has a finishing time exactly when it is done or failed. */
  lemma FinishedExactlyWhenTerminal(run: Run, k: nat, j: nat)
    requires IsRun(run) && k < |run.states| && j in run.states[k].db.jobs
    ensures run.states[k].db.jobs[j].finishedAt.Some? <==> Terminal(run.states[k].db.jobs[j].state)
  {
    AlwaysInvariant(run, k);
    assert JobOk(run.states[k], j);
  }

  /** Whatever was interrupted, recovery leaves no running job, and every item finished, staged or never started. */
  lemma AfterRecovery(run: Run, k: nat)
    requires IsRun(run) && k < |run.steps| && run.steps[k].Recover?
    ensures var t := run.states[k + 1].db;
            && (forall j | j in t.jobs :: Terminal(t.jobs[j].state))
            && (forall i | i in t.items ::
                  || t.items[i].state in {DONE, FAILED, FALLBACK_STAGED}
                  || (t.items[i].state == QUEUED && forall j | j in t.jobs :: t.jobs[j].itemId != i))
  {
    AlwaysInvariant(run, k);
    AlwaysInvariant(run, k + 1);
    var s, t := run.states[k], run.states[k + 1];
    var Recover(reason, time, count) := run.steps[k];
    forall j | j in t.db.jobs ensures Terminal(t.db.jobs[j].state) {
    }
    forall i | i in t.db.items && t.db.items[i].state == QUEUED
      ensures forall j | j in t.db.jobs :: t.db.jobs[j].itemId != i
    {
      forall j | j in t.db.jobs ensures t.db.jobs[j].itemId != i { assert WaitingOk(t, j); }
    }
    forall i | i in t.db.items ensures !Active(t.db.items[i].state) {
      NoActiveAfterRecovery(s, reason, time, count, t, i);
    }
  }

  /** Recovery never touches an item that is done, failed or staged, although its job may turn failed. */
  lemma RecoveryKeepsSettledItems(s: Sys, reason: string, time: nat, count: nat, t: Sys, i: nat)
    requires Next(s, Recover(reason, time, count), t) && i in s.db.items
    ensures i in t.db.items
    ensures s.db.items[i].state in {DONE, FAILED, FALLBACK_STAGED} ==> t.db.items[i] == s.db.items[i]
    ensures Recoverable(s.db.items[i].state) && i in RunningItems(s.db.jobs) ==>
              t.db.items[i].state == FAILED && t.db.items[i].errorCode == Some("INTERRUPTED")
  {
  }

  /** After any recovery, an item is staged exactly when it was before: recovery neither stages an item nor settles a
      staged one. */
  lemma StagedExactlyAsBefore(run: Run, k: nat, i: nat)
    requires IsRun(run) && k < |run.steps| && run.steps[k].Recover?
    ensures i in run.states[k + 1].db.items <==> i in run.states[k].db.items
    ensures i in run.states[k].db.items ==>
              (run.states[k + 1].db.items[i].state == FALLBACK_STAGED <==>
               run.states[k].db.items[i].state == FALLBACK_STAGED)
  {
    assert Next(run.states[k], run.steps[k], run.states[k + 1]);
  }

  /** A second recovery finds nothing to do. */
  lemma SecondRecoveryIdle(was: Db, now: Db, later: Db, reason: string, time: nat, count: nat,
                           reason2: string, time2: nat, count2: nat)
    requires Recovers(was, now, reason, time, count) && Recovers(now, later, reason2, time2, count2)
    ensures count2 == 0 && later == now
  {
    assert RunningJobs(now.jobs) == {};
    assert RunningItems(now.jobs) == {};
    assert RecoveredJobs(now.jobs, {}, reason2, time2) == now.jobs;
    assert RecoveredItems(now.items, {}, time2) == now.items;
    assert later.events[|now.events|..] == [];
    assert later.events == now.events;
  }

  /** Recovery adds one event to each job it counts, and only to those. */
  lemma OneRecoveredEventPerJob(was: Db, now: Db, reason: string, time: nat, count: nat)
    requires Recovers(was, now, reason, time, count)
    ensures |now.events| == |was.events| + count
    ensures forall j | j in was.jobs && was.jobs[j].state == RUNNING ::
              JobEvent(j, Payload.Recovered(reason)) in now.events[|was.events|..]
    ensures forall e | e in now.events[|was.events|..] :: e.job in was.jobs && was.jobs[e.job].state == RUNNING
  {
    var log := now.events[|was.events|..];
    forall j | j in was.jobs && was.jobs[j].state == RUNNING
      ensures JobEvent(j, Payload.Recovered(reason)) in log
    {
      assert j in RunningJobs(was.jobs);
      var e :| e in log && e.job == j;
    }
    forall e | e in log ensures e.job in RunningJobs(was.jobs) {
      assert e.job in set f | f in log :: f.job;
    }
  }

  // ---------- one run, from start to end ----------

  /** Where a run is after its actions; None when they are not those of a run. */
  function Trace(actions: seq<Action>): Option<Phase> {
    if actions == [] then Some(Created)
    else
      match Trace(actions[..|actions| - 1])
      case None => None
      case Some(phase) => After(phase, actions[|actions| - 1])
  }

  function Replay(db: Db, itemId: nat, jobId: nat, actions: seq<Action>): Db {
    if actions == [] then db
    else Effect(Replay(db, itemId, jobId, actions[..|actions| - 1]), itemId, jobId, actions[|actions| - 1])
  }

  /** The item states that a run's actions write, in order. */
  function Observed(actions: seq<Action>): seq<QueueState> {
    if actions == [] then []
    else
      var front, last := Observed(actions[..|actions| - 1]), actions[|actions| - 1];
      if last.Commit? && last.txn.SetItem? then front + [last.txn.item.state] else front
  }

  predicate Follows(a: QueueState, b: QueueState) {
    || b.FAILED?
    || (a.DOWNLOADING? && (b.DOWNLOADING? || b.DOWNLOADED?))
    || (a.DOWNLOADED? && b.DECRYPTING?)
    || (a.DECRYPTING? && (b.WRITING_WFS? || b.FALLBACK_STAGED?))
    || (a.WRITING_WFS? && b.VERIFYING?)
    || (a.VERIFYING? && b.DONE?)
    || (a.FALLBACK_STAGED? && b.DONE?)
  }

  /** DOWNLOADING, repeated, DOWNLOADED, DECRYPTING, then either way to DONE, with FAILED possible after each. */
  predicate LegalPath(states: seq<QueueState>) {
    if states == [] then true
    else if |states| == 1 then states[0].DOWNLOADING? || states[0].FAILED?
    else LegalPath(states[..|states| - 1]) && Follows(states[|states| - 2], states[|states| - 1])
  }

  predicate LastFits(phase: Phase, states: seq<QueueState>) {
    match phase
    case Created => states == []
    case Failing => true
    case Dead => true
    case Downloading(_) => states != [] && states[|states| - 1].DOWNLOADING?
    case Downloaded => states != [] && states[|states| - 1].DOWNLOADED?
    case Decrypting => states != [] && states[|states| - 1].DECRYPTING?
    case Staged => states != [] && states[|states| - 1].FALLBACK_STAGED?
    case Writing => states != [] && states[|states| - 1].WRITING_WFS?
    case Verifying => states != [] && states[|states| - 1].VERIFYING?
    case Settled(ok, _) => states != [] && states[|states| - 1] == if ok then DONE else FAILED
    case Finished(ok, _) => states != [] && states[|states| - 1] == if ok then DONE else FAILED
  }

  /** The states a run writes form a legal path that ends where the run is. */
  lemma {:induction false} RunsFollowThePath(actions: seq<Action>)
    requires Trace(actions).Some?
    ensures LegalPath(Observed(actions)) && LastFits(Trace(actions).value, Observed(actions))
    decreases |actions|
  {
    if actions != [] {
      var front, last := actions[..|actions| - 1], actions[|actions| - 1];
      RunsFollowThePath(front);
      if last.Commit? && last.txn.SetItem? {
        var states, next := Observed(front), last.txn.item.state;
        assert (states + [next])[..|states|] == states;
      }
    }
  }

  /** On a legal path, nothing but DOWNLOADING comes before a DOWNLOADING: none lands after DOWNLOADED. */
  lemma {:induction false} NoLateDownloading(states: seq<QueueState>, i: nat, k: nat)
    requires LegalPath(states) && i < k < |states| && states[k].DOWNLOADING?
    ensures states[i].DOWNLOADING?
    decreases |states|
  {
    var n := |states| - 1;
    if k < n {
      NoLateDownloading(states[..n], i, k);
    } else if i < n - 1 {
      NoLateDownloading(states[..n], i, n - 1);
    }
  }

  predicate ItemSettled(item: Item, ok: bool) {
    && item.state == (if ok then DONE else FAILED) && item.progress == 1.0
    && (!ok ==> item.errorCode.Some?)
  }

  predicate SoloOk(phase: Phase, item: Item, job: Job) {
    match phase
    case Settled(ok, _) => ItemSettled(item, ok)
    case Finished(ok, _) =>
      && ItemSettled(item, ok) && job.finishedAt.Some?
      && job.state == (if ok then JOB_DONE else JOB_FAILED)
      && job.phase == PhaseText(item.state) && job.progress == 1.0
    case _ => true
  }

  /** Only the run's own item and job rows are written. */
  predicate OwnRowsOnly(db: Db, after: Db, itemId: nat, jobId: nat) {
    && after.items.Keys == db.items.Keys && after.jobs.Keys == db.jobs.Keys
    && (forall i | i in db.items && i != itemId :: after.items[i] == db.items[i])
    && (forall j | j in db.jobs && j != jobId :: after.jobs[j] == db.jobs[j])
  }

  lemma EffectOnOwnRows(db: Db, itemId: nat, jobId: nat, a: Action)
    ensures OwnRowsOnly(db, Effect(db, itemId, jobId, a), itemId, jobId)
  {
  }

  lemma SoloStep(db: Db, itemId: nat, jobId: nat, phase: Phase, a: Action)
    requires itemId in db.items && jobId in db.jobs && SoloOk(phase, db.items[itemId], db.jobs[jobId])
    requires After(phase, a).Some?
    ensures var after := Effect(db, itemId, jobId, a);
            && itemId in after.items && jobId in after.jobs
            && SoloOk(After(phase, a).value, after.items[itemId], after.jobs[jobId])
  {
  }

  /** Alone on its item, a run that returns leaves item and job in the state it returns, complete, with an error code
      when it failed, and touches no other row. */
  lemma {:induction false} RunLeavesItsState(db: Db, itemId: nat, jobId: nat, actions: seq<Action>)
    requires Trace(actions).Some? && itemId in db.items && jobId in db.jobs
    ensures var after := Replay(db, itemId, jobId, actions);
            && OwnRowsOnly(db, after, itemId, jobId)
            && SoloOk(Trace(actions).value, after.items[itemId], after.jobs[jobId])
    decreases |actions|
  {
    if actions != [] {
      var front, last := actions[..|actions| - 1], actions[|actions| - 1];
      RunLeavesItsState(db, itemId, jobId, front);
      EffectOnOwnRows(Replay(db, itemId, jobId, front), itemId, jobId, last);
      SoloStep(Replay(db, itemId, jobId, front), itemId, jobId, Trace(front).value, last);
    }
  }

  /** An old error code is never cleared, not even by a run that ends done. */
  lemma {:induction false} ErrorCodeNeverCleared(db: Db, itemId: nat, jobId: nat, actions: seq<Action>)
    requires itemId in db.items && db.items[itemId].errorCode.Some?
    ensures var after := Replay(db, itemId, jobId, actions);
            itemId in after.items && after.items[itemId].errorCode.Some?
    decreases |actions|
  {
    if actions != [] {
      ErrorCodeNeverCleared(db, itemId, jobId, actions[..|actions| - 1]);
    }
  }

  /** A run that has not failed, and is not about to. */
  predicate NotFailed(phase: Phase) {
    !phase.Failing? && !phase.Dead? && (phase.Settled? || phase.Finished? ==> phase.ok)
  }

  lemma CodeKeptByStep(db: Db, itemId: nat, jobId: nat, phase: Phase, a: Action)
    requires After(phase, a).Some? && NotFailed(After(phase, a).value)
    ensures NotFailed(phase)
    ensures itemId in db.items ==>
              && itemId in Effect(db, itemId, jobId, a).items
              && Effect(db, itemId, jobId, a).items[itemId].errorCode == db.items[itemId].errorCode
  {
  }

  /** A run that has not failed leaves the error code exactly as it found it: a DONE item carries a code if and only if
      it did before. */
  lemma {:induction false} ErrorCodeKeptUnlessFailed(db: Db, itemId: nat, jobId: nat, actions: seq<Action>)
    requires Trace(actions).Some? && NotFailed(Trace(actions).value) && itemId in db.items
    ensures var after := Replay(db, itemId, jobId, actions);
            itemId in after.items && after.items[itemId].errorCode == db.items[itemId].errorCode
    decreases |actions|
  {
    if actions != [] {
      var front, last := actions[..|actions| - 1], actions[|actions| - 1];
      CodeKeptByStep(Replay(db, itemId, jobId, front), itemId, jobId, Trace(front).value, last);
      ErrorCodeKeptUnlessFailed(db, itemId, jobId, front);
    }
  }

  lemma TraceSnoc(actions: seq<Action>, a: Action)
    requires Trace(actions).Some?
    ensures Trace(actions + [a]) == After(Trace(actions).value, a)
  {
    assert (actions + [a])[..|actions|] == actions;
  }

  lemma ReplaySnoc(db: Db, itemId: nat, jobId: nat, actions: seq<Action>, a: Action)
    ensures Replay(db, itemId, jobId, actions + [a]) == Effect(Replay(db, itemId, jobId, actions), itemId, jobId, a)
  {
    assert (actions + [a])[..|actions|] == actions;
  }

  // ---------- runs as parts of histories ----------

  /** The rows a run starts from. */
  function Begun(db: Db, itemId: nat, jobId: nat, now: nat): Db {
    db.(jobs := db.jobs[jobId := NewJob(itemId, "queued", 0.0, now)])
  }

  lemma Extend(run: Run, step: SysStep, t: Sys) returns (longer: Run)
    requires IsRun(run) && Next(run.states[|run.steps|], step, t)
    ensures IsRun(longer) && |longer.steps| == |run.steps| + 1
    ensures longer.states[|longer.steps|] == t && longer.steps == run.steps + [step]
  {
    longer := Run(run.states + [t], run.steps + [step]);
    forall k | 0 <= k < |longer.steps| ensures Next(longer.states[k], longer.steps[k], longer.states[k + 1]) {
      if k < |run.steps| { assert Next(run.states[k], run.steps[k], run.states[k + 1]); }
    }
  }

  function Acted(s: Sys, jobId: nat, action: Action): Sys
    requires jobId in s.runners && After(s.runners[jobId].phase, action).Some?
  {
    s.(db := Effect(s.db, s.runners[jobId].itemId, jobId, action),
       runners := s.runners[jobId := s.runners[jobId].(phase := After(s.runners[jobId].phase, action).value)])
  }

  /** The actions of a run, one by one, extend any history that is up: what holds throughout histories holds throughout
      runs. */
  lemma {:induction false} RunExtendsHistory(run: Run, itemId: nat, jobId: nat, now: nat, actions: seq<Action>)
    returns (longer: Run)
    requires IsRun(run) && Trace(actions).Some?
    requires var s := run.states[|run.steps|]; s.up && itemId in s.db.items && jobId !in s.db.jobs
    ensures IsRun(longer) && |longer.steps| == |run.steps| + 1 + |actions|
    ensures var s, t := run.states[|run.steps|], longer.states[|longer.steps|];
            && t.up && t.db == Replay(Begun(s.db, itemId, jobId, now), itemId, jobId, actions)
            && jobId in t.runners && t.runners[jobId] == Runner(itemId, Trace(actions).value)
    decreases |actions|
  {
    var s := run.states[|run.steps|];
    if actions == [] {
      var t := s.(db := Begun(s.db, itemId, jobId, now), runners := s.runners[jobId := Runner(itemId, Created)]);
      longer := Extend(run, Spawn(itemId, jobId, now), t);
    } else {
      var front, last := actions[..|actions| - 1], actions[|actions| - 1];
      longer := RunExtendsHistory(run, itemId, jobId, now, front);
      longer := Extend(longer, Act(jobId, last), Acted(longer.states[|longer.steps|], jobId, last));
    }
  }

  // ---------- a run among others ----------

  /** What one job's run does in a stretch of a history. */
  function OwnActions(run: Run, jobId: nat, from: nat, upto: nat): seq<Action>
    requires from <= upto <= |run.steps|
  {
    if upto == from then []
    else
      var front := OwnActions(run, jobId, from, upto - 1);
      match run.steps[upto - 1]
      case Act(j, action) => if j == jobId then front + [action] else front
      case _ => front
  }

  /** A step that is no crash, no recovery, and no action of another job on the item. */
  predicate LeavesAlone(s: Sys, step: SysStep, itemId: nat, jobId: nat) {
    match step
    case AddItem(_, _) => true
    case Spawn(_, _, _) => true
    case Act(j, _) => j == jobId || (j in s.runners && s.runners[j].itemId != itemId)
    case Crash => false
    case Recover(_, _, _) => false
  }

  predicate Undisturbed(run: Run, itemId: nat, jobId: nat, from: nat, upto: nat)
    requires IsRun(run) && from <= upto <= |run.steps|
  {
    forall k | from <= k < upto :: LeavesAlone(run.states[k], run.steps[k], itemId, jobId)
  }

  /** A run's rows are as its own actions would have made them alone. */
  predicate AsAlone(s: Sys, db: Db, itemId: nat, jobId: nat, actions: seq<Action>) {
    && s.up && jobId in s.runners && s.runners[jobId].itemId == itemId && itemId in s.db.items && jobId in s.db.jobs
    && Trace(actions) == Some(s.runners[jobId].phase)
    && SameOwnRows(s.db, Replay(db, itemId, jobId, actions), itemId, jobId)
  }

  /** What a transaction does to a run's own rows depends on nothing else. */
  lemma EffectOnSameRows(a: Db, b: Db, itemId: nat, jobId: nat, action: Action)
    requires SameOwnRows(a, b, itemId, jobId)
    ensures SameOwnRows(Effect(a, itemId, jobId, action), Effect(b, itemId, jobId, action), itemId, jobId)
  {
    if action.Commit? && action.txn.Log? {
      var e := JobEvent(jobId, action.txn.payload);
      EventsOfSnoc(a.events, e, jobId);
      EventsOfSnoc(b.events, e, jobId);
    }
  }

  lemma OneStepAsAlone(s: Sys, step: SysStep, t: Sys, db: Db, itemId: nat, jobId: nat, actions: seq<Action>)
    requires Next(s, step, t) && LeavesAlone(s, step, itemId, jobId) && AsAlone(s, db, itemId, jobId, actions)
    ensures AsAlone(t, db, itemId, jobId, if step.Act? && step.jobId == jobId then actions + [step.action] else actions)
  {
    if step.Act? {
      if step.jobId == jobId {
        TraceSnoc(actions, step.action);
        ReplaySnoc(db, itemId, jobId, actions, step.action);
        EffectOnSameRows(s.db, Replay(db, itemId, jobId, actions), itemId, jobId, step.action);
      } else if step.action.Commit? && step.action.txn.Log? {
        EventsOfSnoc(s.db.events, JobEvent(step.jobId, step.action.txn.payload), jobId);
      }
    }
  }

  /** While other items are worked on, added and executed in between, a run's own rows are what its own actions make of
      them. */
  lemma {:induction false} AmidOthersAsAlone(run: Run, itemId: nat, jobId: nat, time: nat, from: nat, upto: nat)
    requires IsRun(run) && from < upto <= |run.steps| && run.steps[from] == Spawn(itemId, jobId, time)
    requires Undisturbed(run, itemId, jobId, from + 1, upto)
    ensures AsAlone(run.states[upto], Begun(run.states[from].db, itemId, jobId, time), itemId, jobId,
                    OwnActions(run, jobId, from + 1, upto))
    decreases upto
  {
    var db := Begun(run.states[from].db, itemId, jobId, time);
    if upto == from + 1 {
      assert Next(run.states[from], run.steps[from], run.states[upto]);
    } else {
      AmidOthersAsAlone(run, itemId, jobId, time, from, upto - 1);
      assert Next(run.states[upto - 1], run.steps[upto - 1], run.states[upto]);
      assert LeavesAlone(run.states[upto - 1], run.steps[upto - 1], itemId, jobId);
      OneStepAsAlone(run.states[upto - 1], run.steps[upto - 1], run.states[upto], db, itemId, jobId,
                     OwnActions(run, jobId, from + 1, upto - 1));
    }
  }

  /** Without another run on the same item, whatever happens to other items: a run that has finished has left item and
      job in the state it returns, complete, with an error code when it failed and the old one when it did not, along a
      legal path. */
  lemma RunSettlesAmidOthers(run: Run, itemId: nat, jobId: nat, time: nat, from: nat, upto: nat)
    requires IsRun(run) && from < upto <= |run.steps| && run.steps[from] == Spawn(itemId, jobId, time)
    requires Undisturbed(run, itemId, jobId, from + 1, upto)
    ensures var s, t := run.states[from], run.states[upto];
            && jobId in t.runners && t.runners[jobId].itemId == itemId
            && itemId in s.db.items && itemId in t.db.items && jobId in t.db.jobs
            && SoloOk(t.runners[jobId].phase, t.db.items[itemId], t.db.jobs[jobId])
            && (NotFailed(t.runners[jobId].phase) ==> t.db.items[itemId].errorCode == s.db.items[itemId].errorCode)
            && LegalPath(Observed(OwnActions(run, jobId, from + 1, upto)))
  {
    assert Next(run.states[from], run.steps[from], run.states[from + 1]);
    AmidOthersAsAlone(run, itemId, jobId, time, from, upto);
    var db, actions := Begun(run.states[from].db, itemId, jobId, time), OwnActions(run, jobId, from + 1, upto);
    RunLeavesItsState(db, itemId, jobId, actions);
    if NotFailed(Trace(actions).value) { ErrorCodeKeptUnlessFailed(db, itemId, jobId, actions); }
    RunsFollowThePath(actions);
  }

  // ---------- exceptions ----------

  /** The exceptions that reached the run's own code. */
  function Raises(actions: seq<Action>): nat {
    if actions == [] then 0 else Raises(actions[..|actions| - 1]) + if actions[|actions| - 1].Raise? then 1 else 0
  }

  /** Inside the exception handler. */
  predicate Handling(phase: Phase) {
    phase.Failing? || ((phase.Settled? || phase.Finished?) && phase.handling)
  }

  /** A run has seen no exception before its handler, one in it, and two when it has escaped: no third can follow. */
  lemma {:induction false} RaisesTellThePhase(actions: seq<Action>)
    requires Trace(actions).Some?
    ensures Raises(actions) == if Trace(actions).value.Dead? then 2 else if Handling(Trace(actions).value) then 1 else 0
    decreases |actions|
  {
    if actions != [] { RaisesTellThePhase(actions[..|actions| - 1]); }
  }

  /** What escapes a run is raised by its handler, as the run's last action. */
  lemma EscapeIsRaisedInHandler(actions: seq<Action>)
    requires Trace(actions) == Some(Dead)
    ensures actions != []
    ensures var front, last := actions[..|actions| - 1], actions[|actions| - 1];
            last.Raise? && Raises(front) == 1 && Trace(front).Some? && Handling(Trace(front).value)
  {
    RaisesTellThePhase(actions);
    RaisesTellThePhase(actions[..|actions| - 1]);
  }

  // ---------- a staged item that recovery leaves behind ----------

  function Write(s: QueueState): Action {
    Commit(SetItem(ItemUpdate(s, Some(Level(s)), None, None)), 0)
  }

  /** One job, number 0, is running on item 0 and has written `state`. */
  predicate HasWritten(s: Sys, phase: Phase, state: QueueState) {
    && s.up && s.runners == map[0 := Runner(0, phase)]
    && s.db.jobs == map[0 := NewJob(0, "queued", 0.0, 0)]
    && 0 in s.db.items && s.db.items[0].state == state
  }

  lemma ActNext(run: Run, action: Action) returns (longer: Run)
    requires IsRun(run) && |run.steps| >= 2
    requires var s := run.states[|run.steps|]; s.up && 0 in s.runners && After(s.runners[0].phase, action).Some?
    ensures IsRun(longer) && |longer.steps| == |run.steps| + 1
    ensures longer.states[|longer.steps|] == Acted(run.states[|run.steps|], 0, action)
    ensures OwnActions(longer, 0, 2, |longer.steps|) == OwnActions(run, 0, 2, |run.steps|) + [action]
  {
    var s := run.states[|run.steps|];
    longer := Extend(run, Act(0, action), Acted(s, 0, action));
    OwnActionsPrefix(run, longer, |run.steps|);
  }

  lemma {:induction false} OwnActionsPrefix(run: Run, longer: Run, upto: nat)
    requires 2 <= upto <= |run.steps| && run.steps <= longer.steps
    ensures OwnActions(longer, 0, 2, upto) == OwnActions(run, 0, 2, upto)
    decreases upto
  {
    if upto > 2 { OwnActionsPrefix(run, longer, upto - 1); }
  }

  lemma WriteNext(run: Run, phase: Phase, state: QueueState, next: QueueState) returns (longer: Run)
    requires IsRun(run) && |run.steps| >= 2
    requires HasWritten(run.states[|run.steps|], phase, state) && After(phase, Write(next)).Some?
    ensures IsRun(longer) && |longer.steps| == |run.steps| + 1
    ensures HasWritten(longer.states[|longer.steps|], After(phase, Write(next)).value, next)
    ensures OwnActions(longer, 0, 2, |longer.steps|) == OwnActions(run, 0, 2, |run.steps|) + [Write(next)]
  {
    longer := ActNext(run, Write(next));
  }

  lemma RaiseNext(run: Run, phase: Phase, state: QueueState) returns (longer: Run)
    requires IsRun(run) && |run.steps| >= 2
    requires HasWritten(run.states[|run.steps|], phase, state) && AfterRaise(phase).Some?
    ensures IsRun(longer) && |longer.steps| == |run.steps| + 1
    ensures HasWritten(longer.states[|longer.steps|], AfterRaise(phase).value, state)
    ensures OwnActions(longer, 0, 2, |longer.steps|) == OwnActions(run, 0, 2, |run.steps|) + [Action.Raise]
  {
    longer := ActNext(run, Action.Raise);
  }

  /** A run that has just begun. */
  lemma SpawnedRun() returns (run: Run)
    ensures IsRun(run) && |run.steps| == 2 && HasWritten(run.states[|run.steps|], Created, QUEUED)
    ensures OwnActions(run, 0, 2, |run.steps|) == []
  {
    var item := Item("", "", "fallback", QUEUED, 0.0, None, None, 0, 0);
    var s := EMPTY.(db := Db(map[0 := item], map[], []));
    run := Run([EMPTY], []);
    run := Extend(run, AddItem(0, item), s);
    run := Extend(run, Spawn(0, 0, 0),
                  s.(db := s.db.(jobs := map[0 := NewJob(0, "queued", 0.0, 0)]),
                     runners := map[0 := Runner(0, Created)]));
  }

  /** A run that has just staged its item. */
  lemma StagedRun() returns (run: Run)
    ensures IsRun(run) && HasWritten(run.states[|run.steps|], Staged, FALLBACK_STAGED)
  {
    run := SpawnedRun();
    run := WriteNext(run, Created, QUEUED, DOWNLOADING);
    run := WriteNext(run, Downloading(0), DOWNLOADING, DOWNLOADED);
    run := WriteNext(run, Downloaded, DOWNLOADED, DECRYPTING);
    run := WriteNext(run, Decrypting, DECRYPTING, FALLBACK_STAGED);
  }

  /** A second exception, inside the handler, leaves the item active and its job running, although the process goes on:
      only the recovery at the next start ends them. */
  lemma EscapedRunLeavesJobRunning() returns (run: Run)
    ensures IsRun(run) && |run.steps| == 5
    ensures OwnActions(run, 0, 2, |run.steps|) == [Write(DOWNLOADING), Action.Raise, Action.Raise]
    ensures HasWritten(run.states[|run.steps|], Dead, DOWNLOADING) && Active(DOWNLOADING)
  {
    run := SpawnedRun();
    run := WriteNext(run, Created, QUEUED, DOWNLOADING);
    run := RaiseNext(run, Downloading(0), DOWNLOADING);
    run := RaiseNext(run, Failing, DOWNLOADING);
  }

  /** A crash during a staged install is recovered to a failed job but a staged item: FALLBACK_STAGED is not
      recoverable. */
  lemma StagedItemStaysStaged() returns (run: Run)
    ensures IsRun(run)
    ensures var n := |run.steps|;
            && n > 0 && run.steps[n - 1].Recover?
            && 0 in run.states[n].db.items && run.states[n].db.items[0].state == FALLBACK_STAGED
            && 0 in run.states[n].db.jobs && run.states[n].db.jobs[0].itemId == 0
            && run.states[n].db.jobs[0].state == JOB_FAILED
  {
    run := StagedRun();
    var staged := run.states[|run.steps|].db;
    var after := RecoveredOnce(staged);
    run := CrashAndRecover(run, after);
  }

  lemma CrashAndRecover(run: Run, after: Db) returns (longer: Run)
    requires IsRun(run) && Recovers(run.states[|run.steps|].db, after, "", 0, 1)
    ensures IsRun(longer) && |longer.steps| == |run.steps| + 2
    ensures longer.steps[|run.steps| + 1].Recover? && longer.states[|longer.steps|].db == after
  {
    var db := run.states[|run.steps|].db;
    longer := Extend(run, Crash, Sys(db, map[], false));
    longer := Extend(longer, Recover("", 0, 1), Sys(after, map[], true));
  }

  /** Recovery of a database with the one running job 0, with reason "" at time 0. */
  lemma RecoveredOnce(db: Db) returns (after: Db)
    requires db.jobs == map[0 := NewJob(0, "queued", 0.0, 0)]
    ensures Recovers(db, after, "", 0, 1)
    ensures 0 in after.jobs && after.jobs[0].itemId == 0 && after.jobs[0].state == JOB_FAILED
    ensures 0 in db.items && db.items[0].state == FALLBACK_STAGED ==> 0 in after.items && after.items[0] == db.items[0]
  {
    assert RunningJobs(db.jobs) == {0};
    var log := [JobEvent(0, Payload.Recovered(""))];
    after := Db(RecoveredItems(db.items, RunningItems(db.jobs), 0), RecoveredJobs(db.jobs, {0}, "", 0),
                db.events + log);
    assert after.events[|db.events|..] == log;
    assert (set e | e in log :: e.job) == {0};
  }
}
