/** Queue items, jobs and job events, and the service that updates them (core/services/queue_service.py). */
module Queue {
  import opened Bytes

  datatype QueueState =
    | QUEUED | DOWNLOADING | DOWNLOADED | DECRYPTING | WRITING_WFS | VERIFYING | DONE | FAILED | FALLBACK_STAGED

  datatype JobState = RUNNING | JOB_DONE | JOB_FAILED

  /** The states in which some run is working on the item. */
  predicate Active(s: QueueState) {
    s.DOWNLOADING? || s.DOWNLOADED? || s.DECRYPTING? || s.WRITING_WFS? || s.VERIFYING?
  }

  /** The states that recovery turns into FAILED; FALLBACK_STAGED is not among them. */
  predicate Recoverable(s: QueueState) { s.QUEUED? || Active(s) }

  predicate Terminal(s: JobState) { s.JOB_DONE? || s.JOB_FAILED? }

  datatype Item = Item(
    titleId: string, region: string, preferredMode: string, state: QueueState, progress: real,
    errorCode: Option<string>, errorDetail: Option<string>, createdAt: nat, updatedAt: nat)

  datatype Job = Job(
    itemId: nat, phase: string, progress: real, state: JobState, message: Option<string>,
    diagnostics: Option<map<string, string>>, startedAt: nat, finishedAt: Option<nat>)

  type Digest = seq<byte>

  datatype Payload =
    | FileWritten(target: string, bytes: nat, sha256: Digest, fallback: bool)
    | DryRunFile(target: string, size: nat, sha256: Digest)
    | WriteReport(fallback: bool, files: nat, bytes: nat, dryRun: bool)
    | Recovered(reason: string)
    | Other(eventType: string)

  datatype JobEvent = JobEvent(job: nat, payload: Payload)

  datatype Db = Db(items: map<nat, Item>, jobs: map<nat, Job>, events: seq<JobEvent>)

  function Clamp(p: real): (r: real)
    ensures 0.0 <= r <= 1.0
    ensures 0.0 <= p <= 1.0 ==> r == p
  {
    if p < 0.0 then 0.0 else if p > 1.0 then 1.0 else p
  }

  function OrElse<T>(o: Option<T>, default: T): T {
    if o.Some? then o.value else default
  }

  // ---------- one transaction each ----------

  /** The new values of an item's columns; what is None stays, an old error code included. */
  datatype ItemUpdate = ItemUpdate(state: QueueState, progress: Option<real>, errorCode: Option<string>,
                                   errorDetail: Option<string>)

  function UpdatedItem(item: Item, u: ItemUpdate, now: nat): Item {
    item.(state := u.state,
          progress := if u.progress.Some? then Clamp(u.progress.value) else item.progress,
          errorCode := if u.errorCode.Some? then u.errorCode else item.errorCode,
          errorDetail := if u.errorDetail.Some? then u.errorDetail else item.errorDetail,
          updatedAt := now)
  }

  function SetStateDb(db: Db, id: nat, u: ItemUpdate, now: nat): Db {
    if id !in db.items then db else db.(items := db.items[id := UpdatedItem(db.items[id], u, now)])
  }

  datatype JobUpdate = JobUpdate(
    phase: Option<string>, progress: Option<real>, state: Option<JobState>, message: Option<string>,
    diagnostics: Option<map<string, string>>)

  function UpdatedJob(job: Job, u: JobUpdate, now: nat): Job {
    job.(phase := OrElse(u.phase, job.phase),
         progress := if u.progress.Some? then Clamp(u.progress.value) else job.progress,
         state := OrElse(u.state, job.state),
         finishedAt := if u.state.Some? && Terminal(u.state.value) then Some(now) else job.finishedAt,
         message := if u.message.Some? then u.message else job.message,
         diagnostics := if u.diagnostics.Some? then u.diagnostics else job.diagnostics)
  }

  function UpdateJobDb(db: Db, id: nat, u: JobUpdate, now: nat): Db {
    if id !in db.jobs then db else db.(jobs := db.jobs[id := UpdatedJob(db.jobs[id], u, now)])
  }

  function NewJob(itemId: nat, phase: string, progress: real, now: nat): Job {
    Job(itemId, phase, progress, RUNNING, None, None, now, None)
  }

  function AddEventDb(db: Db, e: JobEvent): Db { db.(events := db.events + [e]) }

  /** The events of one job, in order. */
  function EventsOf(events: seq<JobEvent>, jobId: nat): seq<JobEvent> {
    if events == [] then []
    else
      var front, last := EventsOf(events[..|events| - 1], jobId), events[|events| - 1];
      if last.job == jobId then front + [last] else front
  }

  lemma EventsOfSnoc(events: seq<JobEvent>, e: JobEvent, jobId: nat)
    ensures EventsOf(events + [e], jobId)
         == if e.job == jobId then EventsOf(events, jobId) + [e] else EventsOf(events, jobId)
  {
    assert (events + [e])[..|events|] == events;
  }

  lemma {:induction false} InEventsOf(events: seq<JobEvent>, jobId: nat, e: JobEvent)
    ensures e in EventsOf(events, jobId) <==> e in events && e.job == jobId
  {
    if events != [] {
      var front, last := events[..|events| - 1], events[|events| - 1];
      InEventsOf(front, jobId, e);
      assert e in events <==> e in front || e == last;
    }
  }

  /** A run's own rows: its item, its job and its job's events are the same in both. */
  predicate SameOwnRows(a: Db, b: Db, itemId: nat, jobId: nat) {
    && SameRow(a.items, b.items, itemId) && SameRow(a.jobs, b.jobs, jobId)
    && EventsOf(a.events, jobId) == EventsOf(b.events, jobId)
  }

  predicate SameRow<T(==)>(a: map<nat, T>, b: map<nat, T>, id: nat) {
    (id in a <==> id in b) && (id in a ==> a[id] == b[id])
  }

  /** The item that a job is for. */
  function ItemOf(db: Db, jobId: nat): nat { if jobId in db.jobs then db.jobs[jobId].itemId else 0 }

  /** Of a job's own rows, only the events have changed, by new ones. */
  predicate OnlyLogs(was: Db, now: Db, jobId: nat) {
    && SameRow(was.items, now.items, ItemOf(was, jobId)) && SameRow(was.jobs, now.jobs, jobId)
    && EventsOf(was.events, jobId) <= EventsOf(now.events, jobId)
  }

  // ---------- recovery ----------

  function RunningJobs(jobs: map<nat, Job>): set<nat> {
    set j | j in jobs && jobs[j].state.RUNNING?
  }

  function ItemsOf(jobs: map<nat, Job>, which: set<nat>): set<nat>
    requires which <= jobs.Keys
  {
    set j | j in which :: jobs[j].itemId
  }

  function RunningItems(jobs: map<nat, Job>): set<nat> { ItemsOf(jobs, RunningJobs(jobs)) }

  const RECOVERED_MESSAGE := "Recovered as failed after service restart"

  function RecoveredJob(job: Job, reason: string, now: nat): Job {
    job.(state := JOB_FAILED, phase := "failed", progress := 1.0, message := Some(RECOVERED_MESSAGE),
         diagnostics := Some(OrElse(job.diagnostics, map[])["recovered" := "true"]["reason" := reason]),
         finishedAt := if job.finishedAt.None? then Some(now) else job.finishedAt)
  }

  function RecoveredItem(item: Item, now: nat): Item {
    item.(state := FAILED, progress := 1.0, errorCode := Some("INTERRUPTED"),
          errorDetail := Some(RECOVERED_MESSAGE), updatedAt := now)
  }

  function RecoveredJobs(jobs: map<nat, Job>, which: set<nat>, reason: string, now: nat): map<nat, Job> {
    map j | j in jobs :: if j in which then RecoveredJob(jobs[j], reason, now) else jobs[j]
  }

  function RecoveredItems(items: map<nat, Item>, which: set<nat>, now: nat): map<nat, Item> {
    map i | i in items :: if i in which && Recoverable(items[i].state) then RecoveredItem(items[i], now) else items[i]
  }

  /** `log` holds exactly one event for each of the jobs in `which`, and nothing else. */
  predicate OneEventEach(log: seq<JobEvent>, which: set<nat>, reason: string) {
    && |log| == |which|
    && (set e | e in log :: e.job) == which
    && forall e | e in log :: e.payload == Payload.Recovered(reason)
  }

  /** What one recovery does: the order in which the jobs are visited is not determined. */
  predicate Recovers(was: Db, now: Db, reason: string, time: nat, count: nat) {
    && now.jobs == RecoveredJobs(was.jobs, RunningJobs(was.jobs), reason, time)
    && now.items == RecoveredItems(was.items, RunningItems(was.jobs), time)
    && count == |RunningJobs(was.jobs)|
    && was.events <= now.events
    && OneEventEach(now.events[|was.events|..], RunningJobs(was.jobs), reason)
  }

  // ---------- the service ----------

  /** A transaction commits, or raises and leaves nothing behind. */
  datatype Status = Committed | RolledBack {
    predicate IsFailure() { RolledBack? }
    function PropagateFailure(): Status
      requires RolledBack?
    {
      this
    }
  }

  class QueueService {
    var items: map<nat, Item>
    var jobs: map<nat, Job>
    var events: seq<JobEvent>

    function Contents(): Db
      reads this
    {
      Db(items, jobs, events)
    }

    constructor ()
      ensures Contents() == Db(map[], map[], [])
    {
      items, jobs, events := map[], map[], [];
    }

    method AddItem(id: nat, titleId: string, region: string, preferredMode: string, now: nat) returns (r: Status)
      requires id !in items
      modifies this`items
      ensures r.RolledBack? ==> Contents() == old(Contents())
      ensures r.Committed? ==>
                Contents() == old(Contents()).(items := old(items)[id :=
                  Item(LowerText(titleId), UpperText(region), preferredMode, QUEUED, 0.0, None, None, now, now)])
    {
      if * { return RolledBack; }
      var item := Item(LowerText(titleId), UpperText(region), preferredMode, QUEUED, 0.0, None, None, now, now);
      items := items[id := item];
      return Committed;
    }

    /** The oldest item that waits. */
    method NextQueuedItem() returns (id: Option<nat>)
      ensures id.Some? ==> id.value in items && items[id.value].state == QUEUED
      ensures id.Some? ==> forall i | i in items && items[i].state == QUEUED ::
                items[id.value].createdAt <= items[i].createdAt
      ensures id.None? ==> forall i | i in items :: items[i].state != QUEUED
    {
      id := None;
      var rest := items.Keys;
      while rest != {}
        invariant rest <= items.Keys
        invariant id.Some? ==> id.value in items && items[id.value].state == QUEUED
        invariant forall i | i in items && i !in rest && items[i].state == QUEUED ::
                    id.Some? && items[id.value].createdAt <= items[i].createdAt
        decreases rest
      {
        var i :| i in rest;
        if items[i].state == QUEUED && (id.None? || items[i].createdAt < items[id.value].createdAt) {
          id := Some(i);
        }
        rest := rest - {i};
      }
    }

    method SetState(id: nat, u: ItemUpdate, now: nat) returns (r: Status)
      modifies this`items
      ensures r.RolledBack? ==> Contents() == old(Contents())
      ensures r.Committed? ==> Contents() == SetStateDb(old(Contents()), id, u, now)
    {
      if * { return RolledBack; }
      if id !in items { return Committed; }
      var item := items[id];
      item := item.(state := u.state);
      if u.progress.Some? { item := item.(progress := Clamp(u.progress.value)); }
      if u.errorCode.Some? { item := item.(errorCode := u.errorCode); }
      if u.errorDetail.Some? { item := item.(errorDetail := u.errorDetail); }
      item := item.(updatedAt := now);
      items := items[id := item];
      return Committed;
    }

    method CreateJob(jobId: nat, itemId: nat, phase: string, progress: real, now: nat) returns (r: Status)
      requires jobId !in jobs
      modifies this`jobs
      ensures r.RolledBack? ==> Contents() == old(Contents())
      ensures r.Committed? ==>
                Contents() == old(Contents()).(jobs := old(jobs)[jobId := NewJob(itemId, phase, progress, now)])
    {
      if * { return RolledBack; }
      jobs := jobs[jobId := Job(itemId, phase, progress, RUNNING, None, None, now, None)];
      return Committed;
    }

    method UpdateJob(id: nat, u: JobUpdate, now: nat) returns (r: Status)
      modifies this`jobs
      ensures r.RolledBack? ==> Contents() == old(Contents())
      ensures r.Committed? ==> Contents() == UpdateJobDb(old(Contents()), id, u, now)
    {
      if * { return RolledBack; }
      if id !in jobs { return Committed; }
      var job := jobs[id];
      if u.phase.Some? { job := job.(phase := u.phase.value); }
      if u.progress.Some? { job := job.(progress := Clamp(u.progress.value)); }
      if u.state.Some? {
        job := job.(state := u.state.value);
        if u.state.value == JOB_DONE || u.state.value == JOB_FAILED {
          job := job.(finishedAt := Some(now));
        }
      }
      if u.message.Some? { job := job.(message := u.message); }
      if u.diagnostics.Some? { job := job.(diagnostics := u.diagnostics); }
      jobs := jobs[id := job];
      return Committed;
    }

    /** What runs on other items, and requests, do between two transactions of a job: its own rows stay. */
    method OthersAct(jobId: nat)
      modifies this
      ensures SameOwnRows(old(Contents()), Contents(), ItemOf(old(Contents()), jobId), jobId)
    {
      var was := Contents();
      assert SameOwnRows(was, was, ItemOf(was, jobId), jobId);
      var now: Db :| SameOwnRows(was, now, ItemOf(was, jobId), jobId);
      items, jobs, events := now.items, now.jobs, now.events;
      assert Contents() == now;
    }

    method AddJobEvent(e: JobEvent) returns (r: Status)
      modifies this`events
      ensures r.RolledBack? ==> Contents() == old(Contents())
      ensures r.Committed? ==> Contents() == AddEventDb(old(Contents()), e)
    {
      if * { return RolledBack; }
      events := events + [e];
      return Committed;
    }

    /** Fail every running job and the items that were being worked on, in one transaction. */
    method RecoverIncompleteJobs(reason: string, now: nat) returns (r: Status, recovered: nat)
      modifies this
      ensures r.RolledBack? ==> Contents() == old(Contents())
      ensures r.Committed? ==> Recovers(old(Contents()), Contents(), reason, now, recovered)
    {
      if * { return RolledBack, 0; }
      var queueItemIds;
      recovered, queueItemIds := FailRunningJobs(reason, now);
      FailItems(queueItemIds, now);
      return Committed, recovered;
    }

    /** The loop over the running jobs. */
    method FailRunningJobs(reason: string, now: nat) returns (recovered: nat, queueItemIds: set<nat>)
      modifies this`jobs, this`events
      ensures jobs == RecoveredJobs(old(jobs), RunningJobs(old(jobs)), reason, now)
      ensures queueItemIds == RunningItems(old(jobs)) && recovered == |RunningJobs(old(jobs))|
      ensures old(events) <= events && OneEventEach(events[|old(events)|..], RunningJobs(old(jobs)), reason)
    {
      ghost var was, all := jobs, RunningJobs(jobs);
      var rest := RunningJobs(jobs);
      recovered, queueItemIds := 0, {};
      ghost var visited: set<nat>, log: seq<JobEvent> := {}, [];
      assert RecoveredJobs(was, {}, reason, now) == was;
      while rest != {}
        invariant Partition(all, visited, rest) && recovered == |visited|
        invariant queueItemIds == ItemsOf(was, visited)
        invariant jobs == RecoveredJobs(was, visited, reason, now)
        invariant events == old(events) + log && OneEventEach(log, visited, reason)
        decreases rest
      {
        var j :| j in rest;
        MoveOver(all, visited, rest, j);
        VisitNext(was, visited, log, reason, now, j);
        recovered := recovered + 1;
        queueItemIds := queueItemIds + {jobs[j].itemId};
        jobs := jobs[j := RecoveredJob(jobs[j], reason, now)];
        var e := JobEvent(j, Payload.Recovered(reason));
        AppendAssociates(old(events), log, [e]);
        log, events := log + [e], events + [e];
        visited, rest := visited + {j}, rest - {j};
      }
      assert visited == all;
      assert events[|old(events)|..] == log;
    }

    /** The loop over the items of the recovered jobs. */
    method FailItems(ids: set<nat>, now: nat)
      modifies this`items
      ensures items == RecoveredItems(old(items), ids, now)
    {
      var rest := ids * items.Keys;
      while rest != {}
        invariant rest <= ids * old(items).Keys
        invariant items == RecoveredItems(old(items), (ids * old(items).Keys) - rest, now)
        decreases rest
      {
        var i :| i in rest;
        var item := items[i];
        if Recoverable(item.state) {
          items := items[i := RecoveredItem(item, now)];
        }
        rest := rest - {i};
      }
    }
  }

  predicate Partition(all: set<nat>, done: set<nat>, rest: set<nat>) {
    done !! rest && done + rest == all
  }

  lemma MoveOver(all: set<nat>, done: set<nat>, rest: set<nat>, j: nat)
    requires Partition(all, done, rest) && j in rest
    ensures Partition(all, done + {j}, rest - {j})
    ensures j in all && j !in done && done <= all && |done + {j}| == |done| + 1 && rest - {j} < rest
  {
  }

  lemma VisitNext(was: map<nat, Job>, visited: set<nat>, log: seq<JobEvent>, reason: string, time: nat, j: nat)
    requires visited <= was.Keys && j in was && j !in visited
    requires OneEventEach(log, visited, reason)
    ensures var now := RecoveredJobs(was, visited, reason, time);
            && now[j].itemId == was[j].itemId
            && now[j := RecoveredJob(now[j], reason, time)] == RecoveredJobs(was, visited + {j}, reason, time)
    ensures ItemsOf(was, visited + {j}) == ItemsOf(was, visited) + {was[j].itemId}
    ensures OneEventEach(log + [JobEvent(j, Payload.Recovered(reason))], visited + {j}, reason)
  {
    OneMoreEvent(log, visited, j, reason);
  }

  lemma OneMoreEvent(log: seq<JobEvent>, which: set<nat>, j: nat, reason: string)
    requires OneEventEach(log, which, reason) && j !in which
    ensures OneEventEach(log + [JobEvent(j, Payload.Recovered(reason))], which + {j}, reason)
  {
    var e := JobEvent(j, Payload.Recovered(reason));
    forall f ensures f in log + [e] <==> f in log || f == e {
    }
    assert (set f | f in log + [e] :: f.job) == which + {j};
  }

  function LowerText(s: string): string {
    seq(|s|, i requires 0 <= i < |s| => if 'A' <= s[i] <= 'Z' then (s[i] as int + 32) as char else s[i])
  }

  function UpperText(s: string): string {
    seq(|s|, i requires 0 <= i < |s| => if 'a' <= s[i] <= 'z' then (s[i] as int - 32) as char else s[i])
  }
}
