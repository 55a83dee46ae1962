/** One run as it happens: its transactions against the queue, and the actions they add up to. */
module RunRecord {
  import opened Bytes
  import opened Callbacks
  import opened Queue
  import opened Protocol
  import opened Writer

  /** What makes a run end early, by where it comes from. */
  datatype RunError = Database | Download | TicketCheck(code: string) | Decryption | Disk(error: WriteError)

  /** A step of a run goes on, raises, or is the last thing before the process is killed. */
  datatype Step = Go | Throw(error: RunError) | Die {
    predicate IsFailure() { !Go? }
    function PropagateFailure(): Step
      requires !Go?
    {
      this
    }
  }

  function Where(phase: Option<Phase>): Phase { OrElse(phase, Dead) }

  /** Nothing the job has done so far counts as a written file. */
  predicate NothingWritten(events: seq<JobEvent>, jobId: nat) { Logged(events, jobId) == {} }

  /** The events a job has logged, as the actions of its run. */
  function LogActions(log: seq<JobEvent>): seq<Action> {
    if log == [] then [] else LogActions(log[..|log| - 1]) + [Commit(Log(log[|log| - 1].payload), 0)]
  }

  predicate AllOfJob(log: seq<JobEvent>, jobId: nat) {
    forall i | 0 <= i < |log| :: log[i].job == jobId
  }

  /** Logging leaves a run where it is, and its rows are as with the events added. */
  lemma {:induction false} LogsReplay(db: Db, was: Db, itemId: nat, jobId: nat, actions: seq<Action>,
                                      log: seq<JobEvent>)
    requires AllOfJob(log, jobId)
    requires Trace(actions).Some? && AfterLog(Trace(actions).value).Some?
    requires SameOwnRows(was, Replay(db, itemId, jobId, actions), itemId, jobId)
    ensures Trace(actions + LogActions(log)) == Trace(actions)
    ensures SameOwnRows(was.(events := was.events + log), Replay(db, itemId, jobId, actions + LogActions(log)), itemId,
                        jobId)
    decreases |log|
  {
    if log == [] {
      assert actions + LogActions(log) == actions;
      assert was.events + log == was.events;
    } else {
      var front, last := log[..|log| - 1], log[|log| - 1];
      LogsReplay(db, was, itemId, jobId, actions, front);
      var next := Commit(Log(last.payload), 0);
      AppendAssociates(actions, LogActions(front), [next]);
      AppendAssociates(was.events, front, [last]);
      assert front + [last] == log;
      TraceSnoc(actions + LogActions(front), next);
      ReplaySnoc(db, itemId, jobId, actions + LogActions(front), next);
      EffectOnSameRows(was.(events := was.events + front), Replay(db, itemId, jobId, actions + LogActions(front)),
                       itemId, jobId, next);
    }
  }

  /** The events by which a job's events have grown. */
  lemma AddedEvents(was: Db, now: Db, jobId: nat) returns (log: seq<JobEvent>)
    requires OnlyLogs(was, now, jobId)
    ensures AllOfJob(log, jobId)
    ensures SameOwnRows(now, was.(events := was.events + log), ItemOf(was, jobId), jobId)
  {
    var own := EventsOf(now.events, jobId);
    log := own[|EventsOf(was.events, jobId)|..];
    forall i | 0 <= i < |log| ensures log[i].job == jobId {
      assert log[i] in own;
      InEventsOf(now.events, jobId, log[i]);
    }
    EventsOfAppend(was.events, log, jobId);
  }

  lemma {:induction false} EventsOfAppend(events: seq<JobEvent>, log: seq<JobEvent>, jobId: nat)
    requires AllOfJob(log, jobId)
    ensures EventsOf(events + log, jobId) == EventsOf(events, jobId) + log
    decreases |log|
  {
    if log == [] {
      assert events + log == events;
    } else {
      var front, last := log[..|log| - 1], log[|log| - 1];
      EventsOfAppend(events, front, jobId);
      assert front + [last] == log;
      AppendAssociates(events, front, [last]);
      EventsOfSnoc(events + front, last, jobId);
      AppendAssociates(EventsOf(events, jobId), front, [last]);
    }
  }

  lemma SameOwnRowsKeep(was: Db, now: Db, replayed: Db, itemId: nat, jobId: nat)
    requires SameOwnRows(was, now, itemId, jobId) && SameOwnRows(was, replayed, itemId, jobId)
    ensures SameOwnRows(now, replayed, itemId, jobId) && Keeps(was.events, now.events, jobId)
  {
    LoggedByOwn(was.events, now.events, jobId);
  }

  lemma OneMoreAction(start: Db, now: Db, itemId: nat, jobId: nat, actions: seq<Action>, a: Action)
    requires Trace(actions).Some?
    requires SameOwnRows(now, Effect(Replay(start, itemId, jobId, actions), itemId, jobId, a), itemId, jobId)
    ensures Trace(actions + [a]) == After(Trace(actions).value, a)
    ensures SameOwnRows(now, Replay(start, itemId, jobId, actions + [a]), itemId, jobId)
  {
    TraceSnoc(actions, a);
    ReplaySnoc(start, itemId, jobId, actions, a);
  }

  /** One more action, the commit of this transaction. */
  predicate OneCommit(was: seq<Action>, now: seq<Action>, txn: Txn) {
    |now| == |was| + 1 && was <= now && now[|was|].Commit? && now[|was|].txn == txn
  }

  function DownloadingItem(progress: real): ItemUpdate { ItemUpdate(DOWNLOADING, Some(progress), None, None) }

  function DownloadingJob(progress: real): JobUpdate {
    JobUpdate(Some("downloading"), Some(progress), None, None, None)
  }

  /** The action that a mark of the download is when it is told this progress: a row update first writes the item, then
      the job, and then logs an event. */
  predicate Performs(a: Action, m: Mark, progress: real) {
    match m
    case Enter(_) => a.CallbackBegin?
    case Leave(_) => a.CallbackEnd?
    case Row(_, stage) =>
      && a.Commit?
      && a.txn == if stage == 0 then SetItem(DownloadingItem(progress))
                  else if stage == 1 then ChangeJob(DownloadingJob(progress))
                  else Log(Payload.Other("download_progress"))
  }

  function CallbacksAfter(callbacks: nat, m: Mark): (after: nat)
    requires !m.Enter? ==> callbacks > 0
  {
    if m.Enter? then callbacks + 1 else if m.Leave? then callbacks - 1 else callbacks
  }

  class LiveRun {
    const queue: QueueService
    const itemId: nat
    const jobId: nat
    ghost const start: Db
    ghost var actions: seq<Action>

    /** The run's own rows are what its actions have made of the rows it started from; other rows may be anything. */
    ghost predicate Valid()
      reads this, queue
    {
      && Trace(actions).Some? && OwnsJob(queue.Contents())
      && SameOwnRows(queue.Contents(), Replay(start, itemId, jobId, actions), itemId, jobId)
    }

    predicate OwnsJob(db: Db) { itemId in db.items && jobId in db.jobs && db.jobs[jobId].itemId == itemId }

    ghost function Phase(): Phase
      reads this
    {
      Where(Trace(actions))
    }

    constructor (queue: QueueService, itemId: nat, jobId: nat)
      requires itemId in queue.items && jobId in queue.jobs && queue.jobs[jobId].itemId == itemId
      ensures Valid() && Phase() == Created && actions == []
      ensures this.queue == queue && this.itemId == itemId && this.jobId == jobId && start == queue.Contents()
    {
      this.queue, this.itemId, this.jobId, this.start, this.actions := queue, itemId, jobId, queue.Contents(), [];
    }

    /** What runs on other items, and requests, do to the database in the meantime. */
    method Yield()
      requires Valid()
      modifies queue
      ensures Valid() && Keeps(old(queue.events), queue.events, jobId)
    {
      ghost var was := queue.Contents();
      queue.OthersAct(jobId);
      SameOwnRowsKeep(was, queue.Contents(), Replay(start, itemId, jobId, actions), itemId, jobId);
    }

    /** One more action, whose effect on the run's rows has just happened. */
    ghost method Record(a: Action)
      requires Trace(actions).Some? && After(Phase(), a).Some? && OwnsJob(queue.Contents())
      requires SameOwnRows(queue.Contents(), Effect(Replay(start, itemId, jobId, actions), itemId, jobId, a), itemId,
                           jobId)
      modifies this`actions
      ensures Valid() && Phase() == After(old(Phase()), a).value
      ensures actions == old(actions) + [a]
    {
      OneMoreAction(start, queue.Contents(), itemId, jobId, actions, a);
      actions := actions + [a];
    }

    /** A transaction of the run's own that has just committed. */
    ghost method Committed(was: Db, a: Action)
      requires Trace(actions).Some? && After(Phase(), a).Some? && OwnsJob(was)
      requires SameOwnRows(was, Replay(start, itemId, jobId, actions), itemId, jobId)
      requires queue.Contents() == Effect(was, itemId, jobId, a)
      modifies this`actions
      ensures Valid() && Phase() == After(old(Phase()), a).value && actions == old(actions) + [a]
    {
      EffectOnSameRows(was, Replay(start, itemId, jobId, actions), itemId, jobId, a);
      Record(a);
    }

    /** The three kinds of transaction; each commits or rolls back. */
    method TrySetState(u: ItemUpdate) returns (done: bool)
      requires Valid() && ItemFits(u) && AfterItemWrite(Phase(), u.state).Some?
      modifies this`actions, queue
      ensures Valid() && Keeps(old(queue.events), queue.events, jobId)
      ensures Phase() == if done then AfterItemWrite(old(Phase()), u.state).value else old(Phase())
      ensures if done then OneCommit(old(actions), actions, SetItem(u)) else actions == old(actions)
    {
      Yield();
      var now: nat := *;
      ghost var was := queue.Contents();
      var status := queue.SetState(itemId, u, now);
      done := status.Committed?;
      if done { Committed(was, Commit(SetItem(u), now)); }
    }

    method TryUpdateJob(u: JobUpdate) returns (done: bool)
      requires Valid() && JobFits(Phase(), u) && AfterJobWrite(Phase(), u).Some?
      modifies this`actions, queue
      ensures Valid() && Keeps(old(queue.events), queue.events, jobId)
      ensures Phase() == if done then AfterJobWrite(old(Phase()), u).value else old(Phase())
      ensures if done then OneCommit(old(actions), actions, ChangeJob(u)) else actions == old(actions)
    {
      Yield();
      var now: nat := *;
      ghost var was := queue.Contents();
      var status := queue.UpdateJob(jobId, u, now);
      done := status.Committed?;
      if done { Committed(was, Commit(ChangeJob(u), now)); }
    }

    method TryLog(eventType: string) returns (done: bool)
      requires Valid() && AfterLog(Phase()).Some?
      modifies this`actions, queue
      ensures Valid() && Keeps(old(queue.events), queue.events, jobId)
      ensures Phase() == old(Phase())
      ensures if done then OneCommit(old(actions), actions, Log(Payload.Other(eventType))) else actions == old(actions)
    {
      Yield();
      var payload := Payload.Other(eventType);
      ghost var was := queue.Contents();
      var status := queue.AddJobEvent(JobEvent(jobId, payload));
      done := status.Committed?;
      if done {
        LoggedSnoc(was.events, jobId, payload);
        Committed(was, Commit(Log(payload), 0));
      }
    }

    /** Raising: the run goes to its handler, or, inside it, ends. */
    method Fail(error: RunError) returns (s: Step)
      requires Valid() && AfterRaise(Phase()).Some?
      modifies this`actions
      ensures Valid() && s == Throw(error) && Phase() == AfterRaise(old(Phase())).value
    {
      Record(Action.Raise);
      return Throw(error);
    }

    method SetState(u: ItemUpdate) returns (s: Step)
      requires Valid() && ItemFits(u) && AfterItemWrite(Phase(), u.state).Some? && AfterRaise(Phase()).Some?
      modifies this`actions, queue
      ensures Valid() && Keeps(old(queue.events), queue.events, jobId)
      ensures s.Go? ==> Phase() == AfterItemWrite(old(Phase()), u.state).value
      ensures s.Throw? ==> Phase() == AfterRaise(old(Phase())).value
    {
      if * { return Die; }
      var done := TrySetState(u);
      if !done { s := Fail(Database); return; }
      if * { return Die; }
      return Go;
    }

    method UpdateJob(u: JobUpdate) returns (s: Step)
      requires Valid() && JobFits(Phase(), u) && AfterJobWrite(Phase(), u).Some? && AfterRaise(Phase()).Some?
      modifies this`actions, queue
      ensures Valid() && Keeps(old(queue.events), queue.events, jobId)
      ensures s.Go? ==> Phase() == AfterJobWrite(old(Phase()), u).value
      ensures s.Throw? ==> Phase() == AfterRaise(old(Phase())).value
    {
      if * { return Die; }
      var done := TryUpdateJob(u);
      if !done { s := Fail(Database); return; }
      if * { return Die; }
      return Go;
    }

    method AddEvent(eventType: string) returns (s: Step)
      requires Valid() && AfterLog(Phase()).Some? && AfterRaise(Phase()).Some?
      modifies this`actions, queue
      ensures Valid() && Keeps(old(queue.events), queue.events, jobId)
      ensures s.Go? ==> Phase() == old(Phase())
      ensures s.Throw? ==> Phase() == AfterRaise(old(Phase())).value
    {
      if * { return Die; }
      var done := TryLog(eventType);
      if !done { s := Fail(Database); return; }
      if * { return Die; }
      return Go;
    }

    /** Reading a setting. */
    method ReadSetting() returns (s: Step)
      requires Valid() && AfterRaise(Phase()).Some?
      modifies this`actions
      ensures Valid()
      ensures s.Go? ==> Phase() == old(Phase())
      ensures s.Throw? ==> Phase() == AfterRaise(old(Phase())).value
    {
      if * { return Die; }
      if * { s := Fail(Database); return; }
      return Go;
    }

    /** An event, and then a setting. */
    method AddEventAndReadSetting(eventType: string) returns (s: Step)
      requires Valid() && AfterLog(Phase()).Some? && AfterRaise(Phase()).Some?
      modifies this`actions, queue
      ensures Valid() && Keeps(old(queue.events), queue.events, jobId)
      ensures s.Go? ==> Phase() == old(Phase())
      ensures s.Throw? ==> Phase() == AfterRaise(old(Phase())).value
    {
      s := Go;
      :- AddEvent(eventType);
      :- ReadSetting();
      return Go;
    }

    /** The events that the writer has added on the run's behalf, while others may have changed other rows. */
    ghost method AbsorbLog(was: Db)
      requires Trace(actions).Some? && AfterLog(Phase()).Some? && OwnsJob(was)
      requires SameOwnRows(was, Replay(start, itemId, jobId, actions), itemId, jobId)
      requires OnlyLogs(was, queue.Contents(), jobId)
      modifies this`actions
      ensures Valid() && Phase() == old(Phase())
    {
      var log := AddedEvents(was, queue.Contents(), jobId);
      LogsReplay(start, was, itemId, jobId, actions, log);
      actions := actions + LogActions(log);
    }

    /** One mark of the download, as it happens: a pool thread enters a callback, makes one of its row updates, or
        leaves. Several may be inside callbacks at the same time. A row update that fails raises into the download, not
        into the run. */
    method Follow(mark: Mark, progress: real) returns (s: Step)
      requires Valid() && Phase().Downloading? && 0.1 <= progress <= 0.35
      requires mark.Enter? || Phase().callbacks > 0
      modifies this`actions, queue
      ensures Valid() && Keeps(old(queue.events), queue.events, jobId)
      ensures !s.Throw? && (s.Go? ==> Phase() == Downloading(CallbacksAfter(old(Phase()).callbacks, mark)))
      ensures || actions == old(actions)
              || (&& |actions| == |old(actions)| + 1 && old(actions) <= actions
                  && Performs(actions[|old(actions)|], mark, progress))
    {
      if * { return Die; }
      match mark {
        case Enter(_) => Record(CallbackBegin);
        case Leave(_) => Record(CallbackEnd);
        case Row(_, stage) =>
          if stage == 0 {
            var done := TrySetState(DownloadingItem(progress));
          } else if stage == 1 {
            var done := TryUpdateJob(DownloadingJob(progress));
          } else {
            var done := TryLog("download_progress");
          }
      }
      return Go;
    }
  }
}
