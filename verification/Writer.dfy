/** Writing a download to the disk, resumably, and removing a title again (core/services/writer_engine.py). */
module Writer {
  import opened Bytes
  import opened LocalStore
  import opened FlatFs
  import opened AdapterSpec
  import opened Adapter
  import opened Store
  import opened Artifacts
  import opened Queue
  import WfsPath

  datatype Settings = Settings(dryRun: bool, firstWriteConfirmed: bool, allowFallback: bool, allowFakeTickets: bool)

  datatype WriteError = FirstWriteConfirmation | OnDisk(error: FsError) | LocalFileMissing | HashDrift | DatabaseError

  datatype WriteSummary = WriteSummary(fallback: bool, files: nat, bytes: nat, dryRun: bool, integrity: Report)

  datatype WriteOutcome = Written(summary: WriteSummary) | WriteFailed(error: WriteError) | WriterKilled

  function TargetPath(titleId: string, a: Artifact, fallback: bool): string {
    if fallback then "/install/" + titleId + "/" + a.relativePath
    else if a.targetPath != "" && a.targetPath[0] == '/' then a.targetPath
    else "/usr/title/" + titleId + "/content/" + a.relativePath
  }

  function PlacementOf(files: Files, titleId: string, a: Artifact, fallback: bool): Placement {
    Placement(TargetPath(titleId, a, fallback), a.size, if a.localPath in files then files[a.localPath] else [])
  }

  function PlacementsOf(files: Files, titleId: string, artifacts: seq<Artifact>, fallback: bool): (ps: seq<Placement>)
    ensures |ps| == |artifacts|
  {
    seq(|artifacts|, i requires 0 <= i < |artifacts| => PlacementOf(files, titleId, artifacts[i], fallback))
  }

  /** The targets that a job's events say are written. */
  function Logged(events: seq<JobEvent>, jobId: nat): set<string> {
    set e | e in events && e.job == jobId && e.payload.FileWritten? :: e.payload.target
  }

  /** What a job has logged depends on its own events only. */
  lemma LoggedByOwn(was: seq<JobEvent>, now: seq<JobEvent>, jobId: nat)
    requires EventsOf(was, jobId) == EventsOf(now, jobId)
    ensures Keeps(was, now, jobId)
  {
    forall e: JobEvent | e.job == jobId ensures e in was <==> e in now {
      InEventsOf(was, jobId, e);
      InEventsOf(now, jobId, e);
    }
  }

  /** The job's events are still there, and no file has been logged as written. */
  predicate Keeps(was: seq<JobEvent>, now: seq<JobEvent>, jobId: nat) {
    && Logged(now, jobId) == Logged(was, jobId)
    && forall e | e in was && e.job == jobId :: e in now
  }

  /** The job's own transactions have added this event to its events, whatever others have done meanwhile. */
  predicate OwnEventAdded(was: seq<JobEvent>, now: seq<JobEvent>, jobId: nat, next: Payload) {
    EventsOf(now, jobId) == EventsOf(was, jobId) + [JobEvent(jobId, next)]
  }

  lemma LoggedOwnSnoc(was: seq<JobEvent>, now: seq<JobEvent>, jobId: nat, next: Payload)
    requires OwnEventAdded(was, now, jobId, next)
    ensures Logged(now, jobId) == Logged(was, jobId) + if next.FileWritten? then {next.target} else {}
  {
    EventsOfSnoc(was, JobEvent(jobId, next), jobId);
    LoggedByOwn(was + [JobEvent(jobId, next)], now, jobId);
    LoggedSnoc(was, jobId, next);
  }

  lemma LoggedSnoc(events: seq<JobEvent>, jobId: nat, next: Payload)
    ensures Logged(events + [JobEvent(jobId, next)], jobId)
         == Logged(events, jobId) + if next.FileWritten? then {next.target} else {}
  {
    var e := JobEvent(jobId, next);
    forall f ensures f in events + [e] <==> f in events || f == e {
    }
    if next.FileWritten? { assert e in events + [e]; }
  }

  /** The job's events say that a write was completed. */
  predicate Reported(events: seq<JobEvent>, jobId: nat, s: WriteSummary) {
    JobEvent(jobId, WriteReport(s.fallback, s.files, s.bytes, s.dryRun)) in events
  }

  /** The bytes of the placements from `k` up to `i`. */
  function DataBytes(ps: seq<Placement>, k: nat, i: nat): nat
    requires i <= |ps|
  {
    if i <= k then 0 else DataBytes(ps, k, i - 1) + |ps[i - 1].data|
  }

  /** What the report counts: the placements from `k0` up to `k`. */
  predicate Counted(ps: seq<Placement>, k0: nat, k: nat, files: nat, bytes: nat) {
    k0 <= k <= |ps| && files == k - k0 && bytes == DataBytes(ps, k0, k)
  }

  /** A job has logged this many files, and only in a dry run. */
  predicate Rehearsed(was: seq<JobEvent>, now: seq<JobEvent>, files: nat) {
    was <= now && files == |now| - |was| && forall i | |was| <= i < |now| :: now[i].payload.DryRunFile?
  }

  datatype OneOutcome = Advanced(bytes: nat) | OneFailed(error: WriteError) | OneKilled {
    predicate DiskFails() { OneFailed? && error.OnDisk? }
  }

  class WriterEngine {
    const adapter: WfsAdapter
    const queue: QueueService

    constructor (adapter: WfsAdapter, queue: QueueService)
      ensures this.adapter == adapter && this.queue == queue
    {
      this.adapter, this.queue := adapter, queue;
    }

    ghost function Disk(): Disk
      reads adapter.engine, adapter.sim
    {
      Store.Disk(adapter.backend, adapter.Attached())
    }

    /** The disk steps of one artifact: mkdir, create_file, read, write_stream. A kill can come between any two. */
    method PlaceOnDisk(dir: WorkDir, a: Artifact, target: string, ghost p: Placement) returns (o: OneOutcome)
      requires adapter.Valid()
      requires p == Placement(target, a.size, if a.localPath in dir.files then dir.files[a.localPath] else [])
      modifies adapter.engine.device, adapter.sim`fs
      ensures adapter.Valid()
      ensures CutOff(Disk(), old(adapter.Files()), adapter.Files(), p)
      ensures o.Advanced? ==> StoreOne(Disk(), old(adapter.Files()), p) == Ok(adapter.Files()) && o.bytes == |p.data|
      ensures o.Advanced? ==> a.localPath in dir.files
      ensures o.DiskFails() ==> StoreOne(Disk(), old(adapter.Files()), p).Err?
    {
      ghost var was := adapter.Files();
      EveryStepCutsOff(Disk(), was, p);
      var made := adapter.Mkdir(ParentPath(target));
      if made.Err? { return OneFailed(OnDisk(made.error)); }
      assert AfterMkdir(Disk(), was, p) == Ok(adapter.Files());
      if * { return OneKilled; }
      var created := adapter.CreateFile(target, a.size);
      if created.Err? { return OneFailed(OnDisk(created.error)); }
      assert AfterCreate(Disk(), was, p) == Ok(adapter.Files());
      if * { return OneKilled; }
      if a.localPath !in dir.files { return OneFailed(LocalFileMissing); }
      var data := dir.files[a.localPath];
      WriteSucceeds(Disk(), was, p);
      var wrote := adapter.WriteStream(target, data, 0);
      assert wrote == Ok(|data|) && StoreOne(Disk(), was, p) == Ok(adapter.Files());
      return Advanced(wrote.value);
    }

    /** One artifact: the disk steps, the hash check, and the event that makes it count as written. */
    method WriteOne(dir: WorkDir, jobId: nat, a: Artifact, target: string, fallback: bool, sha: Hash,
                    ghost p: Placement)
      returns (o: OneOutcome)
      requires adapter.Valid()
      requires p == Placement(target, a.size, if a.localPath in dir.files then dir.files[a.localPath] else [])
      modifies adapter.engine.device, adapter.sim`fs, queue
      ensures adapter.Valid()
      ensures OnlyLogs(old(queue.Contents()), queue.Contents(), jobId)
      ensures || (&& EventsOf(queue.events, jobId) == EventsOf(old(queue.events), jobId)
                  && !o.Advanced? && CutOff(Disk(), old(adapter.Files()), adapter.Files(), p))
              || (&& OwnEventAdded(old(queue.events), queue.events, jobId,
                                   FileWritten(target, |p.data|, sha(p.data), fallback))
                  && StoreOne(Disk(), old(adapter.Files()), p) == Ok(adapter.Files())
                  && (o.Advanced? ==> o.bytes == |p.data|))
      ensures o.DiskFails() ==> StoreOne(Disk(), old(adapter.Files()), p).Err?
    {
      o := PlaceOnDisk(dir, a, target, p);
      if !o.Advanced? { return o; }
      if * { return OneKilled; }
      var data := dir.files[a.localPath];
      if sha(data) != a.sha256 { return OneFailed(HashDrift); }
      var committed := LogOne(jobId, FileWritten(target, |data|, sha(data), fallback));
      if !committed { return OneFailed(DatabaseError); }
      if * { return OneKilled; }
    }

    /** One event of the job, after whatever others have done in the meantime. */
    method LogOne(jobId: nat, payload: Payload) returns (committed: bool)
      modifies queue
      ensures OnlyLogs(old(queue.Contents()), queue.Contents(), jobId)
      ensures if committed then OwnEventAdded(old(queue.events), queue.events, jobId, payload)
              else EventsOf(queue.events, jobId) == EventsOf(old(queue.events), jobId)
      ensures committed ==> JobEvent(jobId, payload) in queue.events
    {
      queue.OthersAct(jobId);
      EventsOfSnoc(queue.events, JobEvent(jobId, payload), jobId);
      var status := queue.AddJobEvent(JobEvent(jobId, payload));
      committed := status.Committed?;
    }

    /** The run over `ps` that began with `base` has logged `k` files. */
    ghost predicate Resumable(disk: Disk, base: Fs, ps: seq<Placement>, k: nat, jobId: nat)
      reads adapter.engine.device, adapter.sim, queue
    {
      Midway(disk, base, adapter.Files(), ps, k, Logged(queue.events, jobId))
    }

    /** One artifact of a resumable run that is not logged yet. */
    method WriteNext(dir: WorkDir, jobId: nat, a: Artifact, target: string, fallback: bool, sha: Hash,
                     ghost disk: Disk, ghost base: Fs, ghost ps: seq<Placement>, ghost k0: nat, ghost resuming: bool)
      returns (o: OneOutcome, ghost k: nat)
      requires adapter.Valid() && disk == Disk()
      requires resuming ==> Resumable(disk, base, ps, k0, jobId) && k0 < |ps|
      requires resuming ==>
                 ps[k0] == Placement(target, a.size, if a.localPath in dir.files then dir.files[a.localPath] else [])
      modifies adapter.engine.device, adapter.sim`fs, queue
      ensures adapter.Valid()
      ensures OnlyLogs(old(queue.Contents()), queue.Contents(), jobId)
      ensures resuming ==> k0 <= k <= k0 + 1 && Resumable(disk, base, ps, k, jobId)
      ensures resuming && o.Advanced? ==> k == k0 + 1 && o.bytes == |ps[k0].data|
      ensures resuming && o.DiskFails() ==> StoreAll(disk, base, ps).Err?
    {
      ghost var p := Placement(target, a.size, if a.localPath in dir.files then dir.files[a.localPath] else []);
      ghost var before, events := adapter.Files(), queue.events;
      o := WriteOne(dir, jobId, a, target, fallback, sha, p);
      if resuming && o.DiskFails() { RefusedUninterrupted(disk, base, before, ps, k0, Logged(events, jobId)); }
      k := k0;
      ghost var next := FileWritten(target, |p.data|, sha(p.data), fallback);
      if OwnEventAdded(events, queue.events, jobId, next) {
        if resuming {
          MovesMidway(disk, base, before, ps, k, Logged(events, jobId), adapter.Files());
          LoggedOwnSnoc(events, queue.events, jobId, next);
          k := k0 + 1;
        }
      } else {
        LoggedByOwn(events, queue.events, jobId);
        if resuming { StaysMidway(disk, base, before, ps, k, Logged(events, jobId), adapter.Files()); }
      }
    }

    /** One turn of the loop: an artifact logged before this call is skipped, any other is written and counted. */
    method WriteUnlessLogged(dir: WorkDir, jobId: nat, titleId: string, a: Artifact, fallback: bool, sha: Hash,
                             alreadyWritten: set<string>, files: nat, bytes: nat, ghost disk: Disk, ghost base: Fs,
                             ghost ps: seq<Placement>, ghost k0: nat, ghost i: nat, ghost reached: nat,
                             ghost resuming: bool)
      returns (o: OneOutcome, files': nat, bytes': nat, ghost k: nat)
      requires adapter.Valid() && disk == Disk()
      requires resuming ==>
                 && Resumable(disk, base, ps, reached, jobId) && i < |ps| && reached == Max(i, k0)
                 && SkipsExactly(ps, k0, alreadyWritten) && Counted(ps, k0, reached, files, bytes)
                 && ps[i] == PlacementOf(dir.files, titleId, a, fallback)
      modifies adapter.engine.device, adapter.sim`fs, queue
      ensures adapter.Valid()
      ensures OnlyLogs(old(queue.Contents()), queue.Contents(), jobId)
      ensures resuming ==> k0 <= k && Resumable(disk, base, ps, k, jobId)
      ensures resuming && o.Advanced? ==> k == Max(i + 1, k0) && Counted(ps, k0, k, files', bytes')
      ensures resuming && o.DiskFails() ==> StoreAll(disk, base, ps).Err?
    {
      k, files', bytes' := reached, files, bytes;
      var target := TargetPath(titleId, a, fallback);
      if target in alreadyWritten { return Advanced(0), files, bytes, k; }
      o, k := WriteNext(dir, jobId, a, target, fallback, sha, disk, base, ps, k, resuming);
      if o.Advanced? {
        files', bytes' := files + 1, bytes + o.bytes;
      }
    }

    /** The loop over the artifacts when the disk is written. */
    method WriteArtifacts(dir: WorkDir, jobId: nat, titleId: string, artifacts: seq<Artifact>, fallback: bool,
                          sha: Hash, alreadyWritten: set<string>, ghost disk: Disk, ghost base: Fs,
                          ghost ps: seq<Placement>, ghost k0: nat, ghost resuming: bool)
      returns (o: OneOutcome, files: nat, ghost k: nat)
      requires adapter.Valid() && disk == Disk()
      requires ps == PlacementsOf(dir.files, titleId, artifacts, fallback)
      requires resuming ==> Resumable(disk, base, ps, k0, jobId) && k0 <= |ps| && SkipsExactly(ps, k0, alreadyWritten)
      modifies adapter.engine.device, adapter.sim`fs, queue
      ensures adapter.Valid()
      ensures OnlyLogs(old(queue.Contents()), queue.Contents(), jobId)
      ensures resuming ==> k0 <= k && Resumable(disk, base, ps, k, jobId)
      ensures resuming && o.Advanced? ==> k == |ps| && Counted(ps, k0, k, files, o.bytes)
      ensures resuming && o.DiskFails() ==> StoreAll(disk, base, ps).Err?
    {
      k, files := k0, 0;
      var bytes: nat := 0;
      for i := 0 to |artifacts|
        invariant adapter.Valid() && disk == Disk()
        invariant OnlyLogs(old(queue.Contents()), queue.Contents(), jobId)
        invariant resuming ==>
                    k == Max(i, k0) && Resumable(disk, base, ps, k, jobId) && Counted(ps, k0, k, files, bytes)
      {
        o, files, bytes, k := WriteUnlessLogged(dir, jobId, titleId, artifacts[i], fallback, sha, alreadyWritten,
                                                files, bytes, disk, base, ps, k0, i, k, resuming);
        if !o.Advanced? { return; }
      }
      o := Advanced(bytes);
    }

    /** The loop over the artifacts when nothing is written. */
    method RehearseArtifacts(jobId: nat, titleId: string, artifacts: seq<Artifact>, fallback: bool)
      returns (o: OneOutcome, files: nat)
      modifies queue
      ensures OnlyLogs(old(queue.Contents()), queue.Contents(), jobId)
      ensures Rehearsed(EventsOf(old(queue.events), jobId), EventsOf(queue.events, jobId), files)
    {
      files := 0;
      var bytes: nat := 0;
      var alreadyWritten := ReadWritten(jobId);
      for i := 0 to |artifacts|
        invariant OnlyLogs(old(queue.Contents()), queue.Contents(), jobId)
        invariant Rehearsed(EventsOf(old(queue.events), jobId), EventsOf(queue.events, jobId), files)
      {
        var target := TargetPath(titleId, artifacts[i], fallback);
        if target !in alreadyWritten {
          var committed := LogOne(jobId, DryRunFile(target, artifacts[i].size, artifacts[i].sha256));
          if !committed { return OneFailed(DatabaseError), files; }
          files, bytes := files + 1, bytes + artifacts[i].size;
          if * { return OneKilled, files; }
        }
      }
      o := Advanced(bytes);
    }

    /** Everything that the job's events do not say is written. */
    method WriteMissing(dir: WorkDir, jobId: nat, titleId: string, artifacts: seq<Artifact>, fallback: bool, sha: Hash,
                        ghost base: Fs, ghost ps: seq<Placement>, ghost k0: nat, ghost resuming: bool)
      returns (o: OneOutcome, files: nat, ghost k: nat)
      requires adapter.Valid() && ps == PlacementsOf(dir.files, titleId, artifacts, fallback)
      requires resuming ==> Resumable(Disk(), base, ps, k0, jobId) && NoRepeats(ps, k0)
      modifies adapter.engine.device, adapter.sim`fs, queue
      ensures adapter.Valid()
      ensures OnlyLogs(old(queue.Contents()), queue.Contents(), jobId)
      ensures resuming ==>
                && k0 <= k && Resumable(Disk(), base, ps, k, jobId)
                && Progressed(Disk(), base, adapter.Files(), ps, k)
                && (o.Advanced? ==>
                      k == |ps| && Counted(ps, k0, k, files, o.bytes)
                          && StoreAll(Disk(), base, ps) == Ok(adapter.Files()))
                && (o.DiskFails() ==> StoreAll(Disk(), base, ps).Err?)
    {
      var alreadyWritten := ReadWritten(jobId);
      if resuming { SkippedAreLogged(ps, k0); }
      o, files, k :=
        WriteArtifacts(dir, jobId, titleId, artifacts, fallback, sha, alreadyWritten, Disk(), base, ps, k0, resuming);
      MidwayProgressed(Disk(), base, adapter.Files(), ps, k, Logged(queue.events, jobId));
      EndsUninterrupted(Disk(), base, adapter.Files(), ps, k, Logged(queue.events, jobId));
    }

    /** The targets that the job's events say are written, after whatever others have done in the meantime. */
    method ReadWritten(jobId: nat) returns (alreadyWritten: set<string>)
      modifies queue
      ensures OnlyLogs(old(queue.Contents()), queue.Contents(), jobId)
      ensures EventsOf(queue.events, jobId) == EventsOf(old(queue.events), jobId)
      ensures alreadyWritten == Logged(queue.events, jobId) == Logged(old(queue.events), jobId)
    {
      queue.OthersAct(jobId);
      LoggedByOwn(old(queue.events), queue.events, jobId);
      alreadyWritten := Logged(queue.events, jobId);
    }

    /** The run that began with `base` had logged `k0` files when it was cut off; this call carries it on.
        For a first call, `base` is the present view and `k0` is 0. */
    method WriteDownloadResult(dir: WorkDir, jobId: nat, titleId: string, artifacts: seq<Artifact>, fallback: bool,
                               settings: Settings, sha: Hash, ghost base: Fs, ghost k0: nat)
      returns (r: WriteOutcome, ghost k: nat)
      requires adapter.Valid()
      modifies adapter.engine.device, adapter.sim`fs, queue
      ensures adapter.Valid()
      ensures OnlyLogs(old(queue.Contents()), queue.Contents(), jobId)
      ensures settings.dryRun || !settings.firstWriteConfirmed ==> adapter.Files() == old(adapter.Files())
      ensures !settings.dryRun && !settings.firstWriteConfirmed ==>
                !r.Written? && EventsOf(queue.events, jobId) == EventsOf(old(queue.events), jobId)
      ensures r.Written? ==>
                r.summary.fallback == fallback && r.summary.dryRun == settings.dryRun
                    && Reported(queue.events, jobId, r.summary)
      ensures var ps := PlacementsOf(dir.files, titleId, artifacts, fallback);
              !settings.dryRun && old(Resumable(Disk(), base, ps, k0, jobId)) && NoRepeats(ps, k0) ==>
                && k0 <= k && Resumable(Disk(), base, ps, k, jobId)
                && Progressed(Disk(), base, adapter.Files(), ps, k)
                && (r.Written? ==>
                      && k == |ps| && Counted(ps, k0, k, r.summary.files, r.summary.bytes)
                      && StoreAll(Disk(), base, ps) == Ok(adapter.Files()))
                && (r.WriteFailed? && r.error.OnDisk? ==> StoreAll(Disk(), base, ps).Err? || !adapter.Attached())
    {
      k := k0;
      ghost var ps := PlacementsOf(dir.files, titleId, artifacts, fallback);
      ghost var resuming := !settings.dryRun && Resumable(Disk(), base, ps, k0, jobId) && NoRepeats(ps, k0);
      MidwayProgressed(Disk(), base, adapter.Files(), ps, k, Logged(queue.events, jobId));
      if * { return WriteFailed(DatabaseError), k; }
      if !settings.dryRun && !settings.firstWriteConfirmed { return WriteFailed(FirstWriteConfirmation), k; }

      var o, writtenFiles;
      o, writtenFiles, k :=
        WriteOrRehearse(dir, jobId, titleId, artifacts, fallback, settings.dryRun, sha, base, ps, k0, resuming);
      r := Answer(jobId, o, fallback, writtenFiles, settings.dryRun);
    }

    /** What the loop's outcome makes of the call. */
    method Answer(jobId: nat, o: OneOutcome, fallback: bool, files: nat, dryRun: bool) returns (r: WriteOutcome)
      requires adapter.Valid()
      modifies adapter.engine.device, queue
      ensures adapter.Valid() && adapter.Files() == old(adapter.Files())
      ensures OnlyLogs(old(queue.Contents()), queue.Contents(), jobId)
      ensures Logged(queue.events, jobId) == Logged(old(queue.events), jobId)
      ensures r.Written? ==>
                && o.Advanced? && r.summary.fallback == fallback && r.summary.files == files
                   && r.summary.bytes == o.bytes
                && r.summary.dryRun == dryRun && Reported(queue.events, jobId, r.summary)
      ensures r.WriteFailed? && r.error.OnDisk? ==> o.DiskFails() || !adapter.Attached()
    {
      match o {
        case OneFailed(error) => r := WriteFailed(error);
        case OneKilled => r := WriterKilled;
        case Advanced(bytes) => r := Finish(jobId, fallback, files, bytes, dryRun);
      }
    }

    /** The loop over the artifacts, in a dry run or not. */
    method WriteOrRehearse(dir: WorkDir, jobId: nat, titleId: string, artifacts: seq<Artifact>, fallback: bool,
                           dryRun: bool, sha: Hash, ghost base: Fs, ghost ps: seq<Placement>, ghost k0: nat,
                           ghost resuming: bool)
      returns (o: OneOutcome, files: nat, ghost k: nat)
      requires adapter.Valid() && ps == PlacementsOf(dir.files, titleId, artifacts, fallback)
      requires resuming ==> !dryRun && Resumable(Disk(), base, ps, k0, jobId) && NoRepeats(ps, k0)
      modifies adapter.engine.device, adapter.sim`fs, queue
      ensures adapter.Valid() && (dryRun ==> adapter.Files() == old(adapter.Files()))
      ensures OnlyLogs(old(queue.Contents()), queue.Contents(), jobId)
      ensures resuming ==>
                && k0 <= k && Resumable(Disk(), base, ps, k, jobId)
                && Progressed(Disk(), base, adapter.Files(), ps, k)
                && (o.Advanced? ==>
                      k == |ps| && Counted(ps, k0, k, files, o.bytes)
                          && StoreAll(Disk(), base, ps) == Ok(adapter.Files()))
                && (o.DiskFails() ==> StoreAll(Disk(), base, ps).Err?)
    {
      k := k0;
      if dryRun {
        o, files := RehearseArtifacts(jobId, titleId, artifacts, fallback);
      } else {
        o, files, k := WriteMissing(dir, jobId, titleId, artifacts, fallback, sha, base, ps, k0, resuming);
      }
    }

    /** The first call for a job that has written nothing: when it returns, every artifact has been placed, in order. */
    method WriteFirst(dir: WorkDir, jobId: nat, titleId: string, artifacts: seq<Artifact>, fallback: bool,
                      settings: Settings, sha: Hash)
      returns (r: WriteOutcome)
      requires adapter.Valid()
      modifies adapter.engine.device, adapter.sim`fs, queue
      ensures adapter.Valid()
      ensures OnlyLogs(old(queue.Contents()), queue.Contents(), jobId)
      ensures settings.dryRun ==> adapter.Files() == old(adapter.Files())
      ensures r.Written? ==>
                r.summary.fallback == fallback && r.summary.dryRun == settings.dryRun
                    && Reported(queue.events, jobId, r.summary)
      ensures r.Written? && !settings.dryRun && Logged(old(queue.events), jobId) == {} ==>
                StoreAll(Disk(), old(adapter.Files()), PlacementsOf(dir.files, titleId, artifacts, fallback))
                    == Ok(adapter.Files())
    {
      ghost var base, ps := adapter.Files(), PlacementsOf(dir.files, titleId, artifacts, fallback);
      StartsMidway(Disk(), base, ps);
      NothingRepeatsAtFirst(ps);
      ghost var k;
      r, k := WriteDownloadResult(dir, jobId, titleId, artifacts, fallback, settings, sha, base, 0);
    }

    /** After the loop: flush, check the whole disk, and log the report. */
    method Finish(jobId: nat, fallback: bool, files: nat, bytes: nat, dryRun: bool)
      returns (r: WriteOutcome)
      requires adapter.Valid()
      modifies adapter.engine.device, queue
      ensures adapter.Valid() && adapter.Files() == old(adapter.Files())
      ensures OnlyLogs(old(queue.Contents()), queue.Contents(), jobId)
      ensures Logged(queue.events, jobId) == Logged(old(queue.events), jobId)
      ensures !r.WriterKilled? && (r.WriteFailed? && r.error.OnDisk? ==> !adapter.Attached())
      ensures r.Written? ==>
                && r.summary.fallback == fallback && r.summary.files == files
                && r.summary.bytes == bytes && r.summary.dryRun == dryRun && Reported(queue.events, jobId, r.summary)
                && IntegritySpec(adapter.backend, adapter.Attached(), adapter.Files(), "/") == Ok(r.summary.integrity)
    {
      if !dryRun {
        var flushed := adapter.Flush();
        if flushed.Err? { return WriteFailed(OnDisk(flushed.error)); }
      }
      var integrity := adapter.IntegrityCheck("/");
      if integrity.Err? { return WriteFailed(OnDisk(integrity.error)); }
      var report := WriteReport(fallback, files, bytes, dryRun);
      var committed := LogOne(jobId, report);
      if !committed {
        LoggedByOwn(old(queue.events), queue.events, jobId);
        return WriteFailed(DatabaseError);
      }
      LoggedOwnSnoc(old(queue.events), queue.events, jobId, report);
      return Written(WriteSummary(fallback, files, bytes, dryRun, integrity.value));
    }

    // ---------- deinstall ----------

    /** Both places a title can be installed to. */
    method DeinstallTitle(titleId: string, settings: Settings) returns (r: Result<Deinstalled, WriteError>)
      requires adapter.Valid()
      modifies adapter.engine.device, adapter.sim`fs
      ensures adapter.Valid()
      ensures settings.dryRun || !settings.firstWriteConfirmed ==> adapter.Files() == old(adapter.Files())
      ensures r.Ok? ==> r.value.dryRun == settings.dryRun
      ensures r.Ok? && !settings.dryRun ==>
                && settings.firstWriteConfirmed
                && DeleteTarget(0, titleId).Ok? && DeleteTarget(1, titleId).Ok?
                && adapter.Files()
                   == Without(Without(old(adapter.Files()), DeleteTarget(0, titleId).value),
                              DeleteTarget(1, titleId).value)
    {
      if * { return Err(DatabaseError); }
      if !settings.dryRun && !settings.firstWriteConfirmed { return Err(FirstWriteConfirmation); }
      var targets := TitleRoots(LowerText(titleId));
      if settings.dryRun { return Ok(Deinstalled(true, targets, [])); }

      var removed := [];
      ghost var was := adapter.Files();
      for i := 0 to 2
        invariant adapter.Valid()
        invariant i == 0 ==> adapter.Files() == was
        invariant i >= 1 ==> DeleteTarget(0, titleId).Ok?
        invariant i == 1 ==> adapter.Files() == Without(was, DeleteTarget(0, titleId).value)
        invariant i == 2 ==> DeleteTarget(1, titleId).Ok?
        invariant i == 2 ==>
                    adapter.Files() == Without(Without(was, DeleteTarget(0, titleId).value),
                                               DeleteTarget(1, titleId).value)
      {
        ghost var before := adapter.Files();
        adapter.FilesWellFormed();
        var deleted := adapter.Delete(targets[i]);
        if deleted.Ok? {
          removed := removed + [targets[i]];
        } else if deleted.error != NotFound {
          return Err(OnDisk(deleted.error));
        }
        if DeleteTarget(i, titleId).value !in before { WithoutAbsent(before, DeleteTarget(i, titleId).value); }
      }
      var flushed := adapter.Flush();
      if flushed.Err? { return Err(OnDisk(flushed.error)); }
      return Ok(Deinstalled(false, targets, removed));
    }

    ghost function DeleteTarget(i: nat, titleId: string): Result<WfsPath.Path, FsError>
      requires i < 2
    {
      Target(adapter.backend, TitleRoots(LowerText(titleId))[i], true)
    }
  }

  /** An install, its deinstall, and one more: the first deinstall leaves the files that it would have left without the
      install, when all targets lie under the title's two directories, and the second changes nothing. */
  method InstallThenDeinstallTwice(w: WriterEngine, dir: WorkDir, jobId: nat, titleId: string, artifacts: seq<Artifact>,
                                   fallback: bool, settings: Settings, sha: Hash)
    returns (r: WriteOutcome, first: Result<Deinstalled, WriteError>, second: Result<Deinstalled, WriteError>,
             ghost removed: Fs)
    requires w.adapter.Valid() && !settings.dryRun && Logged(w.queue.events, jobId) == {}
    modifies w.adapter.engine.device, w.adapter.sim`fs, w.queue
    ensures r.Written? && first.Ok? ==> w.DeleteTarget(0, titleId).Ok? && w.DeleteTarget(1, titleId).Ok?
    ensures r.Written? && first.Ok? ==>
              var ps := PlacementsOf(dir.files, titleId, artifacts, fallback);
              var a, b := w.DeleteTarget(0, titleId).value, w.DeleteTarget(1, titleId).value;
              (forall i | 0 <= i < |ps| :: UnderEither(TargetParts(w.Disk(), ps[i]), a, b)) ==>
                FilesOf(removed) == FilesOf(Without(Without(old(w.adapter.Files()), a), b))
    ensures r.Written? && first.Ok? && second.Ok? ==> w.adapter.Files() == removed
  {
    ghost var base := w.adapter.Files();
    first, second, removed := Err(DatabaseError), Err(DatabaseError), base;
    r := w.WriteFirst(dir, jobId, titleId, artifacts, fallback, settings, sha);
    if !r.Written? { return; }
    ghost var installed := w.adapter.Files();
    first := w.DeinstallTitle(titleId, settings);
    removed := w.adapter.Files();
    if first.Err? { return; }
    ghost var a, b := w.DeleteTarget(0, titleId).value, w.DeleteTarget(1, titleId).value;
    ghost var ps := PlacementsOf(dir.files, titleId, artifacts, fallback);
    if forall i | 0 <= i < |ps| :: UnderEither(TargetParts(w.Disk(), ps[i]), a, b) {
      InstallThenDeinstall(w.Disk(), base, ps, a, b);
    }
    second := w.DeinstallTitle(titleId, settings);
    SecondDeinstallIdle(installed, a, b);
  }

  datatype Deinstalled = Deinstalled(dryRun: bool, targets: seq<string>, removed: seq<string>)

  function TitleRoots(titleId: string): (roots: seq<string>)
    ensures |roots| == 2
  {
    ["/usr/title/" + titleId, "/install/" + titleId]
  }

  lemma WithoutAbsent(fs: Fs, p: WfsPath.Path)
    requires WellFormed(fs) && p !in fs
    ensures Without(fs, p) == fs
  {
    forall q | q in fs ensures !(p <= q) {
      if p <= q {
        assert q[..|p|] == p;
        AbsentAbove(fs, q, |p|);
      }
    }
  }
}
