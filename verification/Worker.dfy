/** The worker that takes an item through download, decryption and installation (apps/worker/runner.py). */
module Worker {
  import opened Bytes
  import opened Callbacks
  import opened LocalStore
  import opened FlatFs
  import opened Store
  import opened Artifacts
  import opened Queue
  import opened Protocol
  import opened RunRecord
  import opened Writer
  import opened TitleDownload
  import opened Installation
  import Adapter
  import Analyzer
  import AppDecryptor
  import Cbc
  import Downloader
  import Progress
  import Ticket
  import TitleData = Tmd

  /** What a run takes from its surroundings. */
  datatype Env = Env(cipher: Cbc.BlockCipher, commonKeyVariable: string, sha256: Hash, sha1: Hash,
                     config: Downloader.Config, baseUrlSet: bool, maxDirectFileBytes: int)

  /** The phases in which an exception goes to the handler. */
  predicate Working(phase: Phase) {
    match phase
    case Created => true
    case Downloading(callbacks) => callbacks == 0
    case Downloaded => true
    case Decrypting => true
    case Staged => true
    case Writing => true
    case Verifying => true
    case _ => false
  }

  function TicketErrorCode(e: Ticket.TicketError): string {
    if e.TooSmall? then "TICKET_DECRYPT_FAILED" else "MISSING_COMMON_KEY"
  }

  /** The code under which a run's exception is reported; the message of the native engine for a missing disk is not
      recognised. */
  function ErrorCode(e: RunError, backend: Backend): string {
    match e
    case Disk(FirstWriteConfirmation) => "WRITE_CONFIRM_REQUIRED"
    case Disk(OnDisk(NotAttached)) => if backend.Simulated? then "DISK_NOT_ATTACHED" else "INSTALL_FAILED"
    case _ => "INSTALL_FAILED"
  }

  /** A download, the files it left, and the artifacts to install in its place, decrypted when there is a ticket. */
  datatype Prepared = Prepared(downloaded: DownloadResult, ticket: Option<Ticket.TicketInfo>, was: Files,
                               outs: seq<Artifact>)

  /** What a run that ended done has done. */
  datatype Evidence = Evidence(prepared: Prepared, summary: WriteSummary)

  /** Direct unless the fallback is asked for or nothing else is possible. */
  predicate UsesFallback(d: DownloadResult, mode: string, limit: int) {
    mode == "fallback" || !Analyzer.DirectPlayable(d, limit)
  }

  datatype Plan = Place(fallback: bool) | Refuse(code: string)

  datatype RunResult = NotStarted | Returned(state: QueueState) | Escaped | RunKilled

  const DEFAULT_BLOCK_SIZE := 65536

  class QueueWorker {
    const queue: QueueService
    const writer: WriterEngine
    const env: Env

    ghost predicate Valid()
      reads writer.adapter.engine.device, writer.adapter.sim
    {
      writer.queue == queue && writer.adapter.Valid()
    }

    constructor (writer: WriterEngine, env: Env)
      requires writer.adapter.Valid()
      ensures this.queue == writer.queue && this.writer == writer && this.env == env && Valid()
    {
      this.queue, this.writer, this.env := writer.queue, writer, env;
    }

    // ---------- row updates ----------

    /** The next state of the item, then the matching phase of the job. */
    method Advance(run: LiveRun, state: QueueState, phase: string, progress: real) returns (s: Step)
      requires run.Valid() && Working(run.Phase()) && AfterItemWrite(run.Phase(), state).Some?
      requires Fits(state, Some(progress)) && phase == PhaseText(state)
      requires Working(AfterItemWrite(run.Phase(), state).value)
      modifies run`actions, run.queue
      ensures run.Valid() && Keeps(old(run.queue.events), run.queue.events, run.jobId)
      ensures s.Go? ==> run.Phase() == AfterItemWrite(old(run.Phase()), state).value
      ensures s.Throw? ==> run.Phase() == Failing
    {
      s := Go;
      :- run.SetState(ItemUpdate(state, Some(progress), None, None));
      :- run.UpdateJob(JobUpdate(Some(phase), Some(progress), None, None, None));
      return Go;
    }

    /** The terminal state of the item, then that of the job. */
    method Conclude(run: LiveRun, ok: bool, code: Option<string>, detail: Option<string>, message: string,
                    diagnostics: map<string, string>)
      returns (s: Step)
      requires run.Valid() && AfterItemWrite(run.Phase(), if ok then DONE else FAILED) == Some(Settled(ok, false))
      requires AfterRaise(run.Phase()) == Some(Failing) && (code.Some? <==> !ok)
      modifies run`actions, run.queue
      ensures run.Valid() && Keeps(old(run.queue.events), run.queue.events, run.jobId)
      ensures s.Go? ==> run.Phase() == Finished(ok, false)
      ensures s.Throw? ==> run.Phase() == Failing
    {
      s := Go;
      :- run.SetState(ItemUpdate(if ok then DONE else FAILED, Some(1.0), code, detail));
      :- run.UpdateJob(JobUpdate(Some(if ok then "done" else "failed"), Some(1.0),
                                 Some(if ok then JOB_DONE else JOB_FAILED),
                                 Some(message), Some(diagnostics)));
      return Go;
    }

    // ---------- download ----------

    /** The marks of a download, in the order of its threads: callbacks overlap as they did, and as many are open at the
        end as the download left open. Each row update is told the progress its callback began with; `at` tells which
        marks the run's new actions are. */
    method RunCallbacks(run: LiveRun, marks: seq<Mark>, total: nat) returns (s: Step, ghost at: seq<nat>)
      requires run.Valid() && run.Phase() == Downloading(0)
      requires Nested(marks) && total > 0 && forall m | m in marks :: m.call.emit.file < total + 2
      modifies run`actions, run.queue
      ensures run.Valid() && Keeps(old(run.queue.events), run.queue.events, run.jobId)
      ensures !s.Throw? && (s.Go? ==> run.Phase() == Downloading(|Open(marks)|))
      ensures Relayed(old(run.actions), run.actions, at, marks, total)
    {
      s, at := Go, [];
      assert marks[..0] == [];
      for i := 0 to |marks|
        invariant s.Go? && run.Valid() && run.Phase() == Downloading(|Open(marks[..i])|)
        invariant Keeps(old(run.queue.events), run.queue.events, run.jobId)
        invariant Relayed(old(run.actions), run.actions, at, marks, total) && forall k | 0 <= k < |at| :: at[k] < i
      {
        NestedPrefix(marks, i);
        OpenSnoc(marks[..i], marks[i]);
        OpenCount(Open(marks[..i]), marks[i]);
        ghost var before := run.actions;
        s := run.Follow(marks[i], ToldProgress(marks[i], total));
        if run.actions != before {
          OneMoreRelayed(old(run.actions), before, run.actions, at, marks, total, i);
          at := at + [i];
        }
        if !s.Go? { return; }
      }
      assert marks[..|marks|] == marks;
    }

    method LeaveDownload(run: LiveRun) returns (s: Step)
      requires run.Valid() && run.Phase() == Downloading(0)
      modifies run`actions, run.queue
      ensures run.Valid()
      ensures s.Go? ==> run.Phase() == Decrypting
      ensures s.Throw? ==> run.Phase() == Failing
      ensures Keeps(old(run.queue.events), run.queue.events, run.jobId)
    {
      s := Go;
      :- run.AddEvent("download_stats");
      :- Advance(run, DOWNLOADED, "downloaded", 0.35);
      :- Advance(run, DECRYPTING, "decrypting", 0.5);
      return Go;
    }

    /** From the first row update to DECRYPTING. */
    method Fetch(run: LiveRun, dir: WorkDir, bodies: Bodies, titleId: string, settings: Settings)
      returns (s: Step, result: Option<DownloadResult>)
      requires run.Valid() && run.Phase() == Created
      modifies run`actions, run.queue, dir
      ensures run.Valid()
      ensures s.Throw? ==> run.Phase() == Failing
      ensures s.Go? ==> run.Phase() == Decrypting && result.Some?
      ensures Keeps(old(run.queue.events), run.queue.events, run.jobId)
      ensures Sound(old(dir.files), bodies) ==> Sound(dir.files, bodies)
      ensures s.Go? ==>
                && result.value.titleId == LowerText(titleId) && HasItsTicket(result.value)
                && (result.value.fakeTicket ==> settings.allowFakeTickets)
      ensures s.Go? && Sound(old(dir.files), bodies) ==> Complete(dir.files, bodies, result.value, env.sha256)
    {
      result := None;
      :- Advance(run, DOWNLOADING, "downloading", 0.1);
      :- run.AddEventAndReadSetting("phase");
      var o, marks, trails, total :=
        DownloadTitle(dir, bodies, titleId, env.config, env.baseUrlSet, settings.allowFakeTickets,
                      env.cipher, env.commonKeyVariable, env.sha256);
      LoggedMarks(marks, trails, total);
      ghost var at;
      s, at := RunCallbacks(run, marks, total);
      if !s.Go? { return; }
      if o.DownloadKilled? { return Die, None; }
      if o.DownloadRaised? {
        s := run.Fail(RunError.Download);
        return;
      }
      :- LeaveDownload(run);
      return Go, Some(o.result);
    }

    // ---------- decryption ----------

    /** The hash check of a decrypted content: a mismatch is logged, but does not stop the run. */
    method CheckHash(run: LiveRun, r: TitleData.ContentRecord, data: seq<byte>) returns (s: Step)
      requires run.Valid() && run.Phase() == Decrypting
      modifies run`actions, run.queue
      ensures run.Valid()
      ensures s.Go? ==> run.Phase() == Decrypting
      ensures s.Throw? ==> run.Phase() == Failing
      ensures Keeps(old(run.queue.events), run.queue.events, run.jobId)
    {
      if r.contentHash == [] { return Go; }
      var matched := (if r.hashAlgo.Sha256? then env.sha256(data) else env.sha1(data)) == r.contentHash;
      if !matched && r.hashAlgo.Sha256? && |r.contentHash| == 32 && env.sha1(data) <= r.contentHash {
        matched := true;
        :- run.AddEvent("hash_algo_adjusted");
      }
      if !matched {
        :- run.AddEvent("hash_mismatch");
      }
      return Go;
    }

    /** One content: decrypted next to its source, and cut to the size in its record. */
    method DecryptContent(run: LiveRun, dir: WorkDir, key: Cbc.Block, r: TitleData.ContentRecord, a: Artifact,
                          fake: bool)
      returns (s: Step, out: Artifact)
      requires run.Valid() && run.Phase() == Decrypting
      requires a.localPath.App?
      modifies run`actions, run.queue, dir
      ensures run.Valid()
      ensures s.Go? ==> run.Phase() == Decrypting
      ensures s.Throw? ==> run.Phase() == Failing
      ensures Keeps(old(run.queue.events), run.queue.events, run.jobId)
      ensures forall name | name != Dec(a.localPath.id) :: SameFile(old(dir.files), dir.files, name)
      ensures s.Go? ==>
                && Decryptable(old(dir.files), a.localPath, r)
                && Dec(a.localPath.id) in dir.files
                && dir.files[Dec(a.localPath.id)] == PlainOf(env.cipher, key, old(dir.files), a.localPath, r)
                && out == a.(localPath := Dec(a.localPath.id), size := |dir.files[Dec(a.localPath.id)]|,
                             sha256 := env.sha256(dir.files[Dec(a.localPath.id)]))
    {
      out := a;
      var dec := Dec(a.localPath.id);
      var decrypted := AppDecryptor.DecryptApp(dir, a.localPath, dec, env.cipher, key, r.index, DEFAULT_BLOCK_SIZE);
      if decrypted.Err? {
        s := run.Fail(Decryption);
        return;
      }
      if * { return Die, out; }
      var written := decrypted.value;
      if r.size < written {
        dir.files := dir.files[dec := dir.files[dec][..r.size]];
        written := r.size;
      }
      if !fake {
        :- CheckHash(run, r, dir.files[dec]);
      }
      return Go, a.(localPath := dec, size := written, sha256 := env.sha256(dir.files[dec]));
    }

    /** All artifacts, in order: contents with a record are decrypted, everything else is passed on. */
    method DecryptAll(run: LiveRun, dir: WorkDir, key: Cbc.Block, contents: seq<TitleData.ContentRecord>,
                      artifacts: seq<Artifact>, fake: bool)
      returns (s: Step, outs: seq<Artifact>)
      requires run.Valid() && run.Phase() == Decrypting
      modifies run`actions, run.queue, dir
      ensures run.Valid()
      ensures s.Go? ==> run.Phase() == Decrypting
      ensures s.Throw? ==> run.Phase() == Failing
      ensures Keeps(old(run.queue.events), run.queue.events, run.jobId)
      ensures OnlyDecrypts(old(dir.files), dir.files)
      ensures s.Go? ==> |outs| == |artifacts|
      ensures s.Go? ==>
                FirstDecrypted(env.cipher, key, contents, old(dir.files), dir.files, artifacts, outs, |outs|,
                               env.sha256)
    {
      outs := [];
      ghost var was := dir.files;
      for i := 0 to |artifacts|
        invariant run.Valid() && run.Phase() == Decrypting
        invariant Keeps(old(run.queue.events), run.queue.events, run.jobId)
        invariant OnlyDecrypts(was, dir.files)
        invariant |outs| == i
                    && FirstDecrypted(env.cipher, key, contents, was, dir.files, artifacts, outs, i, env.sha256)
      {
        var a := artifacts[i];
        var r := RecordFor(contents, a);
        ghost var before := dir.files;
        var out := a;
        if r.Some? {
          assert SameFile(was, before, a.localPath);
          s, out := DecryptContent(run, dir, key, r.value, a, fake);
          StillOnlyDecrypts(was, before, dir.files, a.localPath.id);
          if !s.Go? { return s, outs; }
        }
        OneMoreDecrypted(env.cipher, key, contents, was, before, dir.files, artifacts, outs, i, out, env.sha256);
        outs := outs + [out];
      }
      s := Go;
    }

    /** The ticket is read and the contents decrypted, when there are a ticket and a TMD; a ticket that cannot be read
        ends the run as failed. */
    method Decrypt(run: LiveRun, dir: WorkDir, d: DownloadResult)
      returns (s: Step, failed: bool, outs: seq<Artifact>, ticket: Option<Ticket.TicketInfo>)
      requires run.Valid() && run.Phase() == Decrypting
      modifies run`actions, run.queue, dir
      ensures run.Valid()
      ensures s.Go? ==> run.Phase() == if failed then Finished(false, false) else Decrypting
      ensures s.Throw? ==> run.Phase() == Failing
      ensures Keeps(old(run.queue.events), run.queue.events, run.jobId)
      ensures OnlyDecrypts(old(dir.files), dir.files)
      ensures s.Go? && !failed ==>
                if d.cetkBytes.Some? && d.cetkBytes.value != [] && d.tmdInfo.Some?
                then
                  && ticket.Some?
                  && Ticket.ParseTicketBytes(env.cipher, d.cetkBytes.value, env.commonKeyVariable) == Ok(ticket.value)
                  && |outs| == |d.artifacts|
                  && FirstDecrypted(env.cipher, ticket.value.titleKey, d.tmdInfo.value.contents, old(dir.files),
                                    dir.files,
                                    d.artifacts, outs, |outs|, env.sha256)
                else ticket.None? && outs == d.artifacts
    {
      failed, outs, ticket := false, d.artifacts, None;
      if d.cetkBytes.None? || d.cetkBytes.value == [] || d.tmdInfo.None? {
        :- run.AddEvent("decrypt");
        return Go, false, outs, ticket;
      }
      var parsed := Ticket.ParseTicketBytes(env.cipher, d.cetkBytes.value, env.commonKeyVariable);
      if parsed.Err? {
        var code := TicketErrorCode(parsed.error);
        :- Conclude(run, false, Some(code), Some(code), code, map["error_code" := code]);
        :- run.AddEvent("error");
        return Go, true, outs, ticket;
      }
      ticket := Some(parsed.value);
      s, outs := DecryptAll(run, dir, parsed.value.titleKey, d.tmdInfo.value.contents, d.artifacts, d.fakeTicket);
      if !s.Go? { return; }
      :- run.AddEvent("decrypt");
      return Go, false, outs, ticket;
    }

    // ---------- installation ----------

    /** Writing the artifacts, directly or staged, and concluding the run as done. */
    method Install(run: LiveRun, dir: WorkDir, titleId: string, artifacts: seq<Artifact>, fallback: bool,
                   settings: Settings)
      returns (s: Step, summary: Option<WriteSummary>)
      requires Valid() && run.Valid() && run.queue == queue && run.Phase() == Decrypting
      modifies run`actions, queue, writer.adapter.engine.device, writer.adapter.sim`fs
      ensures Valid() && run.Valid()
      ensures s.Go? ==> run.Phase() == Finished(true, false)
      ensures s.Throw? ==> run.Phase() == Failing
      ensures s.Go? ==> summary.Some? && summary.value.fallback == fallback && summary.value.dryRun == settings.dryRun
                        && Reported(queue.events, run.jobId, summary.value)
      ensures settings.dryRun ==> writer.adapter.Files() == old(writer.adapter.Files())
      ensures s.Go? && !settings.dryRun && old(NothingWritten(queue.events, run.jobId)) ==>
                StoreAll(writer.Disk(), old(writer.adapter.Files()),
                         PlacementsOf(dir.files, titleId, artifacts, fallback))
                == Ok(writer.adapter.Files())
    {
      s, summary := BeginAndWrite(run, dir, titleId, artifacts, fallback, settings);
      if s.Go? { s := EndInstall(run, fallback); }
    }

    /** Up to the writer's report. */
    method BeginAndWrite(run: LiveRun, dir: WorkDir, titleId: string, artifacts: seq<Artifact>, fallback: bool,
                         settings: Settings)
      returns (s: Step, summary: Option<WriteSummary>)
      requires Valid() && run.Valid() && run.queue == queue && run.Phase() == Decrypting
      modifies run`actions, queue, writer.adapter.engine.device, writer.adapter.sim`fs
      ensures Valid() && run.Valid()
      ensures s.Go? ==> run.Phase() == if fallback then Staged else Writing
      ensures s.Throw? ==> run.Phase() == Failing
      ensures s.Go? ==> summary.Some? && summary.value.fallback == fallback && summary.value.dryRun == settings.dryRun
                        && Reported(queue.events, run.jobId, summary.value)
      ensures settings.dryRun ==> writer.adapter.Files() == old(writer.adapter.Files())
      ensures s.Go? && !settings.dryRun && old(NothingWritten(queue.events, run.jobId)) ==>
                StoreAll(writer.Disk(), old(writer.adapter.Files()),
                         PlacementsOf(dir.files, titleId, artifacts, fallback))
                == Ok(writer.adapter.Files())
    {
      summary := None;
      s := BeginInstall(run, fallback);
      if s.Go? { s, summary := Write(run, dir, titleId, artifacts, fallback, settings); }
    }

    method BeginInstall(run: LiveRun, fallback: bool) returns (s: Step)
      requires Valid() && run.Valid() && run.queue == queue && run.Phase() == Decrypting
      modifies run`actions, queue
      ensures Valid() && writer.adapter.Files() == old(writer.adapter.Files())
      ensures run.Valid() && Keeps(old(queue.events), queue.events, run.jobId)
      ensures s.Go? ==> run.Phase() == if fallback then Staged else Writing
      ensures s.Throw? ==> run.Phase() == Failing
    {
      if fallback {
        s := Advance(run, FALLBACK_STAGED, "fallback_staged", 0.75);
      } else {
        s := Advance(run, WRITING_WFS, "writing_wfs", 0.65);
      }
    }

    /** A direct install is verified in name before it is done. */
    method EndInstall(run: LiveRun, fallback: bool) returns (s: Step)
      requires Valid() && run.Valid() && run.queue == queue && run.Phase() == if fallback then Staged else Writing
      modifies run`actions, queue
      ensures Valid() && writer.adapter.Files() == old(writer.adapter.Files())
      ensures run.Valid() && Keeps(old(queue.events), queue.events, run.jobId)
      ensures s.Go? ==> run.Phase() == Finished(true, false)
      ensures s.Throw? ==> run.Phase() == Failing
    {
      if !fallback {
        :- Advance(run, VERIFYING, "verifying", 0.9);
      }
      var message := if fallback then "Fallback staged install completed" else "Install completed";
      s := Conclude(run, true, None, None, message, map[]);
    }

    /** The writer's events become actions of the run. */
    method Write(run: LiveRun, dir: WorkDir, titleId: string, artifacts: seq<Artifact>, fallback: bool,
                 settings: Settings)
      returns (s: Step, summary: Option<WriteSummary>)
      requires Valid() && run.Valid() && run.queue == queue && (run.Phase() == Staged || run.Phase() == Writing)
      modifies run`actions, queue, writer.adapter.engine.device, writer.adapter.sim`fs
      ensures Valid() && run.Valid()
      ensures s.Go? ==> run.Phase() == old(run.Phase())
      ensures s.Throw? ==> run.Phase() == Failing
      ensures s.Go? ==> summary.Some? && summary.value.fallback == fallback && summary.value.dryRun == settings.dryRun
                        && Reported(queue.events, run.jobId, summary.value)
      ensures settings.dryRun ==> writer.adapter.Files() == old(writer.adapter.Files())
      ensures s.Go? && !settings.dryRun && old(NothingWritten(queue.events, run.jobId)) ==>
                StoreAll(writer.Disk(), old(writer.adapter.Files()),
                         PlacementsOf(dir.files, titleId, artifacts, fallback))
                == Ok(writer.adapter.Files())
    {
      ghost var was := queue.Contents();
      var r := writer.WriteFirst(dir, run.jobId, titleId, artifacts, fallback, settings, env.sha256);
      run.AbsorbLog(was);
      match r {
        case WriterKilled => return Die, None;
        case WriteFailed(error) =>
          s := run.Fail(RunError.Disk(error));
          return s, None;
        case Written(report) => return Go, Some(report);
      }
    }

    /** Choosing between direct and fallback installation, or neither. */
    method Choose(d: DownloadResult, mode: string, allowFallback: bool) returns (plan: Plan)
      ensures plan.Refuse? <==> UsesFallback(d, mode, env.maxDirectFileBytes) && !allowFallback
      ensures plan.Refuse? ==> plan.code == if mode == "fallback" then "FALLBACK_DISABLED" else "FALLBACK_REQUIRED"
      ensures plan.Place? ==> plan.fallback == UsesFallback(d, mode, env.maxDirectFileBytes)
    {
      var analysis := Analyzer.Analyze(d, env.maxDirectFileBytes);
      var forceFallback := mode == "fallback";
      if forceFallback && !allowFallback { return Refuse("FALLBACK_DISABLED"); }
      if forceFallback && allowFallback { return Place(true); }
      if analysis.directPlayable { return Place(false); }
      if allowFallback { return Place(true); }
      return Refuse(if analysis.requiresFallback then "FALLBACK_REQUIRED" else "USB_ONLY_IMPOSSIBLE");
    }

    /** Failing for want of a way to install. */
    method Refused(run: LiveRun, code: string) returns (s: Step)
      requires Valid() && run.Valid() && run.queue == queue && run.Phase() == Decrypting
      modifies run`actions, queue
      ensures Valid() && writer.adapter.Files() == old(writer.adapter.Files())
      ensures run.Valid()
      ensures s.Go? ==> run.Phase() == Finished(false, false)
      ensures s.Throw? ==> run.Phase() == Failing
    {
      s := Conclude(run, false, Some(code), Some(code), code, map["error" := code]);
    }

    /** Installing as planned, or not at all. */
    method Follow(run: LiveRun, dir: WorkDir, d: DownloadResult, plan: Plan, settings: Settings)
      returns (s: Step, summary: Option<WriteSummary>)
      requires Valid() && run.Valid() && run.queue == queue && run.Phase() == Decrypting
      modifies run`actions, queue, writer.adapter.engine.device, writer.adapter.sim`fs
      ensures Valid() && run.Valid()
      ensures s.Throw? ==> run.Phase() == Failing
      ensures s.Go? ==> run.Phase() == Finished(plan.Place?, false)
      ensures s.Go? && plan.Place? ==>
                && summary.Some? && Reported(queue.events, run.jobId, summary.value)
                && summary.value.fallback == plan.fallback && summary.value.dryRun == settings.dryRun
      ensures settings.dryRun ==> writer.adapter.Files() == old(writer.adapter.Files())
      ensures s.Go? && plan.Place? && !settings.dryRun && old(NothingWritten(queue.events, run.jobId)) ==>
                StoreAll(writer.Disk(), old(writer.adapter.Files()),
                         PlacementsOf(dir.files, d.titleId, d.artifacts, plan.fallback))
                == Ok(writer.adapter.Files())
    {
      summary := None;
      if plan.Refuse? {
        s := Refused(run, plan.code);
      } else {
        s, summary := Install(run, dir, d.titleId, d.artifacts, plan.fallback, settings);
      }
    }

    /** The analysis is logged, and the setting that it is weighed against is read. */
    method LogAnalysis(run: LiveRun) returns (s: Step)
      requires Valid() && run.Valid() && run.queue == queue && run.Phase() == Decrypting
      modifies run`actions, queue
      ensures Valid() && writer.adapter.Files() == old(writer.adapter.Files())
      ensures run.Valid() && Keeps(old(queue.events), queue.events, run.jobId)
      ensures s.Go? ==> run.Phase() == Decrypting
      ensures s.Throw? ==> run.Phase() == Failing
    {
      s := run.AddEventAndReadSetting("analysis");
    }

    /** Installing as chosen, or failing for want of a way to install. */
    method Decide(run: LiveRun, dir: WorkDir, d: DownloadResult, mode: string, settings: Settings)
      returns (s: Step, state: QueueState, summary: Option<WriteSummary>)
      requires Valid() && run.Valid() && run.queue == queue && run.Phase() == Decrypting
      modifies run`actions, queue, writer.adapter.engine.device, writer.adapter.sim`fs
      ensures Valid() && run.Valid()
      ensures s.Throw? ==> run.Phase() == Failing
      ensures s.Go? ==> run.Phase() == Finished(state == DONE, false) && state in {DONE, FAILED}
      ensures s.Go? ==> (state == DONE <==> settings.allowFallback || !UsesFallback(d, mode, env.maxDirectFileBytes))
      ensures s.Go? && state == DONE ==>
                && summary.Some? && Reported(queue.events, run.jobId, summary.value)
                && summary.value.fallback == UsesFallback(d, mode, env.maxDirectFileBytes)
                && summary.value.dryRun == settings.dryRun
      ensures settings.dryRun ==> writer.adapter.Files() == old(writer.adapter.Files())
      ensures s.Go? && state == DONE && !settings.dryRun && old(NothingWritten(queue.events, run.jobId)) ==>
                StoreAll(writer.Disk(), old(writer.adapter.Files()),
                         PlacementsOf(dir.files, d.titleId, d.artifacts, summary.value.fallback))
                == Ok(writer.adapter.Files())
    {
      state, summary := FAILED, None;
      s := LogAnalysis(run);
      if !s.Go? { return; }
      var plan := Choose(d, mode, settings.allowFallback);
      s, summary := Follow(run, dir, d, plan, settings);
      state := if plan.Place? then DONE else FAILED;
    }

    // ---------- the whole run ----------

    /** From the start to the decrypted artifacts. */
    method Prepare(run: LiveRun, dir: WorkDir, bodies: Bodies, titleId: string, settings: Settings)
      returns (s: Step, p: Option<Prepared>)
      requires Valid() && run.Valid() && run.queue == queue && run.Phase() == Created
      modifies run`actions, queue, dir
      ensures Valid() && writer.adapter.Files() == old(writer.adapter.Files())
      ensures run.Valid()
      ensures s.Throw? ==> run.Phase() == Failing
      ensures s.Go? ==> run.Phase() == if p.None? then Finished(false, false) else Decrypting
      ensures Keeps(old(run.queue.events), run.queue.events, run.jobId)
      ensures Sound(old(dir.files), bodies) ==> Sound(dir.files, bodies)
      ensures s.Go? && p.Some? ==> ReadyToInstall(p.value, titleId, settings)
      ensures s.Go? && p.Some? && Sound(old(dir.files), bodies) ==> Decoded(p.value, dir.files, bodies)
    {
      p := None;
      var result;
      s, result := Fetch(run, dir, bodies, titleId, settings);
      if !s.Go? { return; }
      var was := dir.files;
      var failed, outs, ticket;
      s, failed, outs, ticket := Decrypt(run, dir, result.value);
      if Sound(was, bodies) { DecryptKeepsSound(was, dir.files, bodies); }
      if !s.Go? || failed { return; }
      p := Some(Prepared(result.value, ticket, was, outs));
    }

    predicate ReadyToInstall(p: Prepared, titleId: string, settings: Settings) {
      && p.downloaded.titleId == LowerText(titleId) && HasItsTicket(p.downloaded)
      && (p.downloaded.fakeTicket ==> settings.allowFakeTickets)
      && (p.downloaded.ticketPresent && p.downloaded.tmdInfo.Some? ==> p.ticket.Some?)
      && (p.ticket.Some? ==>
            && p.downloaded.tmdInfo.Some? && p.downloaded.cetkBytes.Some?
            && Ticket.ParseTicketBytes(env.cipher, p.downloaded.cetkBytes.value, env.commonKeyVariable)
               == Ok(p.ticket.value))
    }

    /** What was downloaded is sound and complete, and was decrypted with the ticket. */
    ghost predicate Decoded(p: Prepared, files: Files, bodies: Bodies) {
      && Complete(p.was, bodies, p.downloaded, env.sha256)
      && OnlyDecrypts(p.was, files)
      && (p.ticket.Some? ==>
            && p.downloaded.tmdInfo.Some? && |p.outs| == |p.downloaded.artifacts|
            && FirstDecrypted(env.cipher, p.ticket.value.titleKey, p.downloaded.tmdInfo.value.contents, p.was, files,
                              p.downloaded.artifacts, p.outs, |p.outs|, env.sha256))
    }

    /** From the decrypted artifacts to the end. */
    method InstallPrepared(run: LiveRun, dir: WorkDir, p: Prepared, titleId: string, mode: string, settings: Settings)
      returns (s: Step, state: QueueState, ghost e: Option<Evidence>)
      requires Valid() && run.Valid() && run.queue == queue && run.Phase() == Decrypting
      requires ReadyToInstall(p, titleId, settings)
      modifies run`actions, queue, writer.adapter.engine.device, writer.adapter.sim`fs
      ensures Valid() && run.Valid()
      ensures s.Throw? ==> run.Phase() == Failing
      ensures s.Go? ==> run.Phase() == Finished(state == DONE, false) && state in {DONE, FAILED}
      ensures s.Go? && state == DONE ==>
                e.Some? && e.value.prepared == p && Justified(e.value, run.jobId, titleId, mode, settings)
      ensures settings.dryRun ==> writer.adapter.Files() == old(writer.adapter.Files())
      ensures s.Go? && state == DONE && !settings.dryRun && old(NothingWritten(queue.events, run.jobId)) ==>
                Placed(e.value, old(writer.adapter.Files()), dir.files)
    {
      e := None;
      var summary;
      s, state, summary := Decide(run, dir, p.downloaded.(artifacts := p.outs), mode, settings);
      if s.Go? && state == DONE {
        e := Some(Evidence(p, summary.value));
        JustifiedBy(e.value, run.jobId, titleId, mode, settings);
      }
    }

    /** Every artifact has been placed, in order. */
    ghost predicate Placed(e: Evidence, base: Fs, files: Files)
      reads writer.adapter.engine.device, writer.adapter.engine, writer.adapter.sim
    {
      StoreAll(writer.Disk(), base,
               PlacementsOf(files, e.prepared.downloaded.titleId, e.prepared.outs, e.summary.fallback))
      == Ok(writer.adapter.Files())
    }

    /** Everything the exception handler is around. */
    method Body(run: LiveRun, dir: WorkDir, bodies: Bodies, titleId: string, mode: string, settings: Settings)
      returns (s: Step, state: QueueState, ghost e: Option<Evidence>)
      requires Valid() && run.Valid() && run.queue == queue && run.Phase() == Created
      modifies run`actions, queue, dir, writer.adapter.engine.device, writer.adapter.sim`fs
      ensures Valid() && run.Valid()
      ensures s.Throw? ==> run.Phase() == Failing
      ensures s.Go? ==> run.Phase() == Finished(state == DONE, false) && state in {DONE, FAILED}
      ensures s.Go? && state == DONE ==> e.Some? && Justified(e.value, run.jobId, titleId, mode, settings)
      ensures settings.dryRun ==> writer.adapter.Files() == old(writer.adapter.Files())
      ensures Sound(old(dir.files), bodies) ==> Sound(dir.files, bodies)
      ensures s.Go? && state == DONE && !settings.dryRun && old(NothingWritten(queue.events, run.jobId))
              && Sound(old(dir.files), bodies) && e.value.prepared.ticket.Some? ==>
                Achieved(e.value, old(writer.adapter.Files()), dir.files, bodies)
    {
      ghost var base := writer.adapter.Files();
      state, e := FAILED, None;
      var p;
      s, p := Prepare(run, dir, bodies, titleId, settings);
      if !s.Go? || p.None? { return; }
      s, state, e := InstallPrepared(run, dir, p.value, titleId, mode, settings);
      if s.Go? && state == DONE { AchievedBy(e.value, base, dir.files, bodies); }
    }

    /** Why a run may end done: a reported write, with the fallback only where it is allowed,
        and directly only with a ticket and a TMD, the contents decrypted. */
    ghost predicate Justified(e: Evidence, jobId: nat, titleId: string, mode: string, settings: Settings)
      reads queue
    {
      && Reported(queue.events, jobId, e.summary)
      && e.summary.dryRun == settings.dryRun
      && ReadyToInstall(e.prepared, titleId, settings)
      && (e.summary.fallback ==> settings.allowFallback)
      && (!e.summary.fallback ==>
            && mode != "fallback" && e.prepared.downloaded.ticketPresent && e.prepared.downloaded.tmdInfo.Some?
            && e.prepared.ticket.Some?)
    }

    /** The download, the decryption and the disk hang together. */
    ghost predicate Achieved(e: Evidence, base: Fs, files: Files, bodies: Bodies)
      requires e.prepared.ticket.Some?
      reads writer.adapter.engine.device, writer.adapter.engine, writer.adapter.sim
    {
      ChainOf(e, base, files, bodies).Holds()
    }

    /** From the download to the disk as it is now. */
    ghost function ChainOf(e: Evidence, base: Fs, files: Files, bodies: Bodies): (c: Chain)
      requires e.prepared.ticket.Some?
      reads writer.adapter.engine.device, writer.adapter.engine, writer.adapter.sim
    {
      Chain(writer.Disk(), base, writer.adapter.Files(), env.cipher, e.prepared.ticket.value.titleKey, e.prepared.was,
            files, bodies,
            e.prepared.downloaded, e.prepared.outs, e.summary.fallback, env.sha256)
    }

    lemma JustifiedBy(e: Evidence, jobId: nat, titleId: string, mode: string, settings: Settings)
      requires Reported(queue.events, jobId, e.summary) && e.summary.dryRun == settings.dryRun
      requires ReadyToInstall(e.prepared, titleId, settings)
      requires e.summary.fallback
                 == UsesFallback(e.prepared.downloaded.(artifacts := e.prepared.outs), mode, env.maxDirectFileBytes)
      requires settings.allowFallback || !e.summary.fallback
      ensures Justified(e, jobId, titleId, mode, settings)
    {
      if !e.summary.fallback {
        DirectMeans(e.prepared.downloaded.(artifacts := e.prepared.outs), mode, env.maxDirectFileBytes);
      }
    }

    lemma AchievedBy(e: Evidence, base: Fs, files: Files, bodies: Bodies)
      ensures e.prepared.ticket.Some? && Decoded(e.prepared, files, bodies) && Placed(e, base, files) ==>
                Achieved(e, base, files, bodies)
    {
    }

    /** The item, then the job. */
    method FailRows(run: LiveRun, code: string) returns (s: Step)
      requires run.Valid() && run.Phase() == Failing
      modifies run`actions, run.queue
      ensures run.Valid()
      ensures s.Go? ==> run.Phase() == Finished(false, true)
      ensures s.Throw? ==> run.Phase() == Dead
    {
      s := Go;
      :- run.SetState(ItemUpdate(FAILED, Some(1.0), Some(code), Some(code)));
      s := run.UpdateJob(JobUpdate(Some("failed"), Some(1.0), Some(JOB_FAILED), Some(code),
                                   Some(map["error_code" := code])));
    }

    /** The exception handler: it fails the item, then the job; an exception inside it escapes. */
    method Handle(run: LiveRun, error: RunError) returns (r: RunResult)
      requires Valid() && run.Valid() && run.queue == queue && run.Phase() == Failing
      modifies run`actions, queue
      ensures Valid() && writer.adapter.Files() == old(writer.adapter.Files())
      ensures run.Valid() && !r.NotStarted?
      ensures r.Returned? ==> r.state == FAILED && run.Phase() == Finished(false, true)
      ensures r.Escaped? ==> run.Phase() == Dead
    {
      var s := FailRows(run, ErrorCode(error, writer.adapter.backend));
      if s.Go? {
        s := run.AddEvent("error");
      }
      match s {
        case Die => return RunKilled;
        case Throw(_) => return Escaped;
        case Go => return Returned(FAILED);
      }
    }

    /** What the body's last step makes of the run: an exception goes to the handler. */
    method Answer(run: LiveRun, s: Step, state: QueueState) returns (r: RunResult)
      requires Valid() && run.Valid() && run.queue == queue && (s.Throw? ==> run.Phase() == Failing)
      modifies run`actions, queue
      ensures Valid() && writer.adapter.Files() == old(writer.adapter.Files())
      ensures run.Valid() && !r.NotStarted?
      ensures s.Go? ==>
                r == Returned(state) && queue.Contents() == old(queue.Contents()) && run.actions == old(run.actions)
      ensures s.Die? ==> r.RunKilled?
      ensures !s.Go? && r.Returned? ==> r.state == FAILED && run.Phase() == Finished(false, true)
      ensures r.Escaped? ==> run.Phase() == Dead
    {
      match s {
        case Die => r := RunKilled;
        case Go => r := Returned(state);
        case Throw(error) => r := Handle(run, error);
      }
    }

    /** The body with its handler. */
    method Guarded(run: LiveRun, dir: WorkDir, bodies: Bodies, titleId: string, mode: string, settings: Settings)
      returns (r: RunResult, ghost e: Option<Evidence>)
      requires Valid() && run.Valid() && run.queue == queue && run.Phase() == Created
      requires NothingWritten(queue.events, run.jobId)
      modifies run`actions, queue, dir, writer.adapter.engine.device, writer.adapter.sim`fs
      ensures Valid() && run.Valid() && !r.NotStarted?
      ensures r.Returned? ==> r.state in {DONE, FAILED} && EndsIn(run.actions, r.state)
      ensures r.Escaped? ==> run.Phase() == Dead
      ensures r == Returned(DONE) ==> e.Some? && Justified(e.value, run.jobId, titleId, mode, settings)
      ensures settings.dryRun ==> writer.adapter.Files() == old(writer.adapter.Files())
      ensures Sound(old(dir.files), bodies) ==> Sound(dir.files, bodies)
      ensures r == Returned(DONE) && !settings.dryRun && Sound(old(dir.files), bodies)
                && e.value.prepared.ticket.Some? ==>
                Achieved(e.value, old(writer.adapter.Files()), dir.files, bodies)
    {
      var s, state;
      s, state, e := Body(run, dir, bodies, titleId, mode, settings);
      r := Answer(run, s, state);
    }

    /** What is true after a run on an item, whichever way it ended; `was`, `base` and `start` are the database,
        the disk and the work directory before it. */
    ghost predicate Outcome(r: RunResult, actions: seq<Action>, e: Option<Evidence>, was: Db, base: Fs, start: Files,
                            dir: WorkDir, bodies: Bodies, itemId: nat, jobId: nat, now: nat, settings: Settings)
      requires itemId in was.items
      reads queue, dir, writer.adapter.engine.device, writer.adapter.engine, writer.adapter.sim
    {
      && (r.NotStarted? ==> queue.Contents() == was)
      && (!r.NotStarted? ==>
            && Trace(actions).Some?
            && SameOwnRows(queue.Contents(), Replay(Begun(was, itemId, jobId, now), itemId, jobId, actions), itemId,
                           jobId))
      && (r.Returned? ==> r.state in {DONE, FAILED} && EndsIn(actions, r.state))
      && (r.Escaped? ==> Trace(actions) == Some(Dead))
      && (r == Returned(DONE) ==>
            e.Some? && Justified(e.value, jobId, was.items[itemId].titleId, LowerText(was.items[itemId].preferredMode),
                                 settings))
      && (settings.dryRun ==> writer.adapter.Files() == base)
      && (Sound(start, bodies) ==> Sound(dir.files, bodies))
      && (r == Returned(DONE) && !settings.dryRun && Sound(start, bodies) && e.value.prepared.ticket.Some? ==>
            Achieved(e.value, base, dir.files, bodies))
    }

    /** One whole run on an item, with a kill or an exception possible at every step. */
    method ProcessQueueItem(dir: WorkDir, bodies: Bodies, itemId: nat, jobId: nat, now: nat, settings: Settings)
      returns (r: RunResult, ghost actions: seq<Action>, ghost e: Option<Evidence>)
      requires Valid() && itemId in queue.items && jobId !in queue.jobs && NothingWritten(queue.events, jobId)
      modifies queue, dir, writer.adapter.engine.device, writer.adapter.sim`fs
      ensures Valid()
      ensures Outcome(r, actions, e, old(queue.Contents()), old(writer.adapter.Files()), old(dir.files), dir, bodies,
                      itemId, jobId, now, settings)
    {
      actions, e := [], None;
      var titleId, mode := queue.items[itemId].titleId, LowerText(queue.items[itemId].preferredMode);
      var created := queue.CreateJob(jobId, itemId, "queued", 0.0, now);
      if created.RolledBack? { return NotStarted, actions, e; }
      var run := new LiveRun(queue, itemId, jobId);
      r, e := Guarded(run, dir, bodies, titleId, mode, settings);
      actions := run.actions;
    }

    /** The oldest waiting item is taken; nothing happens when none waits. */
    method ProcessNext(dir: WorkDir, bodies: Bodies, jobId: nat, now: nat, settings: Settings)
      returns (itemId: Option<nat>, r: RunResult, ghost actions: seq<Action>, ghost e: Option<Evidence>)
      requires Valid() && jobId !in queue.jobs && NothingWritten(queue.events, jobId)
      modifies queue, dir, writer.adapter.engine.device, writer.adapter.sim`fs
      ensures Valid()
      ensures itemId.None? <==> forall i | i in old(queue.items) :: old(queue.items)[i].state != QUEUED
      ensures itemId.None? ==>
                queue.Contents() == old(queue.Contents()) && writer.adapter.Files() == old(writer.adapter.Files())
      ensures itemId.Some? ==>
                && itemId.value in old(queue.items) && old(queue.items)[itemId.value].state == QUEUED
                && (forall i | i in old(queue.items) && old(queue.items)[i].state == QUEUED ::
                      old(queue.items)[itemId.value].createdAt <= old(queue.items)[i].createdAt)
                && Outcome(r, actions, e, old(queue.Contents()), old(writer.adapter.Files()), old(dir.files), dir,
                           bodies,
                           itemId.value, jobId, now, settings)
    {
      itemId := queue.NextQueuedItem();
      r, actions, e := NotStarted, [], None;
      if itemId.Some? {
        r, actions, e := ProcessQueueItem(dir, bodies, itemId.value, jobId, now, settings);
      }
    }

    /** The item asked for, whatever its state, when it exists. */
    method ExecuteQueueItem(dir: WorkDir, bodies: Bodies, itemId: nat, jobId: nat, now: nat, settings: Settings)
      returns (found: bool, r: RunResult, ghost actions: seq<Action>, ghost e: Option<Evidence>)
      requires Valid() && jobId !in queue.jobs && NothingWritten(queue.events, jobId)
      modifies queue, dir, writer.adapter.engine.device, writer.adapter.sim`fs
      ensures Valid()
      ensures found <==> itemId in old(queue.items)
      ensures !found ==>
                queue.Contents() == old(queue.Contents()) && writer.adapter.Files() == old(writer.adapter.Files())
      ensures found ==>
                Outcome(r, actions, e, old(queue.Contents()), old(writer.adapter.Files()), old(dir.files), dir, bodies,
                        itemId, jobId, now, settings)
    {
      found, r, actions, e := itemId in queue.items, NotStarted, [], None;
      if found {
        r, actions, e := ProcessQueueItem(dir, bodies, itemId, jobId, now, settings);
      }
    }

    // ---------- what a run that returns guarantees ----------

    /** When a run returns: once its job exists, and unless it is killed, exactly when its handler does not raise,
        and so after no or one exception at any of its own steps. A second one, which only the handler can raise,
        escapes. */
    lemma ReturnsUnlessHandlerRaises(r: RunResult, actions: seq<Action>, e: Option<Evidence>, was: Db, base: Fs,
                                     start: Files, dir: WorkDir, bodies: Bodies, itemId: nat, jobId: nat, now: nat,
                                     settings: Settings)
      requires itemId in was.items && !r.NotStarted? && !r.RunKilled?
      requires Outcome(r, actions, e, was, base, start, dir, bodies, itemId, jobId, now, settings)
      ensures r.Returned? <==> Raises(actions) <= 1
      ensures r.Escaped? <==> Raises(actions) == 2
      ensures r.Escaped? ==>
                var front := actions[..|actions| - 1];
                Trace(front).Some? && Handling(Trace(front).value) && Raises(front) == 1
    {
      RaisesTellThePhase(actions);
      if r.Escaped? { EscapeIsRaisedInHandler(actions); }
    }

    /** A run that has created its job, is not killed and sees no more than one exception returns. It has left item and
        job in the state it returns, has finished the job, and has written no other row, whatever other runs did to
        theirs; the states it wrote to the item form a legal path, and its error code is new exactly when it failed. */
    lemma ReturnedRunSettles(r: RunResult, actions: seq<Action>, e: Option<Evidence>, was: Db, base: Fs, start: Files,
                             dir: WorkDir, bodies: Bodies, itemId: nat, jobId: nat, now: nat, settings: Settings)
      requires itemId in was.items && jobId !in was.jobs && !r.NotStarted? && !r.RunKilled? && Raises(actions) <= 1
      requires Outcome(r, actions, e, was, base, start, dir, bodies, itemId, jobId, now, settings)
      ensures r.Returned?
      ensures itemId in queue.items && queue.items[itemId].state == r.state && queue.items[itemId].progress == 1.0
      ensures r.state == FAILED ==> queue.items[itemId].errorCode.Some?
      ensures r.state == DONE ==> queue.items[itemId].errorCode == was.items[itemId].errorCode
      ensures jobId in queue.jobs && queue.jobs[jobId].finishedAt.Some? && queue.jobs[jobId].progress == 1.0
      ensures queue.jobs[jobId].state == if r.state == DONE then JOB_DONE else JOB_FAILED
      ensures var begun := Begun(was, itemId, jobId, now);
              OwnRowsOnly(begun, Replay(begun, itemId, jobId, actions), itemId, jobId)
      ensures LegalPath(Observed(actions))
    {
      RaisesTellThePhase(actions);
      RunLeavesItsState(Begun(was, itemId, jobId, now), itemId, jobId, actions);
      if r.state == DONE { ErrorCodeKeptUnlessFailed(Begun(was, itemId, jobId, now), itemId, jobId, actions); }
      RunsFollowThePath(actions);
    }

    /** A content that was fetched only up to a size off a block boundary cannot be decrypted, so such a run never
        returns DONE after decrypting, and in particular not from a direct install. */
    lemma DoneMeansWholeBlocks(actions: seq<Action>, e: Evidence, was: Db, base: Fs, start: Files, dir: WorkDir,
                               bodies: Bodies, itemId: nat, jobId: nat, now: nat, settings: Settings, i: nat)
      requires itemId in was.items
      requires Outcome(Returned(DONE), actions, Some(e), was, base, start, dir, bodies, itemId, jobId, now, settings)
      requires !settings.dryRun && Sound(start, bodies) && e.prepared.ticket.Some?
      requires var c := ChainOf(e, base, dir.files, bodies); DistinctIds(c.Contents()) && i < |c.Contents()|
      ensures var r := ChainOf(e, base, dir.files, bodies).Contents()[i];
              var name := App(ContentHex(r));
              && name in e.prepared.was && |e.prepared.was[name]| % 16 == 0
              && (r.size % 16 != 0 ==> e.prepared.was[name] == bodies(name))
    {
      ChainWholeBlocks(ChainOf(e, base, dir.files, bodies), i);
    }

    /** End to end: with contents served encrypted under the ticket's title key, distinct ids and dry_run off, a run
        that returns DONE after decrypting has put exactly the wanted plaintext at every content's target, however it
        was fetched, and the TMD and ticket at theirs, and has changed no other file; a direct install always
        decrypts. */
    lemma DoneMeansInstalled(actions: seq<Action>, e: Evidence, was: Db, base: Fs, start: Files, dir: WorkDir,
                             bodies: Bodies, itemId: nat, jobId: nat, now: nat, settings: Settings,
                             plain: string -> seq<byte>)
      requires itemId in was.items
      requires Outcome(Returned(DONE), actions, Some(e), was, base, start, dir, bodies, itemId, jobId, now, settings)
      requires !settings.dryRun && Sound(start, bodies)
      ensures !e.summary.fallback ==> e.prepared.ticket.Some?
      ensures e.prepared.downloaded.titleId == LowerText(was.items[itemId].titleId)
      ensures e.prepared.ticket.Some? ==>
                && e.prepared.downloaded.tmdInfo.Some?
                && TitleData.Parsed(bodies(LocalName.Tmd)) == Ok(e.prepared.downloaded.tmdInfo.value)
      ensures e.prepared.ticket.Some? && ChainOf(e, base, dir.files, bodies).Serves(plain) ==>
                var c := ChainOf(e, base, dir.files, bodies);
                && Installed(writer.Disk(), c.d.titleId, c.Contents(), plain, e.summary.fallback,
                             writer.adapter.Files())
                && HeadsInstalled(c)
                && OthersKept(writer.Disk(), FilesOf(base), FilesOf(writer.adapter.Files()), c.Placements())
    {
      if e.prepared.ticket.Some? && ChainOf(e, base, dir.files, bodies).Serves(plain) {
        InstalledExactly(ChainOf(e, base, dir.files, bodies), plain);
      }
    }
  }

  /** The progress a mark's row updates write. */
  function ToldProgress(m: Mark, total: nat): (p: real)
    requires total > 0 && m.call.emit.file < total + 2
    ensures 0.1 <= p <= 0.35
  {
    Progress.QueueProgressBounds(Progress.JobProgress(m.call.emit, total));
    Progress.QueueProgress(Progress.JobProgress(m.call.emit, total))
  }

  /** The actions since `was` are marks of the download, in their order: row updates with the progress they were
      told. */
  predicate Relayed(was: seq<Action>, now: seq<Action>, at: seq<nat>, marks: seq<Mark>, total: nat)
    requires total > 0 && forall m | m in marks :: m.call.emit.file < total + 2
  {
    && was <= now && |now| == |was| + |at|
    && (forall k | 0 <= k < |at| ::
          at[k] < |marks| && Performs(now[|was| + k], marks[at[k]], ToldProgress(marks[at[k]], total)))
    && (forall k, l | 0 <= k < l < |at| :: at[k] < at[l])
  }

  lemma OneMoreRelayed(was: seq<Action>, before: seq<Action>, now: seq<Action>, at: seq<nat>, marks: seq<Mark>,
                       total: nat, i: nat)
    requires total > 0 && forall m | m in marks :: m.call.emit.file < total + 2
    requires Relayed(was, before, at, marks, total) && i < |marks| && forall k | 0 <= k < |at| :: at[k] < i
    requires |now| == |before| + 1 && before <= now && Performs(now[|before|], marks[i], ToldProgress(marks[i], total))
    ensures Relayed(was, now, at + [i], marks, total)
  {
    var longer := at + [i];
    forall k | 0 <= k < |longer|
      ensures longer[k] < |marks| && Performs(now[|was| + k], marks[longer[k]], ToldProgress(marks[longer[k]], total))
    {
      if k < |at| { assert now[|was| + k] == before[|was| + k]; }
    }
  }

  lemma OpenCount(open: set<Callback>, m: Mark)
    requires MayCome(open, m)
    ensures !m.Enter? ==> |open| > 0
    ensures |OpenAfter(open, m)| == CallbacksAfter(|open|, m)
  {
    if !m.Enter? { assert m.call in open; }
  }

  /** The progress an item update writes. */
  function ItemProgress(a: Action): real {
    if a.Commit? && a.txn.SetItem? then OrElse(a.txn.item.progress, 0.0) else 0.0
  }

  lemma ToldFallsIff(a: Mark, b: Mark, total: nat)
    requires total > 0 && a.call.emit.file < total + 2 && b.call.emit.file < total + 2
    ensures ToldProgress(b, total) < ToldProgress(a, total) <==>
            Progress.JobProgress(b.call.emit, total) < Progress.JobProgress(a.call.emit, total)
  {
    Progress.StaysInBand(a.call.emit.file, total, a.call.emit);
    Progress.StaysInBand(b.call.emit.file, total, b.call.emit);
    Progress.QueueProgressGrows(Progress.JobProgress(b.call.emit, total), Progress.JobProgress(a.call.emit, total));
  }

  /** Of two progress values that a download writes to the item's row, the later is less exactly when it is of the same
      file and claims less of it, and either its callback was overtaken by the other, or the file has started over in
      between; never when the earlier callback began with none open, in its round, and so never for a file that was
      fetched without a pool. */
  lemma WrittenProgressFallsIff(was: seq<Action>, now: seq<Action>, at: seq<nat>, marks: seq<Mark>,
                                trails: seq<Downloader.Trail>, total: nat, k: nat, l: nat)
    requires total > 0 && JobLog(marks, trails) && |trails| <= total + 2
    requires forall m | m in marks :: m.call.emit.file < total + 2
    requires Relayed(was, now, at, marks, total) && k < l < |at|
    requires var x, y := now[|was| + k], now[|was| + l]; x.Commit? && x.txn.SetItem? && y.Commit? && y.txn.SetItem?
    ensures at[k] < at[l] && marks[at[k]].Row? && marks[at[l]].Row?
    ensures var a, b := marks[at[k]].call, marks[at[l]].call;
            var falls := ItemProgress(now[|was| + l]) < ItemProgress(now[|was| + k]);
            && (falls <==>
                  && a.emit.file == b.emit.file && Progress.FileProgress(b.emit) < Progress.FileProgress(a.emit)
                  && (Overtaken(b, a) || a.emit.round < b.emit.round))
            && (a.emit.round == b.emit.round && a.emit.total.Some? && a.emit.total.value > 0 ==>
                  (falls <==> Overtaken(b, a) && b.emit.downloaded < a.emit.downloaded))
            && (falls && BeginsAlone(a.emit, trails) ==> a.emit.round < b.emit.round && trails[b.emit.file].pool.Some?)
  {
    var i, j := at[k], at[l];
    assert Performs(now[|was| + k], marks[i], ToldProgress(marks[i], total));
    assert Performs(now[|was| + l], marks[j], ToldProgress(marks[j], total));
    ToldFallsIff(marks[i], marks[j], total);
    RowProgressFallsIff(marks, trails, total, i, j);
    if BeginsAlone(marks[i].call.emit, trails) { RowProgressGrows(marks, trails, total, i, j); }
  }

  /** The value in the row can fall without any file having started over. */
  lemma WrittenProgressCanFall() returns (marks: seq<Mark>, trails: seq<Downloader.Trail>, i: nat, j: nat)
    ensures JobLog(marks, trails) && |trails| == 3
    ensures trails[0].Restarts() == 0 && trails[1].Restarts() == 0 && trails[2].Restarts() == 0
    ensures i < j < |marks| && marks[i].Row? && marks[j].Row? && marks[i].stage == marks[j].stage == 0
    ensures marks[i].call.emit.file < 3 && marks[j].call.emit.file < 3
              && ToldProgress(marks[j], 1) < ToldProgress(marks[i], 1)
  {
    marks, trails, i, j := RowProgressCanFall();
    ToldFallsIff(marks[i], marks[j], 1);
  }

  lemma LoggedMarks(marks: seq<Mark>, trails: seq<Downloader.Trail>, total: nat)
    requires JobLog(marks, trails) && |trails| <= total + 2
    ensures Nested(marks) && forall m | m in marks :: m.call.emit.file < total + 2
  {
  }

  /** The actions end a run with this state. */
  predicate EndsIn(actions: seq<Action>, state: QueueState) {
    var phase := Trace(actions);
    phase.Some? && phase.value.Finished? && phase.value.ok == (state == DONE)
  }

  lemma DirectMeans(d: DownloadResult, mode: string, limit: int)
    requires !UsesFallback(d, mode, limit)
    ensures mode != "fallback" && d.ticketPresent && d.tmdInfo.Some?
  {
  }

  lemma DecryptKeepsSound(f: Files, g: Files, bodies: Bodies)
    requires Sound(f, bodies) && OnlyDecrypts(f, g)
    ensures Sound(g, bodies)
  {
    forall name: LocalName | name.Tmd? || name.App? ensures Downloader.HoldsPrefix(g, name, bodies(name)) {
      assert SameFile(f, g, name) && Downloader.HoldsPrefix(f, name, bodies(name));
    }
  }

  lemma StillOnlyDecrypts(was: Files, before: Files, now: Files, id: string)
    requires OnlyDecrypts(was, before)
    requires forall name | name != Dec(id) :: SameFile(before, now, name)
    ensures OnlyDecrypts(was, now)
  {
    forall name: LocalName | !name.Dec? ensures SameFile(was, now, name) {
      assert SameFile(was, before, name) && SameFile(before, now, name);
    }
  }
}
