/** Fetching all files of a title (core/services/download_service.py:356-714), without a manifest. */
module TitleDownload {
  import opened Bytes
  import opened Callbacks
  import opened LocalStore
  import opened Ranges
  import opened Downloader
  import opened Artifacts
  import Cbc
  import Hex
  import Progress
  import Queue
  import Ticket
  import TitleData = Tmd

  const MIN_TMD_DOWNLOAD_SIZE := 0xB04
  const MIN_CETK_DOWNLOAD_SIZE := 0x1E4

  /** What the server has under the address of each local file. */
  type Bodies = LocalName -> seq<byte>

  /** Every file that only the downloader writes holds a prefix of its body; the ticket is not among them,
      because a synthetic one is written to the same place. */
  ghost predicate Sound(files: Files, bodies: Bodies) {
    forall name: LocalName :: name.Tmd? || name.App? ==> HoldsPrefix(files, name, bodies(name))
  }

  lemma StaysSound(f: Files, g: Files, dest: LocalName, bodies: Bodies)
    requires Sound(f, bodies) && OnlyTouches(f, g, dest) && !dest.Part?
    requires dest.Cetk? || HoldsPrefix(g, dest, bodies(dest))
    ensures Sound(g, bodies)
  {
    forall name: LocalName | name.Tmd? || name.App? ensures HoldsPrefix(g, name, bodies(name)) {
      assert name == dest || SameFile(f, g, name);
      assert HoldsPrefix(f, name, bodies(name));
    }
  }

  function ContentHex(r: TitleData.ContentRecord): string { Hex.Digits(r.contentId, 8) }

  predicate DistinctIds(contents: seq<TitleData.ContentRecord>) {
    forall i, j | 0 <= i < j < |contents| :: contents[i].contentId != contents[j].contentId
  }

  predicate DistinctNames(contents: seq<TitleData.ContentRecord>) {
    forall i, j | 0 <= i < j < |contents| :: ContentHex(contents[i]) != ContentHex(contents[j])
  }

  lemma RecordIdFits(data: seq<byte>, base: nat, layout: TitleData.Layout)
    requires base + layout.Size() <= |data|
    ensures TitleData.RecordAt(data, base, layout).contentId < Hex.Pow16(8)
  {
    BigEndianOfBytes(data[base..base + 4]);
    assert Pow256(4) == 0x1_0000_0000 by { assert Pow256(2) == 0x1_0000; }
    assert Hex.Pow16(8) == 0x1_0000_0000 by { assert Hex.Pow16(4) == 0x1_0000; }
  }

  /** In a parsed TMD, contents with different ids have different file names. */
  lemma DistinctIdsDistinctNames(data: seq<byte>, info: TitleData.TmdInfo)
    requires TitleData.Parsed(data) == Ok(info) && DistinctIds(info.contents)
    ensures DistinctNames(info.contents)
  {
    forall i, j | 0 <= i < j < |info.contents|
      ensures ContentHex(info.contents[i]) != ContentHex(info.contents[j])
    {
      RecordIdFits(data, info.layout.Base(i), info.layout);
      RecordIdFits(data, info.layout.Base(j), info.layout);
      if ContentHex(info.contents[i]) == ContentHex(info.contents[j]) {
        Hex.DigitsInjective(info.contents[i].contentId, info.contents[j].contentId, 8);
      }
    }
  }

  // ---------- the progress of the whole download ----------

  /** The marks of the files fetched so far, one after the other, of which file `f` has left `trails[f]`. */
  predicate JobLog(marks: seq<Mark>, trails: seq<Trail>) {
    && (if trails == [] then marks == [] else InFileOrder(marks, |trails| - 1))
    && (forall m | m in marks ::
        m.call.emit.file < |trails| && m.call.emit.round <= trails[m.call.emit.file].Restarts())
    && (forall k | 0 <= k < |marks| && marks[k].Enter? && BeginsAlone(marks[k].call.emit, trails) ::
        Open(marks[..k]) == {})
  }

  /** Told on a thread that has no other beside it. */
  predicate BeginsAlone(e: Emit, trails: seq<Trail>) {
    e.file < |trails| && e.round >= trails[e.file].AloneSince()
  }

  lemma NextFileLogged(marks: seq<Mark>, trails: seq<Trail>, more: seq<Mark>, trail: Trail)
    requires JobLog(marks, trails) && Open(marks) == {}
    requires Kept(more, |trails|, trail.Restarts()) && AloneFrom(more, trail.AloneSince())
    ensures JobLog(marks + more, trails + [trail]) && Open(marks + more) == Open(more)
  {
    NextFile(marks, |trails|, more, trail.Restarts());
    forall k | 0 <= k < |marks + more| && (marks + more)[k].Enter?
        && BeginsAlone((marks + more)[k].call.emit, trails + [trail])
      ensures Open((marks + more)[..k]) == {}
    {
      NextFileAlone(marks, trails, more, trail, k);
    }
  }

  lemma NextFileAlone(marks: seq<Mark>, trails: seq<Trail>, more: seq<Mark>, trail: Trail, k: nat)
    requires JobLog(marks, trails) && Open(marks) == {}
    requires Kept(more, |trails|, trail.Restarts()) && AloneFrom(more, trail.AloneSince())
    requires k < |marks + more| && (marks + more)[k].Enter?
               && BeginsAlone((marks + more)[k].call.emit, trails + [trail])
    ensures Open((marks + more)[..k]) == {}
  {
    MarkOf(marks, more, k);
    if k < |marks| {
      assert (marks + more)[..k] == marks[..k];
    } else {
      NestedPrefix(more, k - |marks|);
      OpenConcat(marks, more[..k - |marks|]);
      assert (marks + more)[..k] == marks + more[..k - |marks|];
    }
  }

  /** Of two emissions of a job, as they are computed, the later claims no less, unless its file has started over in
      between: an attempt of a range worker was retried, or the pool was given up for the single stream. */
  lemma DownloadProgressGrows(marks: seq<Mark>, trails: seq<Trail>, contents: nat, i: nat, j: nat)
    requires JobLog(marks, trails) && contents > 0 && |trails| <= contents + 2
    requires i < j < |marks| && marks[i].Enter? && marks[j].Enter?
    ensures var a, b := marks[i].call.emit, marks[j].call.emit;
            && a.file <= b.file < contents + 2
            && (|| Progress.JobProgress(a, contents) <= Progress.JobProgress(b, contents)
                || (a.file == b.file && a.round < b.round))
            && (trails[b.file].Restarts() == 0 ==>
                Progress.JobProgress(a, contents) <= Progress.JobProgress(b, contents))
  {
    var a, b := marks[i].call, marks[j].call;
    assert marks[i] in marks && marks[j] in marks && Ordered(a, b);
    assert InFileOrder(marks, contents + 1);
    if a.emit.file == b.emit.file ==> a.emit.round == b.emit.round {
      Progress.JobProgressGrows(marks, contents, i, j);
    }
  }

  /** The row updates of a job need not come in that order. One that comes later is told less exactly when it is of the
      same file and claims less of it, and either the earlier one has overtaken it, or the file has started over in
      between. */
  lemma RowProgressFallsIff(marks: seq<Mark>, trails: seq<Trail>, contents: nat, i: nat, j: nat)
    requires JobLog(marks, trails) && contents > 0 && |trails| <= contents + 2
    requires i < j < |marks| && marks[i].Row? && marks[j].Row?
    ensures var a, b := marks[i].call, marks[j].call;
            && a.emit.file <= b.emit.file < |trails|
            && (Progress.JobProgress(b.emit, contents) < Progress.JobProgress(a.emit, contents) <==>
                  && a.emit.file == b.emit.file && Progress.FileProgress(b.emit) < Progress.FileProgress(a.emit)
                  && (Overtaken(b, a) || a.emit.round < b.emit.round))
            && (a.emit.round == b.emit.round && a.emit.total.Some? && a.emit.total.value > 0 ==>
                  (Progress.JobProgress(b.emit, contents) < Progress.JobProgress(a.emit, contents) <==>
                     Overtaken(b, a) && b.emit.downloaded < a.emit.downloaded))
  {
    assert marks[i] in marks && marks[j] in marks;
    assert InFileOrder(marks, contents + 1);
    Progress.RowFallsIff(marks, contents, i, j);
  }

  /** A callback that began with no other open overtakes none: after its row updates, none of the same round is told
      less. Such are all callbacks of a file that was fetched without a pool, as the TMD and the ticket are, and all of
      a stream. */
  lemma RowProgressGrows(marks: seq<Mark>, trails: seq<Trail>, contents: nat, i: nat, j: nat)
    requires JobLog(marks, trails) && contents > 0 && |trails| <= contents + 2
    requires i < j < |marks| && marks[i].Row? && marks[j].Row?
    requires BeginsAlone(marks[i].call.emit, trails)
    ensures var a, b := marks[i].call.emit, marks[j].call.emit;
            && a.file <= b.file < |trails|
            && (|| Progress.JobProgress(a, contents) <= Progress.JobProgress(b, contents)
                || (a.file == b.file && a.round < b.round))
            && (trails[b.file].pool.None? ==> Progress.JobProgress(a, contents) <= Progress.JobProgress(b, contents))
  {
    RowProgressFallsIff(marks, trails, contents, i, j);
    var k := HasBegun(marks, i);
    NoneOvertaken(marks, |trails| - 1, k, i, j);
    assert marks[j] in marks;
  }

  /** A job whose only content is fetched by two workers, the rows of which cross. */
  lemma CrossingJob() returns (marks: seq<Mark>, trail: Trail, x: Callback, y: Callback)
    ensures JobLog(marks, [STREAM_ONLY, STREAM_ONLY] + [trail]) && trail.Restarts() == 0
    ensures marks == Crossing(x, y) && Crossed(x, y) && x.emit == Emit(2, 0, 0, Some(2), false)
  {
    var q;
    q, x, y := TwoCross(App(""), 2);
    AliveIsLogged(q, TwoBytes(App(""), 2));
    marks, trail := CrossedLog(q.marks, q.workers);
  }

  lemma CrossedLog(marks: seq<Mark>, workers: seq<Worker>) returns (all: seq<Mark>, trail: Trail)
    requires Kept(marks, 2, 0) && PoolRetries(workers) == 0 && |workers| == 2
    ensures JobLog(all, [STREAM_ONLY, STREAM_ONLY] + [trail]) && trail.Restarts() == 0 && all == marks
  {
    all, trail := marks, Trail(Some(workers), false);
    NotYetAlone(marks, 2, 0);
    NextFileLogged([], [STREAM_ONLY, STREAM_ONLY], marks, trail);
    assert [] + marks == marks;
  }

  /** Two rows can come in the wrong order without any file having started over: between the beginning of the first
      worker's callback and its row update, the second worker reads, begins its callback and updates the row. */
  lemma RowProgressCanFall() returns (marks: seq<Mark>, trails: seq<Trail>, i: nat, j: nat)
    ensures JobLog(marks, trails) && |trails| == 3
    ensures trails[0].Restarts() == 0 && trails[1].Restarts() == 0 && trails[2].Restarts() == 0
    ensures i < j < |marks| && marks[i].Row? && marks[j].Row? && marks[i].stage == marks[j].stage == 0
    ensures marks[j].call.emit.file == marks[i].call.emit.file < 3
    ensures Progress.JobProgress(marks[j].call.emit, 1) < Progress.JobProgress(marks[i].call.emit, 1)
  {
    var trail, x, y;
    marks, trail, x, y := CrossingJob();
    trails, i, j := [STREAM_ONLY, STREAM_ONLY] + [trail], 2, 3;
    assert trails[2] == trail;
    RowProgressFallsIff(marks, trails, 1, i, j);
  }

  // ---------- the ticket and the TMD ----------

  datatype FetchOutcome = Fetched | NotFetched | FetchKilled

  /** Fetching a file that may be missing: any failure, and a file that is too small, counts as missing. */
  method TryFetchBinary(dir: WorkDir, dest: LocalName, body: seq<byte>, file: nat, minSize: nat, config: Config)
    returns (o: FetchOutcome, marks: seq<Mark>)
    requires !dest.Part?
    modifies dir
    ensures OnlyTouches(old(dir.files), dir.files, dest)
    ensures Kept(marks, file, 0) && AloneFrom(marks, 0) && (!o.FetchKilled? ==> Open(marks) == {})
    ensures dir.tries == old(dir.tries) + 1
    ensures HoldsPrefix(old(dir.files), dest, body) ==> HoldsPrefix(dir.files, dest, body)
    ensures o.Fetched? ==> dest in dir.files && |dir.files[dest]| >= minSize
    ensures o.Fetched? && HoldsPrefix(old(dir.files), dest, body) ==> dir.files[dest] == body
  {
    ghost var before := Contents(dir.files, dest);
    var call, trail;
    call, marks, trail := DownloadWithResume(dir, dest, body, file, None, config, []);
    assert CallKeeps(body, Call(None, before, call, Contents(dir.files, dest)));
    match call {
      case Killed => o := FetchKilled;
      case Raised => o := NotFetched;
      case Returned(size, _) =>
        if size < minSize {
          if * { dir.files := dir.files - {dest}; }
          o := NotFetched;
        } else {
          o := Fetched;
        }
    }
  }

  function MetaArtifact(kind: Kind, name: LocalName, text: string, titleId: string, data: seq<byte>,
                        sha: Hash): Artifact {
    Artifact(kind, name, text, "/usr/title/" + titleId + "/meta/" + text, |data|, sha(data))
  }

  function TmdArtifact(titleId: string, data: seq<byte>, sha: Hash): Artifact {
    MetaArtifact(TmdKind, LocalName.Tmd, "tmd", titleId, data, sha)
  }

  function TicketArtifact(titleId: string, data: seq<byte>, sha: Hash): Artifact {
    MetaArtifact(TicketKind, Cetk, "cetk", titleId, data, sha)
  }

  predicate HeadOk(files: Files, titleId: string, a: Artifact, sha: Hash) {
    || (LocalName.Tmd in files && a == TmdArtifact(titleId, files[LocalName.Tmd], sha))
    || (Cetk in files && a == TicketArtifact(titleId, files[Cetk], sha))
  }

  /** The artifacts before the contents: the TMD, the ticket, both or none. */
  predicate Heads(files: Files, titleId: string, artifacts: seq<Artifact>, sha: Hash) {
    && (forall i | 0 <= i < |artifacts| :: HeadOk(files, titleId, artifacts[i], sha))
    && |artifacts| <= 2 && (|artifacts| == 2 ==> artifacts[0].kind != artifacts[1].kind)
  }

  predicate MetaKept(f: Files, g: Files) {
    SameFile(f, g, LocalName.Tmd) && SameFile(f, g, Cetk)
  }

  datatype TicketData = TicketData(present: bool, bytes: Option<seq<byte>>, fake: bool, artifacts: seq<Artifact>)

  predicate TicketOk(files: Files, titleId: string, t: TicketData, sha: Hash) {
    && (t.present ==> t.bytes.Some? && t.bytes.value != [])
    && (t.artifacts == [] || (Cetk in files && t.artifacts == [TicketArtifact(titleId, files[Cetk], sha)]))
  }

  /** The fetched ticket, or a synthetic one in its place. */
  method ObtainTicket(dir: WorkDir, titleId: string, fetched: bool, allowFake: bool,
                      cipher: Cbc.BlockCipher, variable: string, sha: Hash)
    returns (t: TicketData)
    requires fetched ==> Cetk in dir.files && dir.files[Cetk] != []
    modifies dir`files
    ensures TicketOk(dir.files, titleId, t, sha)
    ensures fetched ==> t.present && Cetk in dir.files && t.bytes == Some(dir.files[Cetk])
    ensures t.fake ==>
              !fetched && allowFake && Cetk in dir.files
                  && Ticket.FakeCetk(cipher, titleId, variable) == Ok(dir.files[Cetk])
    ensures || SameFile(old(dir.files), dir.files, Cetk)
            || (&& !fetched && allowFake && Cetk in dir.files && Ticket.FakeCetk(cipher, titleId, variable).Ok?
                && dir.files[Cetk] <= Ticket.FakeCetk(cipher, titleId, variable).value)
    ensures forall name | name != Cetk :: SameFile(old(dir.files), dir.files, name)
  {
    if fetched {
      var data := dir.files[Cetk];
      return TicketData(true, Some(data), false, [TicketArtifact(titleId, data, sha)]);
    }
    if !allowFake { return TicketData(false, None, false, []); }
    var cetk := Ticket.GenerateFakeCetk(cipher, titleId, variable);
    if cetk.Err? { return TicketData(false, None, false, []); }
    // Whatever fails from here on is swallowed, at the point it had reached.
    if * {
      // A write that fails leaves what it has written.
      if * {
        var k :| 0 <= k <= |cetk.value|;
        dir.files := dir.files[Cetk := cetk.value[..k]];
      }
      return TicketData(false, Some(cetk.value), false, []);
    }
    dir.files := dir.files[Cetk := cetk.value];
    if * { return TicketData(true, Some(cetk.value), true, []); }
    return TicketData(true, Some(cetk.value), true, [TicketArtifact(titleId, cetk.value, sha)]);
  }

  /** A synthetic ticket spoils the fetch of any ticket whose second byte is not zero, as in the signature type
      0x00010004: if the server honours the range, what is left is not the server's ticket. */
  lemma SyntheticTicketSpoilsFetch(cipher: Cbc.BlockCipher, titleId: string, variable: string, synthetic: seq<byte>,
                                   ticket: seq<byte>)
    requires Ticket.FakeCetk(cipher, titleId, variable) == Ok(synthetic)
    requires |ticket| > 1 && ticket[1] != 0
    ensures Resumed(synthetic, ticket) != ticket
  {
    assert synthetic[1] == 0;
    ResumedIsBodyIff(synthetic, ticket);
  }

  // ---------- the contents ----------

  function ContentArtifact(titleId: string, hex: string, data: seq<byte>, sha: Hash): Artifact {
    Artifact(ContentKind, App(hex), "content/" + hex + ".app", "/usr/title/" + titleId + "/content/" + hex + ".app",
             |data|, sha(data))
  }

  /** The content's file holds its whole body, or, fetched in parallel, as much of it as the TMD announces. */
  predicate ContentFetched(files: Files, bodies: Bodies, titleId: string, r: TitleData.ContentRecord, a: Artifact,
                           sha: Hash) {
    var name := App(ContentHex(r));
    var body := bodies(name);
    && name in files && a == ContentArtifact(titleId, ContentHex(r), files[name], sha)
    && (files[name] == body || (r.size <= |body| && files[name] == body[..r.size]))
  }

  predicate FirstFetched(files: Files, bodies: Bodies, titleId: string, records: seq<TitleData.ContentRecord>,
                         artifacts: seq<Artifact>, n: nat, sha: Hash)
  {
    n <= |records| && n <= |artifacts|
    && forall i | 0 <= i < n :: ContentFetched(files, bodies, titleId, records[i], artifacts[i], sha)
  }

  lemma OthersStayFetched(f: Files, g: Files, bodies: Bodies, titleId: string, records: seq<TitleData.ContentRecord>,
                          artifacts: seq<Artifact>, i: nat, next: Artifact, sha: Hash)
    requires DistinctNames(records) && i < |records| && |artifacts| == i
    requires FirstFetched(f, bodies, titleId, records, artifacts, i, sha)
    requires OnlyTouches(f, g, App(ContentHex(records[i])))
    requires ContentFetched(g, bodies, titleId, records[i], next, sha)
    ensures FirstFetched(g, bodies, titleId, records, artifacts + [next], i + 1, sha)
  {
    forall j | 0 <= j < i ensures ContentFetched(g, bodies, titleId, records[j], artifacts[j], sha) {
      assert ContentFetched(f, bodies, titleId, records[j], artifacts[j], sha);
      assert SameFile(f, g, App(ContentHex(records[j])));
    }
  }

  predicate AllContents(artifacts: seq<Artifact>) {
    forall i | 0 <= i < |artifacts| :: artifacts[i].kind == ContentKind && artifacts[i].localPath.App?
  }

  /** How a content of this size can have been fetched. */
  predicate ContentTrail(trail: Trail, config: Config, size: nat) {
    && (trail.pool.None? ==> trail.streamed)
    && (trail.pool.Some? ==>
          && size >= config.parallelMinBytes && config.maxThreads > 1
          && PoolOfSize(trail.pool.value, size, WorkerCount(config, size)))
  }

  const STREAM_ONLY := Trail(None, true)

  /** The TMD and the ticket are fetched as single streams, and each content in one of the ways its size allows. */
  predicate TrailsOf(trails: seq<Trail>, config: Config, records: seq<TitleData.ContentRecord>) {
    && 2 <= |trails| <= |records| + 2 && trails[0] == trails[1] == STREAM_ONLY
    && forall f | 2 <= f < |trails| :: ContentTrail(trails[f], config, records[f - 2].size)
  }

  /** The requests of a whole download. */
  function AllTries(trails: seq<Trail>): nat {
    if trails == [] then 0 else AllTries(trails[..|trails| - 1]) + trails[|trails| - 1].Tries()
  }

  lemma AllTriesSnoc(trails: seq<Trail>, next: Trail)
    ensures AllTries(trails + [next]) == AllTries(trails) + next.Tries()
  {
    assert (trails + [next])[..|trails|] == trails;
  }

  /** One content: an exception ends the whole download. */
  method FetchContent(dir: WorkDir, bodies: Bodies, titleId: string, r: TitleData.ContentRecord, file: nat,
                      config: Config, sha: Hash)
    returns (o: FetchOutcome, a: Option<Artifact>, marks: seq<Mark>, trail: Trail)
    modifies dir
    ensures OnlyTouches(old(dir.files), dir.files, App(ContentHex(r)))
    ensures Kept(marks, file, trail.Restarts()) && AloneFrom(marks, trail.AloneSince())
    ensures !o.FetchKilled? ==> Open(marks) == {}
    ensures dir.tries == old(dir.tries) + trail.Tries() && ContentTrail(trail, config, r.size)
    ensures Sound(old(dir.files), bodies) ==> Sound(dir.files, bodies)
    ensures o.Fetched? ==> a.Some? && a.value.kind == ContentKind && a.value.localPath == App(ContentHex(r))
    ensures o.Fetched? && Sound(old(dir.files), bodies) ==> ContentFetched(dir.files, bodies, titleId, r, a.value, sha)
  {
    var name := App(ContentHex(r));
    ghost var was := dir.files;
    var schedule: seq<nat> := *;
    var call;
    call, marks, trail := DownloadWithResume(dir, name, bodies(name), file, Some(r.size), config, schedule);
    assert CallKeeps(bodies(name), Call(Some(r.size), Contents(was, name), call, Contents(dir.files, name)));
    if Sound(was, bodies) {
      assert HoldsPrefix(was, name, bodies(name));
      StaysSound(was, dir.files, name, bodies);
    }
    match call {
      case Killed => return FetchKilled, None, marks, trail;
      case Raised => return NotFetched, None, marks, trail;
      case Returned(_, _) =>
        return Fetched, Some(ContentArtifact(titleId, ContentHex(r), dir.files[name], sha)), marks, trail;
    }
  }

  lemma NextContentLogged(marks: seq<Mark>, trails: seq<Trail>, more: seq<Mark>, trail: Trail, config: Config,
                          records: seq<TitleData.ContentRecord>)
    requires JobLog(marks, trails) && Open(marks) == {} && TrailsOf(trails, config, records) && |trails| < |records| + 2
    requires Kept(more, |trails|, trail.Restarts()) && AloneFrom(more, trail.AloneSince())
    requires ContentTrail(trail, config, records[|trails| - 2].size)
    ensures JobLog(marks + more, trails + [trail]) && Open(marks + more) == Open(more)
    ensures TrailsOf(trails + [trail], config, records)
    ensures AllTries(trails + [trail]) == AllTries(trails) + trail.Tries()
  {
    NextFileLogged(marks, trails, more, trail);
    AllTriesSnoc(trails, trail);
    TrailsSnoc(trails, trail, config, records);
  }

  lemma TrailsSnoc(trails: seq<Trail>, trail: Trail, config: Config, records: seq<TitleData.ContentRecord>)
    requires TrailsOf(trails, config, records) && |trails| < |records| + 2
    requires ContentTrail(trail, config, records[|trails| - 2].size)
    ensures TrailsOf(trails + [trail], config, records)
  {
  }

  /** The contents fetched so far, and the log of it. */
  predicate ContentsLogged(marks: seq<Mark>, trails: seq<Trail>, config: Config, records: seq<TitleData.ContentRecord>,
                           n: nat) {
    JobLog(marks, trails) && Open(marks) == {} && TrailsOf(trails, config, records) && |trails| == n + 2
  }

  ghost predicate ContentsStand(was: Files, files: Files, bodies: Bodies, titleId: string,
                                records: seq<TitleData.ContentRecord>, artifacts: seq<Artifact>, n: nat, sha: Hash) {
    && MetaKept(was, files) && (Sound(was, bodies) ==> Sound(files, bodies))
    && |artifacts| == n && AllContents(artifacts)
    && (Sound(was, bodies) && DistinctNames(records) ==>
        FirstFetched(files, bodies, titleId, records, artifacts, n, sha))
  }

  method FetchContents(dir: WorkDir, bodies: Bodies, titleId: string, records: seq<TitleData.ContentRecord>,
                       config: Config, sha: Hash, before: seq<Mark>, earlier: seq<Trail>)
    returns (o: FetchOutcome, artifacts: seq<Artifact>, marks: seq<Mark>, trails: seq<Trail>)
    requires JobLog(before, earlier) && Open(before) == {} && earlier == [STREAM_ONLY, STREAM_ONLY]
    modifies dir
    ensures MetaKept(old(dir.files), dir.files)
    ensures Sound(old(dir.files), bodies) ==> Sound(dir.files, bodies)
    ensures JobLog(marks, trails) && (!o.FetchKilled? ==> Open(marks) == {})
    ensures TrailsOf(trails, config, records) && (o.Fetched? ==> |trails| == |records| + 2)
    ensures dir.tries - old(dir.tries) == AllTries(trails) - AllTries(earlier)
    ensures AllContents(artifacts) && (o.Fetched? ==> |artifacts| == |records|)
    ensures o.Fetched? && Sound(old(dir.files), bodies) && DistinctNames(records) ==>
              FirstFetched(dir.files, bodies, titleId, records, artifacts, |records|, sha)
  {
    marks, trails, artifacts := before, earlier, [];
    for i := 0 to |records|
      invariant ContentsStand(old(dir.files), dir.files, bodies, titleId, records, artifacts, i, sha)
      invariant ContentsLogged(marks, trails, config, records, i)
      invariant dir.tries - old(dir.tries) == AllTries(trails) - AllTries(earlier)
    {
      o, artifacts, marks, trails :=
        FetchNext(dir, bodies, titleId, records, i, config, sha, artifacts, marks, trails, old(dir.files));
      if !o.Fetched? { return; }
    }
    o := Fetched;
  }

  /** One more content. */
  method FetchNext(dir: WorkDir, bodies: Bodies, titleId: string, records: seq<TitleData.ContentRecord>, i: nat,
                   config: Config, sha: Hash, artifacts: seq<Artifact>, marks: seq<Mark>, trails: seq<Trail>,
                   ghost was: Files)
    returns (o: FetchOutcome, artifacts': seq<Artifact>, marks': seq<Mark>, trails': seq<Trail>)
    requires i < |records| && ContentsLogged(marks, trails, config, records, i)
    requires ContentsStand(was, dir.files, bodies, titleId, records, artifacts, i, sha)
    modifies dir
    ensures MetaKept(was, dir.files) && (Sound(was, bodies) ==> Sound(dir.files, bodies)) && AllContents(artifacts')
    ensures o.Fetched? ==>
              && ContentsStand(was, dir.files, bodies, titleId, records, artifacts', i + 1, sha)
              && ContentsLogged(marks', trails', config, records, i + 1)
    ensures JobLog(marks', trails') && (!o.FetchKilled? ==> Open(marks') == {})
    ensures TrailsOf(trails', config, records)
    ensures dir.tries - old(dir.tries) == AllTries(trails') - AllTries(trails)
  {
    ghost var before := dir.files;
    var a, fileMarks, trail;
    o, a, fileMarks, trail := FetchContent(dir, bodies, titleId, records[i], i + 2, config, sha);
    NextContentLogged(marks, trails, fileMarks, trail, config, records);
    artifacts', marks', trails' := artifacts, marks + fileMarks, trails + [trail];
    assert SameFile(before, dir.files, LocalName.Tmd) && SameFile(before, dir.files, Cetk);
    if o.Fetched? {
      OneMoreStands(was, before, dir.files, bodies, titleId, records, artifacts, i, a.value, sha);
      artifacts' := artifacts + [a.value];
    }
  }

  lemma OneMoreStands(was: Files, before: Files, now: Files, bodies: Bodies, titleId: string,
                      records: seq<TitleData.ContentRecord>, artifacts: seq<Artifact>, i: nat, next: Artifact,
                      sha: Hash)
    requires i < |records| && ContentsStand(was, before, bodies, titleId, records, artifacts, i, sha)
    requires OnlyTouches(before, now, App(ContentHex(records[i]))) && (Sound(before, bodies) ==> Sound(now, bodies))
    requires next.kind == ContentKind && next.localPath.App?
    requires Sound(before, bodies) ==> ContentFetched(now, bodies, titleId, records[i], next, sha)
    ensures ContentsStand(was, now, bodies, titleId, records, artifacts + [next], i + 1, sha)
  {
    assert SameFile(before, now, LocalName.Tmd) && SameFile(before, now, Cetk);
    if Sound(was, bodies) && DistinctNames(records) {
      OthersStayFetched(before, now, bodies, titleId, records, artifacts, i, next, sha);
    }
  }

  // ---------- the whole title ----------

  datatype DownloadOutcome = Downloaded(result: DownloadResult) | DownloadRaised | DownloadKilled

  predicate HasItsTicket(r: DownloadResult) {
    r.ticketPresent ==> r.cetkBytes.Some? && r.cetkBytes.value != []
  }

  /** What a finished download hands on. */
  ghost predicate Complete(files: Files, bodies: Bodies, r: DownloadResult, sha: Hash) {
    && HasItsTicket(r)
    && (r.tmdInfo.Some? ==>
          && TitleData.Parsed(bodies(LocalName.Tmd)) == Ok(r.tmdInfo.value)
          && var n := |r.tmdInfo.value.contents|;
             && n <= |r.artifacts|
             && Heads(files, r.titleId, r.artifacts[..|r.artifacts| - n], sha)
             && AllContents(r.artifacts[|r.artifacts| - n..])
             && (DistinctIds(r.tmdInfo.value.contents) ==>
                   FirstFetched(files, bodies, r.titleId, r.tmdInfo.value.contents, r.artifacts[|r.artifacts| - n..],
                                n, sha)))
  }

  /** How the files of a title were fetched: the TMD and the ticket as single streams, and, when the download is
      complete, each content in one of the ways its size allows; never by a pool when there is only one thread. */
  predicate JobTrails(trails: seq<Trail>, config: Config, o: DownloadOutcome) {
    && (forall f | 0 <= f < |trails| && f < 2 :: trails[f] == STREAM_ONLY)
    && (config.maxThreads <= 1 ==> forall f | 0 <= f < |trails| :: trails[f].pool.None?)
    && (o.Downloaded? && o.result.tmdInfo.Some? ==>
          TrailsOf(trails, config, o.result.tmdInfo.value.contents)
              && |trails| == |o.result.tmdInfo.value.contents| + 2)
  }

  /** Both optional files, one after the other. */
  method FetchMeta(dir: WorkDir, bodies: Bodies, config: Config)
    returns (killed: bool, tmd: bool, ticket: bool, marks: seq<Mark>, trails: seq<Trail>)
    modifies dir
    ensures Sound(old(dir.files), bodies) ==> Sound(dir.files, bodies)
    ensures JobLog(marks, trails) && (!killed ==> Open(marks) == {})
    ensures trails == [STREAM_ONLY, STREAM_ONLY] || (killed && trails == [STREAM_ONLY])
    ensures dir.tries == old(dir.tries) + AllTries(trails)
    ensures !killed && tmd ==> LocalName.Tmd in dir.files
    ensures !killed && tmd && Sound(old(dir.files), bodies) ==> dir.files[LocalName.Tmd] == bodies(LocalName.Tmd)
    ensures !killed && ticket ==> Cetk in dir.files && |dir.files[Cetk]| >= MIN_CETK_DOWNLOAD_SIZE
  {
    ghost var start := dir.files;
    var o, fileMarks := TryFetchBinary(dir, LocalName.Tmd, bodies(LocalName.Tmd), 0, MIN_TMD_DOWNLOAD_SIZE, config);
    if Sound(start, bodies) { StaysSound(start, dir.files, LocalName.Tmd, bodies); }
    NextFileLogged([], [], fileMarks, STREAM_ONLY);
    AllTriesSnoc([], STREAM_ONLY);
    marks, trails := [] + fileMarks, [] + [STREAM_ONLY];
    if o.FetchKilled? { return true, false, false, marks, trails; }
    tmd := o.Fetched?;

    ghost var middle := dir.files;
    o, fileMarks := TryFetchBinary(dir, Cetk, bodies(Cetk), 1, MIN_CETK_DOWNLOAD_SIZE, config);
    if Sound(start, bodies) { StaysSound(middle, dir.files, Cetk, bodies); }
    assert SameFile(middle, dir.files, LocalName.Tmd);
    NextFileLogged(marks, trails, fileMarks, STREAM_ONLY);
    AllTriesSnoc(trails, STREAM_ONLY);
    marks, trails := marks + fileMarks, trails + [STREAM_ONLY];
    return o.FetchKilled?, tmd, o.Fetched?, marks, trails;
  }

  /** The TMD, when there is one, is parsed (an unparsable one still is an artifact), and the ticket chosen. */
  method TakeMeta(dir: WorkDir, titleId: string, tmdPresent: bool, ticketFetched: bool, allowFake: bool,
                  cipher: Cbc.BlockCipher, variable: string, sha: Hash)
    returns (tmdInfo: Option<TitleData.TmdInfo>, ticket: TicketData, heads: seq<Artifact>)
    requires tmdPresent ==> LocalName.Tmd in dir.files
    requires ticketFetched ==> Cetk in dir.files && dir.files[Cetk] != []
    modifies dir`files
    ensures forall name | name != Cetk :: SameFile(old(dir.files), dir.files, name)
    ensures tmdInfo.Some? ==>
              tmdPresent && heads != [] && TitleData.Parsed(old(dir.files)[LocalName.Tmd]) == Ok(tmdInfo.value)
    ensures TicketOk(dir.files, titleId, ticket, sha)
    ensures Heads(dir.files, titleId, heads, sha)
    ensures ticket.fake ==> allowFake
  {
    tmdInfo, heads := None, [];
    if tmdPresent {
      var parsed := TitleData.Parse(dir.files[LocalName.Tmd]);
      tmdInfo := if parsed.Ok? then Some(parsed.value) else None;
      heads := [TmdArtifact(titleId, dir.files[LocalName.Tmd], sha)];
    }
    ghost var was := dir.files;
    ticket := ObtainTicket(dir, titleId, ticketFetched, allowFake, cipher, variable, sha);
    assert SameFile(was, dir.files, LocalName.Tmd);
    heads := heads + ticket.artifacts;
  }

  /** Everything after the two optional files. */
  method FetchRest(dir: WorkDir, bodies: Bodies, titleId: string, tmdPresent: bool, ticketFetched: bool, config: Config,
                   allowFake: bool, cipher: Cbc.BlockCipher, variable: string, sha: Hash, before: seq<Mark>,
                   earlier: seq<Trail>)
    returns (o: DownloadOutcome, marks: seq<Mark>, trails: seq<Trail>, total: nat)
    requires JobLog(before, earlier) && Open(before) == {}
    requires earlier == [STREAM_ONLY, STREAM_ONLY] || (earlier == [] && !tmdPresent)
    requires tmdPresent ==> LocalName.Tmd in dir.files
    requires ticketFetched ==> Cetk in dir.files && |dir.files[Cetk]| >= MIN_CETK_DOWNLOAD_SIZE
    modifies dir
    ensures Sound(old(dir.files), bodies) ==> Sound(dir.files, bodies)
    ensures total >= 1 && JobLog(marks, trails) && |trails| <= total + 2 && (!o.DownloadKilled? ==> Open(marks) == {})
    ensures dir.tries - old(dir.tries) == AllTries(trails) - AllTries(earlier)
    ensures JobTrails(trails, config, o)
    ensures o.Downloaded? ==>
              o.result.titleId == titleId && HasItsTicket(o.result) && (o.result.fakeTicket ==> allowFake)
    ensures && o.Downloaded? && Sound(old(dir.files), bodies)
            && (tmdPresent ==> old(dir.files)[LocalName.Tmd] == bodies(LocalName.Tmd))
            ==> Complete(dir.files, bodies, o.result, sha)
  {
    ghost var was := dir.files;
    var tmdInfo, ticket, heads := TakeMeta(dir, titleId, tmdPresent, ticketFetched, allowFake, cipher, variable, sha);
    TicketKeepsSound(was, dir.files, bodies);
    marks, trails, total := before, earlier, 1;
    if tmdInfo.None? {
      o := WithoutContents(dir, bodies, titleId, heads, tmdPresent, ticket, sha);
      return;
    }
    o, marks, trails :=
      WithContents(dir, bodies, titleId, tmdInfo.value, heads, tmdPresent, ticket, config, sha, marks, trails);
    TrailsOfJob(trails, config, tmdInfo.value.contents, o);
    total := Max(1, |tmdInfo.value.contents|);
  }

  lemma TrailsOfJob(trails: seq<Trail>, config: Config, records: seq<TitleData.ContentRecord>, o: DownloadOutcome)
    requires TrailsOf(trails, config, records)
    requires o.Downloaded? ==>
               |trails| == |records| + 2 && o.result.tmdInfo.Some? && o.result.tmdInfo.value.contents == records
    ensures JobTrails(trails, config, o)
  {
  }

  /** The contents that the TMD names. */
  method WithContents(dir: WorkDir, bodies: Bodies, titleId: string, info: TitleData.TmdInfo, heads: seq<Artifact>,
                      tmdPresent: bool, ticket: TicketData, config: Config, sha: Hash, before: seq<Mark>,
                      earlier: seq<Trail>)
    returns (o: DownloadOutcome, marks: seq<Mark>, trails: seq<Trail>)
    requires JobLog(before, earlier) && Open(before) == {} && earlier == [STREAM_ONLY, STREAM_ONLY]
    requires TicketOk(dir.files, titleId, ticket, sha) && Heads(dir.files, titleId, heads, sha)
    modifies dir
    ensures Sound(old(dir.files), bodies) ==> Sound(dir.files, bodies)
    ensures JobLog(marks, trails) && TrailsOf(trails, config, info.contents)
              && (!o.DownloadKilled? ==> Open(marks) == {})
    ensures dir.tries - old(dir.tries) == AllTries(trails) - AllTries(earlier)
    ensures o.Downloaded? ==> |trails| == |info.contents| + 2
    ensures o.Downloaded? ==>
              && o.result.titleId == titleId && o.result.fakeTicket == ticket.fake && HasItsTicket(o.result)
              && o.result.tmdInfo == Some(info)
    ensures o.Downloaded? && Sound(old(dir.files), bodies) && TitleData.Parsed(bodies(LocalName.Tmd)) == Ok(info) ==>
              Complete(dir.files, bodies, o.result, sha)
  {
    ghost var was := dir.files;
    var fetched, contents;
    fetched, contents, marks, trails :=
        FetchContents(dir, bodies, titleId, info.contents, config, sha, before, earlier);
    if fetched.FetchKilled? { return DownloadKilled, marks, trails; }
    if fetched.NotFetched? { return DownloadRaised, marks, trails; }
    o := Downloaded(DownloadResult(titleId, heads + contents, tmdPresent, ticket.present, Some(info), ticket.bytes,
                                   ticket.fake));
    HeadsKept(was, dir.files, titleId, heads, sha);
    if Sound(was, bodies) && TitleData.Parsed(bodies(LocalName.Tmd)) == Ok(info) {
      CompleteResult(dir.files, bodies, o.result, info, heads, contents, sha);
    }
  }

  lemma CompleteResult(files: Files, bodies: Bodies, r: DownloadResult, info: TitleData.TmdInfo,
                       heads: seq<Artifact>, contents: seq<Artifact>, sha: Hash)
    requires r.tmdInfo == Some(info) && r.artifacts == heads + contents && |contents| == |info.contents|
    requires HasItsTicket(r)
    requires TitleData.Parsed(bodies(LocalName.Tmd)) == Ok(info)
    requires Heads(files, r.titleId, heads, sha) && AllContents(contents)
    requires DistinctNames(info.contents) ==>
               FirstFetched(files, bodies, r.titleId, info.contents, contents, |info.contents|, sha)
    ensures Complete(files, bodies, r, sha)
  {
    HeadsThenContents(heads, contents);
    if DistinctIds(info.contents) { DistinctIdsDistinctNames(bodies(LocalName.Tmd), info); }
  }

  /** Without a TMD to go by there are no contents; without anything at all a compatibility file stands in. */
  method WithoutContents(dir: WorkDir, bodies: Bodies, titleId: string, heads: seq<Artifact>, tmdPresent: bool,
                         ticket: TicketData, sha: Hash)
    returns (o: DownloadOutcome)
    requires TicketOk(dir.files, titleId, ticket, sha)
    modifies dir`files
    ensures Sound(old(dir.files), bodies) ==> Sound(dir.files, bodies)
    ensures o.Downloaded? ==>
              o.result.titleId == titleId && o.result.fakeTicket == ticket.fake && o.result.tmdInfo.None?
    ensures o.Downloaded? ==> HasItsTicket(o.result)
    ensures o.Downloaded? ==> Complete(dir.files, bodies, o.result, sha)
  {
    var artifacts := heads;
    if artifacts == [] {
      var payload: seq<byte> := *;
      if * { return DownloadRaised; }
      dir.files := dir.files[ContentBin := payload];
      artifacts := [CompatibilityArtifact(titleId, payload, sha)];
    }
    o := Downloaded(DownloadResult(titleId, artifacts, tmdPresent, ticket.present, None, ticket.bytes, ticket.fake));
  }

  function CompatibilityArtifact(titleId: string, data: seq<byte>, sha: Hash): Artifact {
    Artifact(ContentKind, ContentBin, "content.bin", "/usr/title/" + titleId + "/content/content.bin", |data|,
             sha(data))
  }

  lemma TicketKeepsSound(f: Files, g: Files, bodies: Bodies)
    requires forall name | name != Cetk :: SameFile(f, g, name)
    ensures Sound(f, bodies) ==> Sound(g, bodies)
  {
    if Sound(f, bodies) {
      forall name: LocalName | name.Tmd? || name.App? ensures HoldsPrefix(g, name, bodies(name)) {
        assert SameFile(f, g, name) && HoldsPrefix(f, name, bodies(name));
      }
    }
  }

  lemma HeadsKept(f: Files, g: Files, titleId: string, heads: seq<Artifact>, sha: Hash)
    requires Heads(f, titleId, heads, sha) && MetaKept(f, g)
    ensures Heads(g, titleId, heads, sha)
  {
  }

  lemma HeadsThenContents(heads: seq<Artifact>, contents: seq<Artifact>)
    ensures var all := heads + contents;
            all[..|all| - |contents|] == heads && all[|all| - |contents|..] == contents
  {
  }

  /** `total` is the number of contents that the progress of each is a share of; all callbacks have ended when a
      download returns or raises, and no more requests were made than its trails tell of. */
  method DownloadTitle(dir: WorkDir, bodies: Bodies, title: string, config: Config, baseUrlSet: bool, allowFake: bool,
                       cipher: Cbc.BlockCipher, variable: string, sha: Hash)
    returns (o: DownloadOutcome, marks: seq<Mark>, trails: seq<Trail>, total: nat)
    modifies dir
    ensures Sound(old(dir.files), bodies) ==> Sound(dir.files, bodies)
    ensures total >= 1 && JobLog(marks, trails) && |trails| <= total + 2 && (!o.DownloadKilled? ==> Open(marks) == {})
    ensures dir.tries == old(dir.tries) + AllTries(trails)
    ensures JobTrails(trails, config, o)
    ensures o.Downloaded? ==>
              o.result.titleId == Queue.LowerText(title) && HasItsTicket(o.result)
                  && (o.result.fakeTicket ==> allowFake)
    ensures o.Downloaded? && Sound(old(dir.files), bodies) ==> Complete(dir.files, bodies, o.result, sha)
  {
    var killed, tmdPresent, ticketFetched := false, false, false;
    marks, trails := [], [];
    if baseUrlSet {
      killed, tmdPresent, ticketFetched, marks, trails := FetchMeta(dir, bodies, config);
      if killed { return DownloadKilled, marks, trails, 1; }
    }
    o, marks, trails, total := FetchRest(dir, bodies, Queue.LowerText(title), tmdPresent, ticketFetched, config,
                                         baseUrlSet && allowFake, cipher, variable, sha, marks, trails);
  }
}
