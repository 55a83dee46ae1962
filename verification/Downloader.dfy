/** Resumable and parallel fetching of one file (core/services/download_service.py:61-342). */
module Downloader {
  import opened Bytes
  import opened Callbacks
  import opened LocalStore
  import opened Ranges
  import opened Server

  const PARALLEL_RANGE_RETRIES := 3

  /** The file, if it is there, holds a prefix of the body. */
  predicate HoldsPrefix(files: Files, dest: LocalName, body: seq<byte>) {
    dest in files ==> files[dest] <= body
  }

  /** `g` is `f`, or `f` with some prefix of `whole` in `dest`. */
  predicate WritesPrefix(f: Files, g: Files, dest: LocalName, whole: seq<byte>) {
    || g == f
    || (dest in g && g[dest] <= whole && g == f[dest := g[dest]])
  }

  lemma OneMoreChunk(kept: seq<byte>, written: seq<byte>, r: Response, i: nat)
    requires r.Response? && i < |r.chunks| && Flatten(r.chunks) <= r.payload
    requires written == Flatten(r.chunks[..i])
    ensures Flatten(r.chunks[..i + 1]) == written + r.chunks[i] <= r.payload
    ensures kept + written + r.chunks[i] == kept + (written + r.chunks[i]) <= kept + r.payload
    ensures r.chunks[i] == [] ==> written + r.chunks[i] == written
  {
    FlattenPrefix(r.chunks, i);
    FlattenPrefix(r.chunks, i + 1);
  }

  // ---------- the pool of range workers ----------

  /** Where a worker is: about to start an attempt, reading a response, inside a progress callback whose first `stage`
      row updates are made, or finished, on which attempt. */
  datatype Worker =
    | Ready(attempt: nat)
    | Streaming(attempt: nat, response: Response, next: nat)
    | Reporting(attempt: nat, response: Response, next: nat, call: Callback, stage: nat)
    | Succeeded(attempt: nat)
    | Exhausted

  predicate Finished(w: Worker) { w.Succeeded? || w.Exhausted? }

  /** What a worker's part file and progress counter hold at each of its steps. A first attempt has counted nothing
      before. */
  predicate WorkerInvariant(files: Files, part: LocalName, body: seq<byte>, span: Span, w: Worker, counted: nat)
    requires span.first <= span.last
  {
    && counted <= span.Length()
    && match w
       case Ready(attempt) => 1 <= attempt <= PARALLEL_RANGE_RETRIES && (attempt == 1 ==> counted == 0)
       case Streaming(attempt, response, next) => Reads(files, part, body, span, attempt, response, next, counted)
       case Reporting(attempt, response, next, _, _) => Reads(files, part, body, span, attempt, response, next, counted)
       case Succeeded(attempt) =>
         && 1 <= attempt <= PARALLEL_RANGE_RETRIES
         && span.last < |body| && counted == span.Length()
         && part in files && files[part] == body[span.first..span.last + 1]
       case Exhausted => true
  }

  predicate Reads(files: Files, part: LocalName, body: seq<byte>, span: Span, attempt: nat, response: Response,
                  next: nat, counted: nat)
    requires span.first <= span.last
  {
    && 1 <= attempt <= PARALLEL_RANGE_RETRIES
    && response.Response? && response.status == 206
    && Honest(body, Between(span.first, span.last), response)
    && next <= |response.chunks|
    && part in files && files[part] == Flatten(response.chunks[..next]) && counted == |files[part]|
  }

  /** The attempts a worker has started. */
  function Started(w: Worker): nat {
    match w
    case Ready(attempt) => if attempt > 0 then attempt - 1 else 0
    case Streaming(attempt, _, _) => attempt
    case Reporting(attempt, _, _, _, _) => attempt
    case Succeeded(attempt) => attempt
    case Exhausted => PARALLEL_RANGE_RETRIES
  }

  /** Those after its first. */
  function Retries(w: Worker): nat { if Started(w) > 1 then Started(w) - 1 else 0 }

  function AfterFailure(attempt: nat): Worker {
    if attempt < PARALLEL_RANGE_RETRIES then Ready(attempt + 1) else Exhausted
  }

  /** A request on behalf of one of the files. */
  method Request(dir: WorkDir, body: seq<byte>, range: Range) returns (r: Response)
    modifies dir`tries
    ensures Honest(body, range, r) && dir.tries == old(dir.tries) + 1
  {
    dir.tries := dir.tries + 1;
    r := Get(body, range);
  }

  /** The start of an attempt: clear the counter and the part, and send the request. */
  method StartAttempt(dir: WorkDir, part: LocalName, body: seq<byte>, span: Span, attempt: nat) returns (next: Worker)
    requires span.first <= span.last && 1 <= attempt <= PARALLEL_RANGE_RETRIES
    modifies dir
    ensures WorkerInvariant(dir.files, part, body, span, next, 0)
    ensures Started(next) == attempt && !next.Reporting? && dir.tries == old(dir.tries) + 1
    ensures forall name | name != part :: SameFile(old(dir.files), dir.files, name)
  {
    // Removing a stale part may raise, which costs the attempt.
    if * {
      dir.tries := dir.tries + 1;
      return AfterFailure(attempt);
    }
    dir.files := dir.files - {part};
    var response := Request(dir, body, Between(span.first, span.last));
    if response.Unreachable? || response.status != 206 { return AfterFailure(attempt); }
    dir.files := dir.files[part := []];
    assert response.chunks[..0] == [];
    return Streaming(attempt, response, 0);
  }

  /** The next chunk of a response, or its end. */
  method ReadOn(dir: WorkDir, part: LocalName, body: seq<byte>, span: Span, w: Worker, counted: nat)
    returns (next: Worker, count: nat)
    requires span.first <= span.last && w.Streaming?
    requires WorkerInvariant(dir.files, part, body, span, w, counted)
    modifies dir`files
    ensures WorkerInvariant(dir.files, part, body, span, next, count)
    ensures Started(next) == Started(w) && !next.Reporting? && counted <= count
    ensures forall name | name != part :: SameFile(old(dir.files), dir.files, name)
  {
    var Streaming(attempt, response, position) := w;
    if position < |response.chunks| {
      var chunk := response.chunks[position];
      OneMoreChunk([], dir.files[part], response, position);
      if chunk != [] {
        dir.files := dir.files[part := dir.files[part] + chunk];
      }
      count := |dir.files[part]|;
      next := Streaming(attempt, response, position + 1);
      // A write or the next read may raise.
      if * { next := AfterFailure(attempt); }
    } else {
      count := counted;
      assert response.chunks[..position] == response.chunks;
      next := if !response.complete || counted != span.Length() then AfterFailure(attempt) else Succeeded(attempt);
    }
  }

  /** One atomic step of an unfinished worker outside a callback. */
  method StepWorker(dir: WorkDir, part: LocalName, body: seq<byte>, span: Span, w: Worker, counted: nat)
    returns (next: Worker, count: nat)
    requires span.first <= span.last && !Finished(w) && !w.Reporting?
    requires WorkerInvariant(dir.files, part, body, span, w, counted)
    modifies dir
    ensures WorkerInvariant(dir.files, part, body, span, next, count)
    ensures !next.Reporting? && Started(next) == Started(w) + if w.Ready? then 1 else 0
    ensures dir.tries - old(dir.tries) == Started(next) - Started(w)
    ensures !StartsOver(w) ==> counted <= count
    ensures forall name | name != part :: SameFile(old(dir.files), dir.files, name)
  {
    if w.Ready? {
      next := StartAttempt(dir, part, body, span, w.attempt);
      count := 0;
    } else {
      next, count := ReadOn(dir, part, body, span, w, counted);
    }
  }

  /** The worker's next step begins an attempt after its first, which takes back what it had counted. */
  predicate StartsOver(w: Worker) { w.Ready? && w.attempt > 1 }

  /** A step of a worker inside a callback: the next row update, or the end, which may be an exception that costs the
      attempt. */
  method StepCallback(w: Worker) returns (next: Worker, mark: Mark)
    requires w.Reporting? && 1 <= w.attempt <= PARALLEL_RANGE_RETRIES
    ensures mark == Row(w.call, w.stage) || mark == Leave(w.call)
    ensures Started(next) == Started(w) && !Finished(w)
    ensures mark.Row? ==> next == w.(stage := w.stage + 1)
    ensures mark.Leave? ==>
              || next == Streaming(w.attempt, w.response, w.next)
              || next == AfterFailure(w.attempt)
  {
    if w.stage < ROWS {
      if * { return AfterFailure(w.attempt), Leave(w.call); }
      return w.(stage := w.stage + 1), Row(w.call, w.stage);
    }
    return Streaming(w.attempt, w.response, w.next), Leave(w.call);
  }

  predicate PoolShape(spans: seq<Span>, workers: seq<Worker>, counters: seq<nat>, total: nat) {
    |workers| == |spans| == |counters| && Tiles(spans, total)
  }

  ghost predicate PoolInvariant(files: Files, dest: LocalName, body: seq<byte>, spans: seq<Span>,
                                workers: seq<Worker>, counters: seq<nat>, total: nat)
  {
    && PoolShape(spans, workers, counters, total)
    && forall i | 0 <= i < |spans| ::
         && spans[i].first <= spans[i].last
         && WorkerInvariant(files, Part(dest, i), body, spans[i], workers[i], counters[i])
  }

  /** Whatever the schedule, the shared counters never claim more than the total. */
  lemma PoolProgressBounded(files: Files, dest: LocalName, body: seq<byte>, spans: seq<Span>,
                            workers: seq<Worker>, counters: seq<nat>, total: nat)
    requires PoolInvariant(files, dest, body, spans, workers, counters, total)
    ensures Sum(counters) <= total
    ensures (forall i | 0 <= i < |workers| :: workers[i].Succeeded?) ==> Sum(counters) == total
  {
    CountersSum(spans, total, counters);
  }

  function StartCounts(workers: seq<Worker>): seq<nat> {
    seq(|workers|, i requires 0 <= i < |workers| => Started(workers[i]))
  }

  function RetryCounts(workers: seq<Worker>): seq<nat> {
    seq(|workers|, i requires 0 <= i < |workers| => Retries(workers[i]))
  }

  /** The attempts of all workers, and those after their first ones. */
  function PoolTries(workers: seq<Worker>): nat { Sum(StartCounts(workers)) }

  function PoolRetries(workers: seq<Worker>): nat { Sum(RetryCounts(workers)) }

  lemma TalliesUpdate(workers: seq<Worker>, i: nat, next: Worker)
    requires i < |workers|
    ensures PoolTries(workers[i := next]) == PoolTries(workers) - Started(workers[i]) + Started(next)
    ensures PoolRetries(workers[i := next]) == PoolRetries(workers) - Retries(workers[i]) + Retries(next)
  {
    SumUpdate(StartCounts(workers), i, Started(next));
    SumUpdate(RetryCounts(workers), i, Retries(next));
    assert StartCounts(workers[i := next]) == StartCounts(workers)[i := Started(next)];
    assert RetryCounts(workers[i := next]) == RetryCounts(workers)[i := Retries(next)];
  }

  /** The callbacks that the workers are inside of. */
  function Calls(workers: seq<Worker>): set<Callback> {
    set i | 0 <= i < |workers| && workers[i].Reporting? :: workers[i].call
  }

  predicate OwnCalls(workers: seq<Worker>) {
    forall i, j | 0 <= i < j < |workers| && workers[i].Reporting? && workers[j].Reporting? ::
        workers[i].call != workers[j].call
  }

  lemma CallsUpdate(workers: seq<Worker>, i: nat, next: Worker)
    requires OwnCalls(workers) && i < |workers|
    requires next.Reporting? ==> next.call !in Calls(workers) || (workers[i].Reporting? && next.call == workers[i].call)
    ensures OwnCalls(workers[i := next])
    ensures Calls(workers[i := next]) == Calls(workers) - (if workers[i].Reporting? then {workers[i].call} else {})
                                       + (if next.Reporting? then {next.call} else {})
  {
    var after := workers[i := next];
    forall j | 0 <= j < |workers| && j != i && workers[j].Reporting?
      ensures workers[j].call in Calls(workers) && workers[j].call in Calls(after)
      ensures workers[i].Reporting? ==> workers[j].call != workers[i].call
    {
      assert after[j] == workers[j];
    }
    if next.Reporting? { assert after[i] == next; }
  }

  /** When every worker has finished, as leaving the pool waits for, no callback is open. */
  lemma JoinedPoolReportsNothing(marks: seq<Mark>, workers: seq<Worker>, counters: seq<nat>, file: nat, total: nat)
    requires PoolLog(marks, workers, counters, file, total)
    requires forall i | 0 <= i < |workers| :: Finished(workers[i])
    ensures Open(marks) == {}
  {
  }

  /** The pool's marks: its open callbacks are those of the reporting workers, its rounds are counted by its retries,
      and within a round the emissions, each computed under the lock, only grow. */
  predicate PoolLog(marks: seq<Mark>, workers: seq<Worker>, counters: seq<nat>, file: nat, total: nat) {
    var now := PoolRetries(workers);
    && Kept(marks, file, now) && Open(marks) == Calls(workers) && OwnCalls(workers)
    && Behind(marks, now, Some(total), Sum(counters))
  }

  /** A streaming worker inside a callback that it has just begun. */
  function Begun(w: Worker, c: Callback): Worker
    requires w.Streaming?
  {
    Reporting(w.attempt, w.response, w.next, c, 0)
  }

  /** What a worker would report now: the sum of all counters. */
  function Claim(workers: seq<Worker>, counters: seq<nat>, file: nat, total: nat): Emit {
    Emit(file, PoolRetries(workers), Sum(counters), Some(total), false)
  }

  /** A worker begins a callback with what all counters add up to. */
  lemma CallbackBegins(marks: seq<Mark>, workers: seq<Worker>, counters: seq<nat>, file: nat, total: nat, i: nat)
    requires PoolLog(marks, workers, counters, file, total) && Sum(counters) <= total
    requires i < |workers| && workers[i].Streaming?
    ensures var c := NextCall(marks, Claim(workers, counters, file, total));
            && PoolLog(marks + [Enter(c)], workers[i := Begun(workers[i], c)], counters, file, total)
            && PoolTries(workers[i := Begun(workers[i], c)]) == PoolTries(workers)
  {
    var c := NextCall(marks, Claim(workers, counters, file, total));
    AppendEnter(marks, c.emit);
    TalliesUpdate(workers, i, Begun(workers[i], c));
    CallsUpdate(workers, i, Begun(workers[i], c));
    assert PoolRetries(workers[i := Begun(workers[i], c)]) == PoolRetries(workers);
  }

  lemma CallbackSteps(marks: seq<Mark>, workers: seq<Worker>, counters: seq<nat>, file: nat, total: nat, i: nat,
                      next: Worker, mark: Mark)
    requires PoolLog(marks, workers, counters, file, total)
    requires i < |workers| && workers[i].Reporting? && Started(next) == Started(workers[i])
    requires mark == Leave(workers[i].call) || mark == Row(workers[i].call, workers[i].stage)
    requires if mark.Row? then next == workers[i].(stage := workers[i].stage + 1) else !next.Reporting?
    ensures PoolLog(marks + [mark], workers[i := next], counters, file, total)
    ensures PoolTries(workers[i := next]) == PoolTries(workers)
  {
    TalliesUpdate(workers, i, next);
    CallsUpdate(workers, i, next);
    assert PoolRetries(workers[i := next]) == PoolRetries(workers);
    assert workers[i].call in Calls(workers);
    AppendOther(marks, mark, file, PoolRetries(workers));
  }

  lemma OutsideSteps(marks: seq<Mark>, workers: seq<Worker>, counters: seq<nat>, file: nat, total: nat, i: nat,
                     next: Worker, count: nat)
    requires PoolLog(marks, workers, counters, file, total) && |counters| == |workers|
    requires i < |workers| && !workers[i].Reporting? && !next.Reporting?
    requires Started(next) == Started(workers[i]) + if workers[i].Ready? then 1 else 0
    requires workers[i].Ready? ==> workers[i].attempt > 0
    requires !StartsOver(workers[i]) ==> counters[i] <= count
    ensures PoolLog(marks, workers[i := next], counters[i := count], file, total)
    ensures PoolTries(workers[i := next]) == PoolTries(workers) + Started(next) - Started(workers[i])
  {
    TalliesUpdate(workers, i, next);
    CallsUpdate(workers, i, next);
    SumUpdate(counters, i, count);
    if StartsOver(workers[i]) { StartOver(marks, file, PoolRetries(workers), Some(total)); }
  }

  /** All workers, interleaved as `schedule` says: each entry lets one worker take one step. */
  method RunPool(dir: WorkDir, dest: LocalName, body: seq<byte>, file: nat, spans: seq<Span>, total: nat,
                 schedule: seq<nat>, before: seq<Mark>)
    returns (workers: seq<Worker>, counters: seq<nat>, marks: seq<Mark>)
    requires Tiles(spans, total)
    requires Kept(before, file, 0) && Open(before) == {} && Behind(before, 0, Some(total), 0)
    modifies dir
    ensures PoolInvariant(dir.files, dest, body, spans, workers, counters, total)
    ensures PoolLog(marks, workers, counters, file, total)
    ensures dir.tries == old(dir.tries) + PoolTries(workers)
    ensures OnlyTouches(old(dir.files), dir.files, dest)
    ensures SameFile(old(dir.files), dir.files, dest)
  {
    workers := seq(|spans|, i => Ready(1));
    counters := seq(|spans|, i => 0);
    marks := before;
    forall i | 0 <= i < |spans| ensures spans[i].first <= spans[i].last { TilesUpTo(spans, total, i); }
    SumZero(StartCounts(workers));
    SumZero(RetryCounts(workers));
    SumZero(counters);
    for k := 0 to |schedule|
      invariant PoolInvariant(dir.files, dest, body, spans, workers, counters, total)
      invariant PoolLog(marks, workers, counters, file, total)
      invariant dir.tries == old(dir.tries) + PoolTries(workers)
      invariant OnlyTouches(old(dir.files), dir.files, dest)
      invariant SameFile(old(dir.files), dir.files, dest)
    {
      var i := schedule[k];
      if i < |spans| && !Finished(workers[i]) {
        ghost var was := dir.files;
        workers, counters, marks := StepPool(dir, dest, body, file, spans, total, workers, counters, marks, i);
        OnlyPartTouched(was, dir.files, dest, i);
        OnlyTouchesTransitive(old(dir.files), was, dir.files, dest);
      }
    }
  }

  /** One step of worker `i`, inside a callback or outside. */
  method StepPool(dir: WorkDir, dest: LocalName, body: seq<byte>, file: nat, spans: seq<Span>, total: nat,
                  workers: seq<Worker>, counters: seq<nat>, marks: seq<Mark>, i: nat)
    returns (workers': seq<Worker>, counters': seq<nat>, marks': seq<Mark>)
    requires PoolInvariant(dir.files, dest, body, spans, workers, counters, total)
    requires PoolLog(marks, workers, counters, file, total)
    requires i < |spans| && !Finished(workers[i])
    modifies dir
    ensures PoolInvariant(dir.files, dest, body, spans, workers', counters', total)
    ensures PoolLog(marks', workers', counters', file, total)
    ensures dir.tries - old(dir.tries) == PoolTries(workers') - PoolTries(workers)
    ensures forall name | name != Part(dest, i) :: SameFile(old(dir.files), dir.files, name)
  {
    workers', counters', marks' := workers, counters, marks;
    if workers[i].Reporting? {
      workers', marks' := StepInside(dir.files, dest, body, file, spans, total, workers, counters, marks, i);
      return;
    }
    var report := false;
    if * { report := true; }
    if report && workers[i].Streaming? {
      var c := NextCall(marks, Claim(workers, counters, file, total));
      PoolProgressBounded(dir.files, dest, body, spans, workers, counters, total);
      CallbackBegins(marks, workers, counters, file, total, i);
      OthersUndisturbed(dir.files, dir.files, dest, body, spans, workers, counters, total, i, Begun(workers[i], c),
                        counters[i]);
      workers', marks' := workers[i := Begun(workers[i], c)], marks + [Enter(c)];
      return;
    }
    workers', counters' := StepOutside(dir, dest, body, file, spans, total, workers, counters, marks, i);
  }

  /** One step of a worker inside its callback. */
  method StepInside(ghost files: Files, dest: LocalName, ghost body: seq<byte>, file: nat, spans: seq<Span>, total: nat,
                    workers: seq<Worker>, counters: seq<nat>, marks: seq<Mark>, i: nat)
    returns (workers': seq<Worker>, marks': seq<Mark>)
    requires PoolInvariant(files, dest, body, spans, workers, counters, total)
    requires PoolLog(marks, workers, counters, file, total)
    requires i < |spans| && workers[i].Reporting?
    ensures PoolInvariant(files, dest, body, spans, workers', counters, total)
    ensures PoolLog(marks', workers', counters, file, total) && PoolTries(workers') == PoolTries(workers)
  {
    assert WorkerInvariant(files, Part(dest, i), body, spans[i], workers[i], counters[i]);
    var next, mark := StepCallback(workers[i]);
    OthersUndisturbed(files, files, dest, body, spans, workers, counters, total, i, next, counters[i]);
    CallbackSteps(marks, workers, counters, file, total, i, next, mark);
    workers', marks' := workers[i := next], marks + [mark];
  }

  /** One step of a worker that is in no callback, and begins none. */
  method StepOutside(dir: WorkDir, dest: LocalName, body: seq<byte>, file: nat, spans: seq<Span>, total: nat,
                     workers: seq<Worker>, counters: seq<nat>, ghost marks: seq<Mark>, i: nat)
    returns (workers': seq<Worker>, counters': seq<nat>)
    requires PoolInvariant(dir.files, dest, body, spans, workers, counters, total)
    requires PoolLog(marks, workers, counters, file, total)
    requires i < |spans| && !Finished(workers[i]) && !workers[i].Reporting?
    modifies dir
    ensures PoolInvariant(dir.files, dest, body, spans, workers', counters', total)
    ensures PoolLog(marks, workers', counters', file, total)
    ensures dir.tries - old(dir.tries) == PoolTries(workers') - PoolTries(workers)
    ensures forall name | name != Part(dest, i) :: SameFile(old(dir.files), dir.files, name)
  {
    ghost var was := dir.files;
    var next, count := StepWorker(dir, Part(dest, i), body, spans[i], workers[i], counters[i]);
    OthersUndisturbed(was, dir.files, dest, body, spans, workers, counters, total, i, next, count);
    OutsideSteps(marks, workers, counters, file, total, i, next, count);
    workers', counters' := workers[i := next], counters[i := count];
  }

  lemma OthersUndisturbed(before: Files, after: Files, dest: LocalName, body: seq<byte>, spans: seq<Span>,
                          workers: seq<Worker>, counters: seq<nat>, total: nat, i: nat, next: Worker, count: nat)
    requires PoolInvariant(before, dest, body, spans, workers, counters, total)
    requires i < |spans|
    requires WorkerInvariant(after, Part(dest, i), body, spans[i], next, count)
    requires forall name | name != Part(dest, i) :: SameFile(before, after, name)
    ensures PoolInvariant(after, dest, body, spans, workers[i := next], counters[i := count], total)
  {
    forall j | 0 <= j < |spans| && j != i
      ensures WorkerInvariant(after, Part(dest, j), body, spans[j], workers[j], counters[j])
    {
      assert SameFile(before, after, Part(dest, j));
    }
  }

  // ---------- rows that cross ----------

  /** A pool at one moment. */
  datatype Pool = Pool(files: Files, workers: seq<Worker>, counters: seq<nat>, marks: seq<Mark>)

  /** What is fetched, and where to. */
  datatype Fetch = Fetch(dest: LocalName, body: seq<byte>, spans: seq<Span>, total: nat, file: nat)

  ghost predicate Alive(p: Pool, f: Fetch) {
    && PoolInvariant(p.files, f.dest, f.body, f.spans, p.workers, p.counters, f.total)
    && PoolLog(p.marks, p.workers, p.counters, f.file, f.total)
  }

  /** A worker that is about to read a chunk of more than nothing. */
  predicate HasMore(w: Worker) {
    w.Streaming? && w.response.Response? && w.next < |w.response.chunks| && w.response.chunks[w.next] != []
  }

  /** Three of the steps that `StepPool` may take: a worker begins a callback, */
  function AfterBegin(p: Pool, f: Fetch, i: nat): Pool
    requires i < |p.workers| && p.workers[i].Streaming?
  {
    var c := NextCall(p.marks, Claim(p.workers, p.counters, f.file, f.total));
    p.(workers := p.workers[i := Begun(p.workers[i], c)], marks := p.marks + [Enter(c)])
  }

  /** makes a row update, */
  function AfterRow(p: Pool, i: nat): Pool
    requires i < |p.workers| && p.workers[i].Reporting?
  {
    p.(workers := p.workers[i := p.workers[i].(stage := p.workers[i].stage + 1)],
       marks := p.marks + [Row(p.workers[i].call, p.workers[i].stage)])
  }

  /** or reads a chunk. */
  function AfterRead(p: Pool, f: Fetch, i: nat): Pool
    requires i < |p.workers| == |p.counters| && HasMore(p.workers[i]) && Part(f.dest, i) in p.files
  {
    var w := p.workers[i];
    var grown := p.files[Part(f.dest, i)] + w.response.chunks[w.next];
    Pool(p.files[Part(f.dest, i) := grown], p.workers[i := Streaming(w.attempt, w.response, w.next + 1)],
         p.counters[i := |grown|], p.marks)
  }

  lemma BeginStaysAlive(p: Pool, f: Fetch, i: nat)
    requires Alive(p, f) && i < |p.workers| && p.workers[i].Streaming?
    ensures Alive(AfterBegin(p, f, i), f) && PoolRetries(AfterBegin(p, f, i).workers) == PoolRetries(p.workers)
  {
    var next := AfterBegin(p, f, i).workers[i];
    PoolProgressBounded(p.files, f.dest, f.body, f.spans, p.workers, p.counters, f.total);
    CallbackBegins(p.marks, p.workers, p.counters, f.file, f.total, i);
    MovesInside(p, f, i, next);
    TalliesUpdate(p.workers, i, next);
  }

  /** A step that touches neither part nor counter. */
  lemma MovesInside(p: Pool, f: Fetch, i: nat, next: Worker)
    requires PoolInvariant(p.files, f.dest, f.body, f.spans, p.workers, p.counters, f.total) && i < |p.workers|
    requires WorkerInvariant(p.files, Part(f.dest, i), f.body, f.spans[i], next, p.counters[i])
    ensures PoolInvariant(p.files, f.dest, f.body, f.spans, p.workers[i := next], p.counters, f.total)
  {
    assert p.counters[i := p.counters[i]] == p.counters;
    OthersUndisturbed(p.files, p.files, f.dest, f.body, f.spans, p.workers, p.counters, f.total, i, next,
                      p.counters[i]);
  }

  lemma RowStaysAlive(p: Pool, f: Fetch, i: nat)
    requires Alive(p, f) && i < |p.workers| && p.workers[i].Reporting?
    ensures Alive(AfterRow(p, i), f) && PoolRetries(AfterRow(p, i).workers) == PoolRetries(p.workers)
  {
    var next := AfterRow(p, i).workers[i];
    MovesInside(p, f, i, next);
    RowStaysLogged(p, f, i, next);
  }

  lemma RowStaysLogged(p: Pool, f: Fetch, i: nat, next: Worker)
    requires PoolLog(p.marks, p.workers, p.counters, f.file, f.total) && i < |p.workers| && p.workers[i].Reporting?
    requires next == p.workers[i].(stage := p.workers[i].stage + 1)
    ensures PoolLog(p.marks + [Row(p.workers[i].call, p.workers[i].stage)], p.workers[i := next], p.counters, f.file,
                    f.total)
    ensures PoolRetries(p.workers[i := next]) == PoolRetries(p.workers)
  {
    CallbackSteps(p.marks, p.workers, p.counters, f.file, f.total, i, next, Row(p.workers[i].call, p.workers[i].stage));
    TalliesUpdate(p.workers, i, next);
  }

  lemma ReadStaysAlive(p: Pool, f: Fetch, i: nat)
    requires Alive(p, f) && i < |p.workers| && HasMore(p.workers[i])
    ensures Part(f.dest, i) in p.files && Alive(AfterRead(p, f, i), f)
    ensures PoolRetries(AfterRead(p, f, i).workers) == PoolRetries(p.workers)
    ensures Sum(AfterRead(p, f, i).counters) > Sum(p.counters)
  {
    var q := AfterRead(p, f, i);
    assert WorkerInvariant(p.files, Part(f.dest, i), f.body, f.spans[i], p.workers[i], p.counters[i]);
    ReadOnInvariant(p, f, i);
    OutsideSteps(p.marks, p.workers, p.counters, f.file, f.total, i, q.workers[i], q.counters[i]);
    TalliesUpdate(p.workers, i, q.workers[i]);
    SumUpdate(p.counters, i, q.counters[i]);
  }

  lemma ReadOnInvariant(p: Pool, f: Fetch, i: nat)
    requires PoolInvariant(p.files, f.dest, f.body, f.spans, p.workers, p.counters, f.total)
    requires i < |p.workers| && HasMore(p.workers[i])
    ensures Part(f.dest, i) in p.files
    ensures var q := AfterRead(p, f, i); PoolInvariant(q.files, f.dest, f.body, f.spans, q.workers, q.counters, f.total)
  {
    assert WorkerInvariant(p.files, Part(f.dest, i), f.body, f.spans[i], p.workers[i], p.counters[i]);
    var q := AfterRead(p, f, i);
    OneMoreRead(p.files, q.files, Part(f.dest, i), f.body, f.spans[i], p.workers[i], p.counters[i]);
    OthersUndisturbed(p.files, q.files, f.dest, f.body, f.spans, p.workers, p.counters, f.total, i, q.workers[i],
                      q.counters[i]);
  }

  lemma OneMoreRead(files: Files, more: Files, part: LocalName, body: seq<byte>, span: Span, w: Worker, counted: nat)
    requires span.first <= span.last && HasMore(w) && WorkerInvariant(files, part, body, span, w, counted)
    requires part in more && more[part] == files[part] + w.response.chunks[w.next]
    ensures WorkerInvariant(more, part, body, span, Streaming(w.attempt, w.response, w.next + 1), |more[part]|)
  {
    OneMoreChunk([], files[part], w.response, w.next);
  }

  /** The first of two callbacks of one round began earlier and was told less. */
  predicate Crossed(x: Callback, y: Callback) {
    x.id < y.id && y.emit == x.emit.(downloaded := y.emit.downloaded) && x.emit.downloaded < y.emit.downloaded
  }

  /** Worker `a` begins a callback; before its first row update, worker `b` reads a chunk and begins one too. */
  lemma TwoBegin(p: Pool, f: Fetch, a: nat, b: nat) returns (q: Pool)
    requires Alive(p, f) && a < |p.workers| && b < |p.workers| && a != b
    requires p.workers[a].Streaming? && HasMore(p.workers[b])
    ensures Alive(q, f) && |q.workers| == |p.workers| && PoolRetries(q.workers) == PoolRetries(p.workers)
    ensures q.workers[a].Reporting? && q.workers[a].stage == 0 && q.workers[b].Reporting? && q.workers[b].stage == 0
    ensures q.marks == p.marks + [Enter(q.workers[a].call)] + [Enter(q.workers[b].call)]
    ensures Crossed(q.workers[a].call, q.workers[b].call)
    ensures q.workers[a].call.emit == Claim(p.workers, p.counters, f.file, f.total)
  {
    BeginStaysAlive(p, f, a);
    q := AfterBegin(p, f, a);
    ReadStaysAlive(q, f, b);
    q := AfterRead(q, f, b);
    BeginStaysAlive(q, f, b);
    q := AfterBegin(q, f, b);
  }

  /** What two workers log when the callback `x` that began first is the last to update the row. */
  function Crossing(x: Callback, y: Callback): seq<Mark> { [Enter(x), Enter(y), Row(y, 0), Row(x, 0)] }

  /** Progress can fall without a retry: the sum is computed under the lock, but the callback is called outside it. From
      any state of a pool in which two workers are reading, the one that computed the larger sum later may update the
      row first. */
  lemma RowsCanCross(p: Pool, f: Fetch, a: nat, b: nat) returns (q: Pool, x: Callback, y: Callback)
    requires Alive(p, f) && a < |p.workers| && b < |p.workers| && a != b
    requires p.workers[a].Streaming? && HasMore(p.workers[b])
    ensures Alive(q, f) && PoolRetries(q.workers) == PoolRetries(p.workers)
    ensures q.marks == p.marks + Crossing(x, y) && Crossed(x, y)
    ensures x.emit == Claim(p.workers, p.counters, f.file, f.total)
  {
    var begun := TwoBegin(p, f, a, b);
    x, y := begun.workers[a].call, begun.workers[b].call;
    RowStaysAlive(begun, f, b);
    var crossing := AfterRow(begun, b);
    RowStaysAlive(crossing, f, a);
    q := AfterRow(crossing, a);
    FourMore(p.marks, x, y);
  }

  lemma FourMore(marks: seq<Mark>, x: Callback, y: Callback)
    ensures marks + [Enter(x)] + [Enter(y)] + [Row(y, 0)] + [Row(x, 0)] == marks + Crossing(x, y)
  {
  }

  const ZERO_BYTE: seq<byte> := [0]

  const TWO_BYTES: seq<byte> := [0, 0]

  const ONE_BYTE_EACH := [Span(0, 0), Span(1, 1)]

  function TwoBytes(dest: LocalName, file: nat): Fetch { Fetch(dest, TWO_BYTES, ONE_BYTE_EACH, 2, file) }

  /** A response that brings one byte in one chunk. */
  const ONE_CHUNK := Response(206, ZERO_BYTE, [ZERO_BYTE], true, None, None)

  /** A worker that has just got its response. */
  const READING := Streaming(1, ONE_CHUNK, 0)

  lemma ReadingInvariant(files: Files, part: LocalName, span: Span)
    requires span in ONE_BYTE_EACH && part in files && files[part] == []
    ensures WorkerInvariant(files, part, TWO_BYTES, span, READING, 0) && HasMore(READING)
  {
    assert [ZERO_BYTE][..0] == [];
    assert Flatten([]) + ZERO_BYTE == ZERO_BYTE;
    assert Selected(TWO_BYTES, Between(span.first, span.last)) == ZERO_BYTE;
  }

  /** A pool of two workers, for one byte each, that have just got their responses. */
  lemma TwoReading(dest: LocalName, file: nat) returns (p: Pool)
    ensures Alive(p, TwoBytes(dest, file))
    ensures p.marks == [] && |p.workers| == 2 && p.workers[0].Streaming? && HasMore(p.workers[1])
    ensures PoolRetries(p.workers) == 0 && Claim(p.workers, p.counters, file, 2) == Emit(file, 0, 0, Some(2), false)
  {
    var none: seq<byte> := [];
    p := Pool(map[Part(dest, 0) := none, Part(dest, 1) := none], [READING, READING], [0, 0], []);
    ReadingInvariant(p.files, Part(dest, 0), Span(0, 0));
    ReadingInvariant(p.files, Part(dest, 1), Span(1, 1));
    assert ONE_BYTE_EACH[..1] == [Span(0, 0)] && [Span(0, 0)][..0] == [];
    SumZero(RetryCounts(p.workers));
    SumZero(p.counters);
  }

  /** Two workers can cross before there have been any other rows. */
  lemma TwoCross(dest: LocalName, file: nat) returns (q: Pool, x: Callback, y: Callback)
    ensures Alive(q, TwoBytes(dest, file)) && PoolRetries(q.workers) == 0
    ensures q.marks == Crossing(x, y) && Crossed(x, y) && x.emit == Emit(file, 0, 0, Some(2), false)
  {
    var p := TwoReading(dest, file);
    q, x, y := RowsCanCross(p, TwoBytes(dest, file), 0, 1);
    assert [] + Crossing(x, y) == Crossing(x, y);
  }

  lemma AliveIsLogged(p: Pool, f: Fetch)
    requires Alive(p, f)
    ensures Kept(p.marks, f.file, PoolRetries(p.workers)) && |p.workers| == |f.spans|
  {
  }

  // ---------- assembling the parts ----------

  datatype ParallelOutcome = Assembled(size: nat) | PoolFailed | PoolKilled

  method RemoveParts(dir: WorkDir, dest: LocalName, count: nat)
    modifies dir`files
    ensures OnlyTouches(old(dir.files), dir.files, dest)
    ensures SameFile(old(dir.files), dir.files, dest)
  {
    for i := 0 to count
      invariant OnlyTouches(old(dir.files), dir.files, dest)
      invariant SameFile(old(dir.files), dir.files, dest)
    {
      // An operating system error leaves the part where it is.
      if * {
        ghost var before := dir.files;
        dir.files := dir.files - {Part(dest, i)};
        OnlyPartTouched(before, dir.files, dest, i);
        OnlyTouchesTransitive(old(dir.files), before, dir.files, dest);
      }
    }
  }

  /** A killed process leaves some prefix of what it had written beyond what was there before. */
  method LosePending(dir: WorkDir, dest: LocalName, kept: nat) returns (left: seq<byte>)
    requires dest in dir.files && kept <= |dir.files[dest]|
    modifies dir`files
    ensures kept <= |left| && left <= old(dir.files[dest])
    ensures dir.files == old(dir.files)[dest := left]
  {
    var k :| kept <= k <= |dir.files[dest]|;
    left := dir.files[dest][..k];
    dir.files := dir.files[dest := left];
  }

  predicate PartsHold(files: Files, dest: LocalName, body: seq<byte>, spans: seq<Span>) {
    forall i | 0 <= i < |spans| ::
      && spans[i].first <= spans[i].last < |body|
      && Part(dest, i) in files && files[Part(dest, i)] == body[spans[i].first..spans[i].last + 1]
  }

  method Assemble(dir: WorkDir, dest: LocalName, body: seq<byte>, spans: seq<Span>, total: nat) returns (killed: bool)
    requires Tiles(spans, total) && total <= |body|
    requires PartsHold(dir.files, dest, body, spans)
    modifies dir`files
    ensures dest in dir.files && dir.files[dest] <= body && dir.files == old(dir.files)[dest := dir.files[dest]]
    ensures !killed ==> dir.files[dest] == body[..total]
  {
    dir.files := dir.files[dest := []];
    var offset: nat := 0;
    for i := 0 to |spans|
      invariant Tiles(spans[..i], offset) && offset <= |body|
      invariant dest in dir.files && dir.files[dest] == body[..offset]
      invariant dir.files == old(dir.files)[dest := dir.files[dest]]
    {
      TilesUpTo(spans, total, i);
      SameTotal(spans[..i], offset, spans[i].first);
      PartIsNotWhole(dest, i);
      ghost var was := dir.files[dest];
      killed := AppendPart(dir, dest, body, i, spans[i]);
      Overwritten(old(dir.files), dest, was, dir.files[dest]);
      if killed { return; }
      offset := spans[i].last + 1;
    }
    assert spans[..|spans|] == spans;
    SameTotal(spans, offset, total);
    return false;
  }

  /** One part at the end of the file, after which the process may be killed. */
  method AppendPart(dir: WorkDir, dest: LocalName, body: seq<byte>, i: nat, span: Span) returns (killed: bool)
    requires span.first <= span.last < |body|
    requires Part(dest, i) in dir.files && dir.files[Part(dest, i)] == body[span.first..span.last + 1]
    requires dest in dir.files && dir.files[dest] == body[..span.first]
    modifies dir`files
    ensures dest in dir.files && dir.files[dest] <= body && dir.files == old(dir.files)[dest := dir.files[dest]]
    ensures !killed ==> dir.files[dest] == body[..span.last + 1]
  {
    AppendSlice(body, span.first, span.last + 1);
    dir.files := dir.files[dest := dir.files[dest] + dir.files[Part(dest, i)]];
    killed := MaybeKilled(dir, dest);
  }

  /** The process may be killed here. */
  method MaybeKilled(dir: WorkDir, dest: LocalName) returns (killed: bool)
    requires dest in dir.files
    modifies dir`files
    ensures dest in dir.files && dir.files == old(dir.files)[dest := dir.files[dest]]
    ensures if killed then dir.files[dest] <= old(dir.files)[dest] else dir.files == old(dir.files)
  {
    killed := false;
    if * {
      var left := LosePending(dir, dest, 0);
      killed := true;
    }
  }

  lemma AppendSlice(body: seq<byte>, lo: nat, hi: nat)
    requires lo <= hi <= |body|
    ensures body[..lo] + body[lo..hi] == body[..hi]
  {
  }

  lemma SameTotal(spans: seq<Span>, a: nat, b: nat)
    requires Tiles(spans, a) && Tiles(spans, b)
    ensures a == b
  {
  }

  /** A pool has one worker for each range, none of which has started more than three attempts. */
  predicate PoolOf(pool: seq<Worker>, ranges: nat) {
    |pool| == ranges && forall i | 0 <= i < |pool| :: Started(pool[i]) <= PARALLEL_RANGE_RETRIES
  }

  /** The pool, if it came to be built. */
  predicate PoolOfSize(pool: seq<Worker>, total: nat, workerCount: int) {
    pool == [] || PoolOf(pool, Min(Max(1, workerCount), total))
  }

  datatype PoolEnd = AllDone | SomeFailed | CutOff

  /** The pool, up to the point where it has been joined and a first failure would be raised. */
  method FetchRanges(dir: WorkDir, dest: LocalName, body: seq<byte>, file: nat, spans: seq<Span>, total: nat,
                     schedule: seq<nat>, before: seq<Mark>)
    returns (end: PoolEnd, pool: seq<Worker>, counters: seq<nat>, marks: seq<Mark>)
    requires Tiles(spans, total) && spans != []
    requires Kept(before, file, 0) && Open(before) == {} && Behind(before, 0, Some(total), 0)
    modifies dir
    ensures PoolInvariant(dir.files, dest, body, spans, pool, counters, total)
    ensures dir.tries == old(dir.tries) + PoolTries(pool)
    ensures Kept(marks, file, PoolRetries(pool)) && Behind(marks, PoolRetries(pool), Some(total), Sum(counters))
    ensures !end.CutOff? ==> Open(marks) == {}
    ensures end.AllDone? ==> forall i | 0 <= i < |pool| :: pool[i].Succeeded?
    ensures OnlyTouches(old(dir.files), dir.files, dest)
    ensures SameFile(old(dir.files), dir.files, dest)
  {
    pool, counters, marks := RunPool(dir, dest, body, file, spans, total, schedule, before);
    if exists i | 0 <= i < |pool| :: !Finished(pool[i]) { return CutOff, pool, counters, marks; }
    JoinedPoolReportsNothing(marks, pool, counters, file, total);
    end := if exists i | 0 <= i < |pool| :: pool[i].Exhausted? then SomeFailed else AllDone;
  }

  /** The parts in one file, and the last emission, whose callback may raise: by now all counters add up to the
      total. */
  method AssembleRanges(dir: WorkDir, dest: LocalName, body: seq<byte>, file: nat, spans: seq<Span>, total: nat,
                        pool: seq<Worker>, counters: seq<nat>, before: seq<Mark>)
    returns (outcome: ParallelOutcome, marks: seq<Mark>)
    requires PoolInvariant(dir.files, dest, body, spans, pool, counters, total) && spans != []
    requires forall i | 0 <= i < |pool| :: pool[i].Succeeded?
    requires Kept(before, file, PoolRetries(pool)) && Open(before) == {}
    requires Behind(before, PoolRetries(pool), Some(total), Sum(counters))
    requires HoldsPrefix(dir.files, dest, body)
    modifies dir`files
    ensures HoldsPrefix(dir.files, dest, body)
    ensures outcome.Assembled? ==>
              outcome.size == total <= |body| && dest in dir.files && dir.files[dest] == body[..total]
    ensures Kept(marks, file, PoolRetries(pool)) && Open(marks) == {}
    ensures outcome.Assembled? ==> Told(marks, Emit(file, PoolRetries(pool), total, Some(total), true))
    ensures OnlyTouches(old(dir.files), dir.files, dest)
  {
    ghost var joined := dir.files;
    marks := before;
    PoolProgressBounded(dir.files, dest, body, spans, pool, counters, total);
    AllSucceeded(dir.files, dest, body, spans, pool, counters, total);
    var killed := Assemble(dir, dest, body, spans, total);
    assert OnlyTouches(joined, dir.files, dest);
    if killed { return PoolKilled, marks; }
    var raised;
    marks, raised := Report(before, Emit(file, PoolRetries(pool), Sum(counters), Some(total), true));
    outcome := if raised then PoolFailed else Assembled(|dir.files[dest]|);
    ghost var assembled := dir.files;
    RemoveParts(dir, dest, |spans|);
    OnlyTouchesTransitive(joined, assembled, dir.files, dest);
  }

  method DownloadParallelRanges(dir: WorkDir, dest: LocalName, body: seq<byte>, file: nat, total: nat, workerCount: int,
                                schedule: seq<nat>)
    returns (outcome: ParallelOutcome, marks: seq<Mark>, pool: seq<Worker>)
    requires HoldsPrefix(dir.files, dest, body)
    modifies dir
    ensures HoldsPrefix(dir.files, dest, body)
    ensures outcome.Assembled? ==>
              outcome.size == total <= |body| && dest in dir.files && dir.files[dest] == body[..total]
    ensures PoolOfSize(pool, total, workerCount) && dir.tries == old(dir.tries) + PoolTries(pool)
    ensures outcome.Assembled? ==> pool != [] && forall i | 0 <= i < |pool| :: pool[i].Succeeded?
    ensures Kept(marks, file, PoolRetries(pool)) && (!outcome.PoolKilled? ==> Open(marks) == {})
    ensures AloneFrom(marks, PoolAloneSince(pool))
    ensures outcome.Assembled? ==> Told(marks, Emit(file, PoolRetries(pool), total, Some(total), true))
    ensures OnlyTouches(old(dir.files), dir.files, dest)
  {
    var spans := SplitRanges(total, workerCount);
    RemoveParts(dir, dest, |spans|);
    marks, pool := [], [];
    if * {
      var raised;
      marks, raised := Report([], Emit(file, 0, 0, Some(total), false));
      if raised { return PoolFailed, marks, pool; }
    }
    // A pool without workers cannot be built.
    if spans == [] { return PoolFailed, marks, pool; }
    ghost var start := dir.files;
    outcome, marks, pool := FetchAndAssemble(dir, dest, body, file, spans, total, schedule, marks);
    NotYetAlone(marks, file, PoolRetries(pool));
    OnlyTouchesTransitive(old(dir.files), start, dir.files, dest);
  }

  /** The pool, and what becomes of its parts. */
  method FetchAndAssemble(dir: WorkDir, dest: LocalName, body: seq<byte>, file: nat, spans: seq<Span>, total: nat,
                          schedule: seq<nat>, before: seq<Mark>)
    returns (outcome: ParallelOutcome, marks: seq<Mark>, pool: seq<Worker>)
    requires Tiles(spans, total) && spans != []
    requires Kept(before, file, 0) && Open(before) == {} && Behind(before, 0, Some(total), 0)
    requires HoldsPrefix(dir.files, dest, body)
    modifies dir
    ensures HoldsPrefix(dir.files, dest, body)
    ensures outcome.Assembled? ==>
              outcome.size == total <= |body| && dest in dir.files && dir.files[dest] == body[..total]
    ensures PoolOf(pool, |spans|) && dir.tries == old(dir.tries) + PoolTries(pool)
    ensures outcome.Assembled? ==> forall i | 0 <= i < |pool| :: pool[i].Succeeded?
    ensures Kept(marks, file, PoolRetries(pool)) && (!outcome.PoolKilled? ==> Open(marks) == {})
    ensures outcome.Assembled? ==> Told(marks, Emit(file, PoolRetries(pool), total, Some(total), true))
    ensures OnlyTouches(old(dir.files), dir.files, dest)
  {
    var end, counters;
    end, pool, counters, marks := FetchRanges(dir, dest, body, file, spans, total, schedule, before);
    PoolSpans(dir.files, dest, body, spans, pool, counters, total);
    ghost var joined := dir.files;
    match end {
      case CutOff => outcome := PoolKilled;
      case SomeFailed =>
        RemoveParts(dir, dest, |spans|);
        outcome := PoolFailed;
      case AllDone =>
        outcome, marks := AssembleRanges(dir, dest, body, file, spans, total, pool, counters, marks);
    }
    OnlyTouchesTransitive(old(dir.files), joined, dir.files, dest);
  }

  lemma PoolSpans(files: Files, dest: LocalName, body: seq<byte>, spans: seq<Span>,
                  workers: seq<Worker>, counters: seq<nat>, total: nat)
    requires PoolInvariant(files, dest, body, spans, workers, counters, total)
    ensures PoolOf(workers, |spans|)
  {
    forall i | 0 <= i < |workers| ensures Started(workers[i]) <= PARALLEL_RANGE_RETRIES {
      assert WorkerInvariant(files, Part(dest, i), body, spans[i], workers[i], counters[i]);
    }
  }

  lemma AllSucceeded(files: Files, dest: LocalName, body: seq<byte>, spans: seq<Span>,
                     workers: seq<Worker>, counters: seq<nat>, total: nat)
    requires PoolInvariant(files, dest, body, spans, workers, counters, total)
    requires forall i | 0 <= i < |workers| :: workers[i].Succeeded?
    requires spans != []
    ensures total <= |body|
    ensures PartsHold(files, dest, body, spans)
  {
    var last := |spans| - 1;
    assert WorkerInvariant(files, Part(dest, last), body, spans[last], workers[last], counters[last]);
  }

  // ---------- one resumable call ----------

  datatype Via = Parallel | Unsatisfiable | Stream

  datatype Outcome = Returned(size: nat, via: Via) | Raised | Killed

  datatype Config = Config(parallelMinBytes: int, maxThreads: int)

  /** The size the response announces, if it does (lines 61-79). */
  function ExtractTotalSize(r: Response, append: bool, existing: nat): Option<nat>
    requires r.Response?
  {
    if r.contentRangeTotal.Some? then r.contentRangeTotal
    else if r.contentLength.Some? then
      Some(if append then existing + r.contentLength.value else r.contentLength.value)
    else None
  }

  /** An honest server's announced size is the size of the body, appending or not. */
  lemma TotalSizeIsExact(body: seq<byte>, existing: nat, range: Range, r: Response)
    requires existing <= |body|
    requires range == if existing > 0 then From(existing) else Whole
    requires Honest(body, range, r) && r.Response? && Success(r.status)
    ensures var append := r.status == 206 && existing > 0;
            var total := ExtractTotalSize(r, append, if append then existing else 0);
            total.Some? ==> total.value == |body|
  {
  }

  function WorkerCount(config: Config, expected: nat): int {
    Max(2, Min(config.maxThreads, Max(2, expected / (8 * 1024 * 1024) + 1)))
  }

  /** One call, seen from outside: the destination before and after it. */
  datatype Call = Call(expected: Option<nat>, before: Option<seq<byte>>, outcome: Outcome, after: Option<seq<byte>>)

  function Contents(files: Files, name: LocalName): Option<seq<byte>> {
    if name in files then Some(files[name]) else None
  }

  predicate PrefixOrAbsent(contents: Option<seq<byte>>, body: seq<byte>) {
    contents.Some? ==> contents.value <= body
  }

  /** What a call that returns leaves: the whole body, or as much of it as was expected when the pool fetched it. */
  predicate Delivers(body: seq<byte>, call: Call) {
    call.outcome.Returned? ==>
      && call.after.Some? && call.outcome.size == |call.after.value|
      && if call.outcome.via.Parallel?
         then call.expected.Some? && call.expected.value <= |body| && call.after.value == body[..call.expected.value]
         else call.after.value == body
  }

  predicate CallKeeps(body: seq<byte>, call: Call) {
    PrefixOrAbsent(call.before, body) ==> PrefixOrAbsent(call.after, body) && Delivers(body, call)
  }

  function Latest(calls: seq<Call>): Option<seq<byte>> {
    if calls == [] then None else calls[|calls| - 1].after
  }

  /** Calls on one destination that did not exist at first, one after the other. */
  predicate Successive(body: seq<byte>, calls: seq<Call>) {
    calls != [] ==>
      var front, last := calls[..|calls| - 1], calls[|calls| - 1];
      CallKeeps(body, last) && last.before == Latest(front) && Successive(body, front)
  }

  /** Over any sequence of calls on one destination, each of which may have been aborted or killed anywhere,
      the destination is always a prefix of the body, every returning call delivers,
      and expecting more than there is never succeeds in parallel. */
  lemma {:induction false} CallsKeepPrefix(body: seq<byte>, calls: seq<Call>)
    requires Successive(body, calls)
    ensures PrefixOrAbsent(Latest(calls), body)
    ensures forall i | 0 <= i < |calls| :: PrefixOrAbsent(calls[i].after, body) && Delivers(body, calls[i])
    ensures forall i | 0 <= i < |calls| && calls[i].expected.Some? && calls[i].expected.value > |body| ::
              calls[i].outcome.Returned? ==> !calls[i].outcome.via.Parallel? && calls[i].after == Some(body)
    decreases |calls|
  {
    if calls != [] {
      var last := |calls| - 1;
      var front := calls[..last];
      CallsKeepPrefix(body, front);
      forall i | 0 <= i < |calls|
        ensures PrefixOrAbsent(calls[i].after, body) && Delivers(body, calls[i])
      {
        assert i < last ==> calls[i] == front[i];
      }
    }
  }

  /** Writing the response to the file, after `kept` bytes that were already there. */
  method StreamToFile(dir: WorkDir, dest: LocalName, file: nat, round: nat, kept: seq<byte>, r: Response,
                      total: Option<nat>, before: seq<Mark>)
    returns (outcome: Outcome, marks: seq<Mark>)
    requires r.Response? && Flatten(r.chunks) <= r.payload && (r.complete ==> Flatten(r.chunks) == r.payload)
    requires total.Some? ==> total.value == |kept| + |r.payload|
    requires Kept(before, file, round) && Open(before) == {} && Behind(before, round, total, 0)
    modifies dir`files
    ensures outcome.Returned? ==>
              dir.files == old(dir.files)[dest := kept + r.payload] && outcome == Returned(|kept + r.payload|, Stream)
    ensures WritesPrefix(old(dir.files), dir.files, dest, kept + r.payload)
    ensures Kept(marks, file, round) && Open(marks) == {} && StaysAlone(before, marks)
  {
    marks := before;
    var raised := false;
    if * { marks, raised := Report(marks, Emit(file, round, |kept|, total, false)); }
    if raised { return Raised, marks; }
    if * { return Raised, marks; }
    var stop;
    stop, marks := WriteChunks(dir, dest, file, round, kept, r, total, marks);
    if stop.Some? { return stop.value, marks; }
    if !r.complete { return Raised, marks; }
    if * { marks, raised := Report(marks, Emit(file, round, |dir.files[dest]|, total, true)); }
    if raised { return Raised, marks; }
    return Returned(|dir.files[dest]|, Stream), marks;
  }

  /** Opening the file, and the loop over the chunks that arrive. */
  method WriteChunks(dir: WorkDir, dest: LocalName, file: nat, round: nat, kept: seq<byte>, r: Response,
                     total: Option<nat>, before: seq<Mark>)
    returns (stop: Option<Outcome>, marks: seq<Mark>)
    requires r.Response? && Flatten(r.chunks) <= r.payload
    requires total.Some? ==> total.value == |kept| + |r.payload|
    requires Streamed(before, file, round, total, |kept|)
    modifies dir`files
    ensures stop == None || stop == Some(Killed) || stop == Some(Raised)
    ensures stop.None? ==> dir.files == old(dir.files)[dest := kept + Flatten(r.chunks)]
    ensures dest in dir.files && dir.files[dest] <= kept + r.payload
              && dir.files == old(dir.files)[dest := dir.files[dest]]
    ensures Streamed(marks, file, round, total, |kept| + |r.payload|) && StaysAlone(before, marks)
    ensures stop.None? ==> Streamed(marks, file, round, total, |kept| + |Flatten(r.chunks)|)
  {
    marks := before;
    var held := kept;
    dir.files := dir.files[dest := kept];
    assert r.chunks[..0] == [] && kept + Flatten([]) == kept;
    for i := 0 to |r.chunks|
      invariant held == kept + Flatten(r.chunks[..i]) && held <= kept + r.payload
      invariant dir.files == old(dir.files)[dest := held]
      invariant Streamed(marks, file, round, total, |held|) && StaysAlone(before, marks)
    {
      OneMoreChunk(kept, Flatten(r.chunks[..i]), r, i);
      if r.chunks[i] != [] {
        stop, marks := WriteChunk(dir, dest, file, round, |kept|, r.chunks[i], total, marks);
        Overwritten(old(dir.files), dest, held, dir.files[dest]);
        held := held + r.chunks[i];
        if stop.Some? { return; }
      }
    }
    assert r.chunks[..|r.chunks|] == r.chunks;
    stop := None;
  }

  /** The marks of a stream that has written `size` bytes in its round. */
  predicate Streamed(marks: seq<Mark>, file: nat, round: nat, total: Option<nat>, size: nat) {
    Kept(marks, file, round) && Open(marks) == {} && Behind(marks, round, total, size)
  }

  /** One chunk, after which the process may be killed, and the callback or the next read may raise. */
  method WriteChunk(dir: WorkDir, dest: LocalName, file: nat, round: nat, kept: nat, chunk: seq<byte>,
                    total: Option<nat>, before: seq<Mark>)
    returns (stop: Option<Outcome>, marks: seq<Mark>)
    requires dest in dir.files && kept <= |dir.files[dest]|
    requires total.Some? ==> |dir.files[dest]| + |chunk| <= total.value
    requires Streamed(before, file, round, total, |dir.files[dest]|)
    modifies dir`files
    ensures stop == None || stop == Some(Killed) || stop == Some(Raised)
    ensures stop != Some(Killed) ==> dir.files == old(dir.files)[dest := old(dir.files)[dest] + chunk]
    ensures dest in dir.files && dir.files[dest] <= old(dir.files)[dest] + chunk
    ensures dir.files == old(dir.files)[dest := dir.files[dest]]
    ensures Streamed(marks, file, round, total, |old(dir.files)[dest]| + |chunk|) && StaysAlone(before, marks)
  {
    marks := before;
    dir.files := dir.files[dest := dir.files[dest] + chunk];
    if * {
      var left := LosePending(dir, dest, kept);
      return Some(Killed), marks;
    }
    if * {
      var raised;
      marks, raised := Report(marks, Emit(file, round, |dir.files[dest]|, total, false));
      if raised { return Some(Raised), marks; }
    }
    if * { return Some(Raised), marks; }
    return None, marks;
  }

  /** What is left of a file after a call that found it, when the server honours its range: nothing of it is checked. */
  function Resumed(was: seq<byte>, body: seq<byte>): seq<byte> {
    if |was| < |body| then was + body[|was|..] else was
  }

  /** Resuming gives the body exactly when the file was a prefix of it. A synthetic ticket, written where a real one
      may later be fetched, need not be. */
  lemma ResumedIsBodyIff(was: seq<byte>, body: seq<byte>)
    ensures Resumed(was, body) == body <==> was <= body
  {
    if Resumed(was, body) == body && |was| < |body| {
      assert was == (was + body[|was|..])[..|was|];
    }
  }

  /** What a response adds up to with what it is appended to. */
  lemma ResumedPayload(body: seq<byte>, existing: nat, was: seq<byte>, range: Range, r: Response)
    requires |was| == existing && range == if existing > 0 then From(existing) else Whole
    requires Honest(body, range, r) && r.Response? && Success(r.status)
    ensures var append := r.status == 206 && existing > 0;
            var kept := if append then was else [];
            var total := ExtractTotalSize(r, append, |kept|);
            && (was <= body ==> kept + r.payload == body)
            && kept + r.payload == (if append then Resumed(was, body) else body)
            && (total.Some? ==> total.value == |kept| + |r.payload|)
  {
  }

  /** What a stream may make of the file. */
  predicate StreamLeaves(was: Option<seq<byte>>, now: Option<seq<byte>>, body: seq<byte>, existing: nat,
                         outcome: Outcome) {
    && (PrefixOrAbsent(was, body) ==> PrefixOrAbsent(now, body) && (outcome.Returned? ==> now == Some(body)))
    && (outcome.Returned? ==>
          && !outcome.via.Parallel? && now.Some? && |now.value| == outcome.size
          && (now.value == body || (existing > 0 && was.Some? && now.value == Resumed(was.value, body))))
  }

  lemma StreamedLeaves(f: Files, g: Files, dest: LocalName, body: seq<byte>, existing: nat, whole: seq<byte>,
                       outcome: Outcome)
    requires WritesPrefix(f, g, dest, whole)
    requires outcome.Returned? ==> g == f[dest := whole] && outcome == Returned(|whole|, Stream)
    requires PrefixOrAbsent(Contents(f, dest), body) ==> whole == body
    requires whole == body || (existing > 0 && dest in f && whole == Resumed(f[dest], body))
    ensures StreamLeaves(Contents(f, dest), Contents(g, dest), body, existing, outcome) && OnlyTouches(f, g, dest)
  {
  }

  /** A range past the end leaves the file as it was. */
  lemma UnsatisfiableLeaves(was: seq<byte>, body: seq<byte>)
    requires 0 < |was| && |body| <= |was|
    ensures StreamLeaves(Some(was), Some(was), body, |was|, Returned(|was|, Unsatisfiable))
    ensures StreamLeaves(Some(was), Some(was), body, |was|, Raised)
  {
    if was <= body { assert was == body; }
  }

  /** The single stream: from the start, or from where an earlier call stopped. */
  method SingleStream(dir: WorkDir, dest: LocalName, body: seq<byte>, file: nat, round: nat, existing: nat,
                      before: seq<Mark>)
    returns (outcome: Outcome, marks: seq<Mark>)
    requires existing > 0 ==> dest in dir.files && |dir.files[dest]| == existing
    requires Kept(before, file, round) && Open(before) == {} && NothingYet(before, round)
    modifies dir
    ensures StreamLeaves(Contents(old(dir.files), dest), Contents(dir.files, dest), body, existing, outcome)
    ensures OnlyTouches(old(dir.files), dir.files, dest)
    ensures Kept(marks, file, round) && Open(marks) == {} && StaysAlone(before, marks)
    ensures dir.tries == old(dir.tries) + 1
  {
    marks := before;
    var range := if existing > 0 then From(existing) else Whole;
    var response := Request(dir, body, range);
    if response.Unreachable? { return Raised, marks; }
    if response.status == 416 {
      var raised;
      UnsatisfiableLeaves(dir.files[dest], body);
      marks, raised := Report(marks, Emit(file, round, existing, Some(existing), true));
      return if raised then Raised else Returned(existing, Unsatisfiable), marks;
    }
    if !Success(response.status) { return Raised, marks; }
    outcome, marks := ReadStream(dir, dest, body, file, round, existing, range, response, marks);
  }

  /** Reading a successful response. */
  method ReadStream(dir: WorkDir, dest: LocalName, body: seq<byte>, file: nat, round: nat, existing: nat, range: Range,
                    response: Response, before: seq<Mark>)
    returns (outcome: Outcome, marks: seq<Mark>)
    requires existing > 0 ==> dest in dir.files && |dir.files[dest]| == existing
    requires range == if existing > 0 then From(existing) else Whole
    requires Honest(body, range, response) && response.Response? && Success(response.status)
    requires Kept(before, file, round) && Open(before) == {} && NothingYet(before, round)
    modifies dir`files
    ensures StreamLeaves(Contents(old(dir.files), dest), Contents(dir.files, dest), body, existing, outcome)
    ensures OnlyTouches(old(dir.files), dir.files, dest)
    ensures Kept(marks, file, round) && Open(marks) == {} && StaysAlone(before, marks)
  {
    ghost var was := dir.files;
    var append := response.status == 206 && existing > 0;
    var kept := if append then dir.files[dest] else [];
    var total := ExtractTotalSize(response, append, |kept|);
    ResumedPayload(body, existing, if existing > 0 then dir.files[dest] else [], range, response);
    outcome, marks := StreamToFile(dir, dest, file, round, kept, response, total, before);
    StreamedLeaves(was, dir.files, dest, body, existing, kept + response.payload, outcome);
  }

  /** Nothing has been claimed in this round. */
  predicate NothingYet(marks: seq<Mark>, round: nat) {
    forall m | m in marks && m.Enter? :: m.call.emit.round != round
  }

  /** How a call went: its pool, if it tried one, and whether it asked for a single stream. */
  datatype Trail = Trail(pool: Option<seq<Worker>>, streamed: bool) {
    /** The times the file has started over: retried attempts, and a stream after the pool. */
    function Restarts(): nat { if pool.Some? then PoolRetries(pool.value) + if streamed then 1 else 0 else 0 }

    /** The requests, sent or given up just before. */
    function Tries(): nat { (if pool.Some? then PoolTries(pool.value) else 0) + if streamed then 1 else 0 }

    /** The first round in which a callback only begins when none is open. */
    function AloneSince(): nat { if pool.Some? then PoolAloneSince(pool.value) else 0 }
  }

  /** Only the workers of a pool overlap. */
  function PoolAloneSince(pool: seq<Worker>): nat { if pool == [] then 0 else PoolRetries(pool) + 1 }

  /** When a call tries a pool first. */
  predicate TriesPool(config: Config, expected: Option<nat>, was: Option<seq<byte>>) {
    && (was.Some? ==> was.value == [])
    && expected.Some? && expected.value >= config.parallelMinBytes && config.maxThreads > 1
  }

  /** What a call's trail says is what it could have done. */
  predicate TrailOf(trail: Trail, config: Config, expected: Option<nat>, was: Option<seq<byte>>) {
    && (trail.pool.Some? <==> TriesPool(config, expected, was))
    && (trail.pool.None? ==> trail.streamed)
    && (trail.pool.Some? ==> PoolOfSize(trail.pool.value, expected.value, WorkerCount(config, expected.value)))
  }

  /** Trying the pool first: without a result, the call goes on with the single stream. */
  method TryPool(dir: WorkDir, dest: LocalName, body: seq<byte>, file: nat, size: nat, config: Config,
                 schedule: seq<nat>)
    returns (outcome: Option<Outcome>, marks: seq<Mark>, pool: seq<Worker>)
    requires dest in dir.files ==> dir.files[dest] == []
    modifies dir
    ensures outcome == None || outcome == Some(Killed) || outcome == Some(Returned(size, Parallel))
    ensures HoldsPrefix(dir.files, dest, body)
    ensures outcome.Some? && outcome.value.Returned? ==>
              size <= |body| && dest in dir.files && dir.files[dest] == body[..size]
    ensures PoolOfSize(pool, size, WorkerCount(config, size)) && dir.tries == old(dir.tries) + PoolTries(pool)
    ensures Kept(marks, file, PoolRetries(pool)) && (outcome != Some(Killed) ==> Open(marks) == {})
    ensures AloneFrom(marks, PoolAloneSince(pool))
    ensures OnlyTouches(old(dir.files), dir.files, dest)
  {
    var fetched;
    fetched, marks, pool := DownloadParallelRanges(dir, dest, body, file, size, WorkerCount(config, size), schedule);
    outcome := None;
    match fetched {
      case PoolKilled => outcome := Some(Killed);
      case Assembled(got) =>
        if got == size { outcome := Some(Returned(got, Parallel)); }
      case PoolFailed =>
        ghost var failed := dir.files;
        if * { dir.files := dir.files - {dest}; }
        assert OnlyTouches(failed, dir.files, dest);
        OnlyTouchesTransitive(old(dir.files), failed, dir.files, dest);
    }
  }

  /** The pool, when it is worth trying, and the new round that a stream after it is. */
  method PoolFirst(dir: WorkDir, dest: LocalName, body: seq<byte>, file: nat, expected: Option<nat>, config: Config,
                   schedule: seq<nat>)
    returns (early: Option<Outcome>, marks: seq<Mark>, pool: Option<seq<Worker>>)
    modifies dir
    ensures pool.None? ==> early.None? && dir.files == old(dir.files)
    ensures pool.Some? ==> HoldsPrefix(dir.files, dest, body)
    ensures early.Some? ==>
              CallKeeps(body, Call(expected, Contents(old(dir.files), dest), early.value, Contents(dir.files, dest)))
    ensures early.Some? ==> early.value.Killed? || (early.value.Returned? && early.value.via.Parallel?)
    ensures early.Some? && early.value.Returned? ==> dest in dir.files && |dir.files[dest]| == early.value.size
    ensures OnlyTouches(old(dir.files), dir.files, dest)
    ensures Kept(marks, file, Trail(pool, early.None?).Restarts()) && (early != Some(Killed) ==> Open(marks) == {})
    ensures early.None? ==> NothingYet(marks, Trail(pool, true).Restarts())
    ensures AloneFrom(marks, Trail(pool, early.None?).AloneSince())
    ensures TrailOf(Trail(pool, early.None?), config, expected, Contents(old(dir.files), dest))
    ensures dir.tries == old(dir.tries) + Trail(pool, false).Tries()
  {
    early, marks, pool := None, [], None;
    if TriesPool(config, expected, Contents(dir.files, dest)) {
      var workers;
      early, marks, workers := TryPool(dir, dest, body, file, expected.value, config, schedule);
      if early.None? { StartOver(marks, file, PoolRetries(workers), None); }
      pool := Some(workers);
    }
  }

  lemma StreamKeeps(body: seq<byte>, expected: Option<nat>, was: Option<seq<byte>>, start: Option<seq<byte>>,
                    outcome: Outcome, now: Option<seq<byte>>)
    requires PrefixOrAbsent(was, body) ==> PrefixOrAbsent(start, body)
    requires exists existing :: StreamLeaves(start, now, body, existing, outcome)
    ensures CallKeeps(body, Call(expected, was, outcome, now))
  {
  }

  method DownloadWithResume(dir: WorkDir, dest: LocalName, body: seq<byte>, file: nat, expected: Option<nat>,
                            config: Config, schedule: seq<nat>)
    returns (outcome: Outcome, marks: seq<Mark>, trail: Trail)
    modifies dir
    ensures CallKeeps(body, Call(expected, Contents(old(dir.files), dest), outcome, Contents(dir.files, dest)))
    ensures outcome.Returned? ==> dest in dir.files && |dir.files[dest]| == outcome.size
    ensures outcome.Returned? && !outcome.via.Parallel? ==>
              || dir.files[dest] == body
              || (dest in old(dir.files) && dir.files[dest] == Resumed(old(dir.files)[dest], body))
    ensures OnlyTouches(old(dir.files), dir.files, dest)
    ensures Kept(marks, file, trail.Restarts()) && (!outcome.Killed? ==> Open(marks) == {})
    ensures AloneFrom(marks, trail.AloneSince())
    ensures TrailOf(trail, config, expected, Contents(old(dir.files), dest))
    ensures dir.tries == old(dir.tries) + trail.Tries()
    ensures outcome.Returned? ==> (outcome.via.Parallel? <==> !trail.streamed)
  {
    ghost var was := Contents(dir.files, dest);
    var existing := if dest in dir.files then |dir.files[dest]| else 0;
    var early, pool;
    early, marks, pool := PoolFirst(dir, dest, body, file, expected, config, schedule);
    trail := Trail(pool, early.None?);
    if early.Some? { return early.value, marks, trail; }
    ghost var start := dir.files;
    outcome, marks := SingleStream(dir, dest, body, file, trail.Restarts(), existing, marks);
    OnlyTouchesTransitive(old(dir.files), start, dir.files, dest);
    StreamKeeps(body, expected, was, Contents(start, dest), outcome, Contents(dir.files, dest));
  }

  /** Calls on one destination that is not there at first, one after the other: between them, other files may change. */
  method DownloadRepeatedly(dir: WorkDir, dest: LocalName, body: seq<byte>, file: nat, attempts: seq<Option<nat>>,
                            config: Config)
    returns (calls: seq<Call>)
    requires dest !in dir.files
    modifies dir
    ensures |calls| == |attempts| && Successive(body, calls)
    ensures PrefixOrAbsent(Contents(dir.files, dest), body)
    ensures forall i | 0 <= i < |calls| ::
              calls[i].expected == attempts[i] && PrefixOrAbsent(calls[i].after, body) && Delivers(body, calls[i])
  {
    calls := [];
    for i := 0 to |attempts|
      invariant |calls| == i && Successive(body, calls)
      invariant Latest(calls) == Contents(dir.files, dest)
      invariant forall k | 0 <= k < i :: calls[k].expected == attempts[k]
    {
      var schedule: seq<nat> := *;
      var was := Contents(dir.files, dest);
      var outcome, marks, trail := DownloadWithResume(dir, dest, body, file, attempts[i], config, schedule);
      var call := Call(attempts[i], was, outcome, Contents(dir.files, dest));
      assert (calls + [call])[..i] == calls;
      calls := calls + [call];
    }
    CallsKeepPrefix(body, calls);
  }
}
