/** The progress bands of a download (core/services/download_service.py:480-522, 624-628;
    apps/worker/runner.py:104-114). */
module Progress {
  import opened Bytes
  import opened Callbacks
  import Queue

  /** The part of the overall progress that one file fills. */
  datatype Band = Band(start: real, span: real) {
    function End(): real { start + span }
  }

  const TMD_BAND := Band(0.0, 0.05)
  const TICKET_BAND := Band(0.05, 0.05)

  function ContentBand(index: nat, total: nat): Band
    requires index < total
  {
    Band(0.10 + 0.90 * index as real / total as real, 0.90 / total as real)
  }

  /** The bands of a job, in the order in which its files are fetched. */
  function BandOf(file: nat, contents: nat): Band
    requires file < contents + 2
  {
    if file == 0 then TMD_BAND else if file == 1 then TICKET_BAND else ContentBand(file - 2, contents)
  }

  function FileProgress(e: Emit): (p: real)
    ensures 0.0 <= p <= 1.0
  {
    if e.total.Some? && e.total.value > 0 then Queue.Clamp(e.downloaded as real / e.total.value as real)
    else if e.done then 1.0
    else 0.0
  }

  function Portion(span: real, p: real): real { span * p }

  /** How far the overall progress is when the file is at `p`. */
  function Fill(band: Band, p: real): real { Queue.Clamp(band.start + Portion(band.span, p)) }

  function Overall(band: Band, e: Emit): real { Fill(band, FileProgress(e)) }

  /** What the queue row is told while downloading. */
  function QueueProgress(overall: real): real { 0.1 + Queue.Clamp(overall) * 0.25 }

  /** Every DOWNLOADING value lies in [0.1, 0.35], as the 0.1 before and the 0.35 after the download do. */
  lemma QueueProgressBounds(overall: real)
    ensures 0.1 <= QueueProgress(overall) <= 0.35
    ensures QueueProgress(0.0) == 0.1 && QueueProgress(1.0) == 0.35
  {
  }

  /** What the row is told grows with the overall progress. */
  lemma QueueProgressGrows(x: real, y: real)
    requires 0.0 <= x <= 1.0 && 0.0 <= y <= 1.0
    ensures QueueProgress(x) < QueueProgress(y) <==> x < y
  {
  }

  lemma Quotients(index: nat, total: nat)
    requires index < total
    ensures 0.0 <= 0.90 * index as real / total as real
    ensures 0.0 < 0.90 / total as real <= 0.90
    ensures 0.90 * (index + 1) as real / total as real == 0.90 * index as real / total as real + 0.90 / total as real
    ensures index + 1 == total ==> 0.90 * (index + 1) as real / total as real == 0.90
  {
    var i, n := index as real, total as real;
    assert 0.90 * (i + 1.0) / n == (0.90 * i + 0.90) / n;
    assert 0.90 / n <= 0.90 by { assert n >= 1.0; assert 0.90 * n >= 0.90; }
  }

  /** The bands tile [0, 1]. */
  lemma BandsTile(file: nat, contents: nat)
    requires contents > 0 && file < contents + 2
    ensures BandOf(0, contents).start == 0.0
    ensures BandOf(file, contents).span > 0.0
    ensures file + 1 < contents + 2 ==> BandOf(file, contents).End() == BandOf(file + 1, contents).start
    ensures file + 1 == contents + 2 ==> BandOf(file, contents).End() == 1.0
  {
    if file >= 2 { Quotients(file - 2, contents); }
    if file == 1 { assert 0.90 * 0.0 / contents as real == 0.0; }
  }

  lemma {:induction false} BandsGrow(a: nat, b: nat, contents: nat)
    requires contents > 0 && a < b < contents + 2
    ensures BandOf(a, contents).End() <= BandOf(b, contents).start
    decreases b
  {
    BandsTile(b - 1, contents);
    if a < b - 1 { BandsGrow(a, b - 1, contents); }
  }

  lemma {:induction false} BandsStartAtZero(file: nat, contents: nat)
    requires contents > 0 && file < contents + 2
    ensures 0.0 <= BandOf(file, contents).start && BandOf(file, contents).End() <= 1.0
  {
    BandsTile(file, contents);
    if file > 0 {
      BandsGrow(0, file, contents);
      BandsTile(0, contents);
    }
    if file + 1 < contents + 2 {
      BandsTile(contents + 1, contents);
      BandsGrow(file, contents + 1, contents);
    }
  }

  lemma Scale(span: real, p: real, q: real)
    requires span > 0.0 && 0.0 <= p <= q <= 1.0
    ensures 0.0 <= Portion(span, p) <= Portion(span, q) <= span
    ensures q == 1.0 ==> Portion(span, q) == span
  {
  }

  predicate Proper(band: Band) {
    0.0 <= band.start && band.span > 0.0 && band.End() <= 1.0
  }

  lemma BandsProper(file: nat, contents: nat)
    requires contents > 0 && file < contents + 2
    ensures Proper(BandOf(file, contents))
  {
    BandsStartAtZero(file, contents);
    BandsTile(file, contents);
  }

  /** Inside a proper band nothing is clamped, and more of the file is more of the whole. */
  lemma FillGrows(band: Band, p: real, q: real)
    requires Proper(band) && 0.0 <= p <= q <= 1.0
    ensures band.start <= Fill(band, p) <= Fill(band, q) <= band.End()
    ensures q == 1.0 ==> Fill(band, q) == band.End()
  {
    Scale(band.span, p, q);
    Unclamped(band.start, band.span, Portion(band.span, p));
    Unclamped(band.start, band.span, Portion(band.span, q));
  }

  lemma Unclamped(start: real, span: real, part: real)
    requires 0.0 <= start && start + span <= 1.0 && 0.0 <= part <= span
    ensures Queue.Clamp(start + part) == start + part
  {
  }

  lemma DoneIsWhole(e: Emit)
    requires Plausible(e) && e.done
    ensures FileProgress(e) == 1.0
  {
    if e.total.Some? && e.total.value > 0 {
      assert e.downloaded as real / e.total.value as real == 1.0;
    }
  }

  /** Every emission of every file stays inside the file's band, and a done one reaches its end. */
  lemma StaysInBand(file: nat, contents: nat, e: Emit)
    requires contents > 0 && file < contents + 2
    ensures var band := BandOf(file, contents);
            && 0.0 <= band.start <= Overall(band, e) <= band.End() <= 1.0
            && (Plausible(e) && e.done ==> Overall(band, e) == band.End())
  {
    BandsProper(file, contents);
    FillGrows(BandOf(file, contents), FileProgress(e), FileProgress(e));
    if Plausible(e) && e.done { DoneIsWhole(e); }
  }

  function JobProgress(e: Emit, contents: nat): real
    requires e.file < contents + 2
  {
    Overall(BandOf(e.file, contents), e)
  }

  lemma FileProgressGrows(a: Emit, b: Emit)
    requires Continues(a, b)
    ensures FileProgress(a) <= FileProgress(b)
  {
    if a.total.Some? && a.total.value > 0 {
      DivideGrows(a.downloaded as real, b.downloaded as real, a.total.value as real);
    }
  }

  lemma DivideGrows(x: real, y: real, n: real)
    requires x <= y && n > 0.0
    ensures x / n <= y / n
  {
  }

  lemma LaterBandGrows(first: Band, second: Band, a: Emit, b: Emit)
    requires Proper(first) && Proper(second) && first.End() <= second.start
    ensures Overall(first, a) <= Overall(second, b)
  {
    FillGrows(first, FileProgress(a), FileProgress(a));
    FillGrows(second, FileProgress(b), FileProgress(b));
  }

  lemma FillGrowsStrictly(band: Band, p: real, q: real)
    requires Proper(band) && 0.0 <= p < q <= 1.0
    ensures Fill(band, p) < Fill(band, q)
  {
    Scale(band.span, p, q);
    ScaleStrictly(band.span, p, q);
    Unclamped(band.start, band.span, Portion(band.span, p));
    Unclamped(band.start, band.span, Portion(band.span, q));
  }

  lemma ScaleStrictly(span: real, p: real, q: real)
    requires span > 0.0 && p < q
    ensures Portion(span, p) < Portion(span, q)
  {
  }

  /** Of two emissions in the order of their files, the later is less of the whole exactly when it is less of the same
      file. */
  lemma JobProgressFallsIff(a: Emit, b: Emit, contents: nat)
    requires contents > 0 && a.file <= b.file < contents + 2
    ensures JobProgress(b, contents) < JobProgress(a, contents) <==>
              a.file == b.file && FileProgress(b) < FileProgress(a)
  {
    var x, y := BandOf(a.file, contents), BandOf(b.file, contents);
    BandsProper(a.file, contents);
    BandsProper(b.file, contents);
    if a.file < b.file {
      BandsGrow(a.file, b.file, contents);
      LaterBandGrows(x, y, a, b);
    } else if FileProgress(b) < FileProgress(a) {
      FillGrowsStrictly(x, FileProgress(b), FileProgress(a));
    } else {
      FillGrows(x, FileProgress(a), FileProgress(b));
    }
  }

  lemma DivideGrowsStrictly(x: real, y: real, n: real)
    requires x < y && n > 0.0
    ensures x / n < y / n
  {
  }

  lemma FractionWithin(x: real, n: real)
    requires 0.0 <= x <= n && n > 0.0
    ensures 0.0 <= x / n <= 1.0
  {
  }

  /** Of a file of known size, less progress is fewer bytes. */
  lemma FileProgressIsBytes(a: Emit, b: Emit)
    requires Plausible(a) && Plausible(b) && a.total == b.total && a.total.Some? && a.total.value > 0
    ensures FileProgress(b) < FileProgress(a) <==> b.downloaded < a.downloaded
  {
    var n := a.total.value as real;
    FractionWithin(a.downloaded as real, n);
    FractionWithin(b.downloaded as real, n);
    if b.downloaded < a.downloaded {
      DivideGrowsStrictly(b.downloaded as real, a.downloaded as real, n);
    } else {
      DivideGrows(a.downloaded as real, b.downloaded as real, n);
    }
  }

  /** A job's progress, as it is computed, never decreases, except where a file starts over inside its own band. */
  lemma JobProgressGrows(marks: seq<Mark>, contents: nat, i: nat, j: nat)
    requires contents > 0 && InFileOrder(marks, contents + 1)
    requires i < j < |marks| && marks[i].Enter? && marks[j].Enter?
    requires marks[i].call.emit.file == marks[j].call.emit.file ==> marks[i].call.emit.round == marks[j].call.emit.round
    ensures JobProgress(marks[i].call.emit, contents) <= JobProgress(marks[j].call.emit, contents)
  {
    var a, b := marks[i].call.emit, marks[j].call.emit;
    assert Ordered(marks[i].call, marks[j].call);
    JobProgressFallsIff(a, b, contents);
    if a.file == b.file { FileProgressGrows(a, b); }
  }

  /** Exactly when a later row update is told less than an earlier one: it is of the same file, of which it claims less,
      and either its callback began before that of the earlier one, which has overtaken it, or the file has started over
      between. */
  lemma RowFallsIff(marks: seq<Mark>, contents: nat, i: nat, j: nat)
    requires contents > 0 && InFileOrder(marks, contents + 1)
    requires i < j < |marks| && marks[i].Row? && marks[j].Row?
    ensures var a, b := marks[i].call, marks[j].call;
            && (JobProgress(b.emit, contents) < JobProgress(a.emit, contents) <==>
                  && a.emit.file == b.emit.file && FileProgress(b.emit) < FileProgress(a.emit)
                  && (Overtaken(b, a) || a.emit.round < b.emit.round))
            && (a.emit.round == b.emit.round && a.emit.total.Some? && a.emit.total.value > 0 ==>
                  (JobProgress(b.emit, contents) < JobProgress(a.emit, contents) <==>
                     Overtaken(b, a) && b.emit.downloaded < a.emit.downloaded))
  {
    var a, b := marks[i].call, marks[j].call;
    assert marks[i] in marks && marks[j] in marks;
    RowsFollowCallbacks(marks, contents + 1, i, j);
    JobProgressFallsIff(a.emit, b.emit, contents);
    if a.emit.file == b.emit.file && a.emit.round == b.emit.round {
      if !Overtaken(b, a) { FileProgressGrows(a.emit, b.emit); }
      if a.emit.total.Some? && a.emit.total.value > 0 { FileProgressIsBytes(a.emit, b.emit); }
    } else if a.emit.file == b.emit.file && b.emit.round < a.emit.round {
      assert Overtaken(b, a);
    }
  }
}
