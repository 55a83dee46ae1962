/** The title metadata parser, which guesses between two record layouts (core/nus/tmd.py). */
module Tmd {
  import opened Bytes

  const CONTENT_COUNT_OFFSET := 0x1DE
  const CONTENT_RECORDS_OFFSET := 0xB04
  const MAX_REASONABLE_CONTENT_SIZE := 256 * 1024 * 1024 * 1024

  /** A record is 0x30 bytes with a SHA-256 hash, or 0x24 bytes with a SHA-1 hash. */
  datatype Layout = Wide | Narrow {
    function Size(): nat { if Wide? then 0x30 else 0x24 }
    function HashSize(): nat { Size() - 0x10 }

    /** The offset of record `i`. */
    function Base(i: nat): nat {
      if Wide? then CONTENT_RECORDS_OFFSET + i * 0x30 else CONTENT_RECORDS_OFFSET + i * 0x24
    }
  }

  datatype HashAlgo = Sha1 | Sha256

  datatype ContentRecord = ContentRecord(
    contentId: nat, index: seq<byte>, size: nat, contentHash: seq<byte>, hashAlgo: HashAlgo)

  datatype TmdInfo = TmdInfo(contentCount: nat, contents: seq<ContentRecord>, layout: Layout)

  datatype TmdError = HeaderTooSmall | RecordsTruncated

  // ---------- parsing, as a view of the bytes ----------

  function RecordAt(data: seq<byte>, base: nat, layout: Layout): (r: ContentRecord)
    requires base + layout.Size() <= |data|
    ensures |r.index| == 2
  {
    ContentRecord(
      FromBigEndian(data[base..base + 4]),
      data[base + 4..base + 6],
      FromBigEndian(data[base + 8..base + 0x10]),
      data[base + 0x10..base + layout.Size()],
      if layout.Wide? then Sha256 else Sha1)
  }

  predicate Fits(data: seq<byte>, count: nat, layout: Layout) {
    layout.Base(count) <= |data|
  }

  function RecordsOf(data: seq<byte>, count: nat, layout: Layout): (records: seq<ContentRecord>)
    requires Fits(data, count, layout)
    ensures |records| == count
  {
    seq(count, i requires 0 <= i < count => RecordAt(data, layout.Base(i), layout))
  }

  function IndexScore(index: nat, position: nat, count: nat): int {
    if index == position then 4 else if index < count + 16 then 1 else -3
  }

  function SizeScore(size: nat): int {
    if size == 0 then 1 else if size <= MAX_REASONABLE_CONTENT_SIZE then 2 else -5
  }

  function IdScore(id: nat): int {
    if id <= 0x00FFFFFF then 1 else -1
  }

  function RecordScore(r: ContentRecord, position: nat, count: nat): int {
    IndexScore(FromBigEndian(r.index), position, count) + SizeScore(r.size) + IdScore(r.contentId)
  }

  function SampleSize(count: nat): nat { if count < 12 then count else 12 }

  /** The plausibility of the first `k` records. */
  function ScoreOfFirst(records: seq<ContentRecord>, k: nat): int
    requires k <= |records|
  {
    if k == 0 then 0 else ScoreOfFirst(records, k - 1) + RecordScore(records[k - 1], k - 1, |records|)
  }

  function Score(records: seq<ContentRecord>): int {
    ScoreOfFirst(records, SampleSize(|records|))
  }

  function ContentCount(data: seq<byte>): nat
    requires |data| >= CONTENT_COUNT_OFFSET + 2
  {
    FromBigEndian(data[CONTENT_COUNT_OFFSET..CONTENT_COUNT_OFFSET + 2])
  }

  /** The wide reading is taken when the data is long enough for it and it scores at least as well. */
  predicate ReadsWide(data: seq<byte>, count: nat) {
    && Fits(data, count, Wide)
    && (Fits(data, count, Narrow) ==> Score(RecordsOf(data, count, Wide)) >= Score(RecordsOf(data, count, Narrow)))
  }

  function Parsed(data: seq<byte>): Result<TmdInfo, TmdError> {
    if |data| < CONTENT_COUNT_OFFSET + 2 then Err(HeaderTooSmall)
    else
      var count := ContentCount(data);
      if ReadsWide(data, count) then Ok(TmdInfo(count, RecordsOf(data, count, Wide), Wide))
      else if Fits(data, count, Narrow) then Ok(TmdInfo(count, RecordsOf(data, count, Narrow), Narrow))
      else Err(RecordsTruncated)
  }

  // ---------- parsing, as the loops of the source ----------

  method ParseRecords(data: seq<byte>, count: nat, layout: Layout) returns (contents: seq<ContentRecord>)
    requires Fits(data, count, layout)
    ensures contents == RecordsOf(data, count, layout)
  {
    contents := [];
    for i := 0 to count
      invariant |contents| == i
      invariant forall j | 0 <= j < i :: contents[j] == RecordAt(data, layout.Base(j), layout)
    {
      contents := contents + [RecordAt(data, layout.Base(i), layout)];
    }
  }

  method ScoreRecords(contents: seq<ContentRecord>) returns (score: int)
    ensures score == Score(contents)
  {
    if contents == [] { return 0; }
    score := 0;
    var sample := contents[..SampleSize(|contents|)];
    for idx := 0 to |sample|
      invariant score == ScoreOfFirst(contents, idx)
    {
      var record := sample[idx];
      var indexValue := FromBigEndian(record.index);
      if indexValue == idx {
        score := score + 4;
      } else if indexValue < |contents| + 16 {
        score := score + 1;
      } else {
        score := score - 3;
      }
      if record.size == 0 {
        score := score + 1;
      } else if record.size <= MAX_REASONABLE_CONTENT_SIZE {
        score := score + 2;
      } else {
        score := score - 5;
      }
      if record.contentId <= 0x00FFFFFF {
        score := score + 1;
      } else {
        score := score - 1;
      }
    }
  }

  datatype Candidate = Candidate(score: int, layout: Layout, records: seq<ContentRecord>)

  /** The sort key order: by score, then by record size. */
  predicate Before(a: Candidate, b: Candidate) {
    a.score < b.score || (a.score == b.score && a.layout.Size() < b.layout.Size())
  }

  function CandidatesIn(data: seq<byte>, count: nat, layouts: seq<Layout>): seq<Candidate> {
    if layouts == [] then []
    else
      var last := layouts[|layouts| - 1];
      var earlier := CandidatesIn(data, count, layouts[..|layouts| - 1]);
      if !Fits(data, count, last) then earlier
      else
        var records := RecordsOf(data, count, last);
        earlier + [Candidate(Score(records), last, records)]
  }

  method Parse(data: seq<byte>) returns (r: Result<TmdInfo, TmdError>)
    ensures r == Parsed(data)
  {
    if |data| < CONTENT_COUNT_OFFSET + 2 { return Err(HeaderTooSmall); }
    var count := ContentCount(data);
    var candidates: seq<Candidate> := [];
    var layouts := [Wide, Narrow];
    for i := 0 to |layouts|
      invariant candidates == CandidatesIn(data, count, layouts[..i])
    {
      var layout := layouts[i];
      assert layouts[..i + 1][..i] == layouts[..i];
      if Fits(data, count, layout) {
        var records := ParseRecords(data, count, layout);
        var score := ScoreRecords(records);
        candidates := candidates + [Candidate(score, layout, records)];
      }
    }
    assert layouts[..2] == layouts && layouts[..1] == [Wide];
    assert [Wide][..0] == [];
    if candidates == [] { return Err(RecordsTruncated); }
    if |candidates| == 2 && Before(candidates[0], candidates[1]) {
      candidates := [candidates[1], candidates[0]];
    }
    return Ok(TmdInfo(count, candidates[0].records, candidates[0].layout));
  }
}
