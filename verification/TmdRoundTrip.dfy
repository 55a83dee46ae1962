/** What an encoded metadata file parses back to, although the parser has to guess its layout. */
module TmdRoundTrip {
  import opened Bytes
  import opened Tmd

  /** A record as stored: the parser drops the two bytes of `kind`. */
  datatype RawRecord = RawRecord(id: nat, index: seq<byte>, kind: seq<byte>, size: nat, hash: seq<byte>)

  predicate WellSized(r: RawRecord, layout: Layout) {
    && r.id < Pow256(4) && |r.index| == 2 && |r.kind| == 2
    && r.size < Pow256(8) && |r.hash| == layout.HashSize()
  }

  predicate AllWellSized(rs: seq<RawRecord>, layout: Layout) {
    forall i | 0 <= i < |rs| :: WellSized(rs[i], layout)
  }

  function EncodeRecord(r: RawRecord, layout: Layout): (s: seq<byte>)
    requires WellSized(r, layout)
    ensures |s| == layout.Size()
  {
    ToBigEndian(r.id, 4) + r.index + r.kind + ToBigEndian(r.size, 8) + r.hash
  }

  function EncodeRecords(rs: seq<RawRecord>, layout: Layout): (s: seq<byte>)
    requires AllWellSized(rs, layout)
    ensures CONTENT_RECORDS_OFFSET + |s| == layout.Base(|rs|)
  {
    if rs == [] then []
    else EncodeRecords(rs[..|rs| - 1], layout) + EncodeRecord(rs[|rs| - 1], layout)
  }

  /** A header that announces `count` records. */
  predicate HeaderFor(header: seq<byte>, count: nat) {
    && |header| == CONTENT_RECORDS_OFFSET
    && header[CONTENT_COUNT_OFFSET..CONTENT_COUNT_OFFSET + 2] == ToBigEndian(count, 2)
  }

  function Encode(header: seq<byte>, rs: seq<RawRecord>, layout: Layout, trailing: seq<byte>): seq<byte>
    requires AllWellSized(rs, layout)
  {
    header + EncodeRecords(rs, layout) + trailing
  }

  function Content(r: RawRecord, layout: Layout): ContentRecord {
    ContentRecord(r.id, r.index, r.size, r.hash, if layout.Wide? then Sha256 else Sha1)
  }

  function Contents(rs: seq<RawRecord>, layout: Layout): seq<ContentRecord> {
    seq(|rs|, i requires 0 <= i < |rs| => Content(rs[i], layout))
  }

  /** Exactly the encoded records, in the encoded layout. */
  function Exact(rs: seq<RawRecord>, layout: Layout): Result<TmdInfo, TmdError> {
    Ok(TmdInfo(|rs|, Contents(rs, layout), layout))
  }

  // ---------- decoding at a known layout ----------

  lemma RecordDecodes(r: RawRecord, layout: Layout, before: seq<byte>, after: seq<byte>)
    requires WellSized(r, layout)
    ensures RecordAt(before + EncodeRecord(r, layout) + after, |before|, layout) == Content(r, layout)
  {
    var data, base := before + EncodeRecord(r, layout) + after, |before|;
    assert data[base..base + 4] == ToBigEndian(r.id, 4);
    assert data[base + 4..base + 6] == r.index;
    assert data[base + 8..base + 0x10] == ToBigEndian(r.size, 8);
    assert data[base + 0x10..base + layout.Size()] == r.hash;
    BigEndianRoundTrip(r.id, 4);
    BigEndianRoundTrip(r.size, 8);
  }

  /** The last record can be counted to what follows the records. */
  lemma EncodeLast(header: seq<byte>, rs: seq<RawRecord>, layout: Layout, trailing: seq<byte>)
    requires AllWellSized(rs, layout) && rs != []
    ensures var front, last := rs[..|rs| - 1], EncodeRecord(rs[|rs| - 1], layout);
            && Encode(header, rs, layout, trailing) == Encode(header, front, layout, last + trailing)
            && Encode(header, rs, layout, trailing) == (header + EncodeRecords(front, layout)) + last + trailing
  {
  }

  lemma {:induction false} RecordDecodesAt(header: seq<byte>, rs: seq<RawRecord>, layout: Layout, trailing: seq<byte>,
                                           i: nat)
    requires AllWellSized(rs, layout) && |header| == CONTENT_RECORDS_OFFSET && i < |rs|
    ensures layout.Base(i) + layout.Size() <= |Encode(header, rs, layout, trailing)|
    ensures RecordAt(Encode(header, rs, layout, trailing), layout.Base(i), layout) == Content(rs[i], layout)
    decreases |rs|
  {
    var last := |rs| - 1;
    var front, lastBytes := rs[..last], EncodeRecord(rs[last], layout);
    EncodeLast(header, rs, layout, trailing);
    if i == last {
      RecordDecodes(rs[last], layout, header + EncodeRecords(front, layout), trailing);
    } else {
      RecordDecodesAt(header, front, layout, lastBytes + trailing, i);
    }
  }

  lemma RecordsDecode(header: seq<byte>, rs: seq<RawRecord>, layout: Layout, trailing: seq<byte>)
    requires AllWellSized(rs, layout) && |rs| < Pow256(2) && HeaderFor(header, |rs|)
    ensures var data := Encode(header, rs, layout, trailing);
            && |data| >= CONTENT_COUNT_OFFSET + 2 && ContentCount(data) == |rs|
            && Fits(data, |rs|, layout)
            && RecordsOf(data, |rs|, layout) == Contents(rs, layout)
  {
    var data := Encode(header, rs, layout, trailing);
    assert data[CONTENT_COUNT_OFFSET..CONTENT_COUNT_OFFSET + 2] == ToBigEndian(|rs|, 2);
    BigEndianRoundTrip(|rs|, 2);
    forall i | 0 <= i < |rs|
      ensures RecordsOf(data, |rs|, layout)[i] == Content(rs[i], layout)
    {
      RecordDecodesAt(header, rs, layout, trailing, i);
    }
  }

  // ---------- score bounds ----------

  /** Record `position` looks as a real title's record does. */
  predicate Canonical(r: ContentRecord, position: nat) {
    && FromBigEndian(r.index) == position
    && 1 <= r.size <= MAX_REASONABLE_CONTENT_SIZE
    && r.contentId <= 0x00FFFFFF
  }

  predicate SampleCanonical(records: seq<ContentRecord>) {
    forall i | 0 <= i < SampleSize(|records|) :: Canonical(records[i], i)
  }

  lemma {:induction false} ScoreBounds(records: seq<ContentRecord>, k: nat)
    requires k <= |records|
    ensures -9 * k <= ScoreOfFirst(records, k) <= 7 * k
    ensures ScoreOfFirst(records, k) == 7 * k <==> forall i | 0 <= i < k :: Canonical(records[i], i)
  {
    if k > 0 { ScoreBounds(records, k - 1); }
  }

  /** Scores lie in [-9m, 7m] for m sampled records, and the top is reached by canonical samples only. */
  lemma ScoreIsMaximalIffCanonical(records: seq<ContentRecord>)
    ensures -9 * SampleSize(|records|) <= Score(records) <= 7 * SampleSize(|records|)
    ensures Score(records) == 7 * SampleSize(|records|) <==> SampleCanonical(records)
  {
    ScoreBounds(records, SampleSize(|records|));
  }

  // ---------- round trips ----------

  /** A canonical wide file parses back to its records, whatever its hashes and trailing bytes. */
  lemma WideRoundTrip(header: seq<byte>, rs: seq<RawRecord>, trailing: seq<byte>)
    requires AllWellSized(rs, Wide) && |rs| < Pow256(2) && HeaderFor(header, |rs|)
    requires SampleCanonical(Contents(rs, Wide))
    ensures Parsed(Encode(header, rs, Wide, trailing)) == Exact(rs, Wide)
  {
    var data := Encode(header, rs, Wide, trailing);
    RecordsDecode(header, rs, Wide, trailing);
    ScoreIsMaximalIffCanonical(RecordsOf(data, |rs|, Wide));
    if Fits(data, |rs|, Narrow) {
      ScoreIsMaximalIffCanonical(RecordsOf(data, |rs|, Narrow));
    }
  }

  /** A narrow file with arbitrary records and little after them cannot be read as wide. */
  lemma NarrowRoundTripWithoutRoom(header: seq<byte>, rs: seq<RawRecord>, trailing: seq<byte>)
    requires AllWellSized(rs, Narrow) && |rs| < Pow256(2) && HeaderFor(header, |rs|)
    requires |rs| >= 1 && |trailing| < 12 * |rs|
    ensures Parsed(Encode(header, rs, Narrow, trailing)) == Exact(rs, Narrow)
  {
    RecordsDecode(header, rs, Narrow, trailing);
  }

  /** Exactly when a canonical narrow file parses back: unless the wide reading has room and is canonical too. */
  lemma NarrowRoundTripIff(header: seq<byte>, rs: seq<RawRecord>, trailing: seq<byte>)
    requires AllWellSized(rs, Narrow) && 1 <= |rs| < Pow256(2) && HeaderFor(header, |rs|)
    requires SampleCanonical(Contents(rs, Narrow))
    ensures var data := Encode(header, rs, Narrow, trailing);
            Parsed(data) == Exact(rs, Narrow)
            <==> !(Fits(data, |rs|, Wide) && SampleCanonical(RecordsOf(data, |rs|, Wide)))
  {
    var data := Encode(header, rs, Narrow, trailing);
    RecordsDecode(header, rs, Narrow, trailing);
    ScoreIsMaximalIffCanonical(Contents(rs, Narrow));
    if Fits(data, |rs|, Wide) {
      ScoreIsMaximalIffCanonical(RecordsOf(data, |rs|, Wide));
    }
  }

  /** The second record of the wide reading starts inside the second narrow record. */
  lemma WideViewOfSecond(header: seq<byte>, rs: seq<RawRecord>, trailing: seq<byte>)
    requires AllWellSized(rs, Narrow) && 2 <= |rs| < Pow256(2) && HeaderFor(header, |rs|)
    requires Fits(Encode(header, rs, Narrow, trailing), |rs|, Wide)
    ensures var second := RecordsOf(Encode(header, rs, Narrow, trailing), |rs|, Wide)[1];
            && second.contentId == FromBigEndian(ToBigEndian(rs[1].size, 8)[4..])
            && second.index == rs[1].hash[..2]
            && second.size == FromBigEndian(rs[1].hash[4..12])
  {
    var data := Encode(header, rs, Narrow, trailing);
    SecondRecordBytes(header, rs, trailing);
    var r, base := rs[1], Narrow.Base(1);
    var bytes := EncodeRecord(r, Narrow);
    assert Wide.Base(1) == base + 0x0C;
    assert bytes[0x0C..0x10] == ToBigEndian(r.size, 8)[4..];
    assert bytes[0x10..0x12] == r.hash[..2];
    assert bytes[0x14..0x1C] == r.hash[4..12];
    SliceOfSlice(data, base, base + 0x24, 0x0C, 0x10);
    SliceOfSlice(data, base, base + 0x24, 0x10, 0x12);
    SliceOfSlice(data, base, base + 0x24, 0x14, 0x1C);
  }

  lemma SliceOfSlice(data: seq<byte>, lo: nat, hi: nat, from: nat, to: nat)
    requires lo <= hi <= |data| && from <= to <= hi - lo
    ensures data[lo..hi][from..to] == data[lo + from..lo + to]
  {
    var part := data[lo..hi];
    forall i | 0 <= i < to - from
      ensures part[from..to][i] == data[lo + from..lo + to][i]
    {
      assert part[from + i] == data[lo + from + i];
    }
  }

  lemma {:induction false} SecondRecordBytes(header: seq<byte>, rs: seq<RawRecord>, trailing: seq<byte>)
    requires AllWellSized(rs, Narrow) && 2 <= |rs| && |header| == CONTENT_RECORDS_OFFSET
    ensures var data := Encode(header, rs, Narrow, trailing);
            Narrow.Base(2) <= |data| && data[Narrow.Base(1)..Narrow.Base(2)] == EncodeRecord(rs[1], Narrow)
    decreases |rs|
  {
    var last := |rs| - 1;
    var front, lastBytes := rs[..last], EncodeRecord(rs[last], Narrow);
    EncodeLast(header, rs, Narrow, trailing);
    if last > 1 {
      SecondRecordBytes(header, front, lastBytes + trailing);
    }
  }

  /** A canonical narrow file of two or more records parses back unless its second hash begins with the bytes 00 01. */
  lemma NarrowRoundTripByHash(header: seq<byte>, rs: seq<RawRecord>, trailing: seq<byte>)
    requires AllWellSized(rs, Narrow) && 2 <= |rs| < Pow256(2) && HeaderFor(header, |rs|)
    requires SampleCanonical(Contents(rs, Narrow))
    requires rs[1].hash[..2] != [0, 1]
    ensures Parsed(Encode(header, rs, Narrow, trailing)) == Exact(rs, Narrow)
  {
    var data := Encode(header, rs, Narrow, trailing);
    NarrowRoundTripIff(header, rs, trailing);
    if Fits(data, |rs|, Wide) {
      WideViewOfSecond(header, rs, trailing);
      IndexOne(RecordsOf(data, |rs|, Wide)[1].index);
    }
  }

  lemma IndexOne(index: seq<byte>)
    requires |index| == 2
    ensures FromBigEndian(index) == 1 <==> index == [0, 1]
  {
    assert index[..1][..0] == [];
    assert FromBigEndian(index[..1]) == index[0];
  }

  /** What makes the second narrow record look canonical to the wide reading. */
  predicate SecondLooksWide(r: RawRecord)
    requires WellSized(r, Narrow)
  {
    && r.hash[..2] == [0, 1]
    && 1 <= FromBigEndian(r.hash[4..12]) <= MAX_REASONABLE_CONTENT_SIZE
    && FromBigEndian(ToBigEndian(r.size, 8)[4..]) <= 0x00FFFFFF
  }

  /** For two canonical narrow records, the misreading is decided by the second record's own fields. */
  lemma TwoNarrowRecordsIff(header: seq<byte>, rs: seq<RawRecord>, trailing: seq<byte>)
    requires AllWellSized(rs, Narrow) && |rs| == 2 && HeaderFor(header, 2)
    requires SampleCanonical(Contents(rs, Narrow))
    ensures Parsed(Encode(header, rs, Narrow, trailing)) == Exact(rs, Narrow)
            <==> !(|trailing| >= 24 && SecondLooksWide(rs[1]))
  {
    var data := Encode(header, rs, Narrow, trailing);
    NarrowRoundTripIff(header, rs, trailing);
    assert Fits(data, 2, Wide) <==> |trailing| >= 24;
    if Fits(data, 2, Wide) {
      var records := RecordsOf(data, 2, Wide);
      SecondCanonicalIff(header, rs, trailing);
      FirstRecordIsShared(header, rs, trailing);
      assert Contents(rs, Narrow)[0] == Content(rs[0], Narrow);
      SampleOfTwo(records);
    }
  }

  lemma SecondCanonicalIff(header: seq<byte>, rs: seq<RawRecord>, trailing: seq<byte>)
    requires AllWellSized(rs, Narrow) && |rs| == 2 && HeaderFor(header, 2)
    requires Fits(Encode(header, rs, Narrow, trailing), 2, Wide)
    ensures Canonical(RecordsOf(Encode(header, rs, Narrow, trailing), 2, Wide)[1], 1) <==> SecondLooksWide(rs[1])
  {
    WideViewOfSecond(header, rs, trailing);
    IndexOne(RecordsOf(Encode(header, rs, Narrow, trailing), 2, Wide)[1].index);
  }

  lemma SampleOfTwo(records: seq<ContentRecord>)
    requires |records| == 2
    ensures SampleCanonical(records) <==> Canonical(records[0], 0) && Canonical(records[1], 1)
  {
  }

  lemma FirstRecordIsShared(header: seq<byte>, rs: seq<RawRecord>, trailing: seq<byte>)
    requires AllWellSized(rs, Narrow) && 1 <= |rs| < Pow256(2) && HeaderFor(header, |rs|)
    requires Fits(Encode(header, rs, Narrow, trailing), |rs|, Wide)
    ensures var first := RecordsOf(Encode(header, rs, Narrow, trailing), |rs|, Wide)[0];
            && first.contentId == rs[0].id && first.index == rs[0].index && first.size == rs[0].size
  {
    RecordDecodesAt(header, rs, Narrow, trailing, 0);
  }

  /** A file of one canonical narrow record is misread exactly when twelve bytes follow it. */
  lemma OneNarrowRecordIff(header: seq<byte>, r: RawRecord, trailing: seq<byte>)
    requires WellSized(r, Narrow) && HeaderFor(header, 1)
    requires Canonical(Content(r, Narrow), 0)
    ensures Parsed(Encode(header, [r], Narrow, trailing)) == Exact([r], Narrow) <==> |trailing| < 12
  {
    NarrowRoundTripIff(header, [r], trailing);
    if Fits(Encode(header, [r], Narrow, trailing), 1, Wide) {
      FirstRecordIsShared(header, [r], trailing);
    }
  }

  function HeaderOfTwo(): (header: seq<byte>)
    ensures HeaderFor(header, 2)
  {
    Zeros(0x1DE) + ToBigEndian(2, 2) + Zeros(0x924)
  }

  /** A canonical narrow file that is misread: the condition on the second hash is not idle. */
  lemma NarrowMisread()
    ensures var rs := [Lookalike(0), Lookalike(1)];
            && AllWellSized(rs, Narrow)
            && SampleCanonical(Contents(rs, Narrow))
            && Parsed(Encode(HeaderOfTwo(), rs, Narrow, Zeros(24))) != Exact(rs, Narrow)
  {
    LookalikeLooksWide(0);
    LookalikeLooksWide(1);
    SampleOfTwo(Contents([Lookalike(0), Lookalike(1)], Narrow));
    TwoNarrowRecordsIff(HeaderOfTwo(), [Lookalike(0), Lookalike(1)], Zeros(24));
  }

  /** A one-byte content whose hash imitates an index and a size. */
  function Lookalike(position: nat): RawRecord
    requires position < 2
  {
    RawRecord(position, ToBigEndian(position, 2), Zeros(2), 1, [0, 1, 0, 0] + ToBigEndian(1, 8) + Zeros(8))
  }

  lemma LookalikeLooksWide(position: nat)
    requires position < 2
    ensures WellSized(Lookalike(position), Narrow) && SecondLooksWide(Lookalike(position))
    ensures Canonical(Content(Lookalike(position), Narrow), position)
  {
    var r := Lookalike(position);
    assert Pow256(4) > 1 && Pow256(8) > 1 && Pow256(2) > 1;
    BigEndianRoundTrip(position, 2);
    BigEndianRoundTrip(1, 8);
    assert r.hash[4..12] == ToBigEndian(1, 8) && r.hash[..2] == [0, 1];
    LowHalfOfOne();
  }

  lemma LowHalfOfOne()
    ensures FromBigEndian(ToBigEndian(1, 8)[4..]) == 1
  {
    var low: seq<byte> := ToBigEndian(1, 4);
    assert ToBigEndian(0, 4) == [0, 0, 0, 0];
    assert low == [0, 0, 0, 1];
    assert ToBigEndian(0, 7) == ToBigEndian(0, 4) + [0, 0, 0];
    assert ToBigEndian(1, 8)[4..] == low;
    BigEndianRoundTrip(1, 4);
  }
}
