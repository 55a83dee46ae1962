/** A server that is honest about one fixed body, but may fail or break off at any time. */
module Server {
  import opened Bytes

  datatype Range = Whole | Between(first: nat, last: nat) | From(first: nat)

  /** A response: `chunks` are the pieces that arrive, `complete` tells whether the stream ended normally. */
  datatype Response =
    | Unreachable
    | Response(status: nat, payload: seq<byte>, chunks: seq<seq<byte>>, complete: bool,
               contentRangeTotal: Option<nat>, contentLength: Option<nat>)

  /** The part of `body` that a range selects (section 14 of RFC 9110). */
  function Selected(body: seq<byte>, range: Range): seq<byte>
    requires range.Whole? || range.first < |body|
    requires range.Between? ==> range.first <= range.last
  {
    match range
    case Whole => body
    case Between(first, last) => body[first..Min(last + 1, |body|)]
    case From(first) => body[first..]
  }

  predicate Success(status: nat) { 200 <= status < 300 }

  /** What the statuses 200, 206 and 416 and the length headers mean (sections 15.3.1, 15.3.7 and 15.5.17 of RFC
      9110). */
  predicate Honest(body: seq<byte>, range: Range, r: Response) {
    r.Response? ==>
      && Flatten(r.chunks) <= r.payload
      && (r.complete ==> Flatten(r.chunks) == r.payload)
      && (r.status == 200 ==> r.payload == body)
      && (r.status == 206 ==>
            && !range.Whole? && range.first < |body| && (range.Between? ==> range.first <= range.last)
            && r.payload == Selected(body, range))
      && (r.status == 416 ==> !range.Whole? && range.first >= |body|)
      && (Success(r.status) ==>
            && (r.status == 200 || r.status == 206)
            && (r.contentRangeTotal.Some? ==> r.status == 206 && r.contentRangeTotal.value == |body|)
            && (r.contentLength.Some? ==> r.contentLength.value == |r.payload|))
  }

  method Get(body: seq<byte>, range: Range) returns (r: Response)
    ensures Honest(body, range, r)
  {
    assert Honest(body, range, Unreachable);
    r :| Honest(body, range, r);
  }
}
