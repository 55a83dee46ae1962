/** Whether a download can be installed directly (core/services/install_analyzer.py). */
module Analyzer {
  import opened Bytes
  import opened Artifacts

  datatype Reason = TicketNotDetected | TmdNotParsed | ArtifactsTooLarge(count: nat, limit: int)

  datatype Analysis = Analysis(directPlayable: bool, requiresFallback: bool, reasons: seq<Reason>)

  predicate TooLarge(a: Artifact, limit: int) { a.size > limit }

  function Oversize(artifacts: seq<Artifact>, limit: int): seq<Artifact> {
    if artifacts == [] then []
    else Oversize(artifacts[..|artifacts| - 1], limit)
         + if TooLarge(artifacts[|artifacts| - 1], limit) then [artifacts[|artifacts| - 1]] else []
  }

  lemma {:induction false} OversizeEmptyIff(artifacts: seq<Artifact>, limit: int)
    ensures Oversize(artifacts, limit) == [] <==> forall a | a in artifacts :: !TooLarge(a, limit)
    decreases |artifacts|
  {
    if artifacts != [] {
      OversizeEmptyIff(artifacts[..|artifacts| - 1], limit);
      assert forall a :: a in artifacts <==> a in artifacts[..|artifacts| - 1] || a == artifacts[|artifacts| - 1];
    }
  }

  /** A ticket, a parsed TMD, and no artifact above the limit when there is one. */
  predicate DirectPlayable(result: DownloadResult, limit: int) {
    && result.ticketPresent && result.tmdInfo.Some?
    && (limit > 0 ==> forall a | a in result.artifacts :: !TooLarge(a, limit))
  }

  /** Whatever is not directly playable requires the fallback: there is no third outcome. */
  method Analyze(result: DownloadResult, maxDirectFileBytes: int) returns (r: Analysis)
    ensures r.directPlayable <==> DirectPlayable(result, maxDirectFileBytes)
    ensures r.requiresFallback <==> !r.directPlayable
  {
    var reasons: seq<Reason> := [];
    var requiresFallback := false;
    if !result.ticketPresent {
      reasons := reasons + [TicketNotDetected];
      requiresFallback := true;
    }
    if result.tmdInfo.None? {
      reasons := reasons + [TmdNotParsed];
      requiresFallback := true;
    }
    if maxDirectFileBytes > 0 {
      OversizeEmptyIff(result.artifacts, maxDirectFileBytes);
      var oversize := Oversize(result.artifacts, maxDirectFileBytes);
      if oversize != [] {
        reasons := reasons + [ArtifactsTooLarge(|oversize|, maxDirectFileBytes)];
        requiresFallback := true;
      }
    }
    return Analysis(|reasons| == 0, requiresFallback, reasons);
  }
}
