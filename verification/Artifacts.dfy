/** What a download hands to the decryptor and the writer (core/services/download_service.py:27-47). */
module Artifacts {
  import opened Bytes
  import opened LocalStore
  import Queue
  import Tmd

  datatype Kind = TmdKind | TicketKind | ContentKind

  datatype Artifact = Artifact(
    kind: Kind, localPath: LocalName, relativePath: string, targetPath: string, size: nat, sha256: Queue.Digest)

  datatype DownloadResult = DownloadResult(
    titleId: string, artifacts: seq<Artifact>, tmdPresent: bool, ticketPresent: bool,
    tmdInfo: Option<Tmd.TmdInfo>, cetkBytes: Option<seq<byte>>, fakeTicket: bool)

  /** A hash function, of which nothing is assumed. */
  type Hash = seq<byte> -> Queue.Digest
}
