/** From encrypted contents in the work directory to plaintexts on the disk: what an install that ends done has
    achieved. */
module Installation {
  import opened Bytes
  import opened LocalStore
  import opened Artifacts
  import opened AppDecryptor
  import opened TitleDownload
  import opened WfsPath
  import opened FlatFs
  import opened AdapterSpec
  import opened Store
  import Cbc
  import Hex
  import TitleData = Tmd
  import Writer

  // ---------- decryption ----------

  /** The first record whose hexadecimal id is the file's stem. Only .app files have such a stem: the
      compatibility file's is not eight digits long. */
  function FindRecord(contents: seq<TitleData.ContentRecord>, hex: string): Option<TitleData.ContentRecord> {
    if contents == [] then None
    else if ContentHex(contents[0]) == hex then Some(contents[0])
    else FindRecord(contents[1..], hex)
  }

  lemma {:induction false} FindsOwnRecord(contents: seq<TitleData.ContentRecord>, i: nat)
    requires DistinctNames(contents) && i < |contents|
    ensures FindRecord(contents, ContentHex(contents[i])) == Some(contents[i])
    decreases |contents|
  {
    if i > 0 { FindsOwnRecord(contents[1..], i - 1); }
  }

  /** The record by which an artifact is decrypted, if it is. */
  function RecordFor(contents: seq<TitleData.ContentRecord>, a: Artifact): Option<TitleData.ContentRecord> {
    if a.kind.ContentKind? && a.localPath.App? then FindRecord(contents, a.localPath.id) else None
  }

  /** A ciphertext that decrypt_app accepts. */
  predicate Decryptable(files: Files, name: LocalName, r: TitleData.ContentRecord) {
    name in files && |files[name]| % 16 == 0 && |r.index| == 2
  }

  /** The decrypted content, cut to the size in its record. */
  function PlainOf(cipher: Cbc.BlockCipher, key: Cbc.Block, files: Files, name: LocalName,
                   r: TitleData.ContentRecord): seq<byte>
    requires Decryptable(files, name, r)
  {
    Truncated(Cbc.Decrypt(cipher, key, ContentIv(r.index), files[name]), r.size)
  }

  /** What the decryption of one artifact leaves, where `was` are the files before any was decrypted. */
  predicate Decrypted(cipher: Cbc.BlockCipher, key: Cbc.Block, contents: seq<TitleData.ContentRecord>, was: Files,
                      files: Files, a: Artifact, out: Artifact, sha: Hash)
  {
    var r := RecordFor(contents, a);
    if r.None? then out == a
    else
      && Decryptable(was, a.localPath, r.value)
      && Dec(a.localPath.id) in files
      && files[Dec(a.localPath.id)] == PlainOf(cipher, key, was, a.localPath, r.value)
      && out == a.(localPath := Dec(a.localPath.id), size := |files[Dec(a.localPath.id)]|,
                   sha256 := sha(files[Dec(a.localPath.id)]))
  }

  predicate FirstDecrypted(cipher: Cbc.BlockCipher, key: Cbc.Block, contents: seq<TitleData.ContentRecord>, was: Files,
                           files: Files, artifacts: seq<Artifact>, outs: seq<Artifact>, n: nat, sha: Hash)
  {
    n <= |artifacts| && n <= |outs|
    && forall i | 0 <= i < n :: Decrypted(cipher, key, contents, was, files, artifacts[i], outs[i], sha)
  }

  /** Decryption writes nothing but decrypted files. */
  ghost predicate OnlyDecrypts(f: Files, g: Files) {
    forall name: LocalName | !name.Dec? :: SameFile(f, g, name)
  }

  /** One more file decrypted leaves the earlier ones as they were, even when two artifacts share a file. */
  lemma OneMoreDecrypted(cipher: Cbc.BlockCipher, key: Cbc.Block, contents: seq<TitleData.ContentRecord>, was: Files,
                         f: Files, g: Files, artifacts: seq<Artifact>, outs: seq<Artifact>, i: nat, out: Artifact,
                         sha: Hash)
    requires FirstDecrypted(cipher, key, contents, was, f, artifacts, outs, i, sha) && |outs| == i < |artifacts|
    requires Decrypted(cipher, key, contents, was, g, artifacts[i], out, sha)
    requires forall name: LocalName :: SameFile(f, g, name)
               || (RecordFor(contents, artifacts[i]).Some? && name == Dec(artifacts[i].localPath.id))
    ensures FirstDecrypted(cipher, key, contents, was, g, artifacts, outs + [out], i + 1, sha)
  {
    forall j | 0 <= j < i ensures Decrypted(cipher, key, contents, was, g, artifacts[j], outs[j], sha) {
      var a := artifacts[j];
      assert Decrypted(cipher, key, contents, was, f, a, outs[j], sha);
      if RecordFor(contents, a).Some? {
        assert SameFile(f, g, Dec(a.localPath.id));
      }
    }
  }

  // ---------- plaintexts ----------

  /** Every content on the server is the encryption of its plaintext, whole blocks, under the title key and the
      content's index. */
  ghost predicate ServesEncrypted(cipher: Cbc.BlockCipher, key: Cbc.Block, bodies: Bodies,
                                  contents: seq<TitleData.ContentRecord>, plain: string -> seq<byte>)
  {
    forall i | 0 <= i < |contents| ::
      var r, p := contents[i], plain(ContentHex(contents[i]));
      |r.index| == 2 && |p| % 16 == 0 && bodies(App(ContentHex(r))) == Cbc.Encrypt(cipher, key, ContentIv(r.index), p)
  }

  /** What is to be installed of a content: its plaintext, as far as the TMD says it goes. */
  function Wanted(r: TitleData.ContentRecord, plain: string -> seq<byte>): seq<byte> {
    Truncated(plain(ContentHex(r)), r.size)
  }

  /** However a content was fetched, whole or cut off at its record's size, what can be decrypted at all decrypts to
      what is wanted. */
  lemma DecryptsToWanted(cipher: Cbc.BlockCipher, key: Cbc.Block, body: seq<byte>, r: TitleData.ContentRecord,
                         p: seq<byte>, file: seq<byte>)
    requires Cbc.Inverts(cipher) && |r.index| == 2 && |p| % 16 == 0
    requires body == Cbc.Encrypt(cipher, key, ContentIv(r.index), p)
    requires file == body || (r.size <= |body| && file == body[..r.size])
    requires |file| % 16 == 0
    ensures Truncated(Cbc.Decrypt(cipher, key, ContentIv(r.index), file), r.size) == Truncated(p, r.size)
  {
    if file == body {
      Cbc.DecryptUndoesEncrypt(cipher, key, ContentIv(r.index), p);
    } else {
      CutCiphertextDecrypts(cipher, key, ContentIv(r.index), p, r.size);
    }
  }

  // ---------- targets ----------

  /** The last component of an accepted path text is what follows its last slash. */
  lemma LeafOfTarget(backend: Backend, front: string, name: string)
    requires front != "" && front[0] == '/' && IsName(name) && !Hex.IsWhitespace(name[|name| - 1])
    requires Target(backend, front + "/" + name, true).Ok?
    ensures var parts := Target(backend, front + "/" + name, true).value; parts != [] && parts[|parts| - 1] == name
  {
    var path := front + "/" + name;
    PartsOfSnoc(front, name);
    assert path[0] == '/' && path[|path| - 1] == name[|name| - 1];
    if backend.Simulated? {
      assert Hex.Strip(path) == path;
      LastIsNoDot(PartsOf(front), name);
    }
  }

  lemma {:induction false} PartsOfSnoc(front: string, name: string)
    requires '/' !in name && name != ""
    ensures PartsOf(front + "/" + name) == PartsOf(front) + [name]
    decreases |front|
  {
    var s := front + "/" + name;
    if front == "" {
      assert s == "/" + name + "";
      PartsOfCons(name, "");
      assert PartsOf("") == [];
    } else if front[0] == '/' {
      assert s[1..] == front[1..] + "/" + name;
      PartsOfSnoc(front[1..], name);
    } else {
      var part := FirstPart(front);
      FirstPartIgnoresRest(front, "/" + name);
      assert s == front + ("/" + name);
      assert s[|part|..] == front[|part|..] + "/" + name;
      PartsOfSnoc(front[|part|..], name);
      assert [part] + (PartsOf(front[|part|..]) + [name]) == PartsOf(front) + [name];
    }
  }

  lemma {:induction false} FirstPartIgnoresRest(s: string, rest: string)
    requires rest == "" || rest[0] == '/'
    ensures FirstPart(s + rest) == FirstPart(s)
  {
    if s == "" {
      assert s + rest == rest;
    } else if s[0] != '/' {
      assert (s + rest)[1..] == s[1..] + rest;
      FirstPartIgnoresRest(s[1..], rest);
    }
  }

  lemma {:induction false} LastIsNoDot(parts: Path, name: string)
    requires name != "."
    ensures WithoutDots(parts + [name]) == WithoutDots(parts) + [name]
  {
    if parts == [] {
      assert parts + [name] == [name];
      assert WithoutDots([name]) == [name] + WithoutDots([]);
    } else {
      assert (parts + [name])[1..] == parts[1..] + [name];
      LastIsNoDot(parts[1..], name);
    }
  }

  predicate Accepted(disk: Disk, p: Placement) { Target(disk.backend, p.target, true).Ok? }

  lemma PlacementAccepted(disk: Disk, fs: Fs, p: Placement)
    requires StoreOne(disk, fs, p).Ok?
    ensures Accepted(disk, p)
  {
    StoreAfterCreate(disk, fs, p);
  }

  /** A run of placements that succeeded found all its targets acceptable. */
  lemma {:induction false} TargetsAccepted(disk: Disk, fs: Fs, ps: seq<Placement>)
    requires StoreAll(disk, fs, ps).Ok?
    ensures AllAccepted(disk, ps)
    decreases |ps|
  {
    if ps != [] {
      var front, last := ps[..|ps| - 1], ps[|ps| - 1];
      var before := StoreAll(disk, fs, front);
      TargetsAccepted(disk, fs, front);
      PlacementAccepted(disk, before.value, last);
      OneMoreAccepted(disk, ps);
    }
  }

  predicate AllAccepted(disk: Disk, ps: seq<Placement>) {
    forall i | 0 <= i < |ps| :: Accepted(disk, ps[i])
  }

  lemma OneMoreAccepted(disk: Disk, ps: seq<Placement>)
    requires ps != [] && AllAccepted(disk, ps[..|ps| - 1]) && Accepted(disk, ps[|ps| - 1])
    ensures AllAccepted(disk, ps)
  {
    forall i | 0 <= i < |ps| ensures Accepted(disk, ps[i]) {
      if i < |ps| - 1 { assert ps[i] == ps[..|ps| - 1][i]; }
    }
  }

  // ---------- the artifacts of a title and the files they become ----------

  /** The file name under which an artifact is installed. */
  function LeafName(a: Artifact): string {
    match a.kind
    case TmdKind => "tmd"
    case TicketKind => "cetk"
    case ContentKind => if a.localPath.App? then a.localPath.id + ".app" else "content.bin"
  }

  predicate Leaf(target: string, front: string, name: string) {
    && target == front + "/" + name
    && front != "" && front[0] == '/' && IsName(name) && !Hex.IsWhitespace(name[|name| - 1])
  }

  /** A placement of exactly its data, under its artifact's name. */
  ghost predicate FitsUnder(p: Placement, name: string) {
    |p.data| >= p.size && exists front :: Leaf(p.target, front, name)
  }

  function ContentTarget(titleId: string, hex: string, fallback: bool): string {
    (if fallback then "/install/" + titleId + "/content" else "/usr/title/" + titleId + "/content")
    + "/" + (hex + ".app")
  }

  lemma ContentTargetPath(titleId: string, hex: string, data: seq<byte>, sha: Hash, a: Artifact, fallback: bool)
    requires var c := ContentArtifact(titleId, hex, data, sha);
             a.relativePath == c.relativePath && a.targetPath == c.targetPath
    ensures Writer.TargetPath(titleId, a, fallback) == ContentTarget(titleId, hex, fallback)
  {
    var file := hex + ".app";
    var inner := "content/" + hex + ".app";
    assert inner == "content/" + file;
    if fallback {
      assert "/install/" + titleId + "/" + inner == "/install/" + titleId + "/content" + "/" + file;
    } else {
      assert "/usr/title/" + titleId + "/content/" + hex + ".app" == "/usr/title/" + titleId + "/content" + "/" + file;
    }
  }

  lemma ContentLeaf(titleId: string, r: TitleData.ContentRecord, fallback: bool)
    ensures var hex := ContentHex(r);
            Leaf(ContentTarget(titleId, hex, fallback),
                 if fallback then "/install/" + titleId + "/content" else "/usr/title/" + titleId + "/content",
                 hex + ".app")
  {
    var hex := ContentHex(r);
    Hex.DigitsAreHex(r.contentId, 8);
    var name := hex + ".app";
    assert name[|name| - 1] == 'p';
    forall i | 0 <= i < |name| ensures name[i] != '/' {
      if i < 8 { assert Hex.IsHexDigit(hex[i]); } else { assert name[i] == ".app"[i - 8]; }
    }
  }

  /** The TMD and the ticket are installed as they were downloaded. */
  lemma HeadPlaced(was: Files, files: Files, titleId: string, a: Artifact, fallback: bool, sha: Hash)
    requires HeadOk(was, titleId, a, sha) && OnlyDecrypts(was, files)
    ensures !a.kind.ContentKind?
    ensures FitsUnder(Writer.PlacementOf(files, titleId, a, fallback), LeafName(a))
  {
    assert SameFile(was, files, a.localPath);
    MetaLeaf(titleId, a, fallback);
  }

  lemma MetaLeaf(titleId: string, a: Artifact, fallback: bool)
    requires a.relativePath == LeafName(a) && (LeafName(a) == "tmd" || LeafName(a) == "cetk")
    requires a.targetPath == "/usr/title/" + titleId + "/meta/" + LeafName(a)
    ensures var front := if fallback then "/install/" + titleId else "/usr/title/" + titleId + "/meta";
            Leaf(Writer.TargetPath(titleId, a, fallback), front, LeafName(a))
  {
    if !fallback {
      AppendAssociates("/usr/title/" + titleId, "/meta", "/" + LeafName(a));
      assert "/meta" + ("/" + LeafName(a)) == "/meta/" + LeafName(a);
      AppendAssociates("/usr/title/" + titleId, "/meta/", LeafName(a));
    }
  }

  /** A placement of what is wanted of a content at its target. */
  predicate PlacesWanted(p: Placement, titleId: string, r: TitleData.ContentRecord, plain: string -> seq<byte>,
                         fallback: bool) {
    p.target == ContentTarget(titleId, ContentHex(r), fallback) && p.data == Wanted(r, plain)
  }

  /** A content that was fetched and decrypted is installed with the plaintext that is wanted of it. */
  lemma ContentPlaced(cipher: Cbc.BlockCipher, key: Cbc.Block, was: Files, files: Files, bodies: Bodies,
                      titleId: string, contents: seq<TitleData.ContentRecord>, i: nat, a: Artifact, out: Artifact,
                      plain: string -> seq<byte>, fallback: bool, sha: Hash)
    requires Cbc.Inverts(cipher) && ServesEncrypted(cipher, key, bodies, contents, plain)
    requires i < |contents| && DistinctNames(contents)
    requires ContentFetched(was, bodies, titleId, contents[i], a, sha)
    requires Decrypted(cipher, key, contents, was, files, a, out, sha)
    ensures var p := Writer.PlacementOf(files, titleId, out, fallback);
            PlacesWanted(p, titleId, contents[i], plain, fallback) && FitsUnder(p, LeafName(a))
  {
    var r := contents[i];
    FindsOwnRecord(contents, i);
    DecryptsToWanted(cipher, key, bodies(App(ContentHex(r))), r, plain(ContentHex(r)), was[App(ContentHex(r))]);
    ContentTargetPath(titleId, ContentHex(r), was[App(ContentHex(r))], sha, out, fallback);
    ContentLeaf(titleId, r, fallback);
  }

  predicate DistinctLeaves(artifacts: seq<Artifact>) {
    forall i, j | 0 <= i < j < |artifacts| :: LeafName(artifacts[i]) != LeafName(artifacts[j])
  }

  lemma ContentLeafName(files: Files, bodies: Bodies, titleId: string, r: TitleData.ContentRecord, a: Artifact,
                        sha: Hash)
    requires ContentFetched(files, bodies, titleId, r, a, sha)
    ensures LeafName(a)[..8] == ContentHex(r) && |LeafName(a)| == 12
  {
  }

  /** Accepted targets with different last components are different files. */
  lemma LeavesSeparate(disk: Disk, p: Placement, q: Placement, a: string, b: string)
    requires FitsUnder(p, a) && FitsUnder(q, b) && a != b
    requires Accepted(disk, p) && Accepted(disk, q)
    ensures TargetParts(disk, p) != TargetParts(disk, q)
  {
    var f :| Leaf(p.target, f, a);
    var g :| Leaf(q.target, g, b);
    LeafOfTarget(disk.backend, f, a);
    LeafOfTarget(disk.backend, g, b);
  }

  ghost predicate AllFit(ps: seq<Placement>, artifacts: seq<Artifact>) {
    |ps| == |artifacts| && forall i | 0 <= i < |ps| :: FitsUnder(ps[i], LeafName(artifacts[i]))
  }

  lemma PlacementsSeparate(disk: Disk, base: Fs, ps: seq<Placement>, artifacts: seq<Artifact>)
    requires AllFit(ps, artifacts) && DistinctLeaves(artifacts)
    requires StoreAll(disk, base, ps).Ok?
    ensures DistinctFiles(disk, ps)
  {
    TargetsAccepted(disk, base, ps);
    forall i, j | 0 <= i < j < |ps| ensures TargetParts(disk, ps[i]) != TargetParts(disk, ps[j]) {
      LeavesSeparate(disk, ps[i], ps[j], LeafName(artifacts[i]), LeafName(artifacts[j]));
    }
  }

  /** At each content's target the file system holds exactly the plaintext that is wanted of it. */
  ghost predicate Installed(disk: Disk, titleId: string, contents: seq<TitleData.ContentRecord>,
                            plain: string -> seq<byte>, fallback: bool, fs: Fs)
  {
    forall i | 0 <= i < |contents| :: ContentInstalled(disk, titleId, contents[i], plain, fallback, fs)
  }

  predicate ContentInstalled(disk: Disk, titleId: string, r: TitleData.ContentRecord, plain: string -> seq<byte>,
                             fallback: bool, fs: Fs)
  {
    var target := Target(disk.backend, ContentTarget(titleId, ContentHex(r), fallback), true);
    target.Ok? && target.value in fs && fs[target.value] == FileE(Wanted(r, plain))
  }

  /** A finished download, its decryption, and the placing of the result on the disk: `was` are the files downloaded,
      `files` those with the decrypted ones, `base` the disk before and `fs` the disk after. */
  datatype Chain = Chain(disk: Disk, base: Fs, fs: Fs, cipher: Cbc.BlockCipher, key: Cbc.Block, was: Files,
                         files: Files, bodies: Bodies, d: DownloadResult, outs: seq<Artifact>, fallback: bool,
                         sha: Hash)
  {
    function Contents(): seq<TitleData.ContentRecord> {
      if d.tmdInfo.Some? then d.tmdInfo.value.contents else []
    }

    function Placements(): (ps: seq<Placement>)
      ensures |ps| == |outs|
    {
      Writer.PlacementsOf(files, d.titleId, outs, fallback)
    }

    ghost predicate Holds() {
      && Complete(was, bodies, d, sha) && d.tmdInfo.Some?
      && OnlyDecrypts(was, files)
      && |outs| == |d.artifacts|
      && FirstDecrypted(cipher, key, Contents(), was, files, d.artifacts, outs, |outs|, sha)
      && StoreAll(disk, base, Placements()) == Ok(fs)
    }

    /** The contents have distinct ids and are served encrypted, with an invertible cipher. */
    ghost predicate Serves(plain: string -> seq<byte>) {
      Cbc.Inverts(cipher) && DistinctIds(Contents()) && ServesEncrypted(cipher, key, bodies, Contents(), plain)
    }
  }

  /** In a complete download, what comes before the contents is the TMD and the ticket. */
  lemma CompleteHead(was: Files, bodies: Bodies, d: DownloadResult, sha: Hash, k: nat)
    requires Complete(was, bodies, d, sha) && d.tmdInfo.Some? && k < |d.artifacts| - |d.tmdInfo.value.contents|
    ensures HeadOk(was, d.titleId, d.artifacts[k], sha)
  {
    var heads := d.artifacts[..|d.artifacts| - |d.tmdInfo.value.contents|];
    assert heads[k] == d.artifacts[k] && HeadOk(was, d.titleId, heads[k], sha);
  }

  lemma HeadPassedOn(cipher: Cbc.BlockCipher, key: Cbc.Block, contents: seq<TitleData.ContentRecord>, was: Files,
                     files: Files, titleId: string, a: Artifact, out: Artifact, sha: Hash)
    requires HeadOk(was, titleId, a, sha) && Decrypted(cipher, key, contents, was, files, a, out, sha)
    ensures out == a
  {
  }

  /** In a complete download with distinct ids, the contents follow in order, each as it was fetched. */
  lemma CompleteContent(was: Files, bodies: Bodies, d: DownloadResult, sha: Hash, i: nat, k: nat)
    requires Complete(was, bodies, d, sha) && d.tmdInfo.Some? && DistinctIds(d.tmdInfo.value.contents)
    requires i < |d.tmdInfo.value.contents| && k == |d.artifacts| - |d.tmdInfo.value.contents| + i
    ensures ContentFetched(was, bodies, d.titleId, d.tmdInfo.value.contents[i], d.artifacts[k], sha)
  {
    var rest := d.artifacts[k - i..];
    assert rest[i] == d.artifacts[k];
    assert ContentFetched(was, bodies, d.titleId, d.tmdInfo.value.contents[i], rest[i], sha);
  }

  /** The TMD and the ticket in a chain, which are passed on and placed as they are in the work directory. */
  lemma ChainHead(c: Chain, k: nat)
    requires c.Holds() && k < |c.outs| - |c.Contents()|
    ensures FitsUnder(Writer.PlacementOf(c.files, c.d.titleId, c.outs[k], c.fallback), LeafName(c.d.artifacts[k]))
    ensures HeadOk(c.was, c.d.titleId, c.d.artifacts[k], c.sha) && c.outs[k] == c.d.artifacts[k]
  {
    CompleteHead(c.was, c.bodies, c.d, c.sha, k);
    assert Decrypted(c.cipher, c.key, c.Contents(), c.was, c.files, c.d.artifacts[k], c.outs[k], c.sha);
    HeadPassedOn(c.cipher, c.key, c.Contents(), c.was, c.files, c.d.titleId, c.d.artifacts[k], c.outs[k], c.sha);
    HeadPlaced(c.was, c.files, c.d.titleId, c.outs[k], c.fallback, c.sha);
  }

  /** The i-th content of a chain, as it was fetched and as it was decrypted. */
  lemma ChainPicks(c: Chain, i: nat, k: nat)
    requires c.Holds() && DistinctIds(c.Contents())
    requires i < |c.Contents()| && k == |c.outs| - |c.Contents()| + i
    ensures DistinctNames(c.Contents())
    ensures ContentFetched(c.was, c.bodies, c.d.titleId, c.Contents()[i], c.d.artifacts[k], c.sha)
    ensures Decrypted(c.cipher, c.key, c.Contents(), c.was, c.files, c.d.artifacts[k], c.outs[k], c.sha)
  {
    DistinctIdsDistinctNames(c.bodies(LocalName.Tmd), c.d.tmdInfo.value);
    CompleteContent(c.was, c.bodies, c.d, c.sha, i, k);
    assert Decrypted(c.cipher, c.key, c.Contents(), c.was, c.files, c.d.artifacts[k], c.outs[k], c.sha);
  }

  /** The contents in a chain. */
  lemma ChainContent(c: Chain, plain: string -> seq<byte>, i: nat, k: nat)
    requires c.Holds() && c.Serves(plain)
    requires i < |c.Contents()| && k == |c.outs| - |c.Contents()| + i
    ensures var p := Writer.PlacementOf(c.files, c.d.titleId, c.outs[k], c.fallback);
            FitsUnder(p, LeafName(c.d.artifacts[k])) && PlacesWanted(p, c.d.titleId, c.Contents()[i], plain, c.fallback)
  {
    ChainPicks(c, i, k);
    ContentPlaced(c.cipher, c.key, c.was, c.files, c.bodies, c.d.titleId, c.Contents(), i, c.d.artifacts[k], c.outs[k],
                  plain, c.fallback, c.sha);
  }

  lemma WantedIsInstalled(disk: Disk, fs: Fs, p: Placement, titleId: string, r: TitleData.ContentRecord,
                          plain: string -> seq<byte>, fallback: bool)
    requires PlacesWanted(p, titleId, r, plain, fallback) && StoredAs(disk, fs, p)
    ensures ContentInstalled(disk, titleId, r, plain, fallback, fs)
  {
  }

  predicate StoredAs(disk: Disk, fs: Fs, p: Placement) {
    Accepted(disk, p) && TargetParts(disk, p) in FilesOf(fs) && FilesOf(fs)[TargetParts(disk, p)] == p.data
  }

  /** Placements under different names that were all stored hold their data, and nothing else has changed. */
  lemma StoredUnderNames(disk: Disk, base: Fs, fs: Fs, ps: seq<Placement>, artifacts: seq<Artifact>)
    requires AllFit(ps, artifacts) && DistinctLeaves(artifacts)
    requires StoreAll(disk, base, ps) == Ok(fs)
    ensures OthersKept(disk, FilesOf(base), FilesOf(fs), ps)
    ensures forall i | 0 <= i < |ps| :: StoredAs(disk, fs, ps[i])
  {
    PlacementsSeparate(disk, base, ps, artifacts);
    StoreAllHolds(disk, base, ps);
    TargetsAccepted(disk, base, ps);
  }

  /** Every content in a chain came in whole blocks: one cut off elsewhere would not have been decrypted. */
  lemma ChainWholeBlocks(c: Chain, i: nat)
    requires c.Holds() && DistinctIds(c.Contents()) && i < |c.Contents()|
    ensures var r := c.Contents()[i];
            var name := App(ContentHex(r));
            && name in c.was && |c.was[name]| % 16 == 0
            && (r.size % 16 != 0 ==> c.was[name] == c.bodies(name))
  {
    ChainPicks(c, i, |c.outs| - |c.Contents()| + i);
    FindsOwnRecord(c.Contents(), i);
  }

  lemma ChainFits(c: Chain, plain: string -> seq<byte>)
    requires c.Holds() && c.Serves(plain)
    ensures AllFit(c.Placements(), c.d.artifacts)
  {
    var ps, h := c.Placements(), |c.outs| - |c.Contents()|;
    forall k | 0 <= k < |ps| ensures FitsUnder(ps[k], LeafName(c.d.artifacts[k])) {
      if k < h { ChainHead(c, k); } else { ChainContent(c, plain, k - h, k); }
    }
  }

  /** Every placement of a chain is stored, heads and contents, and no other file has changed. */
  lemma ChainStored(c: Chain, plain: string -> seq<byte>)
    requires c.Holds() && c.Serves(plain)
    ensures OthersKept(c.disk, FilesOf(c.base), FilesOf(c.fs), c.Placements())
    ensures forall k | 0 <= k < |c.outs| :: StoredAs(c.disk, c.fs, c.Placements()[k])
  {
    ChainFits(c, plain);
    ChainLeaves(c.was, c.bodies, c.d, c.sha);
    StoredUnderNames(c.disk, c.base, c.fs, c.Placements(), c.d.artifacts);
  }

  lemma ChainInstalls(c: Chain, plain: string -> seq<byte>, i: nat)
    requires c.Holds() && c.Serves(plain) && i < |c.Contents()|
    ensures ContentInstalled(c.disk, c.d.titleId, c.Contents()[i], plain, c.fallback, c.fs)
  {
    var k := |c.outs| - |c.Contents()| + i;
    ChainStored(c, plain);
    assert StoredAs(c.disk, c.fs, c.Placements()[k]);
    ChainContent(c, plain, i, k);
    WantedIsInstalled(c.disk, c.fs, c.Placements()[k], c.d.titleId, c.Contents()[i], plain, c.fallback);
  }

  /** The TMD and the ticket stand at their targets as they are in the work directory. */
  ghost predicate HeadsInstalled(c: Chain) {
    forall k | 0 <= k < |c.outs| - |c.Contents()| ::
      && HeadOk(c.was, c.d.titleId, c.outs[k], c.sha) && StoredAs(c.disk, c.fs, c.Placements()[k])
      && c.Placements()[k].data == c.was[c.outs[k].localPath]
  }

  /** End to end: when contents are served encrypted, whichever way each was fetched, a chain that came to its end has
      put exactly the wanted plaintext at every content's target and the metadata at theirs, and has changed no file
      that is not one of its targets. */
  lemma InstalledExactly(c: Chain, plain: string -> seq<byte>)
    requires c.Holds() && c.Serves(plain)
    ensures Installed(c.disk, c.d.titleId, c.Contents(), plain, c.fallback, c.fs)
    ensures HeadsInstalled(c)
    ensures OthersKept(c.disk, FilesOf(c.base), FilesOf(c.fs), c.Placements())
  {
    ChainStored(c, plain);
    forall i | 0 <= i < |c.Contents()|
      ensures ContentInstalled(c.disk, c.d.titleId, c.Contents()[i], plain, c.fallback, c.fs)
    {
      ChainInstalls(c, plain, i);
    }
    forall k | 0 <= k < |c.outs| - |c.Contents()|
      ensures HeadOk(c.was, c.d.titleId, c.outs[k], c.sha) && c.Placements()[k].data == c.was[c.outs[k].localPath]
    {
      ChainHead(c, k);
      assert SameFile(c.was, c.files, c.outs[k].localPath);
    }
  }

  lemma HeadLeaf(files: Files, titleId: string, a: Artifact, sha: Hash)
    requires HeadOk(files, titleId, a, sha)
    ensures LeafName(a) == if a.kind.TmdKind? then "tmd" else "cetk"
    ensures a.kind.TmdKind? || a.kind.TicketKind?
  {
  }

  lemma HeadsDiffer(files: Files, titleId: string, heads: seq<Artifact>, sha: Hash)
    requires Heads(files, titleId, heads, sha)
    ensures DistinctLeaves(heads)
  {
    forall i, j | 0 <= i < j < |heads| ensures LeafName(heads[i]) != LeafName(heads[j]) {
      HeadLeaf(files, titleId, heads[i], sha);
      HeadLeaf(files, titleId, heads[j], sha);
    }
  }

  lemma ContentLeafAt(was: Files, bodies: Bodies, d: DownloadResult, sha: Hash, i: nat, k: nat)
    requires Complete(was, bodies, d, sha) && d.tmdInfo.Some? && DistinctIds(d.tmdInfo.value.contents)
    requires i < |d.tmdInfo.value.contents| && k == |d.artifacts| - |d.tmdInfo.value.contents| + i
    ensures |LeafName(d.artifacts[k])| == 12 && LeafName(d.artifacts[k])[..8] == ContentHex(d.tmdInfo.value.contents[i])
  {
    CompleteContent(was, bodies, d, sha, i, k);
    ContentLeafName(was, bodies, d.titleId, d.tmdInfo.value.contents[i], d.artifacts[k], sha);
  }

  lemma HeadLeafAt(was: Files, bodies: Bodies, d: DownloadResult, sha: Hash, k: nat)
    requires Complete(was, bodies, d, sha) && d.tmdInfo.Some? && k < |d.artifacts| - |d.tmdInfo.value.contents|
    ensures |LeafName(d.artifacts[k])| < 12
  {
    CompleteHead(was, bodies, d, sha, k);
    HeadLeaf(was, d.titleId, d.artifacts[k], sha);
  }

  /** A content's name differs from those of all artifacts before it. */
  lemma ContentDiffers(was: Files, bodies: Bodies, d: DownloadResult, sha: Hash, i: nat, j: nat)
    requires Complete(was, bodies, d, sha) && d.tmdInfo.Some? && DistinctIds(d.tmdInfo.value.contents)
    requires i < j < |d.artifacts| && |d.artifacts| - |d.tmdInfo.value.contents| <= j
    ensures LeafName(d.artifacts[i]) != LeafName(d.artifacts[j])
  {
    var h := |d.artifacts| - |d.tmdInfo.value.contents|;
    ContentLeafAt(was, bodies, d, sha, j - h, j);
    if i < h {
      HeadLeafAt(was, bodies, d, sha, i);
    } else {
      DistinctIdsDistinctNames(bodies(LocalName.Tmd), d.tmdInfo.value);
      ContentLeafAt(was, bodies, d, sha, i - h, i);
    }
  }

  /** All files of a title are installed under different names. */
  lemma ChainLeaves(was: Files, bodies: Bodies, d: DownloadResult, sha: Hash)
    requires Complete(was, bodies, d, sha) && d.tmdInfo.Some? && DistinctIds(d.tmdInfo.value.contents)
    ensures DistinctLeaves(d.artifacts)
  {
    var h := |d.artifacts| - |d.tmdInfo.value.contents|;
    var heads := d.artifacts[..h];
    HeadsDiffer(was, d.titleId, heads, sha);
    forall i, j | 0 <= i < j < |d.artifacts| ensures LeafName(d.artifacts[i]) != LeafName(d.artifacts[j]) {
      if j < h {
        assert heads[i] == d.artifacts[i] && heads[j] == d.artifacts[j];
      } else {
        ContentDiffers(was, bodies, d, sha, i, j);
      }
    }
  }

  // ---------- deinstalling what was installed ----------

  lemma {:induction false} PartsOfConcat(front: string, rest: string)
    requires rest == "" || rest[0] == '/'
    ensures PartsOf(front + rest) == PartsOf(front) + PartsOf(rest)
    decreases |front|
  {
    var s := front + rest;
    if front == "" {
      assert s == rest;
    } else if front[0] == '/' {
      assert s[1..] == front[1..] + rest;
      PartsOfConcat(front[1..], rest);
    } else {
      var part := FirstPart(front);
      FirstPartIgnoresRest(front, rest);
      assert s[|part|..] == front[|part|..] + rest;
      PartsOfConcat(front[|part|..], rest);
      AppendAssociates([part], PartsOf(front[|part|..]), PartsOf(rest));
    }
  }

  lemma {:induction false} WithoutDotsConcat(a: Path, b: Path)
    ensures WithoutDots(a + b) == WithoutDots(a) + WithoutDots(b)
  {
    if a == [] {
      assert a + b == b;
    } else {
      assert (a + b)[1..] == a[1..] + b;
      WithoutDotsConcat(a[1..], b);
    }
  }

  /** A path text that continues another names something below it. In the simulation, which strips white space, the
      shorter one must not end in any. */
  lemma ContinuedIsBelow(backend: Backend, front: string, rest: string)
    requires front != "" && front[0] == '/' && rest != "" && rest[0] == '/' && !Hex.IsWhitespace(rest[|rest| - 1])
    requires backend.Simulated? ==> !Hex.IsWhitespace(front[|front| - 1])
    requires Target(backend, front, true).Ok? && Target(backend, front + rest, true).Ok?
    ensures Target(backend, front, true).value <= Target(backend, front + rest, true).value
  {
    PartsOfConcat(front, rest);
    WithoutDotsConcat(PartsOf(front), PartsOf(rest));
    assert (front + rest)[|front + rest| - 1] == rest[|rest| - 1];
    if backend.Simulated? {
      assert Hex.Strip(front) == front && Hex.Strip(front + rest) == front + rest;
    }
  }

  /** The text of an artifact's target continues that of its title's directory. */
  predicate ContinuesRoot(target: string, titleId: string, fallback: bool, rest: string) {
    && target == (if fallback then "/install/" else "/usr/title/") + titleId + rest
    && rest != "" && rest[0] == '/' && !Hex.IsWhitespace(rest[|rest| - 1])
  }

  lemma HeadUnderRoot(was: Files, titleId: string, a: Artifact, fallback: bool, sha: Hash) returns (rest: string)
    requires HeadOk(was, titleId, a, sha)
    ensures ContinuesRoot(Writer.TargetPath(titleId, a, fallback), titleId, fallback, rest)
  {
    HeadLeaf(was, titleId, a, sha);
    rest := (if fallback then "/" else "/meta/") + LeafName(a);
    if fallback {
      AppendAssociates("/install/" + titleId, "/", LeafName(a));
    } else {
      AppendAssociates("/usr/title/" + titleId, "/meta/", LeafName(a));
    }
  }

  lemma ContentUnderRoot(titleId: string, r: TitleData.ContentRecord, fallback: bool) returns (rest: string)
    ensures ContinuesRoot(ContentTarget(titleId, ContentHex(r), fallback), titleId, fallback, rest)
  {
    ContentLeaf(titleId, r, fallback);
    var file := ContentHex(r) + ".app";
    rest := "/content/" + file;
    var root := (if fallback then "/install/" else "/usr/title/") + titleId;
    assert rest == "/content" + ("/" + file);
    AppendAssociates(root, "/content", "/" + file);
    assert rest[|rest| - 1] == file[|file| - 1];
  }

  lemma DecryptedKeepsPaths(c: Chain, k: nat)
    requires c.Holds() && k < |c.outs|
    ensures c.outs[k].relativePath == c.d.artifacts[k].relativePath
              && c.outs[k].targetPath == c.d.artifacts[k].targetPath
  {
    assert Decrypted(c.cipher, c.key, c.Contents(), c.was, c.files, c.d.artifacts[k], c.outs[k], c.sha);
  }

  lemma ContentContinuesRoot(c: Chain, i: nat, k: nat) returns (rest: string)
    requires c.Holds() && DistinctIds(c.Contents())
    requires i < |c.Contents()| && k == |c.outs| - |c.Contents()| + i
    ensures ContinuesRoot(Writer.TargetPath(c.d.titleId, c.outs[k], c.fallback), c.d.titleId, c.fallback, rest)
  {
    var r := c.Contents()[i];
    CompleteContent(c.was, c.bodies, c.d, c.sha, i, k);
    DecryptedKeepsPaths(c, k);
    ContentTargetPath(c.d.titleId, ContentHex(r), c.was[App(ContentHex(r))], c.sha, c.outs[k], c.fallback);
    rest := ContentUnderRoot(c.d.titleId, r, c.fallback);
  }

  lemma ChainContinuesRoot(c: Chain, k: nat) returns (rest: string)
    requires c.Holds() && DistinctIds(c.Contents()) && k < |c.outs|
    ensures ContinuesRoot(Writer.TargetPath(c.d.titleId, c.outs[k], c.fallback), c.d.titleId, c.fallback, rest)
  {
    var h := |c.outs| - |c.Contents()|;
    if k < h {
      ChainHead(c, k);
      rest := HeadUnderRoot(c.was, c.d.titleId, c.outs[k], c.fallback, c.sha);
    } else {
      rest := ContentContinuesRoot(c, k - h, k);
    }
  }

  function TitleRoot(backend: Backend, titleId: string, i: nat): Result<Path, FsError>
    requires i < 2
  {
    Target(backend, Writer.TitleRoots(titleId)[i], true)
  }

  lemma UnderOneRoot(backend: Backend, titleId: string, target: string, fallback: bool, rest: string)
    requires ContinuesRoot(target, titleId, fallback, rest)
    requires backend.Simulated? && titleId != "" ==> !Hex.IsWhitespace(titleId[|titleId| - 1])
    requires TitleRoot(backend, titleId, if fallback then 1 else 0).Ok? && Target(backend, target, true).Ok?
    ensures TitleRoot(backend, titleId, if fallback then 1 else 0).value <= Target(backend, target, true).value
  {
    var root := Writer.TitleRoots(titleId)[if fallback then 1 else 0];
    assert root == (if fallback then "/install/" else "/usr/title/") + titleId;
    assert root[|root| - 1] == if titleId == "" then '/' else titleId[|titleId| - 1];
    ContinuedIsBelow(backend, root, rest);
  }

  /** Everything a title installs lies under its two directories, unless its id ends in white space, which the
      simulation strips. */
  lemma ChainUnderRoots(c: Chain, k: nat)
    requires c.Holds() && DistinctIds(c.Contents()) && k < |c.outs|
    requires c.disk.backend.Simulated? && c.d.titleId != "" ==> !Hex.IsWhitespace(c.d.titleId[|c.d.titleId| - 1])
    requires TitleRoot(c.disk.backend, c.d.titleId, 0).Ok? && TitleRoot(c.disk.backend, c.d.titleId, 1).Ok?
    ensures UnderEither(TargetParts(c.disk, c.Placements()[k]), TitleRoot(c.disk.backend, c.d.titleId, 0).value,
                        TitleRoot(c.disk.backend, c.d.titleId, 1).value)
  {
    var rest := ChainContinuesRoot(c, k);
    ChainAccepted(c, k);
    UnderOneRoot(c.disk.backend, c.d.titleId, c.Placements()[k].target, c.fallback, rest);
  }

  lemma ChainAccepted(c: Chain, k: nat)
    requires c.Holds() && k < |c.outs|
    ensures Accepted(c.disk, c.Placements()[k])
  {
    TargetsAccepted(c.disk, c.base, c.Placements());
  }

  /** Deinstalling a title after its install leaves the files that deinstalling it before would have left. */
  lemma ChainThenDeinstall(c: Chain)
    requires c.Holds() && DistinctIds(c.Contents())
    requires c.disk.backend.Simulated? && c.d.titleId != "" ==> !Hex.IsWhitespace(c.d.titleId[|c.d.titleId| - 1])
    requires TitleRoot(c.disk.backend, c.d.titleId, 0).Ok? && TitleRoot(c.disk.backend, c.d.titleId, 1).Ok?
    ensures var a := TitleRoot(c.disk.backend, c.d.titleId, 0).value;
            var b := TitleRoot(c.disk.backend, c.d.titleId, 1).value;
            FilesOf(Without(Without(c.fs, a), b)) == FilesOf(Without(Without(c.base, a), b))
  {
    forall k | 0 <= k < |c.outs|
      ensures UnderEither(TargetParts(c.disk, c.Placements()[k]), TitleRoot(c.disk.backend, c.d.titleId, 0).value,
                          TitleRoot(c.disk.backend, c.d.titleId, 1).value)
    {
      ChainUnderRoots(c, k);
    }
    InstallThenDeinstall(c.disk, c.base, c.Placements(), TitleRoot(c.disk.backend, c.d.titleId, 0).value,
                         TitleRoot(c.disk.backend, c.d.titleId, 1).value);
  }
}
