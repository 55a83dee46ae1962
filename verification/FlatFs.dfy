/** The simple view of a Wii U file system: a map from paths to entries, and what each operation does to it. */
module FlatFs {
  import opened Bytes
  import opened WfsPath
  import MapSum

  datatype Entry = FileE(data: seq<byte>) | DirE | OtherE

  type Fs = map<Path, Entry>

  datatype FsError =
    | BadPath(error: PathError)
    | NotAttached
    | NotFound
    | NotDirectory
    | NotFile
    | DirectoryNotEmpty
    | OffsetNotSupported
    | SizeOutOfRange

  datatype Backend = Native | Simulated

  function Parent(p: Path): Path
    requires p != []
  {
    p[..|p| - 1]
  }

  /** Everything lies in a directory. */
  ghost predicate WellFormed(fs: Fs) {
    && ([] in fs ==> fs[[]] == DirE)
    && (forall p {:trigger Parent(p)} :: p in fs && p != [] ==> Parent(p) in fs && fs[Parent(p)] == DirE)
  }

  predicate IsDir(fs: Fs, p: Path) { p in fs && fs[p] == DirE }

  // ---------- mkdir ----------

  /** Some component of `p` exists and is not a directory. */
  predicate Blocked(fs: Fs, p: Path) {
    exists i | 0 <= i <= |p| :: p[..i] in fs && fs[p[..i]] != DirE
  }

  function Prefixes(p: Path): set<Path> {
    set i | 0 <= i <= |p| :: p[..i]
  }

  /** `fs` with the missing ones among `p` and its ancestors added as directories. */
  function AddDirs(fs: Fs, p: Path): Fs {
    map q | q in fs.Keys + Prefixes(p) :: if q in fs then fs[q] else DirE
  }

  function MkdirFs(fs: Fs, p: Path): Result<Fs, FsError> {
    if Blocked(fs, p) then Err(NotDirectory) else Ok(AddDirs(fs, p))
  }

  /** Looking a directory up without creating it. */
  function DirectoryAt(fs: Fs, p: Path): Result<Path, FsError> {
    if IsDir(fs, p) then Ok(p) else if Blocked(fs, p) then Err(NotDirectory) else Err(NotFound)
  }

  // ---------- create_file ----------

  /** The contents right after creation: the native engine resizes a file that is there, the simulation truncates it
      first. */
  function Created(backend: Backend, fs: Fs, p: Path, size: nat): seq<byte> {
    if backend.Native? && p in fs && fs[p].FileE? then Resize(fs[p].data, size) else Zeros(size)
  }

  function CreateFs(backend: Backend, fs: Fs, p: Path, size: nat): Result<Fs, FsError> {
    if p == [] then Err(if backend.Native? then BadPath(RootNotAllowed) else NotFile)
    else if Blocked(fs, Parent(p)) then Err(NotDirectory)
    else if p in fs && !fs[p].FileE? then Err(NotFile)
    else Ok(AddDirs(fs, Parent(p))[p := FileE(Created(backend, fs, p, size))])
  }

  // ---------- write_stream ----------

  /** The contents after writing `data` at `offset`: nothing when there is no data, zeros in a gap. */
  function OverlayAt(was: seq<byte>, data: seq<byte>, offset: nat): seq<byte> {
    if data == [] then was
    else
      var base := Resize(was, Max(|was|, offset + |data|));
      base[..offset] + data + base[offset + |data|..]
  }

  lemma OverlayAtStart(was: seq<byte>, data: seq<byte>)
    ensures OverlayAt(was, data, 0) == Overlay(was, data)
  {
    if data != [] {
      var base := Resize(was, Max(|was|, |data|));
      assert base[..0] + data == data;
      if |was| >= |data| { assert base == was; } else { assert base[|data|..] == []; }
    }
  }

  function WriteFs(backend: Backend, fs: Fs, p: Path, data: seq<byte>, offset: nat): Result<Fs, FsError> {
    if backend.Native? then
      if p == [] then Err(BadPath(RootNotAllowed))
      else if Blocked(fs, Parent(p)) then Err(NotDirectory)
      else if p !in fs then Err(NotFound)
      else if !fs[p].FileE? then Err(NotFile)
      else Ok(fs[p := FileE(OverlayAt(fs[p].data, data, offset))])
    else if p == [] then Err(NotFile)
    else if Blocked(fs, Parent(p)) then Err(NotDirectory)
    else if p in fs && !fs[p].FileE? then Err(NotFile)
    else
      var was := if p in fs then fs[p].data else [];
      Ok(AddDirs(fs, Parent(p))[p := FileE(OverlayAt(was, data, offset))])
  }

  // ---------- delete ----------

  function Without(fs: Fs, p: Path): Fs {
    map q | q in fs && !(p <= q) :: fs[q]
  }

  function DeleteFs(backend: Backend, fs: Fs, p: Path): Result<Fs, FsError> {
    if backend.Native? && p == [] then Err(BadPath(RootNotAllowed))
    else if p in fs then Ok(Without(fs, p))
    else if backend.Simulated? then Ok(fs)
    else if Blocked(fs, Parent(p)) then Err(NotDirectory)
    else Err(NotFound)
  }

  // ---------- scans ----------

  /** The sizes of the files at or below `p`. */
  function SizesBelow(fs: Fs, p: Path): map<Path, nat> {
    map q | q in fs && p <= q && fs[q].FileE? :: |fs[q].data|
  }

  ghost function FilesBelow(fs: Fs, p: Path): nat { |SizesBelow(fs, p)| }

  ghost function BytesBelow(fs: Fs, p: Path): nat { MapSum.Sum(SizesBelow(fs, p)) }

  lemma SizesSplit(fs: Fs, p: Path)
    ensures var kept, gone := SizesBelow(Without(fs, p), []), SizesBelow(fs, p);
            SizesBelow(fs, []) == kept + gone && kept.Keys !! gone.Keys
  {
    var all, kept, gone := SizesBelow(fs, []), SizesBelow(Without(fs, p), []), SizesBelow(fs, p);
    forall q ensures q in all <==> q in kept || q in gone { assert [] <= q; }
    assert all.Keys == kept.Keys + gone.Keys;
  }

  /** Deleting conserves totals: what was there is what remains plus what was below the deleted path. */
  lemma DeleteConserves(fs: Fs, p: Path)
    ensures FilesBelow(fs, []) == FilesBelow(Without(fs, p), []) + FilesBelow(fs, p)
    ensures BytesBelow(fs, []) == BytesBelow(Without(fs, p), []) + BytesBelow(fs, p)
  {
    var kept, gone := SizesBelow(Without(fs, p), []), SizesBelow(fs, p);
    SizesSplit(fs, p);
    MapSum.Disjoint(kept, gone);
    MapSum.DisjointSize(kept, gone);
  }

  datatype Report = Report(ok: bool, files: nat, bytes: nat)

  ghost function IntegrityFs(fs: Fs, p: Path): Report {
    Report(p in fs && !fs[p].OtherE?, FilesBelow(fs, p), BytesBelow(fs, p))
  }

  /** Checking a scope: below a file, the native engine fails instead of reporting. */
  ghost function CheckFs(backend: Backend, fs: Fs, p: Path): Result<Report, FsError> {
    if backend.Native? && p != [] && Blocked(fs, Parent(p)) then Err(NotDirectory) else Ok(IntegrityFs(fs, p))
  }

  const TITLES: Path := ["usr", "title"]

  function TitlesIn(fs: Fs): set<string> {
    set q | q in fs && |q| == 3 && q[..2] == TITLES && fs[q] == DirE :: q[2]
  }

  function ListTitlesFs(backend: Backend, fs: Fs): Result<set<string>, FsError> {
    if IsDir(fs, TITLES) then Ok(TitlesIn(fs))
    else if backend.Native? && Blocked(fs, TITLES) then Err(NotDirectory)
    else Ok({})
  }

  // ---------- properties ----------

  /** The bytes of the files, which is what an install is about. */
  function FilesOf(fs: Fs): map<Path, seq<byte>> {
    map q | q in fs && fs[q].FileE? :: fs[q].data
  }

  lemma InPrefixes(p: Path, q: Path)
    ensures q in Prefixes(p) <==> q <= p
  {
    if q <= p { assert q == p[..|q|]; }
  }

  lemma PrefixesStep(p: Path)
    requires p != []
    ensures Prefixes(p) == Prefixes(Parent(p)) + {p}
  {
    forall q ensures q in Prefixes(p) <==> q in Prefixes(Parent(p)) || q == p {
      InPrefixes(p, q);
      InPrefixes(Parent(p), q);
      assert q <= p && q != p ==> |q| < |p|;
    }
  }

  /** In a well-formed view, the ancestors of an entry are directories. */
  lemma {:induction false} AncestorsAreDirs(fs: Fs, p: Path, i: nat)
    requires WellFormed(fs) && p in fs && i < |p|
    ensures IsDir(fs, p[..i])
    decreases |p|
  {
    assert Parent(p) in fs;
    if i < |p| - 1 {
      AncestorsAreDirs(fs, Parent(p), i);
      assert Parent(p)[..i] == p[..i];
    }
  }

  lemma ExistingNotBlocked(fs: Fs, p: Path)
    requires WellFormed(fs) && IsDir(fs, p)
    ensures !Blocked(fs, p) && AddDirs(fs, p) == fs
  {
    forall i | 0 <= i <= |p| ensures IsDir(fs, p[..i]) {
      if i < |p| { AncestorsAreDirs(fs, p, i); } else { assert p[..i] == p; }
    }
    assert Prefixes(p) <= fs.Keys;
  }

  lemma AddDirsStep(fs: Fs, p: Path)
    requires p != []
    ensures AddDirs(fs, p) == if p in fs then AddDirs(fs, Parent(p)) else AddDirs(fs, Parent(p))[p := DirE]
    ensures p !in Prefixes(Parent(p))
  {
    PrefixesStep(p);
    InPrefixes(Parent(p), p);
  }

  lemma BlockedStep(fs: Fs, p: Path)
    requires p != []
    ensures Blocked(fs, p) <==> Blocked(fs, Parent(p)) || (p in fs && fs[p] != DirE)
  {
    if Blocked(fs, p) {
      var i :| 0 <= i <= |p| && p[..i] in fs && fs[p[..i]] != DirE;
      if i < |p| { assert p[..i] == Parent(p)[..i]; } else { assert p[..i] == p; }
    }
    if Blocked(fs, Parent(p)) {
      var i :| 0 <= i <= |Parent(p)| && Parent(p)[..i] in fs && fs[Parent(p)[..i]] != DirE;
      assert p[..i] == Parent(p)[..i];
    }
    assert p[..|p|] == p;
  }

  /** An entry of a well-formed view lies below an existing child of each of its ancestors. */
  lemma ChildOnTheWay(fs: Fs, p: Path, q: Path)
    requires WellFormed(fs) && q in fs && p < q
    ensures p + [q[|p|]] <= q && p + [q[|p|]] in fs
  {
    assert p + [q[|p|]] == q[..|p| + 1];
    if |p| + 1 < |q| { AncestorsAreDirs(fs, q, |p| + 1); } else { assert q[..|q|] == q; }
  }

  /** What an absent path would contain is absent too. */
  lemma AbsentAbove(fs: Fs, p: Path, i: nat)
    requires WellFormed(fs) && i <= |p| && p[..i] !in fs
    ensures p !in fs
  {
    assert p[..|p|] == p;
    if p in fs && i < |p| { AncestorsAreDirs(fs, p, i); }
  }

  lemma OnlyItself(fs: Fs, p: Path, q: Path)
    requires WellFormed(fs) && p in fs && fs[p] != DirE
    requires q in fs && p <= q
    ensures q == p
  {
    assert q[..|p|] == p;
    if |p| < |q| { AncestorsAreDirs(fs, q, |p|); }
  }

  lemma SizesOfFile(fs: Fs, p: Path)
    requires WellFormed(fs) && p in fs && fs[p] != DirE
    ensures SizesBelow(fs, p) == if fs[p].FileE? then map[p := |fs[p].data|] else map[]
    ensures FilesBelow(fs, p) == if fs[p].FileE? then 1 else 0
    ensures BytesBelow(fs, p) == if fs[p].FileE? then |fs[p].data| else 0
  {
    forall q | q in fs && p <= q ensures q == p { OnlyItself(fs, p, q); }
    if fs[p].FileE? {
      var one := map[p := |fs[p].data|];
      MapSum.TakeOut(one, p);
      assert one - {p} == map[];
    }
  }

  lemma NothingThere(fs: Fs, p: Path)
    requires WellFormed(fs) && p !in fs
    ensures SizesBelow(fs, p) == map[] && BytesBelow(fs, p) == 0
  {
    forall q | q in fs ensures !(p <= q) {
      if p <= q {
        assert q[..|p|] == p;
        AbsentAbove(fs, q, |p|);
      }
    }
  }

  /** Creating the ancestors of an entry neither adds nor changes the entry. */
  lemma LeafUndisturbed(fs: Fs, p: Path)
    requires p != []
    ensures p in AddDirs(fs, Parent(p)) <==> p in fs
    ensures p in fs ==> AddDirs(fs, Parent(p))[p] == fs[p]
  {
    InPrefixes(Parent(p), p);
  }

  lemma AddDirsWellFormed(fs: Fs, p: Path)
    requires WellFormed(fs) && !Blocked(fs, p)
    ensures WellFormed(AddDirs(fs, p)) && IsDir(AddDirs(fs, p), p)
  {
    var g := AddDirs(fs, p);
    forall q | q in Prefixes(p) ensures IsDir(g, q) {
      InPrefixes(p, q);
      assert q == p[..|q|];
    }
    InPrefixes(p, []);
    InPrefixes(p, p);
    forall q {:trigger Parent(q)} | q in g && q != []
      ensures IsDir(g, Parent(q))
    {
      if q !in fs {
        InPrefixes(p, q);
        InPrefixes(p, Parent(q));
      }
    }
  }

  lemma WithoutWellFormed(fs: Fs, p: Path)
    requires WellFormed(fs)
    ensures WellFormed(Without(fs, p))
  {
    var g := Without(fs, p);
    forall q {:trigger Parent(q)} | q in g && q != []
      ensures IsDir(g, Parent(q))
    {
      assert p <= Parent(q) ==> p <= q;
    }
  }

  lemma PutFileWellFormed(fs: Fs, p: Path, data: seq<byte>)
    requires WellFormed(fs) && p != [] && IsDir(fs, Parent(p))
    requires p in fs ==> fs[p] != DirE
    ensures WellFormed(fs[p := FileE(data)])
  {
    var g := fs[p := FileE(data)];
    forall q {:trigger Parent(q)} | q in g && q != []
      ensures IsDir(g, Parent(q))
    {
      assert Parent(q) == p ==> q in fs;
    }
  }

  /** Every operation keeps the view well formed. */
  lemma OperationsKeepWellFormed(backend: Backend, fs: Fs, p: Path, size: nat, data: seq<byte>, offset: nat)
    requires WellFormed(fs)
    ensures MkdirFs(fs, p).Ok? ==> WellFormed(MkdirFs(fs, p).value)
    ensures CreateFs(backend, fs, p, size).Ok? ==> WellFormed(CreateFs(backend, fs, p, size).value)
    ensures WriteFs(backend, fs, p, data, offset).Ok? ==> WellFormed(WriteFs(backend, fs, p, data, offset).value)
    ensures DeleteFs(backend, fs, p).Ok? ==> WellFormed(DeleteFs(backend, fs, p).value)
  {
    if !Blocked(fs, p) { AddDirsWellFormed(fs, p); }
    WithoutWellFormed(fs, p);
    if p != [] && !Blocked(fs, Parent(p)) && (p in fs ==> fs[p].FileE?) {
      AddDirsWellFormed(fs, Parent(p));
      var g := AddDirs(fs, Parent(p));
      InPrefixes(Parent(p), p);
      PutFileWellFormed(g, p, Created(backend, fs, p, size));
      var was := if p in fs then fs[p].data else [];
      PutFileWellFormed(g, p, OverlayAt(was, data, offset));
      if p in fs {
        assert IsDir(fs, Parent(p));
        PutFileWellFormed(fs, p, OverlayAt(was, data, offset));
      }
    }
  }
}
