/** The simulated adapter, a plain file system below a root (core/services/wfs_adapter.py:73-192). */
module SimulatedAdapter {
  import opened Bytes
  import opened WfsPath
  import opened FlatFs
  import opened AdapterSpec
  import MapSum

  class SimulatedWfsAdapter {
    var mounted: bool
    var fs: Fs

    ghost predicate Valid()
      reads this
    {
      WellFormed(fs) && forall p | p in fs :: !fs[p].OtherE?
    }

    constructor ()
      ensures Valid() && mounted && fs == map[[] := DirE]
    {
      mounted, fs := true, map[[] := DirE];
    }

    method Mkdir(path: string) returns (r: Result<(), FsError>)
      requires Valid()
      modifies this`fs
      ensures Valid()
      ensures Performs(r, old(fs), fs, MkdirSpec(Simulated, mounted, old(fs), path))
    {
      if !mounted { return Err(NotAttached); }
      var target := SimulatedTarget(path);
      if target.Err? { return Err(BadPath(target.error)); }
      r := MakeParents(target.value);
    }

    /** `mkdir(parents=True, exist_ok=True)`: each missing ancestor is made, from the top. */
    method MakeParents(p: Path) returns (r: Result<(), FsError>)
      requires Valid()
      modifies this`fs
      ensures Valid()
      ensures Performs(r, old(fs), fs, MkdirFs(old(fs), p))
    {
      if Blocked(fs, p) { return Err(NotDirectory); }
      AddDirsWellFormed(fs, p);
      fs := AddDirs(fs, p);
      return Ok(());
    }

    /** Opening for writing truncates what is there; a hint then extends it with zeros. */
    method OpenBlank(p: Path, sizeHint: nat)
      modifies this`fs
      ensures fs == old(fs)[p := FileE(Zeros(sizeHint))]
    {
      fs := fs[p := FileE([])];
      if sizeHint > 0 {
        fs := fs[p := FileE(Resize(fs[p].data, sizeHint))];
      }
      assert fs[p].data == Zeros(sizeHint);
    }

    method CreateFile(path: string, sizeHint: nat) returns (r: Result<(), FsError>)
      requires Valid()
      modifies this`fs
      ensures Valid()
      ensures Performs(r, old(fs), fs, CreateSpec(Simulated, mounted, old(fs), path, sizeHint))
    {
      if !mounted { return Err(NotAttached); }
      var target := SimulatedTarget(path);
      if target.Err? { return Err(BadPath(target.error)); }
      r := CreateAt(target.value, sizeHint);
    }

    method CreateAt(p: Path, sizeHint: nat) returns (r: Result<(), FsError>)
      requires Valid()
      modifies this`fs
      ensures Valid()
      ensures Performs(r, old(fs), fs, CreateFs(Simulated, old(fs), p, sizeHint))
    {
      if p == [] { return Err(NotFile); }
      OperationsKeepWellFormed(Simulated, fs, p, sizeHint, [], 0);
      r := MakeParents(Parent(p));
      if r.Err? { return r; }
      LeafUndisturbed(old(fs), p);
      if p in fs && !fs[p].FileE? {
        ParentWasThere(old(fs), p);
        return Err(NotFile);
      }
      OpenBlank(p, sizeHint);
      assert fs == CreateFs(Simulated, old(fs), p, sizeHint).value;
      return Ok(());
    }

    method WriteStream(path: string, data: seq<byte>, offset: nat) returns (r: Result<nat, FsError>)
      requires Valid()
      modifies this`fs
      ensures Valid()
      ensures r.Ok? ==> r.value == |data|
      ensures Performs(r, old(fs), fs, WriteSpec(Simulated, mounted, old(fs), path, data, offset))
    {
      if !mounted { return Err(NotAttached); }
      var target := SimulatedTarget(path);
      if target.Err? { return Err(BadPath(target.error)); }
      r := WriteAt(target.value, data, offset);
    }

    method WriteAt(p: Path, data: seq<byte>, offset: nat) returns (r: Result<nat, FsError>)
      requires Valid()
      modifies this`fs
      ensures Valid()
      ensures r.Ok? ==> r.value == |data|
      ensures Performs(r, old(fs), fs, WriteFs(Simulated, old(fs), p, data, offset))
    {
      if p == [] { return Err(NotFile); }
      OperationsKeepWellFormed(Simulated, fs, p, 0, data, offset);
      var made := MakeParents(Parent(p));
      if made.Err? { return Err(made.error); }
      LeafUndisturbed(old(fs), p);
      if p in fs && !fs[p].FileE? {
        ParentWasThere(old(fs), p);
        return Err(NotFile);
      }
      WriteOver(p, data, offset);
      assert fs == WriteFs(Simulated, old(fs), p, data, offset).value;
      return Ok(|data|);
    }

    /** A missing file is created empty, then written at the offset. */
    method WriteOver(p: Path, data: seq<byte>, offset: nat)
      requires p in fs ==> fs[p].FileE?
      modifies this`fs
      ensures fs == old(fs)[p := FileE(OverlayAt(if p in old(fs) then old(fs)[p].data else [], data, offset))]
    {
      if p !in fs {
        fs := fs[p := FileE([])];
      }
      fs := fs[p := FileE(OverlayAt(fs[p].data, data, offset))];
    }

    method Delete(path: string) returns (r: Result<(), FsError>)
      requires Valid()
      modifies this`fs
      ensures Valid()
      ensures Performs(r, old(fs), fs, DeleteSpec(Simulated, mounted, old(fs), path))
    {
      if !mounted { return Err(NotAttached); }
      var target := SimulatedTarget(path);
      if target.Err? { return Err(BadPath(target.error)); }
      var p := target.value;
      if p in fs {
        WithoutWellFormed(fs, p);
        fs := Without(fs, p);
      }
      return Ok(());
    }

    method IntegrityCheck(scope: string) returns (r: Result<Report, FsError>)
      requires Valid()
      ensures r == IntegritySpec(Simulated, mounted, fs, scope)
    {
      if !mounted { return Err(NotAttached); }
      var target := SimulatedTarget(scope);
      if target.Err? { return Err(BadPath(target.error)); }
      var p := target.value;
      if p !in fs {
        NothingThere(fs, p);
        return Ok(Report(false, 0, 0));
      }
      if fs[p].FileE? {
        SizesOfFile(fs, p);
        return Ok(Report(true, 1, |fs[p].data|));
      }
      var files, totalBytes := Walk(p);
      return Ok(Report(true, files, totalBytes));
    }

    /** Count what a walk below `p` meets, in any order. */
    method Walk(p: Path) returns (files: nat, totalBytes: nat)
      ensures files == FilesBelow(fs, p) && totalBytes == BytesBelow(fs, p)
    {
      files, totalBytes := 0, 0;
      var rest := SizesBelow(fs, p);
      while rest != map[]
        invariant files + |rest| == FilesBelow(fs, p)
        invariant totalBytes + MapSum.Sum(rest) == BytesBelow(fs, p)
        decreases |rest|
      {
        var name :| name in rest;
        MapSum.TakeOut(rest, name);
        MapSum.RemoveOne(rest, name);
        files, totalBytes := files + 1, totalBytes + rest[name];
        rest := rest - {name};
      }
    }

    method ListTitles() returns (r: Result<set<string>, FsError>)
      ensures r == ListTitlesSpec(Simulated, mounted, fs)
    {
      if !mounted { return Err(NotAttached); }
      if TITLES !in fs || fs[TITLES] != DirE { return Ok({}); }
      return Ok(TitlesIn(fs));
    }
  }

  /** Opening a directory for writing raises; its parent was there, so nothing has changed. */
  lemma ParentWasThere(fs: Fs, p: Path)
    requires WellFormed(fs) && p in fs && p != []
    ensures AddDirs(fs, Parent(p)) == fs
  {
    assert IsDir(fs, Parent(p));
    ExistingNotBlocked(fs, Parent(p));
  }
}
