/** The native engine: its walks over the directory tree (native/wfs_core/src/wfs_core_engine.cpp). */
module WfsEngine {
  import opened Bytes
  import opened WfsPath
  import opened FlatFs
  import opened WfsTree
  import opened WfsDevice
  import opened AdapterSpec
  import MapSum

  function FromDevice(e: DeviceError): FsError {
    match e
    case EntryNotFound => NotFound
    case NotADirectory => NotDirectory
    case NotAFile => NotFile
    case AlreadyExists => NotFile
    case NotEmpty => DirectoryNotEmpty
  }

  // ---------- walking down ----------

  /** Walk from the root along `path`. A failed walk has created nothing, although it may create on its way. */
  method ResolveDirectory(device: Device, path: Path, createMissing: bool) returns (r: Result<Path, FsError>)
    requires device.Valid()
    modifies device
    ensures device.Valid()
    ensures createMissing ==>
              if MkdirFs(old(device.Files()), path).Ok?
              then r == Ok(path) && device.Files() == MkdirFs(old(device.Files()), path).value
              else r == Err(NotDirectory) && device.Files() == old(device.Files())
    ensures !createMissing ==> r == DirectoryAt(old(device.Files()), path) && device.Files() == old(device.Files())
  {
    ghost var was := device.Files();
    ViewWellFormed(device.root);
    ExistingNotBlocked(was, []);
    var current: Path := [];
    for i := 0 to |path|
      invariant device.Valid()
      invariant current == path[..i] && IsDir(device.Files(), current)
      invariant !Blocked(was, current)
      invariant createMissing ==> device.Files() == AddDirs(was, current)
      invariant !createMissing ==> device.Files() == was
    {
      var part := path[i];
      ghost var next' := path[..i + 1];
      assert current + [part] == next' && Parent(next') == current;
      AddDirsStep(was, next');
      BlockedStep(was, next');
      var next := device.GetDirectory(current, part);
      if next.Ok? {
        current := next.value;
      } else if createMissing && next.error == EntryNotFound {
        var created := device.CreateDirectory(current, part);
        assert created.Ok?;
        current := created.value;
      } else {
        FailedStep(was, path, i + 1);
        return Err(FromDevice(next.error));
      }
    }
    assert path[..|path|] == path;
    return Ok(current);
  }

  /** Where the walk stops, the view is still the old one: below anything fresh there is nothing to stop at. */
  lemma FailedStep(was: Fs, path: Path, i: nat)
    requires WellFormed(was) && 0 < i <= |path| && !Blocked(was, Parent(path[..i]))
    ensures path[..i] in was ==> AddDirs(was, Parent(path[..i])) == was
    ensures path[..i] in was && was[path[..i]] != DirE ==> Blocked(was, path) && !IsDir(was, path)
    ensures path[..i] !in was ==> path !in was && !Blocked(was, path)
  {
    var stop := path[..i];
    if stop in was {
      assert IsDir(was, Parent(stop));
      ExistingNotBlocked(was, Parent(stop));
      if IsDir(was, path) { ExistingNotBlocked(was, path); }
    } else {
      AbsentAbove(was, path, i);
      assert path[..|path|] == path;
      forall j | 0 <= j <= |path| && path[..j] in was ensures was[path[..j]] == DirE {
        if j < i {
          assert path[..j] == Parent(stop)[..j];
        } else {
          assert path[..j][..i] == stop;
          AbsentAbove(was, path[..j], i);
        }
      }
    }
  }

  // ---------- scanning ----------

  /** The sizes of the files below the children of `dir` named in `names`. */
  function SizesUnder(fs: Fs, dir: Path, names: seq<string>): map<Path, nat> {
    map q | q in fs && fs[q].FileE? && dir < q && q[|dir|] in names :: |fs[q].data|
  }

  ghost function FilesUnder(fs: Fs, dir: Path, names: seq<string>): nat { |SizesUnder(fs, dir, names)| }

  ghost function BytesUnder(fs: Fs, dir: Path, names: seq<string>): nat { MapSum.Sum(SizesUnder(fs, dir, names)) }

  lemma NothingUnder(fs: Fs, dir: Path)
    ensures FilesUnder(fs, dir, []) == 0 && BytesUnder(fs, dir, []) == 0
  {
    assert SizesUnder(fs, dir, []) == map[];
  }

  lemma SizesUnderNext(fs: Fs, dir: Path, names: seq<string>, name: string)
    requires name !in names
    ensures SizesUnder(fs, dir, names + [name]) == SizesUnder(fs, dir, names) + SizesBelow(fs, dir + [name])
    ensures SizesUnder(fs, dir, names).Keys !! SizesBelow(fs, dir + [name]).Keys
  {
    var before, here, after :=
          SizesUnder(fs, dir, names), SizesBelow(fs, dir + [name]), SizesUnder(fs, dir, names + [name]);
    forall q ensures q in here <==> q in fs && fs[q].FileE? && dir < q && q[|dir|] == name { BelowChild(dir, name, q); }
    assert after.Keys == before.Keys + here.Keys;
  }

  lemma OneMoreUnder(fs: Fs, dir: Path, names: seq<string>, name: string)
    requires name !in names
    ensures FilesUnder(fs, dir, names + [name]) == FilesUnder(fs, dir, names) + FilesBelow(fs, dir + [name])
    ensures BytesUnder(fs, dir, names + [name]) == BytesUnder(fs, dir, names) + BytesBelow(fs, dir + [name])
  {
    SizesUnderNext(fs, dir, names, name);
    MapSum.Disjoint(SizesUnder(fs, dir, names), SizesBelow(fs, dir + [name]));
    MapSum.DisjointSize(SizesUnder(fs, dir, names), SizesBelow(fs, dir + [name]));
  }

  lemma BelowChild(dir: Path, name: string, q: Path)
    ensures dir + [name] <= q <==> dir < q && q[|dir|] == name
  {
    if dir < q && q[|dir|] == name { assert q[..|dir| + 1] == dir + [name]; }
  }

  /** All children together are everything below a directory. */
  lemma AllUnder(fs: Fs, dir: Path, names: seq<string>)
    requires WellFormed(fs) && IsDir(fs, dir)
    requires forall name :: name in names <==> dir + [name] in fs
    ensures FilesUnder(fs, dir, names) == FilesBelow(fs, dir)
    ensures BytesUnder(fs, dir, names) == BytesBelow(fs, dir)
  {
    forall q | q in fs && fs[q].FileE? && dir <= q
      ensures dir < q && q[|dir|] in names
    {
      assert q != dir;
      ChildOnTheWay(fs, dir, q);
    }
    assert SizesUnder(fs, dir, names) == SizesBelow(fs, dir);
  }

  function EntriesBelow(fs: Fs, p: Path): set<Path> {
    set q | q in fs && p <= q
  }

  /** Add the files and bytes below `dir` to the running totals. */
  method ScanDirectory(device: Device, dir: Path, files: nat, bytes: nat) returns (files': nat, bytes': nat)
    requires device.Valid() && IsDir(device.Files(), dir)
    ensures files' == files + FilesBelow(device.Files(), dir)
    ensures bytes' == bytes + BytesBelow(device.Files(), dir)
    decreases EntriesBelow(device.Files(), dir)
  {
    ghost var fs := device.Files();
    ViewWellFormed(device.root);
    var names := device.Children(dir);
    files', bytes' := files, bytes;
    NothingUnder(fs, dir);
    for i := 0 to |names|
      invariant files' == files + FilesUnder(fs, dir, names[..i])
      invariant bytes' == bytes + BytesUnder(fs, dir, names[..i])
    {
      var child := dir + [names[i]];
      TakeNextIsNew(names, i);
      OneMoreUnder(fs, dir, names[..i], names[i]);
      ChildIsSmaller(fs, dir, names[i]);
      var entry := device.GetEntry(child);
      if entry.value == DirE {
        files', bytes' := ScanDirectory(device, child, files', bytes');
      } else {
        SizesOfFile(fs, child);
        if entry.value.FileE? {
          files', bytes' := files' + 1, bytes' + |entry.value.data|;
        }
      }
    }
    assert names[..|names|] == names;
    AllUnder(fs, dir, names);
  }

  lemma ChildIsSmaller(fs: Fs, dir: Path, name: string)
    requires dir in fs
    ensures EntriesBelow(fs, dir + [name]) < EntriesBelow(fs, dir)
  {
    assert dir in EntriesBelow(fs, dir) && dir !in EntriesBelow(fs, dir + [name]);
  }

  // ---------- deleting ----------

  /** `fs` without the subtrees of the children of `p` named in `gone`. */
  function WithoutChildren(fs: Fs, p: Path, gone: seq<string>): Fs {
    map q | q in fs && !(p < q && q[|p|] in gone) :: fs[q]
  }

  lemma WithoutNextChild(fs: Fs, p: Path, gone: seq<string>, name: string)
    ensures WithoutChildren(fs, p, gone + [name]) == Without(WithoutChildren(fs, p, gone), p + [name])
  {
    forall q ensures p + [name] <= q <==> p < q && q[|p|] == name { BelowChild(p, name, q); }
  }

  /** With all its children gone, only the entry itself is left to delete. */
  lemma WithoutAllChildren(fs: Fs, p: Path, names: seq<string>)
    requires WellFormed(fs) && p in fs
    requires forall name :: name in names <==> p + [name] in fs
    ensures p in WithoutChildren(fs, p, names)
    ensures forall child :: p + [child] !in WithoutChildren(fs, p, names)
    ensures Without(WithoutChildren(fs, p, names), p) == Without(fs, p)
  {
    forall q | q in fs && p < q ensures q[|p|] in names { ChildOnTheWay(fs, p, q); }
  }

  /** Delete an entry and everything below it; the device never gets to refuse a non-empty directory. */
  method DeleteEntryRecursive(device: Device, dir: Path, name: string) returns (r: Result<(), FsError>)
    requires device.Valid()
    modifies device
    ensures device.Valid()
    ensures var p := dir + [name];
            if p in old(device.Files())
            then r == Ok(()) && device.Files() == Without(old(device.Files()), p)
            else r == Err(NotFound) && device.Files() == old(device.Files())
    decreases EntriesBelow(device.Files(), dir + [name])
  {
    var p := dir + [name];
    ghost var was := device.Files();
    ViewWellFormed(device.root);
    var entry := device.GetEntry(p);
    if entry.None? { return Err(NotFound); }
    if entry.value == DirE {
      var names := device.Children(p);
      assert WithoutChildren(was, p, []) == was;
      for i := 0 to |names|
        invariant device.Valid()
        invariant device.Files() == WithoutChildren(was, p, names[..i])
      {
        TakeNextIsNew(names, i);
        WithoutNextChild(was, p, names[..i], names[i]);
        StillSmaller(was, p, names[..i], names[i]);
        var deleted := DeleteEntryRecursive(device, p, names[i]);
        assert deleted.Ok?;
      }
      assert names[..|names|] == names;
      WithoutAllChildren(was, p, names);
    } else {
      forall child ensures p + [child] !in was { ChildOfFile(was, p, child); }
    }
    var removed := device.DeleteEntry(dir, name);
    assert removed.Ok?;
    return Ok(());
  }

  lemma ChildOfFile(fs: Fs, p: Path, child: string)
    requires WellFormed(fs) && p in fs && fs[p] != DirE
    ensures p + [child] !in fs
  {
    assert Parent(p + [child]) == p;
  }

  lemma StillSmaller(fs: Fs, p: Path, gone: seq<string>, name: string)
    requires p in fs && p + [name] in fs && name !in gone
    ensures p + [name] in WithoutChildren(fs, p, gone)
    ensures EntriesBelow(WithoutChildren(fs, p, gone), p + [name]) < EntriesBelow(fs, p)
  {
    ChildIsSmaller(fs, p, name);
    assert EntriesBelow(WithoutChildren(fs, p, gone), p + [name]) <= EntriesBelow(fs, p + [name]);
  }

  /** Looking an entry up by its whole path: what is missing is reported as such, what is in the way is an error. */
  method LookUp(device: Device, parts: Path) returns (r: Result<Option<Entry>, FsError>)
    requires device.Valid() && parts != []
    modifies device
    ensures device.Valid() && device.Files() == old(device.Files())
    ensures r == if Blocked(device.Files(), Parent(parts)) then Err(NotDirectory) else Ok(Lookup(device.Files(), parts))
  {
    ghost var fs := device.Files();
    ViewWellFormed(device.root);
    var directory := ResolveDirectory(device, Parent(parts), false);
    match directory {
      case Ok(_) => ExistingNotBlocked(fs, Parent(parts));
      case Err(NotFound) =>
        MissingBelow(fs, parts);
        return Ok(None);
      case Err(error) => return Err(error);
    }
    var entry := device.GetEntry(parts);
    return Ok(entry);
  }

  lemma MissingBelow(fs: Fs, p: Path)
    requires WellFormed(fs) && p != [] && DirectoryAt(fs, Parent(p)) == Err(NotFound)
    ensures !Blocked(fs, Parent(p)) && p !in fs
  {
    if p in fs { assert IsDir(fs, Parent(p)); }
  }

  /** The report on what was found at a path: a file counts as one, a directory is scanned. */
  method ReportOn(device: Device, parts: Path, entry: Option<Entry>) returns (report: Report)
    requires device.Valid() && entry == Lookup(device.Files(), parts)
    ensures report == IntegrityFs(device.Files(), parts)
  {
    ghost var fs := device.Files();
    ViewWellFormed(device.root);
    match entry {
      case None =>
        NothingThere(fs, parts);
        return Report(false, 0, 0);
      case Some(FileE(data)) =>
        SizesOfFile(fs, parts);
        return Report(true, 1, |data|);
      case Some(OtherE) =>
        SizesOfFile(fs, parts);
        return Report(false, 0, 0);
      case Some(DirE) =>
        var files, bytes := ScanDirectory(device, parts, 0, 0);
        return Report(true, files, bytes);
    }
  }

  method CheckBelow(device: Device, parts: Path) returns (r: Result<Report, FsError>)
    requires device.Valid()
    modifies device
    ensures device.Valid() && device.Files() == old(device.Files())
    ensures r == CheckFs(Native, device.Files(), parts)
  {
    ViewWellFormed(device.root);
    var entry: Option<Entry> := Some(DirE);
    if parts != [] {
      var found := LookUp(device, parts);
      if found.Err? { return Err(found.error); }
      entry := found.value;
    }
    var report := ReportOn(device, parts, entry);
    return Ok(report);
  }

  method DirectoriesIn(device: Device, dir: Path) returns (directories: set<string>)
    ensures forall name :: name in directories <==> IsDir(device.Files(), dir + [name])
  {
    ghost var fs := device.Files();
    var names := device.Children(dir);
    directories := {};
    for i := 0 to |names|
      invariant forall name :: name in directories <==> name in names[..i] && IsDir(fs, dir + [name])
    {
      TakeNext(names, i);
      var entry := device.GetEntry(dir + [names[i]]);
      if entry == Some(DirE) {
        directories := directories + {names[i]};
      }
    }
    assert names[..|names|] == names;
  }

  /** Make the directories on the way, then resize the file or create it. */
  method CreateAt(device: Device, parts: Path, sizeHint: nat) returns (r: Result<(), FsError>)
    requires device.Valid() && parts != []
    modifies device
    ensures device.Valid()
    ensures Performs(r, old(device.Files()), device.Files(), CreateFs(Native, old(device.Files()), parts, sizeHint))
  {
    var parent, leaf := parts[..|parts| - 1], parts[|parts| - 1];
    assert parent + [leaf] == parts && Parent(parts) == parent;
    ghost var was := device.Files();
    ViewWellFormed(device.root);
    LeafUndisturbed(was, parts);
    var directory := ResolveDirectory(device, parent, true);
    if directory.Err? { return Err(directory.error); }
    var existing := device.GetFile(parent, leaf);
    if existing.Ok? {
      var data := device.FileContents(existing.value);
      device.SetContents(existing.value, Resize(data, sizeHint));
      return Ok(());
    }
    if existing.error != EntryNotFound {
      assert parts[..|parts|] == parts;
      BlockedStep(was, parts);
      FailedStep(was, parts, |parts|);
      return Err(FromDevice(existing.error));
    }
    AddDirsWellFormed(was, parent);
    var created := device.CreateFile(parent, leaf, sizeHint);
    assert created.Ok?;
    var blank := device.FileContents(created.value);
    assert Resize(blank, sizeHint) == Zeros(sizeHint);
    device.SetContents(created.value, Resize(blank, sizeHint));
    return Ok(());
  }

  // ---------- the engine ----------

  class WfsCoreEngine {
    const device: Device
    var attached: bool

    constructor (device: Device)
      ensures this.device == device && attached
    {
      this.device, attached := device, true;
    }

    method Mkdir(path: string) returns (r: Result<(), FsError>)
      requires device.Valid()
      modifies device
      ensures device.Valid()
      ensures Performs(r, old(device.Files()), device.Files(), MkdirSpec(Native, attached, old(device.Files()), path))
    {
      if !attached { return Err(NotAttached); }
      var target := NativeTarget(path, false);
      if target.Err? { return Err(BadPath(target.error)); }
      var parts := SplitParts(path);
      var resolved := ResolveDirectory(device, parts, true);
      if resolved.Err? { return Err(resolved.error); }
      return Ok(());
    }

    method CreateFile(path: string, sizeHint: nat) returns (r: Result<(), FsError>)
      requires device.Valid() && sizeHint < UINT32_LIMIT
      modifies device
      ensures device.Valid()
      ensures Performs(r, old(device.Files()), device.Files(),
                       CreateSpec(Native, attached, old(device.Files()), path, sizeHint))
    {
      if !attached { return Err(NotAttached); }
      var target := NativeTarget(path, true);
      if target.Err? { return Err(BadPath(target.error)); }
      var parts := SplitParts(path);
      r := CreateAt(device, parts, sizeHint);
    }

    method WriteStream(path: string, data: seq<byte>, offset: nat) returns (r: Result<nat, FsError>)
      requires device.Valid()
      modifies device
      ensures device.Valid()
      ensures r.Ok? ==> r.value == |data|
      ensures Performs(r, old(device.Files()), device.Files(),
                       WriteSpec(Native, attached, old(device.Files()), path, data, offset))
    {
      if offset != 0 { return Err(OffsetNotSupported); }
      if !attached { return Err(NotAttached); }
      var target := NativeTarget(path, true);
      if target.Err? { return Err(BadPath(target.error)); }
      var parts := SplitParts(path);
      var found := LookUp(device, parts);
      if found.Err? { return Err(found.error); }
      if found.value.None? { return Err(NotFound); }
      if !found.value.value.FileE? { return Err(NotFile); }
      var was := found.value.value.data;
      if data == [] { return Ok(0); }
      OverlayAtStart(was, data);
      device.SetContents(parts, Overlay(was, data));
      return Ok(|data|);
    }

    method Remove(path: string) returns (r: Result<(), FsError>)
      requires device.Valid()
      modifies device
      ensures device.Valid()
      ensures Performs(r, old(device.Files()), device.Files(), DeleteSpec(Native, attached, old(device.Files()), path))
    {
      if !attached { return Err(NotAttached); }
      var target := NativeTarget(path, true);
      if target.Err? { return Err(BadPath(target.error)); }
      var parts := SplitParts(path);
      var parent, leaf := parts[..|parts| - 1], parts[|parts| - 1];
      assert parent + [leaf] == parts && Parent(parts) == parent;
      ViewWellFormed(device.root);
      var directory := ResolveDirectory(device, parent, false);
      if directory.Err? { return Err(directory.error); }
      ExistingNotBlocked(device.Files(), parent);
      r := DeleteEntryRecursive(device, parent, leaf);
    }

    method IntegrityCheck(scope: string) returns (r: Result<Report, FsError>)
      requires device.Valid()
      modifies device
      ensures device.Valid() && device.Files() == old(device.Files())
      ensures r == IntegritySpec(Native, attached, device.Files(), scope)
    {
      if !attached { return Err(NotAttached); }
      var path := if scope == "" then "/" else scope;
      var target := NativeTarget(path, false);
      if target.Err? { return Err(BadPath(target.error)); }
      var parts := SplitParts(path);
      if KeepsSlash(path) { parts := parts + [""]; }
      r := CheckBelow(device, parts);
    }

    method ListTitles() returns (r: Result<set<string>, FsError>)
      requires device.Valid()
      modifies device
      ensures device.Valid() && device.Files() == old(device.Files())
      ensures r == ListTitlesSpec(Native, attached, device.Files())
    {
      if !attached { return Err(NotAttached); }
      var root := ResolveDirectory(device, TITLES, false);
      if root.Err? {
        return if root.error == NotFound then Ok({}) else Err(root.error);
      }
      var titles := DirectoriesIn(device, root.value);
      TitlesAreDirectories(device.Files(), root.value, titles);
      return Ok(titles);
    }
  }

  /** The titles are the directories in the titles directory. */
  lemma TitlesAreDirectories(fs: Fs, dir: Path, titles: set<string>)
    requires dir == TITLES
    requires forall name :: name in titles <==> IsDir(fs, dir + [name])
    ensures titles == TitlesIn(fs)
  {
    forall name ensures name in TitlesIn(fs) <==> name in titles {
      var q := dir + [name];
      assert q[..2] == TITLES && q[2] == name;
      if name in TitlesIn(fs) {
        var r :| r in fs && |r| == 3 && r[..2] == TITLES && fs[r] == DirE && r[2] == name;
        assert r == q;
      }
    }
  }
}
