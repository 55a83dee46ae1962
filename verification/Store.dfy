/** Placing files on the disk, one after the other: what an uninterrupted run of the writer does, and why it can be
    resumed. */
module Store {
  import opened Bytes
  import opened WfsPath
  import opened FlatFs
  import opened AdapterSpec

  /** The disk an adapter speaks to. */
  datatype Disk = Disk(backend: Backend, attached: bool)

  /** A file to be written: the path text, the announced size, and the bytes. */
  datatype Placement = Placement(target: string, size: nat, data: seq<byte>)

  /** The text of the parent directory, as pathlib gives it. */
  function ParentPath(target: string): string {
    var parts := WithoutDots(PartsOf(target));
    if parts == [] then "/" else Render(parts[..|parts| - 1])
  }

  function AfterMkdir(disk: Disk, fs: Fs, p: Placement): Result<Fs, FsError> {
    MkdirSpec(disk.backend, disk.attached, fs, ParentPath(p.target))
  }

  function AfterCreate(disk: Disk, fs: Fs, p: Placement): Result<Fs, FsError> {
    match AfterMkdir(disk, fs, p)
    case Err(e) => Err(e)
    case Ok(made) => CreateSpec(disk.backend, disk.attached, made, p.target, p.size)
  }

  /** One file, from nothing to written: mkdir, create_file, write_stream. */
  function StoreOne(disk: Disk, fs: Fs, p: Placement): Result<Fs, FsError> {
    match AfterCreate(disk, fs, p)
    case Err(e) => Err(e)
    case Ok(created) => WriteSpec(disk.backend, disk.attached, created, p.target, p.data, 0)
  }

  /** All files, in order, without interruption. */
  function StoreAll(disk: Disk, fs: Fs, ps: seq<Placement>): Result<Fs, FsError> {
    if ps == [] then Ok(fs)
    else
      match StoreAll(disk, fs, ps[..|ps| - 1])
      case Err(e) => Err(e)
      case Ok(before) => StoreOne(disk, before, ps[|ps| - 1])
  }

  // ---------- one file ----------

  /** The components of the target and of the directory made first. */
  function TargetParts(disk: Disk, p: Placement): Path {
    var t := Target(disk.backend, p.target, true);
    if t.Ok? then t.value else []
  }

  function ParentParts(disk: Disk, p: Placement): Path {
    var t := Target(disk.backend, ParentPath(p.target), false);
    if t.Ok? then t.value else []
  }

  /** Nothing but the state of the view can make this placement fail. */
  predicate Feasible(disk: Disk, p: Placement) {
    && disk.attached
    && Target(disk.backend, ParentPath(p.target), false).Ok? && Target(disk.backend, p.target, true).Ok?
    && (disk.backend.Native? ==> p.size < UINT32_LIMIT)
  }

  /** The contents of the target after one uninterrupted placement. */
  function Placed(disk: Disk, fs: Fs, p: Placement): seq<byte> {
    Overlay(Created(disk.backend, fs, TargetParts(disk, p), p.size), p.data)
  }

  lemma UpdateTwice(fs: Fs, p: Path, a: Entry, b: Entry)
    ensures fs[p := a][p := b] == fs[p := b]
  {
  }

  /** `p` and all its ancestors are directories. */
  ghost predicate AllDirs(fs: Fs, p: Path) {
    forall q {:trigger IsDir(fs, q)} :: q <= p ==> IsDir(fs, q)
  }

  lemma AddDirsAllDirs(fs: Fs, p: Path)
    requires !Blocked(fs, p)
    ensures AllDirs(AddDirs(fs, p), p)
  {
    forall q | q <= p ensures IsDir(AddDirs(fs, p), q) {
      InPrefixes(p, q);
      assert q == p[..|q|];
    }
  }

  lemma AddDirsKeepsDirs(fs: Fs, d: Path, p: Path)
    requires AllDirs(fs, p)
    ensures AllDirs(AddDirs(fs, d), p)
  {
    forall q | q <= p ensures IsDir(AddDirs(fs, d), q) { assert IsDir(fs, q); }
  }

  lemma PutKeepsDirs(fs: Fs, t: Path, e: Entry, p: Path)
    requires AllDirs(fs, p) && !(t <= p)
    ensures AllDirs(fs[t := e], p)
  {
    var g := fs[t := e];
    forall q | q <= p ensures IsDir(g, q) { assert IsDir(fs, q); }
  }

  /** Directories that are all there make mkdir idle. */
  lemma DirsThere(fs: Fs, p: Path)
    requires AllDirs(fs, p)
    ensures !Blocked(fs, p) && AddDirs(fs, p) == fs
  {
    forall i | 0 <= i <= |p| ensures IsDir(fs, p[..i]) { assert p[..i] <= p; }
    forall q | q in Prefixes(p) ensures q in fs { InPrefixes(p, q); assert IsDir(fs, q); }
  }

  /** A view that has the directories a placement makes, and its target as a file. */
  ghost predicate Ready(fs: Fs, d: Path, t: Path) {
    t != [] && t in fs && fs[t].FileE? && AllDirs(fs, d) && AllDirs(fs, Parent(t))
  }

  /** The view with the directories of a placement added. */
  function WithDirs(fs: Fs, d: Path, t: Path): Fs
    requires t != []
  {
    AddDirs(AddDirs(fs, d), Parent(t))
  }

  lemma CreatingMakesReady(backend: Backend, fs: Fs, d: Path, t: Path, size: nat, data: seq<byte>)
    requires !Blocked(fs, d) && CreateFs(backend, AddDirs(fs, d), t, size).Ok?
    ensures t != []
    ensures CreateFs(backend, AddDirs(fs, d), t, size).value
              == WithDirs(fs, d, t)[t := FileE(Created(backend, fs, t, size))]
    ensures AllDirs(WithDirs(fs, d, t), Parent(t))
    ensures Ready(WithDirs(fs, d, t)[t := FileE(data)], d, t)
  {
    var made, dirs := AddDirs(fs, d), WithDirs(fs, d, t);
    InPrefixes(d, t);
    AddDirsAllDirs(fs, d);
    AddDirsKeepsDirs(made, Parent(t), d);
    AddDirsAllDirs(made, Parent(t));
    assert t in made && made[t].FileE? ==> t in fs && fs[t] == made[t];
    assert t in fs ==> t in made && made[t] == fs[t];
    assert !(t <= d) by { assert IsDir(made, t) <== t <= d; }
    PutKeepsDirs(dirs, t, FileE(data), d);
    PutKeepsDirs(dirs, t, FileE(data), Parent(t));
  }

  /** On a ready view, placing the file only rewrites it. */
  lemma StoreOnReady(disk: Disk, fs: Fs, p: Placement)
    requires Feasible(disk, p) && Ready(fs, ParentParts(disk, p), TargetParts(disk, p))
    ensures AfterCreate(disk, fs, p)
         == Ok(fs[TargetParts(disk, p) := FileE(Created(disk.backend, fs, TargetParts(disk, p), p.size))])
    ensures StoreOne(disk, fs, p) == Ok(fs[TargetParts(disk, p) := FileE(Placed(disk, fs, p))])
  {
    var t := TargetParts(disk, p);
    DirsThere(fs, ParentParts(disk, p));
    DirsThere(fs, Parent(t));
    WriteOnCreated(disk, fs, fs, p);
  }

  /** Writing a file just created. */
  lemma WriteOnCreated(disk: Disk, fs: Fs, dirs: Fs, p: Placement)
    requires Feasible(disk, p) && TargetParts(disk, p) != [] && AllDirs(dirs, Parent(TargetParts(disk, p)))
    ensures var t := TargetParts(disk, p);
            WriteSpec(disk.backend, true, dirs[t := FileE(Created(disk.backend, fs, t, p.size))], p.target, p.data, 0)
            == Ok(dirs[t := FileE(Placed(disk, fs, p))])
  {
    var t := TargetParts(disk, p);
    var blank := Created(disk.backend, fs, t, p.size);
    PutKeepsDirs(dirs, t, FileE(blank), Parent(t));
    DirsThere(dirs[t := FileE(blank)], Parent(t));
    OverlayAtStart(blank, p.data);
    UpdateTwice(dirs, t, FileE(blank), FileE(Placed(disk, fs, p)));
  }

  /** A creation that succeeds is always followed by a write that succeeds. */
  lemma StoreAfterCreate(disk: Disk, fs: Fs, p: Placement)
    requires AfterCreate(disk, fs, p).Ok?
    ensures var d, t := ParentParts(disk, p), TargetParts(disk, p);
            && Feasible(disk, p) && t != []
            && AfterCreate(disk, fs, p) == Ok(WithDirs(fs, d, t)[t := FileE(Created(disk.backend, fs, t, p.size))])
            && StoreOne(disk, fs, p) == Ok(WithDirs(fs, d, t)[t := FileE(Placed(disk, fs, p))])
  {
    var d, t := ParentParts(disk, p), TargetParts(disk, p);
    CreatingMakesReady(disk.backend, fs, d, t, p.size, []);
    WriteOnCreated(disk, fs, WithDirs(fs, d, t), p);
  }

  lemma WriteSucceeds(disk: Disk, fs: Fs, p: Placement)
    requires AfterCreate(disk, fs, p).Ok?
    ensures StoreOne(disk, fs, p).Ok?
  {
    StoreAfterCreate(disk, fs, p);
  }

  function Blank(backend: Backend, was: seq<byte>, size: nat): seq<byte> {
    if backend.Native? then Resize(was, size) else Zeros(size)
  }

  /** Creating and writing again gives the same bytes, whether the first try was cut off after creating or after
      writing. */
  lemma RewriteIdempotent(backend: Backend, was: seq<byte>, size: nat, data: seq<byte>, halfway: seq<byte>)
    requires halfway == Blank(backend, was, size) || halfway == Overlay(Blank(backend, was, size), data)
    ensures Overlay(Blank(backend, halfway, size), data) == Overlay(Blank(backend, was, size), data)
  {
    var blank := Blank(backend, was, size);
    if backend.Native? && |data| < size {
      assert Resize(halfway, size) == halfway;
      assert Overlay(Overlay(blank, data), data) == Overlay(blank, data);
    }
  }

  /** Wherever placing a file was cut off, placing it again ends as if it had not been. */
  lemma PlacementResumes(disk: Disk, fs: Fs, p: Placement)
    ensures AfterMkdir(disk, fs, p).Ok? ==> StoreOne(disk, AfterMkdir(disk, fs, p).value, p) == StoreOne(disk, fs, p)
    ensures AfterCreate(disk, fs, p).Ok? ==> StoreOne(disk, AfterCreate(disk, fs, p).value, p) == StoreOne(disk, fs, p)
    ensures StoreOne(disk, fs, p).Ok? ==> StoreOne(disk, StoreOne(disk, fs, p).value, p) == StoreOne(disk, fs, p)
  {
    if AfterMkdir(disk, fs, p).Ok? {
      AddDirsAllDirs(fs, ParentParts(disk, p));
      DirsThere(AddDirs(fs, ParentParts(disk, p)), ParentParts(disk, p));
    }
    if AfterCreate(disk, fs, p).Ok? {
      StoreAfterCreate(disk, fs, p);
      ResumesFrom(disk, fs, p, Created(disk.backend, fs, TargetParts(disk, p), p.size));
      ResumesFrom(disk, fs, p, Placed(disk, fs, p));
    }
  }

  lemma ResumesFrom(disk: Disk, fs: Fs, p: Placement, halfway: seq<byte>)
    requires AfterCreate(disk, fs, p).Ok? && TargetParts(disk, p) != []
    requires halfway == Created(disk.backend, fs, TargetParts(disk, p), p.size) || halfway == Placed(disk, fs, p)
    ensures var t := TargetParts(disk, p);
            var partial := WithDirs(fs, ParentParts(disk, p), t)[t := FileE(halfway)];
            StoreOne(disk, partial, p) == StoreOne(disk, fs, p)
  {
    StoreAfterCreate(disk, fs, p);
    var d, t := ParentParts(disk, p), TargetParts(disk, p);
    var partial := WithDirs(fs, d, t)[t := FileE(halfway)];
    CreatingMakesReady(disk.backend, fs, d, t, p.size, halfway);
    StoreOnReady(disk, partial, p);
    SamePlaced(disk, fs, partial, p);
    UpdateTwice(WithDirs(fs, d, t), t, FileE(halfway), FileE(Placed(disk, partial, p)));
  }

  lemma SamePlaced(disk: Disk, fs: Fs, partial: Fs, p: Placement)
    requires var t := TargetParts(disk, p);
             && t in partial && partial[t].FileE?
             && (partial[t].data == Created(disk.backend, fs, t, p.size) || partial[t].data == Placed(disk, fs, p))
    ensures Placed(disk, partial, p) == Placed(disk, fs, p)
  {
    var t := TargetParts(disk, p);
    var was := if t in fs && fs[t].FileE? then fs[t].data else [];
    assert Resize([], p.size) == Zeros(p.size);
    RewriteIdempotent(disk.backend, was, p.size, p.data, partial[t].data);
  }

  // ---------- all files ----------

  /** `g` has every entry of `fs` but that at `t`, and beyond them only directories on the way to `d` or `t`. */
  ghost predicate AddsOnlyDirs(fs: Fs, g: Fs, d: Path, t: Path) {
    && (forall q | q in fs && q != t :: q in g && g[q] == fs[q])
    && (forall q | q in g && q !in fs && q != t :: g[q] == DirE && (q <= d || q <= t))
  }

  lemma AddsOnlyDirsTransitive(f: Fs, g: Fs, h: Fs, d: Path, t: Path)
    requires AddsOnlyDirs(f, g, d, t) && AddsOnlyDirs(g, h, d, t)
    ensures AddsOnlyDirs(f, h, d, t)
  {
  }

  lemma FilesOfPut(fs: Fs, g: Fs, d: Path, t: Path, data: seq<byte>)
    requires AddsOnlyDirs(fs, g, d, t) && t in g && g[t] == FileE(data)
    ensures FilesOf(g) == FilesOf(fs)[t := data]
  {
  }

  /** Placing one file changes one file and adds directories on the way to it. */
  lemma StoreOneTouches(disk: Disk, fs: Fs, p: Placement)
    requires StoreOne(disk, fs, p).Ok?
    ensures var g, t := StoreOne(disk, fs, p).value, TargetParts(disk, p);
            && t != []
            && FilesOf(g) == FilesOf(fs)[t := Placed(disk, fs, p)]
            && AddsOnlyDirs(fs, g, ParentParts(disk, p), t)
    ensures |p.data| >= p.size ==> Placed(disk, fs, p) == p.data
  {
    StoreAfterCreate(disk, fs, p);
    var d, t := ParentParts(disk, p), TargetParts(disk, p);
    WithDirsAdds(fs, d, t);
    var g := WithDirs(fs, d, t)[t := FileE(Placed(disk, fs, p))];
    assert AddsOnlyDirs(fs, g, d, t);
    FilesOfPut(fs, g, d, t, Placed(disk, fs, p));
    assert |Created(disk.backend, fs, t, p.size)| == p.size;
  }

  /** Wherever placing a file is cut off, only directories on the way and the file itself have changed. */
  lemma PartialTouches(disk: Disk, fs: Fs, p: Placement)
    ensures var d, t := ParentParts(disk, p), TargetParts(disk, p);
            && (AfterMkdir(disk, fs, p).Ok? ==> AddsOnlyDirs(fs, AfterMkdir(disk, fs, p).value, d, t))
            && (AfterCreate(disk, fs, p).Ok? ==> AddsOnlyDirs(fs, AfterCreate(disk, fs, p).value, d, t))
            && (StoreOne(disk, fs, p).Ok? ==> AddsOnlyDirs(fs, StoreOne(disk, fs, p).value, d, t))
  {
    var d, t := ParentParts(disk, p), TargetParts(disk, p);
    if AfterMkdir(disk, fs, p).Ok? {
      forall q ensures q in Prefixes(d) <==> q <= d { InPrefixes(d, q); }
    }
    if AfterCreate(disk, fs, p).Ok? {
      StoreAfterCreate(disk, fs, p);
      WithDirsAdds(fs, d, t);
    }
  }

  /** `now` may be what is left of `was` when placing `p` was cut off. */
  ghost predicate CutOff(disk: Disk, was: Fs, now: Fs, p: Placement) {
    && StoreOne(disk, now, p) == StoreOne(disk, was, p)
    && AddsOnlyDirs(was, now, ParentParts(disk, p), TargetParts(disk, p))
  }

  /** Between any two of its steps, a placement is cut off resumably. */
  lemma EveryStepCutsOff(disk: Disk, fs: Fs, p: Placement)
    ensures CutOff(disk, fs, fs, p)
    ensures AfterMkdir(disk, fs, p).Ok? ==> CutOff(disk, fs, AfterMkdir(disk, fs, p).value, p)
    ensures AfterCreate(disk, fs, p).Ok? ==> CutOff(disk, fs, AfterCreate(disk, fs, p).value, p)
    ensures StoreOne(disk, fs, p).Ok? ==> CutOff(disk, fs, StoreOne(disk, fs, p).value, p)
  {
    PlacementResumes(disk, fs, p);
    PartialTouches(disk, fs, p);
  }

  lemma WithDirsAdds(fs: Fs, d: Path, t: Path)
    requires t != []
    ensures forall q | q in fs :: q in WithDirs(fs, d, t) && WithDirs(fs, d, t)[q] == fs[q]
    ensures forall q | q in WithDirs(fs, d, t) && q !in fs :: WithDirs(fs, d, t)[q] == DirE && (q <= d || q <= t)
  {
    forall q | q in WithDirs(fs, d, t) && q !in fs ensures q <= d || q <= t {
      InPrefixes(d, q);
      InPrefixes(Parent(t), q);
    }
  }

  predicate DistinctFiles(disk: Disk, ps: seq<Placement>) {
    forall i, j | 0 <= i < j < |ps| :: TargetParts(disk, ps[i]) != TargetParts(disk, ps[j])
  }

  predicate DistinctTargets(ps: seq<Placement>) {
    forall i, j | 0 <= i < j < |ps| :: ps[i].target != ps[j].target
  }

  /** Every target holds its data. */
  predicate TargetsHold(disk: Disk, files: map<Path, seq<byte>>, ps: seq<Placement>) {
    forall i | 0 <= i < |ps| :: TargetParts(disk, ps[i]) in files && files[TargetParts(disk, ps[i])] == ps[i].data
  }

  predicate IsTarget(disk: Disk, ps: seq<Placement>, q: Path) {
    exists i :: 0 <= i < |ps| && q == TargetParts(disk, ps[i])
  }

  /** No file but the targets is added, changed or removed. */
  ghost predicate OthersKept(disk: Disk, was: map<Path, seq<byte>>, files: map<Path, seq<byte>>, ps: seq<Placement>) {
    forall q :: !IsTarget(disk, ps, q) ==> (q in was <==> q in files) && (q in was ==> files[q] == was[q])
  }

  /** After all placements, every target holds its data, and no other file has changed. */
  lemma {:induction false} StoreAllHolds(disk: Disk, fs: Fs, ps: seq<Placement>)
    requires StoreAll(disk, fs, ps).Ok? && DistinctFiles(disk, ps)
    requires forall i | 0 <= i < |ps| :: |ps[i].data| >= ps[i].size
    ensures TargetsHold(disk, FilesOf(StoreAll(disk, fs, ps).value), ps)
    ensures OthersKept(disk, FilesOf(fs), FilesOf(StoreAll(disk, fs, ps).value), ps)
    decreases |ps|
  {
    if ps != [] {
      var n := |ps| - 1;
      StoreAllHolds(disk, fs, ps[..n]);
      var before := StoreAll(disk, fs, ps[..n]).value;
      StoreOneTouches(disk, before, ps[n]);
      OneMoreHolds(disk, FilesOf(fs), FilesOf(before), ps);
    }
  }

  lemma OneMoreHolds(disk: Disk, was: map<Path, seq<byte>>, before: map<Path, seq<byte>>, ps: seq<Placement>)
    requires ps != [] && DistinctFiles(disk, ps)
    requires TargetsHold(disk, before, ps[..|ps| - 1]) && OthersKept(disk, was, before, ps[..|ps| - 1])
    ensures var last := ps[|ps| - 1];
            var files := before[TargetParts(disk, last) := last.data];
            TargetsHold(disk, files, ps) && OthersKept(disk, was, files, ps)
  {
    var n := |ps| - 1;
    var t := TargetParts(disk, ps[n]);
    var files := before[t := ps[n].data];
    forall i | 0 <= i < |ps|
      ensures TargetParts(disk, ps[i]) in files && files[TargetParts(disk, ps[i])] == ps[i].data
    {
      if i < n { assert ps[..n][i] == ps[i]; }
    }
    forall q | !IsTarget(disk, ps, q)
      ensures (q in was <==> q in files) && (q in was ==> files[q] == was[q])
    {
      assert q != t;
      assert forall i | 0 <= i < n :: ps[..n][i] == ps[i];
    }
  }

  /** A path on the way to a target, or to the directory made for it. */
  predicate OnTheWay(disk: Disk, ps: seq<Placement>, q: Path) {
    exists i :: 0 <= i < |ps| && (q <= ParentParts(disk, ps[i]) || q <= TargetParts(disk, ps[i]))
  }

  /** Entries that are no targets stay, and whatever else is new is a directory on the way to a target. */
  ghost predicate EntriesKept(disk: Disk, fs: Fs, g: Fs, ps: seq<Placement>) {
    && (forall q | q in fs && !IsTarget(disk, ps, q) :: q in g && g[q] == fs[q])
    && (forall q | q in g && q !in fs && !IsTarget(disk, ps, q) :: g[q] == DirE && OnTheWay(disk, ps, q))
  }

  lemma {:induction false} StoreAllKeepsEntries(disk: Disk, fs: Fs, ps: seq<Placement>)
    requires StoreAll(disk, fs, ps).Ok?
    ensures EntriesKept(disk, fs, StoreAll(disk, fs, ps).value, ps)
    decreases |ps|
  {
    if ps != [] {
      var n := |ps| - 1;
      StoreAllKeepsEntries(disk, fs, ps[..n]);
      var before := StoreAll(disk, fs, ps[..n]).value;
      StoreOneTouches(disk, before, ps[n]);
      OneMoreKeepsEntries(disk, fs, before, StoreAll(disk, fs, ps).value, ps[..n], ps, n);
    }
  }

  lemma OneMoreKeepsEntries(disk: Disk, fs: Fs, before: Fs, g: Fs, front: seq<Placement>, ps: seq<Placement>, n: nat)
    requires n < |ps| && front == ps[..n] && EntriesKept(disk, fs, before, front)
    requires AddsOnlyDirs(before, g, ParentParts(disk, ps[n]), TargetParts(disk, ps[n]))
    ensures EntriesKept(disk, fs, g, ps)
  {
    forall q | !IsTarget(disk, ps, q) ensures !IsTarget(disk, front, q) && q != TargetParts(disk, ps[n]) {
      assert forall i | 0 <= i < n :: front[i] == ps[i];
    }
    forall q | OnTheWay(disk, front, q) ensures OnTheWay(disk, ps, q) {
      var i :| 0 <= i < |front| && (q <= ParentParts(disk, front[i]) || q <= TargetParts(disk, front[i]));
      assert front[i] == ps[i];
    }
    forall q | q in g && q !in fs && !IsTarget(disk, ps, q) ensures g[q] == DirE && OnTheWay(disk, ps, q) {
      if q in before { assert OnTheWay(disk, front, q); }
    }
  }

  lemma StoreAllNext(disk: Disk, fs: Fs, ps: seq<Placement>, k: nat)
    requires k < |ps| && StoreAll(disk, fs, ps[..k]).Ok?
    ensures StoreAll(disk, fs, ps[..k + 1]) == StoreOne(disk, StoreAll(disk, fs, ps[..k]).value, ps[k])
  {
    assert ps[..k + 1][..k] == ps[..k];
  }

  // ---------- interrupted runs ----------

  function TargetsOf(ps: seq<Placement>): set<string> {
    set p | p in ps :: p.target
  }

  /** After `k` logged files of a run that began with `base`, possibly cut off inside the next one:
      placing the next file leads where it would have led without the interruption,
      and only that file and directories on the way to it differ from before it was begun. */
  ghost predicate Midway(disk: Disk, base: Fs, fs: Fs, ps: seq<Placement>, k: nat, logged: set<string>) {
    && k <= |ps| && logged == TargetsOf(ps[..k])
    && StoreAll(disk, base, ps[..k]).Ok?
    && var before := StoreAll(disk, base, ps[..k]).value;
       if k < |ps| then CutOff(disk, before, fs, ps[k]) else fs == before
  }

  /** Every run starts midway, with nothing logged. */
  lemma StartsMidway(disk: Disk, base: Fs, ps: seq<Placement>)
    ensures Midway(disk, base, base, ps, 0, {})
  {
    assert ps[..0] == [];
  }

  /** Cut off again inside the same file. */
  lemma StaysMidway(disk: Disk, base: Fs, fs: Fs, ps: seq<Placement>, k: nat, logged: set<string>, next: Fs)
    requires Midway(disk, base, fs, ps, k, logged) && k < |ps|
    requires CutOff(disk, fs, next, ps[k])
    ensures Midway(disk, base, next, ps, k, logged)
  {
    var before := StoreAll(disk, base, ps[..k]).value;
    AddsOnlyDirsTransitive(before, fs, next, ParentParts(disk, ps[k]), TargetParts(disk, ps[k]));
  }

  /** The file is written and logged. */
  lemma MovesMidway(disk: Disk, base: Fs, fs: Fs, ps: seq<Placement>, k: nat, logged: set<string>, next: Fs)
    requires Midway(disk, base, fs, ps, k, logged) && k < |ps|
    requires StoreOne(disk, fs, ps[k]) == Ok(next)
    ensures Midway(disk, base, next, ps, k + 1, logged + {ps[k].target})
  {
    StoreAllNext(disk, base, ps, k);
    TargetsNext(ps, k);
    assert StoreAll(disk, base, ps[..k + 1]) == Ok(next);
  }

  /** A rerun meets no error of the disk where the uninterrupted run meets none. */
  lemma RefusedUninterrupted(disk: Disk, base: Fs, fs: Fs, ps: seq<Placement>, k: nat, logged: set<string>)
    requires Midway(disk, base, fs, ps, k, logged) && k < |ps| && StoreOne(disk, fs, ps[k]).Err?
    ensures StoreAll(disk, base, ps).Err?
  {
    StoreAllNext(disk, base, ps, k);
    RefusedOnce(disk, base, ps, k + 1);
  }

  lemma {:induction false} RefusedOnce(disk: Disk, base: Fs, ps: seq<Placement>, k: nat)
    requires k <= |ps| && StoreAll(disk, base, ps[..k]).Err?
    ensures StoreAll(disk, base, ps).Err?
    decreases |ps|
  {
    if k < |ps| {
      var front := ps[..|ps| - 1];
      assert front[..k] == ps[..k];
      RefusedOnce(disk, base, front, k);
    } else {
      assert ps[..k] == ps;
    }
  }

  /** No two placements name one file, and none announces more than it has. */
  predicate Separate(disk: Disk, ps: seq<Placement>) {
    DistinctFiles(disk, ps) && forall i | 0 <= i < |ps| :: |ps[i].data| >= ps[i].size
  }

  /** At every interruption, the targets of all logged files hold their bytes. */
  lemma LoggedTargetsHold(disk: Disk, base: Fs, fs: Fs, ps: seq<Placement>, k: nat, logged: set<string>)
    requires Midway(disk, base, fs, ps, k, logged) && Separate(disk, ps)
    ensures TargetsHold(disk, FilesOf(fs), ps[..k])
  {
    var done := ps[..k];
    assert forall i | 0 <= i < k :: done[i] == ps[i];
    StoreAllHolds(disk, base, done);
    var before := StoreAll(disk, base, done).value;
    forall i | 0 <= i < k
      ensures TargetParts(disk, done[i]) in FilesOf(fs) && FilesOf(fs)[TargetParts(disk, done[i])] == done[i].data
    {
      assert TargetParts(disk, done[i]) in FilesOf(before)
               && FilesOf(before)[TargetParts(disk, done[i])] == done[i].data;
      if k < |ps| { assert TargetParts(disk, done[i]) != TargetParts(disk, ps[k]); }
    }
  }

  /** At every interruption, nothing but the targets and directories on the way to them has changed. */
  lemma InterruptedKeepsEntries(disk: Disk, base: Fs, fs: Fs, ps: seq<Placement>, k: nat, logged: set<string>)
    requires Midway(disk, base, fs, ps, k, logged)
    ensures EntriesKept(disk, base, fs, ps)
  {
    StoreAllKeepsEntries(disk, base, ps[..k]);
    if k < |ps| {
      OneMoreKeepsEntries(disk, base, StoreAll(disk, base, ps[..k]).value, fs, ps[..k], ps, k);
    } else {
      assert ps[..k] == ps;
    }
  }

  /** What an interrupted run has done so far: logged files hold their bytes, and nothing off the way to a target has
      changed. */
  ghost predicate Progressed(disk: Disk, base: Fs, fs: Fs, ps: seq<Placement>, k: nat) {
    && k <= |ps| && EntriesKept(disk, base, fs, ps)
    && (Separate(disk, ps) ==> TargetsHold(disk, FilesOf(fs), ps[..k]))
  }

  lemma MidwayProgressed(disk: Disk, base: Fs, fs: Fs, ps: seq<Placement>, k: nat, logged: set<string>)
    ensures Midway(disk, base, fs, ps, k, logged) ==> Progressed(disk, base, fs, ps, k)
  {
    if Midway(disk, base, fs, ps, k, logged) {
      InterruptedKeepsEntries(disk, base, fs, ps, k, logged);
      if Separate(disk, ps) { LoggedTargetsHold(disk, base, fs, ps, k, logged); }
    }
  }

  /** Once all files are logged, the disk is as one uninterrupted run would have left it. */
  lemma EndsUninterrupted(disk: Disk, base: Fs, fs: Fs, ps: seq<Placement>, k: nat, logged: set<string>)
    ensures Midway(disk, base, fs, ps, k, logged) && k == |ps| ==> StoreAll(disk, base, ps) == Ok(fs)
  {
    assert ps[..|ps|] == ps;
  }

  lemma TargetsNext(ps: seq<Placement>, k: nat)
    requires k < |ps|
    ensures TargetsOf(ps[..k + 1]) == TargetsOf(ps[..k]) + {ps[k].target}
  {
    TakeNext(ps, k);
    forall p ensures p in ps[..k] + [ps[k]] <==> p in ps[..k] || p == ps[k] {
    }
  }

  /** No file still to come has the target of one of the first `k`, as when all targets are distinct, or nothing is
      logged yet. */
  predicate NoRepeats(ps: seq<Placement>, k: nat) {
    forall i | k <= i < |ps| :: ps[i].target !in TargetsOf(ps[..Min(k, |ps|)])
  }

  lemma DistinctNeverRepeats(ps: seq<Placement>, k: nat)
    requires DistinctTargets(ps)
    ensures NoRepeats(ps, k)
  {
  }

  lemma NothingRepeatsAtFirst(ps: seq<Placement>)
    ensures NoRepeats(ps, 0)
  {
  }

  predicate SkipsExactly(ps: seq<Placement>, k: nat, logged: set<string>) {
    forall i | 0 <= i < |ps| :: ps[i].target in logged <==> i < k
  }

  /** Exactly the files before `k` are skipped as already logged. */
  lemma SkippedAreLogged(ps: seq<Placement>, k: nat)
    requires NoRepeats(ps, k) && k <= |ps|
    ensures SkipsExactly(ps, k, TargetsOf(ps[..k]))
  {
    forall i | 0 <= i < k ensures ps[i].target in TargetsOf(ps[..k]) { assert ps[..k][i] == ps[i]; }
  }

  // ---------- install, then deinstall ----------

  predicate UnderEither(q: Path, a: Path, b: Path) { a <= q || b <= q }

  /** Placing files changes no file but their targets, whether or not these repeat or are announced rightly. */
  lemma {:induction false} StoreAllKeepsOthers(disk: Disk, fs: Fs, ps: seq<Placement>)
    requires StoreAll(disk, fs, ps).Ok?
    ensures OthersKept(disk, FilesOf(fs), FilesOf(StoreAll(disk, fs, ps).value), ps)
    decreases |ps|
  {
    if ps != [] {
      var n := |ps| - 1;
      var before := StoreAll(disk, fs, ps[..n]).value;
      StoreAllKeepsOthers(disk, fs, ps[..n]);
      StoreOneTouches(disk, before, ps[n]);
      forall q | !IsTarget(disk, ps, q) ensures !IsTarget(disk, ps[..n], q) && q != TargetParts(disk, ps[n]) {
        assert forall i | 0 <= i < n :: ps[..n][i] == ps[i];
      }
    }
  }

  /** Removing both title subtrees after an install leaves the files that removing them before it would have left. */
  lemma InstallThenDeinstall(disk: Disk, fs: Fs, ps: seq<Placement>, a: Path, b: Path)
    requires StoreAll(disk, fs, ps).Ok?
    requires forall i | 0 <= i < |ps| :: UnderEither(TargetParts(disk, ps[i]), a, b)
    ensures FilesOf(Without(Without(StoreAll(disk, fs, ps).value, a), b)) == FilesOf(Without(Without(fs, a), b))
  {
    StoreAllKeepsOthers(disk, fs, ps);
    var left := FilesOf(Without(Without(StoreAll(disk, fs, ps).value, a), b));
    var right := FilesOf(Without(Without(fs, a), b));
    forall q ensures (q in left <==> q in right) && (q in left ==> left[q] == right[q]) {
      if IsTarget(disk, ps, q) {
        assert UnderEither(q, a, b);
      }
    }
  }

  /** Removing a subtree twice is removing it once. */
  lemma SecondDeinstallIdle(fs: Fs, a: Path, b: Path)
    ensures Without(Without(Without(Without(fs, a), b), a), b) == Without(Without(fs, a), b)
  {
  }
}
