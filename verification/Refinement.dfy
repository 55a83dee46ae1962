/** The native engine against the simulation: the same results and the same view, operation by operation. */
module Refinement {
  import opened Bytes
  import opened WfsPath
  import opened FlatFs
  import opened AdapterSpec
  import Hex

  /** A call on an adapter; StoreOp is the writer's pair of create_file and a write of the whole file. */
  datatype Op =
    | MkdirOp(path: string)
    | CreateOp(path: string, size: nat)
    | WriteOp(path: string, data: seq<byte>)
    | StoreOp(path: string, size: nat, data: seq<byte>)
    | DeleteOp(path: string)
    | ListOp
    | CheckOp(path: string)

  datatype Answer = Done | Titles(titles: set<string>) | Checked(report: Report)

  datatype Step = Step(fs: Fs, answer: Answer)

  function Changed(r: Result<Fs, FsError>): Result<Step, FsError> {
    match r
    case Ok(fs) => Ok(Step(fs, Done))
    case Err(e) => Err(e)
  }

  ghost function Perform(backend: Backend, fs: Fs, op: Op): Result<Step, FsError> {
    match op
    case MkdirOp(path) => Changed(MkdirSpec(backend, true, fs, path))
    case CreateOp(path, size) => Changed(CreateSpec(backend, true, fs, path, size))
    case WriteOp(path, data) => Changed(WriteSpec(backend, true, fs, path, data, 0))
    case StoreOp(path, size, data) =>
      (match CreateSpec(backend, true, fs, path, size)
       case Err(e) => Err(e)
       case Ok(created) => Changed(WriteSpec(backend, true, created, path, data, 0)))
    case DeleteOp(path) => Changed(DeleteSpec(backend, true, fs, path))
    case ListOp =>
      (match ListTitlesSpec(backend, true, fs)
       case Err(e) => Err(e)
       case Ok(titles) => Ok(Step(fs, Titles(titles))))
    case CheckOp(path) =>
      (match IntegritySpec(backend, true, fs, path)
       case Err(e) => Err(e)
       case Ok(report) => Ok(Step(fs, Checked(report))))
  }

  /** The path text ends in a character both backends keep. */
  predicate CleanText(op: Op) {
    !op.ListOp? ==> op.path != "" && !Hex.IsWhitespace(op.path[|op.path| - 1])
  }

  /** Creating over a file that is there: what the native engine keeps of it is zero anyway. */
  predicate KeepsNothing(fs: Fs, path: string, size: nat) {
    var p := PartsOf(path);
    p in fs && fs[p].FileE? ==>
      forall i | 0 <= i < Min(|fs[p].data|, size) :: fs[p].data[i] == 0
  }

  predicate Agreeable(fs: Fs, op: Op) {
    && CleanText(op)
    && (op.CreateOp? ==> KeepsNothing(fs, op.path, op.size))
    && (op.StoreOp? ==> |op.data| >= op.size)
    && (op.CheckOp? ==> !KeepsSlash(op.path) || !IsDir(fs, PartsOf(op.path)))
  }

  lemma TargetsSame(path: string, leaf: bool)
    requires path != "" && !Hex.IsWhitespace(path[|path| - 1])
    requires Target(Native, path, leaf).Ok?
    ensures Target(Simulated, path, leaf) == Target(Native, path, leaf) == Ok(PartsOf(path))
  {
    TargetsAgree(path, leaf);
  }

  /** For a path the native engine accepts, clean text is exactly what makes the two backends act on the same
      components. */
  lemma TargetsSameIffClean(op: Op, leaf: bool)
    requires !op.ListOp? && Target(Native, op.path, leaf).Ok?
    ensures Target(Simulated, op.path, leaf) == Target(Native, op.path, leaf) <==> CleanText(op)
  {
    TargetsAgree(op.path, leaf);
  }

  lemma KeepsNothingIff(was: seq<byte>, size: nat)
    ensures Resize(was, size) == Zeros(size) <==> forall i | 0 <= i < Min(|was|, size) :: was[i] == 0
  {
    if Resize(was, size) == Zeros(size) {
      forall i | 0 <= i < Min(|was|, size) ensures was[i] == 0 {
        assert Resize(was, size)[i] == was[i];
      }
    }
  }

  /** A create_file that the native engine completes has the same effect in the simulation exactly when it keeps no old
      byte. */
  lemma CreateAgreesIff(fs: Fs, path: string, size: nat)
    requires CleanText(CreateOp(path, size))
    requires Perform(Native, fs, CreateOp(path, size)).Ok?
    ensures Perform(Simulated, fs, CreateOp(path, size)).Ok?
    ensures Perform(Simulated, fs, CreateOp(path, size)) == Perform(Native, fs, CreateOp(path, size))
            <==> KeepsNothing(fs, path, size)
  {
    TargetsSame(path, true);
    var p := PartsOf(path);
    var native, simulated :=
          CreateSpec(Native, true, fs, path, size).value, CreateSpec(Simulated, true, fs, path, size).value;
    assert native[p] == FileE(Created(Native, fs, p, size)) && simulated[p] == FileE(Zeros(size));
    if p in fs && fs[p].FileE? { KeepsNothingIff(fs[p].data, size); }
  }

  /** Creating over old bytes is where the two backends part. */
  lemma CreateDiffers()
    ensures var fs: Fs := map[[] := DirE, ["a"] := FileE([7])];
            && WellFormed(fs)
            && Perform(Native, fs, CreateOp("/a", 1)).Ok?
            && Perform(Simulated, fs, CreateOp("/a", 1)) != Perform(Native, fs, CreateOp("/a", 1))
  {
    var fs: Fs := map[[] := DirE, ["a"] := FileE([7])];
    RenderRoundTrip(["a"]);
    assert Render(["a"]) == "/a" by { assert RenderTail([]) == "" && ["a"][1..] == []; }
    assert Parent(["a"]) == [];
    assert !Blocked(fs, []);
    assert fs[["a"]].data[0] == 7;
    CreateAgreesIff(fs, "/a", 1);
  }

  /** Where there is no directory, there is nothing inside, not even under the empty name. */
  lemma NothingInside(fs: Fs, p: Path)
    requires WellFormed(fs) && !Blocked(fs, p) && !IsDir(fs, p)
    ensures IntegrityFs(fs, p + [""]) == IntegrityFs(fs, p) == Report(false, 0, 0)
  {
    assert Parent(p + [""]) == p;
    assert p + [""] in fs ==> IsDir(fs, p);
    NothingThere(fs, p + [""]);
    assert p[..|p|] == p;
    NothingThere(fs, p);
  }

  /** A check that the native engine completes has the same answer in the simulation exactly when the scope does not end
      in a slash, other than that of the root, or is no directory. */
  lemma CheckAgreesIff(fs: Fs, path: string)
    requires WellFormed(fs) && CleanText(CheckOp(path)) && PartsOf(path) + [""] !in fs
    requires Perform(Native, fs, CheckOp(path)).Ok?
    ensures Perform(Simulated, fs, CheckOp(path)) == Perform(Native, fs, CheckOp(path))
            <==> !KeepsSlash(path) || !IsDir(fs, PartsOf(path))
  {
    TargetsSame(path, false);
    var p := PartsOf(path);
    if KeepsSlash(path) {
      assert Parent(p + [""]) == p;
      if IsDir(fs, p) { NothingThere(fs, p + [""]); } else { NothingInside(fs, p); }
    }
  }

  /** A scope with a slash at its end is missing for the native engine, even though the directory is there. */
  lemma CheckDiffers()
    ensures var fs: Fs := map[[] := DirE, ["usr"] := DirE];
            && WellFormed(fs)
            && Perform(Native, fs, CheckOp("/usr/")).Ok?
            && Perform(Simulated, fs, CheckOp("/usr/")) != Perform(Native, fs, CheckOp("/usr/"))
  {
    var fs: Fs := map[[] := DirE, ["usr"] := DirE];
    PartsOfUsr();
    UsrIsThere(fs);
    CheckAgreesIff(fs, "/usr/");
  }

  lemma UsrIsThere(fs: Fs)
    requires fs == map[[] := DirE, ["usr"] := DirE]
    ensures WellFormed(fs) && !Blocked(fs, ["usr"]) && IsDir(fs, ["usr"]) && ["usr"] + [""] !in fs
    ensures Parent(["usr"] + [""]) == ["usr"]
  {
    assert Parent(["usr"]) == [];
    assert |["usr"] + [""]| == 2;
  }

  lemma PartsOfUsr()
    ensures PartsOf("/usr/") == ["usr"] && NativeTarget("/usr/", false) == Ok(["usr"])
  {
    PartsOfCons("usr", "/");
    assert "/" + "usr" + "/" == "/usr/";
    assert PartsOf("/") == PartsOf("") == [];
  }

  /** Writing at least as much as was created leaves just the data, whatever was created. */
  lemma WholeWrite(backend: Backend, dirs: Fs, p: Path, blank: seq<byte>, data: seq<byte>)
    requires p != [] && |data| >= |blank|
    requires var created := dirs[p := FileE(blank)];
             !Blocked(created, Parent(p)) && AddDirs(created, Parent(p)) == created
    ensures WriteFs(backend, dirs[p := FileE(blank)], p, data, 0) == Ok(dirs[p := FileE(data)])
  {
    var created := dirs[p := FileE(blank)];
    OverlayAtStart(blank, data);
    assert OverlayAt(created[p].data, data, 0) == data;
    assert created[p := FileE(data)] == dirs[p := FileE(data)];
  }

  lemma StoreAgrees(fs: Fs, path: string, size: nat, data: seq<byte>)
    requires CleanText(StoreOp(path, size, data)) && |data| >= size
    requires Perform(Native, fs, StoreOp(path, size, data)).Ok?
    ensures Perform(Simulated, fs, StoreOp(path, size, data)) == Perform(Native, fs, StoreOp(path, size, data))
  {
    TargetsSame(path, true);
    var p := PartsOf(path);
    var dirs, kept := AddDirs(fs, Parent(p)), Created(Native, fs, p, size);
    AncestorsReady(fs, p, dirs[p := FileE(kept)]);
    WholeWrite(Native, dirs, p, kept, data);
    AncestorsReady(fs, p, dirs[p := FileE(Zeros(size))]);
    WholeWrite(Simulated, dirs, p, Zeros(size), data);
  }

  /** After creating a file its ancestors are there, so writing it adds no directory. */
  lemma AncestorsReady(fs: Fs, p: Path, created: Fs)
    requires p != [] && !Blocked(fs, Parent(p))
    requires p in created && created[p].FileE? && created == AddDirs(fs, Parent(p))[p := created[p]]
    ensures !Blocked(created, Parent(p)) && AddDirs(created, Parent(p)) == created
  {
    var parent := Parent(p);
    forall q | q in Prefixes(parent) ensures IsDir(created, q) {
      InPrefixes(parent, q);
      assert q == parent[..|q|];
    }
    forall i | 0 <= i <= |parent| ensures IsDir(created, parent[..i]) {
      InPrefixes(parent, parent[..i]);
    }
  }

  /** What the native engine completes, the simulation completes with the same answer and the same view. */
  lemma OperationAgrees(fs: Fs, op: Op)
    requires WellFormed(fs) && Agreeable(fs, op)
    requires Perform(Native, fs, op).Ok?
    ensures Perform(Simulated, fs, op) == Perform(Native, fs, op)
    ensures WellFormed(Perform(Native, fs, op).value.fs)
  {
    match op {
      case MkdirOp(path) =>
        TargetsSame(path, false);
        OperationsKeepWellFormed(Native, fs, PartsOf(path), 0, [], 0);
      case CreateOp(path, size) =>
        TargetsSame(path, true);
        CreateAgreesIff(fs, path, size);
        OperationsKeepWellFormed(Native, fs, PartsOf(path), size, [], 0);
      case WriteOp(path, data) =>
        TargetsSame(path, true);
        var p := PartsOf(path);
        OperationsKeepWellFormed(Native, fs, p, 0, data, 0);
        ExistingNotBlocked(fs, Parent(p));
      case StoreOp(path, size, data) =>
        TargetsSame(path, true);
        var p := PartsOf(path);
        StoreAgrees(fs, path, size, data);
        OperationsKeepWellFormed(Native, fs, p, size, [], 0);
        OperationsKeepWellFormed(Native, CreateSpec(Native, true, fs, path, size).value, p, 0, data, 0);
      case DeleteOp(path) =>
        TargetsSame(path, true);
        OperationsKeepWellFormed(Native, fs, PartsOf(path), 0, [], 0);
      case ListOp =>
      case CheckOp(path) =>
        TargetsSame(path, false);
        if KeepsSlash(path) { NothingInside(fs, PartsOf(path)); }
    }
  }

  /** Running operations until the first that fails. */
  ghost function Run(backend: Backend, fs: Fs, ops: seq<Op>): Result<(Fs, seq<Answer>), FsError>
    decreases |ops|
  {
    if ops == [] then Ok((fs, []))
    else
      match Perform(backend, fs, ops[0])
      case Err(e) => Err(e)
      case Ok(step) =>
        match Run(backend, step.fs, ops[1..])
        case Err(e) => Err(e)
        case Ok((last, answers)) => Ok((last, [step.answer] + answers))
  }

  /** Every operation is agreeable when its turn comes in the native run. */
  ghost predicate AllAgreeable(fs: Fs, ops: seq<Op>)
    decreases |ops|
  {
    ops != [] ==>
      && Agreeable(fs, ops[0])
      && (Perform(Native, fs, ops[0]).Ok? ==> AllAgreeable(Perform(Native, fs, ops[0]).value.fs, ops[1..]))
  }

  /** Any sequence that the native engine completes gives the same answers and the same view in the simulation. */
  lemma {:induction false} RunsAgree(fs: Fs, ops: seq<Op>)
    requires WellFormed(fs) && AllAgreeable(fs, ops)
    requires Run(Native, fs, ops).Ok?
    ensures Run(Simulated, fs, ops) == Run(Native, fs, ops)
    decreases |ops|
  {
    if ops != [] {
      OperationAgrees(fs, ops[0]);
      RunsAgree(Perform(Native, fs, ops[0]).value.fs, ops[1..]);
    }
  }

  // ---------- failure atomicity and preservation, on both backends ----------

  /** mkdir keeps every file, adds only directories on the way, and does nothing to a directory that is there. */
  lemma MkdirPreserves(fs: Fs, p: Path)
    requires WellFormed(fs)
    ensures MkdirFs(fs, p).Ok? ==>
              && FilesOf(MkdirFs(fs, p).value) == FilesOf(fs)
              && (forall q | q in MkdirFs(fs, p).value && q !in fs :: q <= p && MkdirFs(fs, p).value[q] == DirE)
    ensures IsDir(fs, p) ==> MkdirFs(fs, p) == Ok(fs)
  {
    if IsDir(fs, p) { ExistingNotBlocked(fs, p); }
    forall q ensures q in Prefixes(p) <==> q <= p { InPrefixes(p, q); }
  }

  /** create_file keeps the bytes of every other file, and adds only the file and directories on the way to it. */
  lemma CreatePreserves(backend: Backend, fs: Fs, p: Path, size: nat)
    requires WellFormed(fs) && CreateFs(backend, fs, p, size).Ok?
    ensures var g := CreateFs(backend, fs, p, size).value;
            && FilesOf(g) == FilesOf(fs)[p := Created(backend, fs, p, size)]
            && (forall q | q in g && q !in fs :: q == p || (q <= Parent(p) && g[q] == DirE))
  {
    var dirs := AddDirs(fs, Parent(p));
    MkdirPreserves(fs, Parent(p));
    assert FilesOf(dirs) == FilesOf(fs);
    PutFile(dirs, p, Created(backend, fs, p, size));
  }

  lemma PutFile(fs: Fs, p: Path, data: seq<byte>)
    ensures FilesOf(fs[p := FileE(data)]) == FilesOf(fs)[p := data]
  {
  }
}
