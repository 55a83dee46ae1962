/** The device as the foreign library offers it: directories and files are handles, here their paths. */
module WfsDevice {
  import opened Bytes
  import opened WfsPath
  import opened FlatFs
  import opened WfsTree

  datatype DeviceError = EntryNotFound | NotADirectory | NotAFile | AlreadyExists | NotEmpty

  class Device {
    var root: Node

    ghost predicate Valid()
      reads this
    {
      root.Dir?
    }

    ghost function Files(): Fs
      reads this
    {
      View(root)
    }

    constructor ()
      ensures Valid() && Files() == map[[] := DirE]
    {
      root := Dir(map[]);
      new;
      forall q ensures Lookup(View(root), q) == Lookup(map[[] := DirE], q) { ViewIsAt(root, q); }
      SameLookups(View(root), map[[] := DirE]);
    }

    method GetEntry(p: Path) returns (r: Option<Entry>)
      ensures r == Lookup(Files(), p)
    {
      ViewIsAt(root, p);
      return At(root, p);
    }

    method GetDirectory(dir: Path, name: string) returns (r: Result<Path, DeviceError>)
      ensures var p := dir + [name];
              r == if p !in Files() then Err(EntryNotFound) else if Files()[p] == DirE then Ok(p)
                  else Err(NotADirectory)
    {
      var entry := GetEntry(dir + [name]);
      match entry {
        case None => return Err(EntryNotFound);
        case Some(DirE) => return Ok(dir + [name]);
        case Some(_) => return Err(NotADirectory);
      }
    }

    method GetFile(dir: Path, name: string) returns (r: Result<Path, DeviceError>)
      ensures var p := dir + [name];
              r == if p !in Files() then Err(EntryNotFound) else if Files()[p].FileE? then Ok(p) else Err(NotAFile)
    {
      var entry := GetEntry(dir + [name]);
      match entry {
        case None => return Err(EntryNotFound);
        case Some(FileE(_)) => return Ok(dir + [name]);
        case Some(_) => return Err(NotAFile);
      }
    }

    /** Put a leaf at a path whose directory is there and that has nothing below it. */
    method Store(p: Path, x: Node)
      requires Valid() && p != [] && Leaf(x) && IsDir(Files(), Parent(p))
      requires p in Files() ==> Files()[p] != DirE
      modifies this
      ensures Valid() && Files() == old(Files())[p := EntryOf(x)]
    {
      ViewIsAt(root, Parent(p));
      ViewIsAt(root, p);
      forall q | p < q ensures At(root, q) == None { NothingBelow(root, p, q); }
      ViewPut(root, p, x);
      root := Put(root, p, x);
    }

    method CreateDirectory(dir: Path, name: string) returns (r: Result<Path, DeviceError>)
      requires Valid() && IsDir(Files(), dir)
      modifies this
      ensures Valid()
      ensures var p := dir + [name];
              if p in old(Files()) then r == Err(AlreadyExists) && Files() == old(Files())
              else r == Ok(p) && Files() == old(Files())[p := DirE]
    {
      var p := dir + [name];
      assert Parent(p) == dir;
      var entry := GetEntry(p);
      if entry.Some? { return Err(AlreadyExists); }
      Store(p, Dir(map[]));
      return Ok(p);
    }

    method CreateFile(dir: Path, name: string, size: nat) returns (r: Result<Path, DeviceError>)
      requires Valid() && IsDir(Files(), dir)
      modifies this
      ensures Valid()
      ensures var p := dir + [name];
              if p in old(Files()) then r == Err(AlreadyExists) && Files() == old(Files())
              else r == Ok(p) && Files() == old(Files())[p := FileE(Zeros(size))]
    {
      var p := dir + [name];
      assert Parent(p) == dir;
      var entry := GetEntry(p);
      if entry.Some? { return Err(AlreadyExists); }
      Store(p, File(Zeros(size)));
      return Ok(p);
    }

    method FileContents(p: Path) returns (data: seq<byte>)
      requires p in Files() && Files()[p].FileE?
      ensures data == Files()[p].data
    {
      ViewIsAt(root, p);
      return At(root, p).value.data;
    }

    method SetContents(p: Path, data: seq<byte>)
      requires Valid() && p in Files() && Files()[p].FileE?
      modifies this
      ensures Valid() && Files() == old(Files())[p := FileE(data)]
    {
      ViewWellFormed(root);
      assert p != [] && Parent(p) in Files();
      Store(p, File(data));
    }

    /** A directory can only be deleted when it is empty. */
    method DeleteEntry(dir: Path, name: string) returns (r: Result<(), DeviceError>)
      requires Valid()
      modifies this
      ensures Valid()
      ensures var p := dir + [name];
              if p !in old(Files()) then r == Err(EntryNotFound) && Files() == old(Files())
              else if exists child :: p + [child] in old(Files()) then r == Err(NotEmpty) && Files() == old(Files())
              else r == Ok(()) && Files() == Without(old(Files()), p)
    {
      var p := dir + [name];
      var entry := GetEntry(p);
      if entry.None? { return Err(EntryNotFound); }
      forall child ensures child in ChildNames(root, p) <==> p + [child] in Files() {
        GetChild(root, p, child);
        ViewIsAt(root, p + [child]);
      }
      if ChildNames(root, p) != {} {
        ghost var child :| child in ChildNames(root, p);
        assert p + [child] in Files();
        return Err(NotEmpty);
      }
      ViewDrop(root, p);
      root := Drop(root, p);
      return Ok(());
    }

    /** The names in a directory, each once, in some order. */
    method Children(dir: Path) returns (names: seq<string>)
      ensures forall name :: name in names <==> dir + [name] in Files()
      ensures forall i, j | 0 <= i < j < |names| :: names[i] != names[j]
    {
      var rest := ChildNames(root, dir);
      names := [];
      while rest != {}
        invariant forall name :: name in ChildNames(root, dir) <==> name in names || name in rest
        invariant forall name | name in names :: name !in rest
        invariant forall i, j | 0 <= i < j < |names| :: names[i] != names[j]
        decreases rest
      {
        var name :| name in rest;
        names, rest := names + [name], rest - {name};
      }
      forall name ensures name in names <==> dir + [name] in Files() {
        GetChild(root, dir, name);
        ViewIsAt(root, dir + [name]);
      }
    }
  }
}
