/** The work directory of one title: the files the downloader and the decryptor read and write. */
module LocalStore {
  import opened Bytes

  /** A file of the work directory, by the role of its name. */
  datatype LocalName =
    | Tmd
    | Cetk
    | ContentBin
    | App(id: string)
    | Dec(id: string)
    | Part(of: LocalName, index: nat)

  type Files = map<LocalName, seq<byte>>

  predicate SameFile(f: Files, g: Files, name: LocalName) {
    && (name in f <==> name in g)
    && (name in f ==> f[name] == g[name])
  }

  /** `g` differs from `f` at most in `dest` and in the part files of `dest`. */
  ghost predicate OnlyTouches(f: Files, g: Files, dest: LocalName) {
    forall name :: name == dest || (name.Part? && name.of == dest) || SameFile(f, g, name)
  }

  lemma {:induction false} PartIsNotWhole(dest: LocalName, index: nat)
    ensures Part(dest, index) != dest
  {
    if dest.Part? { PartIsNotWhole(dest.of, dest.index); }
  }

  /** A change to one part file. */
  lemma OnlyPartTouched(f: Files, g: Files, dest: LocalName, index: nat)
    requires forall name | name != Part(dest, index) :: SameFile(f, g, name)
    ensures OnlyTouches(f, g, dest) && SameFile(f, g, dest)
  {
    PartIsNotWhole(dest, index);
  }

  lemma OnlyTouchesTransitive(f: Files, g: Files, h: Files, dest: LocalName)
    requires OnlyTouches(f, g, dest) && OnlyTouches(g, h, dest)
    ensures OnlyTouches(f, h, dest)
  {
    forall name | name != dest && !(name.Part? && name.of == dest)
      ensures SameFile(f, h, name)
    {
      assert SameFile(f, g, name) && SameFile(g, h, name);
    }
  }

  lemma Overwritten(f: Files, dest: LocalName, first: seq<byte>, second: seq<byte>)
    ensures f[dest := first][dest := second] == f[dest := second]
  {
  }

  class WorkDir {
    var files: Files

    /** How often a request for one of the files has been sent, or given up just before. */
    ghost var tries: nat

    constructor ()
      ensures files == map[] && tries == 0
    {
      files, tries := map[], 0;
    }
  }
}
