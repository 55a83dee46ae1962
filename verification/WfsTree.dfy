/** The directory tree on the device, and the flat view of it. */
module WfsTree {
  import opened Bytes
  import opened WfsPath
  import opened FlatFs

  datatype Node = File(data: seq<byte>) | Dir(entries: map<string, Node>) | Other

  function EntryOf(n: Node): Entry {
    match n
    case File(data) => FileE(data)
    case Dir(_) => DirE
    case Other => OtherE
  }

  function Get(n: Node, p: Path): Option<Node>
    decreases |p|
  {
    if p == [] then Some(n)
    else if n.Dir? && p[0] in n.entries then Get(n.entries[p[0]], p[1..])
    else None
  }

  /** `n` with `x` at `p`, when the directories on the way are there. */
  function Put(n: Node, p: Path, x: Node): Node
    decreases |p|
  {
    if p == [] then x
    else if !n.Dir? then n
    else if |p| == 1 then Dir(n.entries[p[0] := x])
    else if p[0] in n.entries then Dir(n.entries[p[0] := Put(n.entries[p[0]], p[1..], x)])
    else n
  }

  /** `n` without the entry at `p`. */
  function Drop(n: Node, p: Path): Node
    requires p != []
    decreases |p|
  {
    if !n.Dir? || p[0] !in n.entries then n
    else if |p| == 1 then Dir(n.entries - {p[0]})
    else Dir(n.entries[p[0] := Drop(n.entries[p[0]], p[1..])])
  }

  function Paths(n: Node): set<Path>
    decreases n
  {
    match n
    case Dir(entries) => {[]} + set k, q | k in entries && q in Paths(entries[k]) :: [k] + q
    case _ => {[]}
  }

  lemma {:induction false} PathsAreReachable(n: Node, p: Path)
    ensures p in Paths(n) <==> Get(n, p).Some?
    decreases |p|
  {
    if p != [] && n.Dir? {
      if p[0] in n.entries { PathsAreReachable(n.entries[p[0]], p[1..]); }
      assert p == [p[0]] + p[1..];
    }
  }

  /** The flat view of the tree below `n`. */
  function View(n: Node): Fs {
    map p | p in Paths(n) && Get(n, p).Some? :: EntryOf(Get(n, p).value)
  }

  function At(n: Node, p: Path): Option<Entry> {
    var found := Get(n, p);
    if found.Some? then Some(EntryOf(found.value)) else None
  }

  function Lookup(fs: Fs, p: Path): Option<Entry> {
    if p in fs then Some(fs[p]) else None
  }

  lemma ViewIsAt(n: Node, p: Path)
    ensures Lookup(View(n), p) == At(n, p)
  {
    PathsAreReachable(n, p);
  }

  lemma SameLookups(f: Fs, g: Fs)
    requires forall q :: Lookup(f, q) == Lookup(g, q)
    ensures f == g
  {
    forall q ensures (q in f <==> q in g) && (q in f ==> f[q] == g[q]) {
      assert Lookup(f, q) == Lookup(g, q);
    }
  }

  predicate Leaf(n: Node) { n.Dir? ==> n.entries == map[] }

  lemma {:induction false} AtPut(n: Node, p: Path, x: Node, q: Path)
    requires p != [] && Leaf(x) && At(n, Parent(p)) == Some(DirE)
    ensures At(Put(n, p, x), q) == if q == p then Some(EntryOf(x)) else if p <= q then None else At(n, q)
    decreases |p|
  {
    if |p| > 1 {
      assert Parent(p)[1..] == Parent(p[1..]) && Parent(p)[0] == p[0];
    }
    if q == [] {
    } else if q[0] != p[0] {
    } else if |p| == 1 {
      assert Parent(p) == [];
      assert q == p <==> q[1..] == [];
      assert Get(Put(n, p, x), q) == Get(x, q[1..]);
    } else {
      AtPut(n.entries[p[0]], p[1..], x, q[1..]);
      assert q == p <==> q[1..] == p[1..];
      assert p <= q <==> p[1..] <= q[1..];
    }
  }

  lemma {:induction false} AtDrop(n: Node, p: Path, q: Path)
    requires p != []
    ensures At(Drop(n, p), q) == if p <= q then None else At(n, q)
    decreases |p|
  {
    if q == [] || !n.Dir? || p[0] !in n.entries || q[0] != p[0] {
    } else if |p| > 1 {
      AtDrop(n.entries[p[0]], p[1..], q[1..]);
      assert p <= q <==> p[1..] <= q[1..];
    }
  }

  /** Putting a file or an empty directory where there is nothing, or a leaf, changes one entry of the view. */
  lemma ViewPut(n: Node, p: Path, x: Node)
    requires p != [] && Leaf(x) && At(n, Parent(p)) == Some(DirE)
    requires forall q :: p < q ==> At(n, q) == None
    ensures View(Put(n, p, x)) == View(n)[p := EntryOf(x)]
  {
    forall q ensures Lookup(View(Put(n, p, x)), q) == Lookup(View(n)[p := EntryOf(x)], q) {
      ViewIsAt(Put(n, p, x), q);
      ViewIsAt(n, q);
      AtPut(n, p, x, q);
    }
    SameLookups(View(Put(n, p, x)), View(n)[p := EntryOf(x)]);
  }

  lemma ViewDrop(n: Node, p: Path)
    requires p != []
    ensures View(Drop(n, p)) == Without(View(n), p)
  {
    forall q ensures Lookup(View(Drop(n, p)), q) == Lookup(Without(View(n), p), q) {
      ViewIsAt(Drop(n, p), q);
      ViewIsAt(n, q);
      AtDrop(n, p, q);
    }
    SameLookups(View(Drop(n, p)), Without(View(n), p));
  }

  lemma {:induction false} ParentIsDir(n: Node, p: Path)
    requires p != [] && At(n, p).Some?
    ensures At(n, Parent(p)) == Some(DirE)
    decreases |p|
  {
    if |p| > 1 {
      ParentIsDir(n.entries[p[0]], p[1..]);
      assert Parent(p)[1..] == Parent(p[1..]) && Parent(p)[0] == p[0];
    }
  }

  /** The view of a tree whose root is a directory is well formed. */
  lemma ViewWellFormed(n: Node)
    requires n.Dir?
    ensures WellFormed(View(n)) && IsDir(View(n), [])
  {
    ViewIsAt(n, []);
    forall p {:trigger Parent(p)} | p in View(n) && p != []
      ensures IsDir(View(n), Parent(p))
    {
      ViewIsAt(n, p);
      ParentIsDir(n, p);
      ViewIsAt(n, Parent(p));
    }
  }

  /** Nothing lies below an entry that is not a directory, nor below an absent one. */
  lemma {:induction false} NothingBelow(n: Node, p: Path, q: Path)
    requires p < q
    requires At(n, p) != Some(DirE)
    ensures At(n, q) == None
    decreases |p|
  {
    if p != [] && n.Dir? && p[0] in n.entries {
      NothingBelow(n.entries[p[0]], p[1..], q[1..]);
    }
  }

  /** The names directly in a directory. */
  function ChildNames(n: Node, p: Path): set<string> {
    var found := Get(n, p);
    if found.Some? && found.value.Dir? then found.value.entries.Keys else {}
  }

  lemma {:induction false} GetChild(n: Node, p: Path, name: string)
    ensures At(n, p + [name]).Some? <==> name in ChildNames(n, p)
    decreases |p|
  {
    if p == [] {
      assert p + [name] == [name] && [name][1..] == [];
      assert Get(n, [name]) == if n.Dir? && name in n.entries then Some(n.entries[name]) else None;
    } else if n.Dir? && p[0] in n.entries {
      assert (p + [name])[1..] == p[1..] + [name];
      GetChild(n.entries[p[0]], p[1..], name);
    }
  }
}
