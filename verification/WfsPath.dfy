/** Path strings and the components they name, as the native engine and the simulated adapter read them. */
module WfsPath {
  import opened Bytes
  import Hex

  type Path = seq<string>

  datatype PathError = NotAbsolute | Traversal | RootNotAllowed | EmptyLeaf

  function FirstPart(s: string): (part: string)
    ensures part <= s && '/' !in part
    ensures s != "" && s[0] != '/' ==> part != ""
    ensures |part| < |s| ==> s[|part|] == '/'
  {
    if s == "" || s[0] == '/' then "" else [s[0]] + FirstPart(s[1..])
  }

  /** The components of a path: empty ones do not count. */
  function PartsOf(s: string): seq<string>
    decreases |s|
  {
    if s == "" then []
    else if s[0] == '/' then PartsOf(s[1..])
    else
      var part := FirstPart(s);
      [part] + PartsOf(s[|part|..])
  }

  /** split_parts of the native engine, as its loop. */
  method SplitParts(path: string) returns (parts: Path)
    ensures parts == PartsOf(path)
  {
    parts := [];
    var rest := path;
    while rest != ""
      invariant parts + PartsOf(rest) == PartsOf(path)
      decreases |rest|
    {
      if rest[0] == '/' {
        rest := rest[1..];
      } else {
        var token := FirstPart(rest);
        assert parts + ([token] + PartsOf(rest[|token|..])) == (parts + [token]) + PartsOf(rest[|token|..]);
        parts := parts + [token];
        rest := rest[|token|..];
      }
    }
  }

  /** The components a native operation acts on; `leaf` asks for a path that names an entry below the root. */
  function NativeTarget(path: string, leaf: bool): Result<Path, PathError> {
    if path == "" || path[0] != '/' then Err(NotAbsolute)
    else if "." in PartsOf(path) || ".." in PartsOf(path) then Err(Traversal)
    else if leaf && PartsOf(path) == [] then Err(RootNotAllowed)
    else if leaf && path[|path| - 1] == '/' then Err(EmptyLeaf)
    else Ok(PartsOf(path))
  }

  /** The text ends in a slash that the native engine keeps: only that of the root goes. */
  predicate KeepsSlash(path: string) {
    path != "" && path[|path| - 1] == '/' && PartsOf(path) != []
  }

  /** The components that integrity_check of the native engine looks up: behind a slash that is kept, the empty name. */
  function ScopeParts(path: string): Path {
    if KeepsSlash(path) then PartsOf(path) + [""] else PartsOf(path)
  }

  function WithoutDots(parts: Path): Path {
    if parts == [] then []
    else if parts[0] == "." then WithoutDots(parts[1..])
    else [parts[0]] + WithoutDots(parts[1..])
  }

  /** The components a simulated operation acts on: outer white space and "." components are dropped. */
  function SimulatedTarget(path: string): Result<Path, PathError> {
    var stripped := Hex.Strip(path);
    if stripped == "" || stripped[0] != '/' then Err(NotAbsolute)
    else
      var parts := WithoutDots(PartsOf(stripped));
      if ".." in parts then Err(Traversal) else Ok(parts)
  }

  lemma {:induction false} NoDotsToDrop(parts: Path)
    requires "." !in parts
    ensures WithoutDots(parts) == parts
  {
    if parts != [] { NoDotsToDrop(parts[1..]); }
  }

  /** The characters of all components together. */
  function CharsIn(parts: Path): nat {
    if parts == [] then 0 else |parts[0]| + CharsIn(parts[1..])
  }

  lemma {:induction false} DotsDropChars(parts: Path)
    ensures CharsIn(WithoutDots(parts)) <= CharsIn(parts)
  {
    if parts != [] { DotsDropChars(parts[1..]); }
  }

  /** One character after a path, which is no slash, is one more character in its components. */
  lemma {:induction false} OneMoreChar(s: string, c: char)
    requires c != '/'
    ensures CharsIn(PartsOf(s + [c])) == CharsIn(PartsOf(s)) + 1
    decreases |s|
  {
    var t := s + [c];
    if s == "" {
      assert t == [c] && t[1..] == "";
      assert FirstPart(t) == [c] + FirstPart("") == t;
      assert PartsOf(t) == [t] + PartsOf(t[1..]);
    } else if s[0] == '/' {
      assert t[1..] == s[1..] + [c];
      OneMoreChar(s[1..], c);
    } else {
      var part := FirstPart(s);
      if |part| == |s| {
        NoSlashIsOnePart(t);
        NoSlashIsOnePart(s);
      } else {
        PartBeforeSlash(s, [c]);
        assert t[|part|..] == s[|part|..] + [c];
        OneMoreChar(s[|part|..], c);
      }
    }
  }

  lemma {:induction false} NoSlashIsOnePart(s: string)
    requires s != "" && '/' !in s
    ensures FirstPart(s) == s && PartsOf(s) == [s]
  {
    FirstPartOfName(s, "");
    assert s + "" == s && s[|s|..] == "";
    assert PartsOf("") == [];
  }

  lemma {:induction false} PartBeforeSlash(s: string, rest: string)
    requires |FirstPart(s)| < |s|
    ensures FirstPart(s + rest) == FirstPart(s)
  {
    if s[0] != '/' {
      assert (s + rest)[1..] == s[1..] + rest;
      PartBeforeSlash(s[1..], rest);
    }
  }

  lemma {:induction false} StrippedHasFewerChars(s: string)
    requires s != "" && Hex.IsWhitespace(s[|s| - 1])
    ensures CharsIn(PartsOf(Hex.StripRight(s))) < CharsIn(PartsOf(s))
    decreases |s|
  {
    var front := s[..|s| - 1];
    assert s == front + [s[|s| - 1]];
    OneMoreChar(front, s[|s| - 1]);
    if front != "" && Hex.IsWhitespace(front[|front| - 1]) { StrippedHasFewerChars(front); }
  }

  /** A path the native engine accepts names the same components in the simulation exactly when it does not end in white
      space. */
  lemma TargetsAgree(path: string, leaf: bool)
    requires NativeTarget(path, leaf).Ok?
    ensures SimulatedTarget(path) == NativeTarget(path, leaf) <==> !Hex.IsWhitespace(path[|path| - 1])
  {
    if Hex.IsWhitespace(path[|path| - 1]) {
      assert Hex.StripLeft(path) == path;
      StrippedHasFewerChars(path);
      DotsDropChars(PartsOf(Hex.StripRight(path)));
    } else {
      assert Hex.Strip(path) == path;
      NoDotsToDrop(PartsOf(path));
    }
  }

  /** A name that can be one component. */
  predicate IsName(s: string) {
    s != "" && '/' !in s && s != "." && s != ".."
  }

  predicate IsClean(parts: Path) {
    forall i | 0 <= i < |parts| :: IsName(parts[i])
  }

  /** The text of an absolute path. */
  function Render(parts: Path): string {
    if parts == [] then "/" else RenderTail(parts)
  }

  function RenderTail(parts: Path): string {
    if parts == [] then "" else "/" + parts[0] + RenderTail(parts[1..])
  }

  lemma {:induction false} FirstPartOfName(name: string, rest: string)
    requires '/' !in name
    requires rest == "" || rest[0] == '/'
    ensures FirstPart(name + rest) == name
  {
    if name == "" {
      assert name + rest == rest;
    } else {
      assert (name + rest)[1..] == name[1..] + rest;
      FirstPartOfName(name[1..], rest);
    }
  }

  /** One more component in front. */
  lemma PartsOfCons(name: string, rest: string)
    requires '/' !in name && name != ""
    requires rest == "" || rest[0] == '/'
    ensures PartsOf("/" + name + rest) == [name] + PartsOf(rest)
  {
    var s := "/" + name + rest;
    assert s[1..] == name + rest;
    FirstPartOfName(name, rest);
    assert (name + rest)[|name|..] == rest;
  }

  lemma {:induction false} RenderedParts(parts: Path)
    requires IsClean(parts)
    ensures PartsOf(RenderTail(parts)) == parts
  {
    if parts != [] {
      RenderedParts(parts[1..]);
      PartsOfCons(parts[0], RenderTail(parts[1..]));
    }
  }

  /** Rendering clean components and reading them back is the identity, for both backends. */
  lemma RenderRoundTrip(parts: Path)
    requires IsClean(parts)
    ensures PartsOf(Render(parts)) == parts
    ensures NativeTarget(Render(parts), false) == Ok(parts)
    ensures parts != [] ==> NativeTarget(Render(parts), true) == Ok(parts)
  {
    RenderedParts(parts);
    if parts == [] {
      assert PartsOf("/") == PartsOf("") == [];
    } else {
      RenderedLast(parts);
    }
  }

  lemma {:induction false} RenderedLast(parts: Path)
    requires IsClean(parts) && parts != []
    ensures RenderTail(parts) != "" && RenderTail(parts)[|RenderTail(parts)| - 1] != '/'
  {
    var s := RenderTail(parts);
    if |parts| == 1 {
      assert s == "/" + parts[0] + "";
      assert s[|s| - 1] == parts[0][|parts[0]| - 1];
    } else {
      RenderedLast(parts[1..]);
      assert s[|s| - 1] == RenderTail(parts[1..])[|RenderTail(parts[1..])| - 1];
    }
  }
}
