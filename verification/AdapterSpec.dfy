/** What the operations of a disk adapter do to the flat view, path strings and attachment included. */
module AdapterSpec {
  import opened Bytes
  import opened WfsPath
  import opened FlatFs

  const UINT32_LIMIT := 0x1_0000_0000

  function Target(backend: Backend, path: string, leaf: bool): Result<Path, FsError> {
    match if backend.Native? then NativeTarget(path, leaf) else SimulatedTarget(path)
    case Ok(p) => Ok(p)
    case Err(e) => Err(BadPath(e))
  }

  function MkdirSpec(backend: Backend, attached: bool, fs: Fs, path: string): Result<Fs, FsError> {
    if !attached then Err(NotAttached)
    else
      match Target(backend, path, false)
      case Err(e) => Err(e)
      case Ok(p) => MkdirFs(fs, p)
  }

  /** The native engine takes sizes as 32-bit numbers, which is checked before anything else. */
  function CreateSpec(backend: Backend, attached: bool, fs: Fs, path: string, size: nat): Result<Fs, FsError> {
    if backend.Native? && size >= UINT32_LIMIT then Err(SizeOutOfRange)
    else if !attached then Err(NotAttached)
    else
      match Target(backend, path, true)
      case Err(e) => Err(e)
      case Ok(p) => CreateFs(backend, fs, p, size)
  }

  function WriteSpec(backend: Backend, attached: bool, fs: Fs, path: string, data: seq<byte>,
                     offset: nat): Result<Fs, FsError> {
    if backend.Native? && offset != 0 then Err(OffsetNotSupported)
    else if !attached then Err(NotAttached)
    else
      match Target(backend, path, true)
      case Err(e) => Err(e)
      case Ok(p) => WriteFs(backend, fs, p, data, offset)
  }

  function DeleteSpec(backend: Backend, attached: bool, fs: Fs, path: string): Result<Fs, FsError> {
    if !attached then Err(NotAttached)
    else
      match Target(backend, path, true)
      case Err(e) => Err(e)
      case Ok(p) => DeleteFs(backend, fs, p)
  }

  /** What a check looks at, from a path that has been accepted. */
  function Scope(backend: Backend, path: string, parts: Path): Path {
    if backend.Native? then ScopeParts(path) else parts
  }

  ghost function IntegritySpec(backend: Backend, attached: bool, fs: Fs, scope: string): Result<Report, FsError> {
    if !attached then Err(NotAttached)
    else
      var path := if backend.Native? && scope == "" then "/" else scope;
      match Target(backend, path, false)
      case Err(e) => Err(e)
      case Ok(p) => CheckFs(backend, fs, Scope(backend, path, p))
  }

  function ListTitlesSpec(backend: Backend, attached: bool, fs: Fs): Result<set<string>, FsError> {
    if !attached then Err(NotAttached) else ListTitlesFs(backend, fs)
  }

  /** A result and the new view agree with the specification; an error changes nothing. */
  ghost predicate Performs<T>(r: Result<T, FsError>, was: Fs, now: Fs, spec: Result<Fs, FsError>) {
    match spec
    case Ok(fs) => r.Ok? && now == fs
    case Err(e) => r == Err(e) && now == was
  }
}
