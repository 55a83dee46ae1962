/** The adapter the application is built with: one of the two backends (core/services/wfs_adapter.py:195-283). */
module Adapter {
  import opened Bytes
  import opened FlatFs
  import opened AdapterSpec
  import WfsTree
  import WfsEngine
  import SimulatedAdapter

  class WfsAdapter {
    const backend: Backend
    const engine: WfsEngine.WfsCoreEngine
    const sim: SimulatedAdapter.SimulatedWfsAdapter

    ghost predicate Valid()
      reads engine.device, sim
    {
      engine.device.Valid() && sim.Valid()
    }

    ghost function Files(): Fs
      reads engine.device, sim
    {
      if backend.Native? then engine.device.Files() else sim.fs
    }

    lemma FilesWellFormed()
      requires Valid()
      ensures WellFormed(Files())
    {
      if backend.Native? { WfsTree.ViewWellFormed(engine.device.root); }
    }

    predicate Attached()
      reads engine, sim
    {
      if backend.Native? then engine.attached else sim.mounted
    }

    constructor (backend: Backend, engine: WfsEngine.WfsCoreEngine, sim: SimulatedAdapter.SimulatedWfsAdapter)
      requires engine.device.Valid() && sim.Valid()
      ensures this.backend == backend && this.engine == engine && this.sim == sim && Valid()
    {
      this.backend, this.engine, this.sim := backend, engine, sim;
    }

    method Mkdir(path: string) returns (r: Result<(), FsError>)
      requires Valid()
      modifies engine.device, sim`fs
      ensures Valid()
      ensures Performs(r, old(Files()), Files(), MkdirSpec(backend, Attached(), old(Files()), path))
    {
      if backend.Native? { r := engine.Mkdir(path); } else { r := sim.Mkdir(path); }
    }

    method CreateFile(path: string, sizeHint: nat) returns (r: Result<(), FsError>)
      requires Valid()
      modifies engine.device, sim`fs
      ensures Valid()
      ensures Performs(r, old(Files()), Files(), CreateSpec(backend, Attached(), old(Files()), path, sizeHint))
    {
      if backend.Native? {
        if sizeHint >= UINT32_LIMIT { return Err(SizeOutOfRange); }
        r := engine.CreateFile(path, sizeHint);
      } else {
        r := sim.CreateFile(path, sizeHint);
      }
    }

    method WriteStream(path: string, data: seq<byte>, offset: nat) returns (r: Result<nat, FsError>)
      requires Valid()
      modifies engine.device, sim`fs
      ensures Valid()
      ensures r.Ok? ==> r.value == |data|
      ensures Performs(r, old(Files()), Files(), WriteSpec(backend, Attached(), old(Files()), path, data, offset))
    {
      if backend.Native? {
        r := engine.WriteStream(path, data, offset);
      } else {
        r := sim.WriteStream(path, data, offset);
      }
    }

    method Delete(path: string) returns (r: Result<(), FsError>)
      requires Valid()
      modifies engine.device, sim`fs
      ensures Valid()
      ensures Performs(r, old(Files()), Files(), DeleteSpec(backend, Attached(), old(Files()), path))
    {
      if backend.Native? { r := engine.Remove(path); } else { r := sim.Delete(path); }
    }

    method Flush() returns (r: Result<(), FsError>)
      ensures r == if Attached() then Ok(()) else Err(NotAttached)
    {
      return if Attached() then Ok(()) else Err(NotAttached);
    }

    method IntegrityCheck(scope: string) returns (r: Result<Report, FsError>)
      requires Valid()
      modifies engine.device
      ensures Valid() && Files() == old(Files())
      ensures r == IntegritySpec(backend, Attached(), Files(), scope)
    {
      if backend.Native? { r := engine.IntegrityCheck(scope); } else { r := sim.IntegrityCheck(scope); }
    }

    method ListTitles() returns (r: Result<set<string>, FsError>)
      requires Valid()
      modifies engine.device
      ensures Valid() && Files() == old(Files())
      ensures r == ListTitlesSpec(backend, Attached(), Files())
    {
      if backend.Native? { r := engine.ListTitles(); } else { r := sim.ListTitles(); }
    }
  }
}
