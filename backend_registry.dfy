/**
 * The backend registry (traffic_sim/backends/__init__.py): a dictionary from
 * backend name to backend class, and a lookup that raises `ValueError` on a
 * name it does not hold. The dictionary keeps insertion order, which is the
 * order the error message lists the available names in.
 */
module BackendRegistry {
  import opened Results

  /** The backend classes the registry can hold; the MPI backend is never registered. */
  datatype BackendKind = SequentialBackend | OpenMPBackend | CUDABackend | MPIBackend

  /** An insertion-ordered dictionary, as a list of its entries. */
  type Entries = seq<(string, BackendKind)>

  /** `BACKENDS`: each class under its own `name`, in insertion order. */
  const Backends: Entries := [("sequential", SequentialBackend), ("openmp", OpenMPBackend), ("cuda", CUDABackend)]

  /** `d.keys()`, in insertion order. */
  function Keys(entries: Entries): (ks: seq<string>)
    ensures |ks| == |entries| && forall k :: 0 <= k < |ks| ==> ks[k] == entries[k].0
  {
    if entries == [] then [] else [entries[0].0] + Keys(entries[1..])
  }

  /** `d[name]` when `name` is a key, `None` for a `KeyError`. */
  function Lookup(entries: Entries, name: string): (r: Option<BackendKind>)
    ensures r.Some? <==> name in Keys(entries)
    ensures r.Some? ==> (name, r.value) in entries
  {
    if entries == [] then None
    else if entries[0].0 == name then Some(entries[0].1)
    else Lookup(entries[1..], name)
  }

  /** `sep.join(xs)`. */
  function Join(sep: string, xs: seq<string>): string
  {
    if xs == [] then ""
    else if |xs| == 1 then xs[0]
    else xs[0] + sep + Join(sep, xs[1..])
  }

  /** The fixed opening of the error message, up to the quoted name. */
  const UnknownPrefix: string := "Unknown backend '"

  /** The error message for `name`. */
  function UnknownMessage(name: string): (msg: string)
  {
    UnknownPrefix + name + "'. Available: " + Join(", ", Keys(Backends))
  }

  /**
   * `get_backend(name)`: the registered class, or an error naming the
   * unknown backend and listing the available names.
   */
  function GetBackend(name: string): (r: Result<BackendKind>)
    ensures r.Ok? <==> name in Keys(Backends)
    ensures r.Ok? ==> (name, r.value) in Backends
    ensures r.Err? ==>
      && |r.error| >= |UnknownPrefix| + |name| + |Join(", ", Keys(Backends))|
      && r.error[|UnknownPrefix|..|UnknownPrefix| + |name|] == name
      && r.error[|r.error| - |Join(", ", Keys(Backends))|..] == Join(", ", Keys(Backends))
  {
    match Lookup(Backends, name)
    case Some(b) => Ok(b)
    case None =>
      var msg := UnknownMessage(name);
      assert msg == (UnknownPrefix + name) + ("'. Available: " + Join(", ", Keys(Backends)));
      Err(msg)
  }

  /**
   * The registry holds exactly the sequential, OpenMP and CUDA backends, in
   * that order, and the error message lists them as such; "mpi" is not a
   * key, so looking it up fails.
   */
  lemma RegistryContents()
    ensures Keys(Backends) == ["sequential", "openmp", "cuda"]
    ensures Join(", ", Keys(Backends)) == "sequential, openmp, cuda"
    ensures GetBackend("mpi").Err?
  {
    RegistryKeys();
    RegistryJoin();
    MpiNotRegistered();
  }

  /** The error message lists the names as "sequential, openmp, cuda". */
  lemma RegistryJoin()
    ensures Join(", ", ["sequential", "openmp", "cuda"]) == "sequential, openmp, cuda"
  {
    var ks: seq<string> := ["sequential", "openmp", "cuda"];
    assert ks[1..] == ["openmp", "cuda"] && ks[1..][1..] == ["cuda"];
  }

  /** "mpi" is not a registered name. */
  lemma MpiNotRegistered()
    ensures "mpi" !in Keys(Backends)
  {
    RegistryKeys();
    assert "mpi" != "sequential" && "mpi" != "openmp" && "mpi" != "cuda";
  }

  /** The keys of the registry, in insertion order. */
  lemma RegistryKeys()
    ensures Keys(Backends) == ["sequential", "openmp", "cuda"]
  {
    assert Backends[1..][1..][1..] == [];
  }

  /** Each registered name yields its own class. */
  lemma RegisteredLookups()
    ensures GetBackend("sequential") == Ok(SequentialBackend)
    ensures GetBackend("openmp") == Ok(OpenMPBackend)
    ensures GetBackend("cuda") == Ok(CUDABackend)
  {
    assert "openmp" != "sequential";
    assert "cuda" != "sequential" && "cuda" != "openmp";
  }

  /** A lookup succeeds exactly for the names in the registry, and then returns that name's class. */
  lemma {:induction false} LookupFindsEntry(entries: Entries, name: string, b: BackendKind)
    requires forall i, j :: 0 <= i < j < |entries| ==> entries[i].0 != entries[j].0
    requires (name, b) in entries
    ensures Lookup(entries, name) == Some(b)
    decreases |entries|
  {
    if entries[0].0 != name {
      assert (name, b) in entries[1..];
      LookupFindsEntry(entries[1..], name, b);
    }
  }

  /** `get_backend` returns the class registered under every registered name. */
  lemma GetBackendRegistered(name: string, b: BackendKind)
    requires (name, b) in Backends
    ensures GetBackend(name) == Ok(b)
  {
    LookupFindsEntry(Backends, name, b);
  }
}
