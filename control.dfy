/** The module-level controls (python-bindings/hazetunnel/control.py): `launch`, `kill`,
    `is_running`, the `url`/`cert`/`key` accessors and the `Context` manager. They drive a
    library object whose `launch` and `stop_server` are not part of this model; that object
    is modelled by its observable state: started or not, its port, and its key pair. */
module Control {
  import opened Wrappers
  import opened Text
  import opened Bindings

  /** The keyword arguments of `launch`. */
  datatype LaunchArgs = LaunchArgs(port: Option<int>, cert: Option<string>, key: Option<string>, verbose: bool)

  /** What `launch` hands to the library: the paths are always filled in. */
  datatype LaunchRequest = LaunchRequest(port: Option<int>, cert: string, key: string, verbose: bool)

  const AlreadyRunning := "Server is already running."
  const NotRunning := "Server is not running."
  const UrlPrefix := "http://localhost:"

  /** `not v` for an optional path. */
  predicate Falsy(v: Option<string>) {
    v.None? || v.value == ""
  }

  /** The request `launch(**args)` passes on, with `bin/cert.pem` and `bin/key.pem` under
      the package root standing in for missing paths. */
  function RequestFor(root: string, args: LaunchArgs): (r: LaunchRequest)
    ensures r.port == args.port && r.verbose == args.verbose
    ensures r.cert != "" && r.key != ""
    ensures Falsy(args.cert) ==> r.cert == BinPath(root, "cert.pem")
    ensures !Falsy(args.cert) ==> r.cert == args.cert.value
    ensures Falsy(args.key) ==> r.key == BinPath(root, "key.pem")
    ensures !Falsy(args.key) ==> r.key == args.key.value
  {
    BinPathsDiffer(root);
    var cert := if Falsy(args.cert) then BinPath(root, "cert.pem") else args.cert.value;
    var key := if Falsy(args.key) then BinPath(root, "key.pem") else args.key.value;
    LaunchRequest(args.port, cert, key, args.verbose)
  }

  /** The defaults `launch` fills in are the library's initial pair in certificate-then-key
      order, and they name two different files. */
  lemma DefaultsAreInitialPair(root: string, port: Option<int>, verbose: bool)
    ensures var r := RequestFor(root, LaunchArgs(port, None, None, verbose));
      (r.cert, r.key) == InitialKeyPair(root) && r.cert != r.key
  {
    BinPathsDiffer(root);
  }

  /** `url()`. */
  function UrlOf(port: nat): (u: string)
    ensures StartsWith(u, UrlPrefix)
  {
    UrlPrefix + NatToString(port)
  }

  /** The port reads back from the URL: after the prefix come its decimal digits and nothing
      else, so different ports give different URLs. */
  lemma UrlRoundTrip(port: nat, other: nat)
    ensures AllDigits(UrlOf(port)[|UrlPrefix|..])
    ensures DigitsValue(UrlOf(port)[|UrlPrefix|..]) == port
    ensures UrlOf(port) == UrlOf(other) ==> port == other
  {
    assert UrlOf(port)[|UrlPrefix|..] == NatToString(port);
    assert UrlOf(other)[|UrlPrefix|..] == NatToString(other);
    NatToStringRoundTrip(port);
    NatToStringRoundTrip(other);
  }

  /** The library object as the controls see it. */
  class LibraryState {
    var started: bool
    var port: nat
    /** `_cert_key_pair`; `None` while unset. */
    var pair: Option<(string, string)>
    /** The requests the library was launched with, in order. */
    var launches: seq<LaunchRequest>
    /** How many times `stop_server` was called. */
    var stops: nat

    constructor (port: nat)
      ensures !started && this.port == port && pair.None? && launches == [] && stops == 0
    {
      started := false;
      this.port := port;
      pair := None;
      launches := [];
      stops := 0;
    }

    /** The library's own `launch`, taken to record the request, the pair and the port
        (`chosen` when none is asked for) and to mark the server started. */
    method Start(r: LaunchRequest, chosen: nat)
      modifies this
      ensures started && pair == Some((r.cert, r.key))
      ensures port == (if r.port.Some? && r.port.value >= 0 then r.port.value else chosen)
      ensures launches == old(launches) + [r] && stops == old(stops)
    {
      started := true;
      pair := Some((r.cert, r.key));
      port := if r.port.Some? && r.port.value >= 0 then r.port.value else chosen;
      launches := launches + [r];
    }

    /** The library's own `stop_server`, taken to mark the server stopped. */
    method Stop()
      modifies this
      ensures !started && stops == old(stops) + 1
      ensures port == old(port) && pair == old(pair) && launches == old(launches)
    {
      started := false;
      stops := stops + 1;
    }
  }

  /** The controls' shared state: the package root and the library singleton. */
  class Runtime {
    const root: string
    /** The port a newly built library reports before it is launched. */
    const initialPort: nat
    var library: LibraryState?

    constructor (root: string, initialPort: nat)
      ensures this.root == root && this.initialPort == initialPort && library == null
    {
      this.root := root;
      this.initialPort := initialPort;
      library := null;
    }

    /** `get_library`. */
    method GetLibrary() returns (lib: LibraryState)
      modifies this
      ensures library == lib
      ensures old(library) != null ==> lib == old(library)
      ensures old(library) == null ==>
        fresh(lib) && !lib.started && lib.port == initialPort && lib.pair.None? && lib.launches == [] && lib.stops == 0
    {
      if library == null {
        library := new LibraryState(initialPort);
      }
      lib := library;
    }

    /** `launch`: refused while started; the library is built even then. */
    method Launch(args: LaunchArgs, chosen: nat) returns (err: Option<string>)
      modifies this, library
      ensures library != null && (old(library) != null ==> library == old(library))
      ensures old(library) == null ==> fresh(library)
      ensures old(library) != null && old(library.started) ==>
        err == Some(AlreadyRunning) && unchanged(library)
      ensures !(old(library) != null && old(library.started)) ==>
        err.None? && library.started
        && library.launches == (if old(library) == null then [] else old(library.launches)) + [RequestFor(root, args)]
        && library.pair == Some((RequestFor(root, args).cert, RequestFor(root, args).key))
        && library.stops == (if old(library) == null then 0 else old(library.stops))
    {
      var r := RequestFor(root, args);
      var lib := GetLibrary();
      if lib.started {
        return Some(AlreadyRunning);
      }
      lib.Start(r, chosen);
      return None;
    }

    /** `kill`: refused unless started; otherwise `stop_server` is called exactly once. */
    method Kill() returns (err: Option<string>)
      modifies this, library
      ensures library != null && (old(library) != null ==> library == old(library))
      ensures old(library) == null ==> fresh(library)
      ensures !(old(library) != null && old(library.started)) ==>
        err == Some(NotRunning) && (old(library) != null ==> unchanged(library))
        && library.stops == (if old(library) == null then 0 else old(library.stops)) && !library.started
      ensures old(library) != null && old(library.started) ==>
        err.None? && !library.started && library.stops == old(library.stops) + 1
        && library.launches == old(library.launches) && library.pair == old(library.pair)
    {
      var lib := GetLibrary();
      if !lib.started {
        return Some(NotRunning);
      }
      lib.Stop();
      return None;
    }

    /** `is_running`: reads the singleton without building it. */
    method IsRunning() returns (running: bool)
      ensures running <==> library != null && library.started
    {
      if library == null {
        return false;
      }
      return library.started;
    }

    /** `url()`. */
    method Url() returns (u: string)
      modifies this
      ensures library != null && u == UrlOf(library.port)
      ensures old(library) != null ==> library == old(library)
    {
      var lib := GetLibrary();
      u := UrlOf(lib.port);
    }

    /** `cert()`: the first path of the stored pair, if there is one. */
    method Cert() returns (c: Option<string>)
      modifies this
      ensures library != null
      ensures c == (if library.pair.Some? then Some(library.pair.value.0) else None)
      ensures old(library) != null ==> library == old(library)
    {
      var lib := GetLibrary();
      if lib.pair.Some? {
        return Some(lib.pair.value.0);
      }
      return None;
    }

    /** `key()`: the second path of the stored pair, if there is one. */
    method Key() returns (k: Option<string>)
      modifies this
      ensures library != null
      ensures k == (if library.pair.Some? then Some(library.pair.value.1) else None)
      ensures old(library) != null ==> library == old(library)
    {
      var lib := GetLibrary();
      if lib.pair.Some? {
        return Some(lib.pair.value.1);
      }
      return None;
    }
  }

  /** `Context`: launches with its keyword arguments on entry and kills on exit. */
  class Context {
    const args: LaunchArgs

    constructor (args: LaunchArgs)
      ensures this.args == args
    {
      this.args := args;
    }

    /** `__enter__`: `launch(**kwargs)`; the context itself is the result. */
    method Enter(rt: Runtime, chosen: nat) returns (err: Option<string>)
      modifies rt, rt.library
      ensures rt.library != null && (old(rt.library) != null ==> rt.library == old(rt.library))
      ensures old(rt.library) == null ==> fresh(rt.library)
      ensures !(old(rt.library) != null && old(rt.library.started)) ==>
        err.None? && rt.library.started
        && rt.library.launches == (if old(rt.library) == null then [] else old(rt.library.launches)) + [RequestFor(rt.root, args)]
        && rt.library.stops == (if old(rt.library) == null then 0 else old(rt.library.stops))
      ensures old(rt.library) != null && old(rt.library.started) ==> err == Some(AlreadyRunning)
    {
      err := rt.Launch(args, chosen);
    }

    /** `__exit__`: always `kill()`. */
    method Exit(rt: Runtime) returns (err: Option<string>)
      modifies rt, rt.library
      ensures rt.library != null && !rt.library.started
      ensures old(rt.library) != null ==> rt.library == old(rt.library)
      ensures old(rt.library) != null && old(rt.library.started) ==>
        err.None? && rt.library.stops == old(rt.library.stops) + 1
        && rt.library.launches == old(rt.library.launches)
    ensures !(old(rt.library) != null && old(rt.library.started)) ==>
        err == Some(NotRunning) && rt.library.stops == (if old(rt.library) == null then 0 else old(rt.library.stops))
    {
      err := rt.Kill();
    }

    /** A `with` block from a stopped state: one launch with the context's arguments and one
        stop, leaving the server stopped. */
    method With(rt: Runtime, chosen: nat) returns (enterErr: Option<string>, exitErr: Option<string>)
      requires rt.library == null || !rt.library.started
      modifies rt, rt.library
      ensures enterErr.None? && exitErr.None?
      ensures rt.library != null && !rt.library.started
      ensures rt.library.launches == (if old(rt.library) == null then [] else old(rt.library.launches)) + [RequestFor(rt.root, args)]
      ensures rt.library.stops == (if old(rt.library) == null then 0 else old(rt.library.stops)) + 1
    {
      enterErr := Enter(rt, chosen);
      exitErr := Exit(rt);
    }
  }
}
