/** The api package's process-wide state and the entry points the Python bindings call
    (hazetunnel/api/cffi.go), with `initServer` and `Launch` (hazetunnel/api/proxy.go),
    `UpdateVerbosity` (hazetunnel/api/config.go) and `loadCA` (hazetunnel/api/cert.go).
    Goroutines and locks are left out: every call runs to completion before the next. */
module ApiRuntime {
  import opened Wrappers
  import opened ApiConfig
  import opened CaPolicy
  import opened Address

  /** An `http.Server` as `initServer` builds it: its address, the flags its handler closes
      over, and the goproxy `Verbose` setting. */
  datatype Server = Server(addr: string, setup: ProxySetup, verbose: bool)

  /** `ProxyInstance`; the cancel function is implied by the entry. */
  datatype ProxyInstance = ProxyInstance(server: Option<Server>)

  /** What the runtime does that is visible outside its globals. */
  datatype Event =
    | Log(line: string)
    | Cancel(id: string)
    | Shutdown(addr: string)

  function NotRunning(id: string): string {
    "Error: " + id + " is not a running instance"
  }

  const ServerNotFound := "Error: Server not found"
  const ShuttingDown := "Shutting down the server..."

  function ShutdownFailed(err: string): string {
    "Failed to shutdown the server gracefully: " + err
  }

  /** The entry `initServer` stores for a setup. */
  function NewInstance(setup: ProxySetup, verbose: bool): (p: ProxyInstance)
    ensures p.server.Some? && p.server.value.setup == setup
  {
    ProxyInstance(Some(Server(ListenAddress(setup.addr, setup.port), setup, verbose)))
  }

  /** What `ShutdownServer(id)` reports and calls, in order. */
  function ShutdownEvents(instances: map<string, ProxyInstance>, id: string, verbose: bool, err: Option<string>): seq<Event> {
    if id !in instances then [Log(NotRunning(id))]
    else if instances[id].server.None? then [Log(ServerNotFound)]
    else
      (if verbose then [Log(ShuttingDown)] else [])
      + [Cancel(id), Shutdown(instances[id].server.value.addr)]
      + (if err.Some? then [Log(ShutdownFailed(err.value))] else [])
  }

  /** A server is shut down exactly when `id` names an entry that has one, and its context is
      cancelled just before. */
  lemma ShutdownOrder(instances: map<string, ProxyInstance>, id: string, verbose: bool, err: Option<string>)
    ensures var e := ShutdownEvents(instances, id, verbose, err);
      (exists i :: 0 <= i < |e| && e[i].Shutdown?) <==> id in instances && instances[id].server.Some?
    ensures var e := ShutdownEvents(instances, id, verbose, err);
      forall i :: 0 <= i < |e| && e[i].Shutdown? ==>
        0 < i && e[i - 1] == Cancel(id) && e[i].addr == instances[id].server.value.addr
  {
    var e := ShutdownEvents(instances, id, verbose, err);
    if id in instances && instances[id].server.Some? {
      var k := if verbose then 1 else 0;
      assert e[k + 1].Shutdown?;
    }
  }

  /** Every registered entry has a server: `initServer` never stores a nil one. */
  predicate AllServed(instances: map<string, ProxyInstance>) {
    forall id :: id in instances ==> instances[id].server.Some?
  }

  /** Registering and removing keep `AllServed`, so the nil-server branch of `ShutdownServer`
      is never taken on a map built by this package. */
  lemma RegistryKeepsServers(instances: map<string, ProxyInstance>, setup: ProxySetup, verbose: bool, id: string)
    requires AllServed(instances)
    ensures AllServed(instances[setup.id := NewInstance(setup, verbose)])
    ensures AllServed(instances - {id})
    ensures id in instances ==> ShutdownEvents(instances, id, verbose, None)[|ShutdownEvents(instances, id, verbose, None)| - 1].Shutdown?
  {
  }

  /** The api package's globals. */
  class Runtime {
    /** `Config`. */
    var config: ConfigFlags
    /** `cflog.Level`. */
    var level: LogLevel
    /** `caLoaded`, the installed CA, and the CA files. */
    var ca: CaWorld
    /** `proxyInstanceMap`. */
    var instances: map<string, ProxyInstance>
    /** Log lines and the cancel and shutdown calls, in order. */
    var events: seq<Event>

    /** The package as loaded: zero `Config`, no CA, no instances. */
    constructor (level: LogLevel, disk: Disk)
      ensures config == ConfigFlags("", "", false) && this.level == level
      ensures ca == CaWorld(false, None, disk, 0) && instances == map[] && events == []
    {
      config := ConfigFlags("", "", false);
      this.level := level;
      ca := CaWorld(false, None, disk, 0);
      instances := map[];
      events := [];
    }

    /** `UpdateVerbosity`. */
    method UpdateVerbosity()
      modifies this
      ensures level == VerbosityLevel(config.verbose)
      ensures config == old(config) && ca == old(ca) && instances == old(instances) && events == old(events)
    {
      if config.verbose {
        level := LevelInfo;
      } else {
        level := LevelError;
      }
    }

    /** `setGoproxyCA`. */
    method SetGoproxyCA(serial: nat)
      modifies this
      ensures ca == Install(old(ca), serial, true)
      ensures config == old(config) && level == old(level) && instances == old(instances) && events == old(events)
    {
      ca := ca.(installed := Some(serial), loaded := true);
    }

    /** `loadCA`: returns the message of a fatal stop, if any. */
    method LoadCA() returns (fatal: Option<string>)
      modifies this
      ensures var r := ApiLoadCA(old(config.cert), old(config.key), old(ca));
        config == old(config).(cert := r.cert, key := r.key) && ca == r.world && fatal == r.fatal
      ensures level == old(level) && instances == old(instances) && events == old(events)
    {
      if ca.loaded {
        return None;
      }
      if config.cert == "" {
        config := config.(cert := DefaultCertPath);
      }
      if config.key == "" {
        config := config.(key := DefaultKeyPath);
      }
      fatal := LoadConfigured();
    }

    /** The rest of `loadCA`, once the paths are filled in: the decision over the two files. */
    method LoadConfigured() returns (fatal: Option<string>)
      modifies this
      ensures var r := LoadWith(old(config.cert), old(config.key), old(ca), true);
        ca == r.world && fatal == r.fatal
      ensures config == old(config) && level == old(level) && instances == old(instances) && events == old(events)
    {
      if config.cert in ca.disk && config.key in ca.disk {
        if !PairMatches(ca.disk, config.cert, config.key) {
          return Some(LoadFailed);
        }
        SetGoproxyCA(ca.disk[config.cert].content.serial);
        return None;
      }
      if config.cert in ca.disk {
        return Some(MissingKey(config.key));
      } else if config.key in ca.disk {
        return Some(MissingCert(config.cert));
      }
      var serial := ca.nextSerial;
      GenerateCA();
      SetGoproxyCA(serial);
      return None;
    }

    /** `generateCA`: the certificate file is written, then the key file. */
    method GenerateCA()
      modifies this
      ensures ca == old(ca).(disk := Generated(old(ca.disk), config.cert, config.key, old(ca.nextSerial)),
                             nextSerial := old(ca.nextSerial) + 1)
      ensures config == old(config) && level == old(level) && instances == old(instances) && events == old(events)
    {
      var serial := ca.nextSerial;
      ca := ca.(disk := WriteFile(ca.disk, config.cert, CertificatePem(serial), CreateMode), nextSerial := serial + 1);
      ca := ca.(disk := WriteFile(ca.disk, config.key, PrivateKeyPem(serial), KeyMode));
    }

    /** `SetVerbose`; `data` is the parsed JSON, `None` when it is malformed. */
    method SetVerbose(data: Option<VerbositySetting>) returns (fatal: bool)
      modifies this
      ensures fatal <==> data.None?
      ensures data.None? ==> config == old(config) && level == old(level)
      ensures data.Some? ==> config == old(config).(verbose := data.value.verbose) && level == VerbosityLevel(data.value.verbose)
      ensures ca == old(ca) && instances == old(instances) && events == old(events)
    {
      if data.None? {
        return true;
      }
      config := config.(verbose := data.value.verbose);
      UpdateVerbosity();
      return false;
    }

    /** `SetKeyPair`: new paths, the flag cleared, and the CA loaded again from them. */
    method SetKeyPair(data: Option<KeyPairSetting>) returns (fatal: Option<string>)
      modifies this
      ensures data.None? ==> fatal.Some? && config == old(config) && ca == old(ca)
      ensures data.Some? ==>
        var r := ApiLoadCA(data.value.cert, data.value.key, old(ca).(loaded := false));
        config == old(config).(cert := r.cert, key := r.key) && ca == r.world && fatal == r.fatal
      ensures level == old(level) && instances == old(instances) && events == old(events)
    {
      if data.None? {
        return Some(MalformedJson);
      }
      config := config.(cert := data.value.cert, key := data.value.key);
      ca := ca.(loaded := false);
      fatal := LoadCA();
    }

    /** `initServer`: the CA is loaded if need be and `proxyInstanceMap[Flags.Id]` is set,
        replacing an entry with the same id. */
    method InitServer(setup: ProxySetup) returns (server: Option<Server>, fatal: Option<string>)
      modifies this
      ensures var r := ApiLoadCA(old(config.cert), old(config.key), old(ca));
        config == old(config).(cert := r.cert, key := r.key) && ca == r.world && fatal == r.fatal
      ensures fatal.Some? ==> server.None? && instances == old(instances)
      ensures fatal.None? ==>
        server == NewInstance(setup, old(config.verbose)).server
        && server.value.addr == ListenAddress(setup.addr, setup.port)
        && instances == old(instances)[setup.id := NewInstance(setup, old(config.verbose))]
      ensures level == old(level) && events == old(events)
    {
      fatal := LoadCA();
      if fatal.Some? {
        return None, fatal;
      }
      var s := Server(ListenAddress(setup.addr, setup.port), setup, config.verbose);
      instances := instances[setup.id := ProxyInstance(Some(s))];
      server := Some(s);
    }

    /** `Launch` up to `ListenAndServe`: the listen address is announced exactly when the id
        is "cli" or the configuration is verbose. */
    method Launch(setup: ProxySetup) returns (fatal: Option<string>)
      modifies this
      ensures var r := ApiLoadCA(old(config.cert), old(config.key), old(ca));
        config == old(config).(cert := r.cert, key := r.key) && ca == r.world && fatal == r.fatal
      ensures fatal.Some? ==> instances == old(instances) && events == old(events)
      ensures fatal.None? ==>
        instances == old(instances)[setup.id := NewInstance(setup, old(config.verbose))]
        && events == old(events) + (if setup.id == "cli" || old(config.verbose)
                                    then [Log(Listening(ListenAddress(setup.addr, setup.port)))] else [])
      ensures level == old(level) && config.verbose == old(config.verbose)
    {
      var server;
      server, fatal := InitServer(setup);
      if fatal.Some? {
        return;
      }
      if setup.id == "cli" || config.verbose {
        events := events + [Log(Listening(server.value.addr))];
      }
    }

    /** `StartServer`: the log level follows the configuration, then the instance launches. */
    method StartServer(data: Option<ProxySetup>) returns (fatal: Option<string>)
      modifies this
      ensures data.None? ==>
        fatal == Some(MalformedJson) && config == old(config) && level == old(level)
        && ca == old(ca) && instances == old(instances) && events == old(events)
      ensures data.Some? ==> level == VerbosityLevel(old(config.verbose))
      // then `Launch`: the CA is loaded from the configured paths ...
      ensures data.Some? ==>
        var r := ApiLoadCA(old(config.cert), old(config.key), old(ca));
        config == old(config).(cert := r.cert, key := r.key) && ca == r.world && fatal == r.fatal
      // ... a fatal load registers and announces nothing ...
      ensures data.Some? && fatal.Some? ==> instances == old(instances) && events == old(events)
      // ... otherwise the instance is registered and its address announced as `Launch` does
      ensures data.Some? && fatal.None? ==>
        instances == old(instances)[data.value.id := NewInstance(data.value, old(config.verbose))]
        && events == old(events) + (if data.value.id == "cli" || old(config.verbose)
                                    then [Log(Listening(ListenAddress(data.value.addr, data.value.port)))] else [])
    {
      if data.None? {
        return Some(MalformedJson);
      }
      UpdateVerbosity();
      fatal := Launch(data.value);
    }

    /** `ShutdownServer`: whatever happens, `id` is gone and every other entry is kept. */
    method ShutdownServer(id: string, err: Option<string>)
      modifies this
      ensures instances == old(instances) - {id}
      ensures events == old(events) + ShutdownEvents(old(instances), id, config.verbose, err)
      ensures config == old(config) && level == old(level) && ca == old(ca)
    {
      if id !in instances {
        events := events + [Log(NotRunning(id))];
        return;
      }
      if instances[id].server.None? {
        events := events + [Log(ServerNotFound)];
        instances := instances - {id};
        return;
      }
      if config.verbose {
        events := events + [Log(ShuttingDown)];
      }
      events := events + [Cancel(id)];
      events := events + [Shutdown(instances[id].server.value.addr)];
      if err.Some? {
        events := events + [Log(ShutdownFailed(err.value))];
      }
      instances := instances - {id};
    }
  }

  /** Stands for the decoder's error text, which is not modelled. */
  const MalformedJson := "malformed JSON"
}
