/** The main package's single-instance proxy (hazetunnel/proxy.go) with its `loadCA`
    (hazetunnel/cert.go): one global server, installed only when none exists. */
module LegacyRuntime {
  import opened Wrappers
  import opened ApiConfig
  import opened CaPolicy
  import opened Address

  /** The main package's `CLIFlags`. */
  datatype CliFlags = CliFlags(addr: string, port: string, cert: string, key: string, verbose: bool)

  /** The global `http.Server`, by its address. */
  datatype LegacyServer = LegacyServer(addr: string)

  const AlreadyRunning := "Server is already running"

  /** The server `initServer(addr)` leaves: the existing one if any, else a new one. */
  function ServerAfterInit(server: Option<LegacyServer>, addr: string): (s: LegacyServer)
    ensures server.Some? ==> s == server.value
    ensures server.None? ==> s.addr == addr
  {
    if server.Some? then server.value else LegacyServer(addr)
  }

  /** However often `initServer` runs, the first address sticks. */
  lemma {:induction false} FirstServerSticks(addrs: seq<string>)
    requires |addrs| > 0
    ensures InitAll(None, addrs) == LegacyServer(addrs[0])
  {
    InitAllKeeps(LegacyServer(addrs[0]), addrs[1..]);
  }

  /** The server after `initServer` with each of `addrs` in turn, starting from `server`. */
  function InitAll(server: Option<LegacyServer>, addrs: seq<string>): LegacyServer
    requires server.Some? || |addrs| > 0
    decreases |addrs|
  {
    if |addrs| == 0 then server.value
    else InitAll(Some(ServerAfterInit(server, addrs[0])), addrs[1..])
  }

  lemma {:induction false} InitAllKeeps(s: LegacyServer, addrs: seq<string>)
    ensures InitAll(Some(s), addrs) == s
    decreases |addrs|
  {
    if |addrs| > 0 {
      InitAllKeeps(s, addrs[1..]);
    }
  }

  /** The main package's globals. */
  class Runtime {
    /** `Flags`. */
    var flags: CliFlags
    /** `cflog.Level`. */
    var level: LogLevel
    /** The installed CA and the CA files; there is no loaded flag here. */
    var ca: CaWorld
    /** `server`; `cancel` is set with it. */
    var server: Option<LegacyServer>
    /** Log lines, in order. */
    var log: seq<string>

    constructor (flags: CliFlags, level: LogLevel, disk: Disk)
      ensures this.flags == flags && this.level == level
      ensures ca == CaWorld(false, None, disk, 0) && server.None? && log == []
    {
      this.flags := flags;
      this.level := level;
      ca := CaWorld(false, None, disk, 0);
      server := None;
      log := [];
    }

    /** `initServer`: a no-op, apart from a log line, while a server exists. */
    method InitServer(addr: string)
      modifies this
      ensures server == Some(ServerAfterInit(old(server), addr))
      ensures log == old(log) + (if old(server).Some? then [AlreadyRunning] else [])
      ensures flags == old(flags) && level == old(level) && ca == old(ca)
    {
      if server.Some? {
        log := log + [AlreadyRunning];
        return;
      }
      server := Some(LegacyServer(addr));
    }

    /** `loadCA`: every call decides afresh from the files. */
    method LoadCA() returns (fatal: Option<string>)
      modifies this
      ensures var r := LegacyLoadCA(old(flags.cert), old(flags.key), old(ca));
        ca == r.world && fatal == r.fatal
      ensures flags == old(flags) && level == old(level) && server == old(server) && log == old(log)
    {
      var cert, key := flags.cert, flags.key;
      if cert in ca.disk && key in ca.disk {
        if !PairMatches(ca.disk, cert, key) {
          return Some(LoadFailed);
        }
        ca := ca.(installed := Some(ca.disk[cert].content.serial));
        return None;
      }
      if cert in ca.disk {
        return Some(MissingKey(key));
      } else if key in ca.disk {
        return Some(MissingCert(cert));
      }
      var serial := ca.nextSerial;
      ca := ca.(disk := WriteFile(ca.disk, cert, CertificatePem(serial), CreateMode), nextSerial := serial + 1);
      ca := ca.(disk := WriteFile(ca.disk, key, PrivateKeyPem(serial), KeyMode));
      ca := ca.(installed := Some(serial));
      return None;
    }

    /** `Launch` up to `ListenAndServe`: without verbose output the log level drops to
        errors first; the address announced is that of the server actually kept. */
    method Launch() returns (fatal: Option<string>)
      modifies this
      ensures level == (if old(flags.verbose) then old(level) else LevelError)
      ensures var r := LegacyLoadCA(old(flags.cert), old(flags.key), old(ca));
        ca == r.world && fatal == r.fatal
      ensures fatal.Some? ==> server == old(server) && log == old(log)
      ensures fatal.None? ==>
        var s := ServerAfterInit(old(server), ListenAddress(old(flags.addr), old(flags.port)));
        server == Some(s)
        && log == old(log) + (if old(server).Some? then [AlreadyRunning] else []) + [Listening(s.addr)]
      ensures flags == old(flags)
    {
      if !flags.verbose {
        level := LevelError;
      }
      fatal := LoadCA();
      if fatal.Some? {
        return;
      }
      InitServer(ListenAddress(flags.addr, flags.port));
      log := log + [Listening(server.value.addr)];
    }
  }
}
