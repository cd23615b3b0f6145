/** The CA-loading decision of `loadCA` and the files `generateCA` writes, shared by the api
    package (hazetunnel/api/cert.go) and the older main package (hazetunnel/cert.go). X.509
    parsing and key generation are abstract: a generated pair is a serial number that the
    certificate file and the key file both carry. */
module CaPolicy {
  import opened Wrappers

  /** What a PEM file holds. */
  datatype Pem = CertificatePem(serial: nat) | PrivateKeyPem(serial: nat)

  /** A file and its permission bits. */
  datatype File = File(content: Pem, mode: int)

  /** The files `loadCA` looks at, by path. */
  type Disk = map<string, File>

  /** The permission `os.Create` asks for. */
  const CreateMode := 0x1B6
  /** The permission the key file is opened with (octal 0600). */
  const KeyMode := 0x180

  const DefaultCertPath := "cert.pem"
  const DefaultKeyPath := "key.pem"
  const LoadFailed := "Unable to load CA certificate and key"

  function MissingKey(key: string): string {
    "CA certificate exists, but found no corresponding key at " + key
  }

  function MissingCert(cert: string): string {
    "CA key exists, but found no corresponding certificate at " + cert
  }

  /** Which branch `loadCA` takes once the paths are fixed. */
  datatype Decision = LoadPair | Fatal(message: string) | GenerateCA

  /** The branch taken for the given paths: load when both files exist, generate when neither
      does, and otherwise stop, naming the missing counterpart. */
  function Decide(disk: Disk, cert: string, key: string): (d: Decision)
    ensures d == LoadPair <==> cert in disk && key in disk
    ensures d == GenerateCA <==> cert !in disk && key !in disk
    ensures cert in disk && key !in disk ==> d == Fatal(MissingKey(key))
    ensures cert !in disk && key in disk ==> d == Fatal(MissingCert(cert))
  {
    if cert in disk && key in disk then LoadPair
    else if cert in disk then Fatal(MissingKey(key))
    else if key in disk then Fatal(MissingCert(cert))
    else GenerateCA
  }

  /** `tls.LoadX509KeyPair` succeeds: a certificate and the private key of the same pair. */
  predicate PairMatches(disk: Disk, cert: string, key: string) {
    cert in disk && key in disk
    && disk[cert].content.CertificatePem? && disk[key].content.PrivateKeyPem?
    && disk[cert].content.serial == disk[key].content.serial
  }

  /** Writing `content` to `path` with truncation: an existing file keeps its permission bits,
      a new one gets `perm`. */
  function WriteFile(disk: Disk, path: string, content: Pem, perm: int): (r: Disk)
    ensures r.Keys == disk.Keys + {path}
    ensures r[path].content == content
    ensures path !in disk ==> r[path].mode == perm
    ensures forall p :: p in disk && p != path ==> r[p] == disk[p]
  {
    var mode := if path in disk then disk[path].mode else perm;
    disk[path := File(content, mode)]
  }

  /** `generateCA`: the certificate is written first, then the key. */
  function Generated(disk: Disk, cert: string, key: string, serial: nat): Disk {
    WriteFile(WriteFile(disk, cert, CertificatePem(serial), CreateMode), key, PrivateKeyPem(serial), KeyMode)
  }

  /** On fresh, distinct paths the generated files hold a matching pair and the key file is
      readable by its owner only; nothing else on disk changes. */
  lemma GeneratedFiles(disk: Disk, cert: string, key: string, serial: nat)
    requires cert !in disk && key !in disk && cert != key
    ensures PairMatches(Generated(disk, cert, key, serial), cert, key)
    ensures Generated(disk, cert, key, serial)[cert] == File(CertificatePem(serial), CreateMode)
    ensures Generated(disk, cert, key, serial)[key] == File(PrivateKeyPem(serial), KeyMode)
    ensures forall p :: p in disk ==> Generated(disk, cert, key, serial)[p] == disk[p]
  {
    var d1 := WriteFile(disk, cert, CertificatePem(serial), CreateMode);
    assert key !in d1;
    assert d1[cert] == File(CertificatePem(serial), CreateMode);
  }

  /** With one path for both, the key overwrites the certificate and keeps `os.Create`'s
      permission, so the pair cannot be loaded back from disk. */
  lemma GeneratedSamePath(disk: Disk, path: string, serial: nat)
    requires path !in disk
    ensures Generated(disk, path, path, serial)[path] == File(PrivateKeyPem(serial), CreateMode)
    ensures !PairMatches(Generated(disk, path, path, serial), path, path)
  {
    var d1 := WriteFile(disk, path, CertificatePem(serial), CreateMode);
    assert d1[path].mode == CreateMode;
  }

  /** The state `loadCA` reads and writes besides the paths: the api package's `caLoaded`, the
      pair goproxy serves (`GoproxyCa`), the files, and the next serial a generation uses. */
  datatype CaWorld = CaWorld(loaded: bool, installed: Option<nat>, disk: Disk, nextSerial: nat)

  /** `caLoaded` is only ever set together with an installed CA. */
  predicate Coherent(w: CaWorld) {
    w.loaded ==> w.installed.Some?
  }

  /** `setGoproxyCA`; `markLoaded` is whether the variant has a `caLoaded` flag to set. */
  function Install(w: CaWorld, serial: nat, markLoaded: bool): CaWorld {
    w.(installed := Some(serial), loaded := w.loaded || markLoaded)
  }

  /** The result of one `loadCA`: the paths it leaves configured, the new world, and the
      message of a fatal stop (after which the process exits). */
  datatype CaOutcome = CaOutcome(cert: string, key: string, world: CaWorld, fatal: Option<string>)

  /** The decision tree both variants share, for fixed paths. */
  function LoadWith(cert: string, key: string, w: CaWorld, markLoaded: bool): (r: CaOutcome)
    ensures r.cert == cert && r.key == key
    // A fatal stop changes nothing; success installs a pair.
    ensures r.fatal.Some? ==> r.world == w
    ensures r.fatal.None? ==> r.world.installed.Some? && (markLoaded ==> r.world.loaded)
    // An existing file is never overwritten.
    ensures forall p :: p in w.disk ==> p in r.world.disk && r.world.disk[p] == w.disk[p]
    // On distinct paths, the installed pair is the one now on disk.
    ensures r.fatal.None? && cert != key ==>
      PairMatches(r.world.disk, cert, key) && r.world.installed == Some(r.world.disk[cert].content.serial)
  {
    match Decide(w.disk, cert, key)
    case LoadPair =>
      if PairMatches(w.disk, cert, key) then CaOutcome(cert, key, Install(w, w.disk[cert].content.serial, markLoaded), None)
      else CaOutcome(cert, key, w, Some(LoadFailed))
    case Fatal(m) => CaOutcome(cert, key, w, Some(m))
    case GenerateCA =>
      var g := w.(disk := Generated(w.disk, cert, key, w.nextSerial), nextSerial := w.nextSerial + 1);
      CaOutcome(cert, key, Install(g, w.nextSerial, markLoaded), None)
  }

  function DefaultCert(cert: string): (c: string)
    ensures c != ""
  {
    if cert == "" then DefaultCertPath else cert
  }

  function DefaultKey(key: string): (k: string)
    ensures k != ""
  {
    if key == "" then DefaultKeyPath else key
  }

  /** The api package's `loadCA`: nothing when a CA is loaded, otherwise empty paths take
      their defaults and the decision tree runs, setting `caLoaded` on success. */
  function ApiLoadCA(cert: string, key: string, w: CaWorld): (r: CaOutcome)
    ensures w.loaded ==> r == CaOutcome(cert, key, w, None)
    ensures !w.loaded ==> r.cert == DefaultCert(cert) && r.key == DefaultKey(key)
    ensures r.fatal.None? ==> r.world.loaded
    ensures Coherent(w) ==> Coherent(r.world)
  {
    if w.loaded then CaOutcome(cert, key, w, None)
    else LoadWith(DefaultCert(cert), DefaultKey(key), w, true)
  }

  /** The main package's `loadCA`: no flag and no defaults, so every call decides afresh. */
  function LegacyLoadCA(cert: string, key: string, w: CaWorld): (r: CaOutcome)
    ensures r.cert == cert && r.key == key && r.world.loaded == w.loaded
  {
    LoadWith(cert, key, w, false)
  }

  /** After a successful load, a second call is a no-op. */
  lemma ApiLoadIdempotent(cert: string, key: string, w: CaWorld)
    requires ApiLoadCA(cert, key, w).fatal.None?
    ensures var r := ApiLoadCA(cert, key, w);
      ApiLoadCA(r.cert, r.key, r.world) == r
  {
  }

  /** Exactly one file present is fatal and names the missing one; the world is unchanged. */
  lemma ApiOneFileFatal(cert: string, key: string, w: CaWorld)
    requires !w.loaded
    requires (DefaultCert(cert) in w.disk) != (DefaultKey(key) in w.disk)
    ensures var r := ApiLoadCA(cert, key, w);
      r.world == w
      && r.fatal == Some(if DefaultCert(cert) in w.disk then MissingKey(DefaultKey(key)) else MissingCert(DefaultCert(cert)))
  {
  }

  /** With neither file present a fresh pair is written and installed. */
  lemma ApiGenerates(cert: string, key: string, w: CaWorld)
    requires !w.loaded
    requires DefaultCert(cert) !in w.disk && DefaultKey(key) !in w.disk
    ensures var r := ApiLoadCA(cert, key, w);
      r.fatal.None? && r.world.installed == Some(w.nextSerial)
      && r.world.disk == Generated(w.disk, DefaultCert(cert), DefaultKey(key), w.nextSerial)
  {
  }

  /** Without the flag set and with non-empty paths, the two variants take the same branch
      and reach the same world, apart from the flag itself. */
  lemma VariantsAgree(cert: string, key: string, w: CaWorld)
    requires !w.loaded && cert != "" && key != ""
    ensures var a := ApiLoadCA(cert, key, w);
      var b := LegacyLoadCA(cert, key, w);
      a.fatal == b.fatal && a.cert == b.cert && a.key == b.key
      && a.world == b.world.(loaded := b.fatal.None?)
  {
  }

  /** A generated pair on distinct paths loads back in a later process: the main package's
      next `loadCA` takes the load branch and installs the same pair without writing. */
  lemma GeneratedPairReloads(cert: string, key: string, w: CaWorld)
    requires cert !in w.disk && key !in w.disk && cert != key
    ensures var r := LegacyLoadCA(cert, key, w);
      var again := LegacyLoadCA(cert, key, r.world.(installed := None));
      r.fatal.None? && Decide(r.world.disk, cert, key) == LoadPair
      && again.fatal.None? && again.world.installed == Some(w.nextSerial)
      && again.world.disk == r.world.disk
  {
    GeneratedFiles(w.disk, cert, key, w.nextSerial);
  }

  /** A pair generated with one path for both cannot be loaded back later. */
  lemma SamePathDoesNotReload(path: string, w: CaWorld)
    requires path !in w.disk
    ensures var r := LegacyLoadCA(path, path, w);
      r.fatal.None? && LegacyLoadCA(path, path, r.world).fatal == Some(LoadFailed)
  {
    GeneratedSamePath(w.disk, path, w.nextSerial);
  }
}
