/** The Python side of the foreign calls (python-bindings/hazetunnel/cffi.py): `gostring`,
    the `Library` wrapper with its `verbose` and `key_pair` setters, and the `get_library`
    singleton. Loading the shared library is left out; a foreign call is recorded with the
    value the Go side receives. */
module Bindings {
  import opened Wrappers
  import opened Bytes
  import opened ApiConfig
  import opened CaPolicy

  /** Go's string header as ctypes lays it out: a NUL-terminated buffer and a length. */
  datatype GoString = GoString(buffer: seq<Byte>, n: int)

  /** The bytes Go reads: the first `n` of the buffer. */
  function Received(g: GoString): seq<Byte>
    requires 0 <= g.n <= |g.buffer|
  {
    g.buffer[..g.n]
  }

  /** `gostring` as written: the length is `len(s)`, a count of code points. */
  function GoStringAsWritten(s: string): (g: GoString)
    ensures g.buffer == Utf8(s) + [0] && g.n == |s|
    ensures 0 <= g.n < |g.buffer|
  {
    GoString(Utf8(s) + [0], |s|)
  }

  /** `gostring` with the length of the encoded buffer, as Go expects. */
  function MakeGoString(s: string): (g: GoString)
    ensures g.buffer == Utf8(s) + [0] && g.n == |Utf8(s)|
    ensures 0 <= g.n < |g.buffer|
  {
    GoString(Utf8(s) + [0], |Utf8(s)|)
  }

  /** Go receives the text exactly as Python encoded it. */
  lemma MakeGoStringDelivers(s: string)
    ensures Received(MakeGoString(s)) == Utf8(s)
  {
    assert (Utf8(s) + [0])[..|Utf8(s)|] == Utf8(s);
  }

  /** As written, Go receives the text intact exactly when it is ASCII; otherwise it gets a
      strict prefix of the encoding. */
  lemma {:induction false} AsWrittenDeliversIffAscii(s: string)
    ensures Received(GoStringAsWritten(s)) == Utf8(s) <==> IsAscii(s)
    ensures !IsAscii(s) ==> |Received(GoStringAsWritten(s))| < |Utf8(s)|
  {
    Utf8LengthIsCharCountIffAscii(s);
    if IsAscii(s) {
      assert (Utf8(s) + [0])[..|s|] == Utf8(s);
    }
  }

  /** "é" is sent as two bytes with a length of one: Go reads the lone lead byte 0xC3. */
  lemma AsWrittenTruncatesAccent()
    ensures Utf8("é") == [0xC3, 0xA9]
    ensures Received(GoStringAsWritten("é")) == [0xC3]
  {
    assert Utf8("é") == EncodeChar('é') + Utf8([]);
  }

  /** `root_dir / "bin" / name`. */
  function BinPath(root: string, name: string): string {
    root + "/bin/" + name
  }

  /** The default pair `Library.__init__` assigns, as written: key file first. */
  function InitialKeyPairAsWritten(root: string): (string, string) {
    (BinPath(root, "key.pem"), BinPath(root, "cert.pem"))
  }

  /** The default pair in the order the setter reads it: certificate, then key. */
  function InitialKeyPair(root: string): (string, string) {
    (BinPath(root, "cert.pem"), BinPath(root, "key.pem"))
  }

  /** The setter's `cert, key = key_pair` and the record `SetKeyPair` decodes. */
  function KeyPairSettingOf(pair: (string, string)): (s: KeyPairSetting)
    ensures s.cert == pair.0 && s.key == pair.1
  {
    KeyPairSetting(pair.0, pair.1)
  }

  lemma BinPathsDiffer(root: string)
    ensures BinPath(root, "cert.pem") != BinPath(root, "key.pem")
    ensures BinPath(root, "cert.pem") != "" && BinPath(root, "key.pem") != ""
  {
    assert BinPath(root, "cert.pem")[|root| + 5] == 'c';
    assert BinPath(root, "key.pem")[|root| + 5] == 'k';
  }

  /** As written, the first `SetKeyPair` on a fresh bin directory makes Go write the
      certificate to key.pem and the private key, with owner-only permission, to cert.pem. */
  lemma AsWrittenSwapsCaFiles(root: string, w: CaWorld)
    requires BinPath(root, "cert.pem") !in w.disk && BinPath(root, "key.pem") !in w.disk
    ensures var s := KeyPairSettingOf(InitialKeyPairAsWritten(root));
      var d := ApiLoadCA(s.cert, s.key, w.(loaded := false)).world.disk;
      d[BinPath(root, "key.pem")].content.CertificatePem?
      && d[BinPath(root, "cert.pem")] == File(PrivateKeyPem(w.nextSerial), KeyMode)
  {
    BinPathsDiffer(root);
    GeneratedFiles(w.disk, BinPath(root, "key.pem"), BinPath(root, "cert.pem"), w.nextSerial);
  }

  /** With the pair in the setter's order, cert.pem holds the certificate and key.pem the
      owner-only private key of the same pair, and that pair is the one installed. */
  lemma InitialPairFiles(root: string, w: CaWorld)
    requires BinPath(root, "cert.pem") !in w.disk && BinPath(root, "key.pem") !in w.disk
    ensures var s := KeyPairSettingOf(InitialKeyPair(root));
      var r := ApiLoadCA(s.cert, s.key, w.(loaded := false));
      r.fatal.None?
      && r.world.disk[BinPath(root, "cert.pem")] == File(CertificatePem(w.nextSerial), CreateMode)
      && r.world.disk[BinPath(root, "key.pem")] == File(PrivateKeyPem(w.nextSerial), KeyMode)
      && r.world.installed == Some(w.nextSerial)
  {
    BinPathsDiffer(root);
    GeneratedFiles(w.disk, BinPath(root, "cert.pem"), BinPath(root, "key.pem"), w.nextSerial);
  }

  /** A foreign call with what the Go side receives. The JSON texts `json.dumps` builds are
      ASCII, so their length is right either way; the shutdown id is passed raw. */
  datatype Call =
    | StartServerCall(options: map<string, string>)
    | ShutdownServerCall(id: GoString)
    | SetVerboseCall(verbosity: VerbositySetting)
    | SetKeyPairCall(pair: KeyPairSetting)

  /** `Library`. */
  class Library {
    var verbose: bool
    var keyPair: (string, string)
    /** The foreign calls made so far, in order. */
    var calls: seq<Call>

    /** `Library.__init__`, with the default pair in the setter's order. */
    constructor (root: string)
      ensures !verbose && keyPair == InitialKeyPair(root)
      ensures calls == [SetKeyPairCall(KeyPairSettingOf(InitialKeyPair(root)))]
    {
      verbose := false;
      calls := [];
      keyPair := ("", "");
      new;
      SetKeyPair(InitialKeyPair(root));
    }

    /** The `verbose` setter. */
    method SetVerbose(v: bool)
      modifies this
      ensures verbose == v && keyPair == old(keyPair)
      ensures calls == old(calls) + [SetVerboseCall(VerbositySetting(v))]
    {
      verbose := v;
      calls := calls + [SetVerboseCall(VerbositySetting(v))];
    }

    /** The `key_pair` setter: the pair is stored and sent as certificate, then key. */
    method SetKeyPair(pair: (string, string))
      modifies this
      ensures keyPair == pair && verbose == old(verbose)
      ensures calls == old(calls) + [SetKeyPairCall(KeyPairSettingOf(pair))]
    {
      keyPair := pair;
      var cert, key := pair.0, pair.1;
      calls := calls + [SetKeyPairCall(KeyPairSetting(cert, key))];
    }

    /** `start_server`. */
    method StartServer(options: map<string, string>)
      modifies this
      ensures verbose == old(verbose) && keyPair == old(keyPair)
      ensures calls == old(calls) + [StartServerCall(options)]
    {
      calls := calls + [StartServerCall(options)];
    }

    /** `stop_server`. */
    method StopServer(id: string)
      modifies this
      ensures verbose == old(verbose) && keyPair == old(keyPair)
      ensures calls == old(calls) + [ShutdownServerCall(MakeGoString(id))]
    {
      calls := calls + [ShutdownServerCall(MakeGoString(id))];
    }
  }

  /** The module global `_library`. */
  class Loader {
    const root: string
    var library: Library?

    constructor (root: string)
      ensures this.root == root && library == null
    {
      this.root := root;
      library := null;
    }

    /** `get_library`: the first call builds the library; every later one returns it. */
    method GetLibrary() returns (lib: Library)
      modifies this
      ensures library == lib
      ensures old(library) != null ==> lib == old(library)
      ensures old(library) == null ==>
        fresh(lib) && !lib.verbose && lib.keyPair == InitialKeyPair(root)
        && lib.calls == [SetKeyPairCall(KeyPairSettingOf(InitialKeyPair(root)))]
    {
      if library == null {
        library := new Library(root);
      }
      lib := library;
    }
  }
}
