/** `LibraryManager.get_name` and `arch_map` of python-bindings/hazetunnel/cffi.py:
    the host's machine and platform strings decide which artifact the
    bindings look for. */
module Platform {
  import opened Wrappers
  import opened Text

  /** `arch_map`: lower-cased machine names to the architecture part of an artifact name. */
  function ArchMap(): map<string, string> {
    map[
      "amd64" := "amd64",
      "x86_64" := "amd64",
      "x86" := "386",
      "i686" := "386",
      "i386" := "386",
      "arm64" := "arm64",
      "aarch64" := "arm64",
      "armv5l" := "arm-5",
      "armv6l" := "arm-6",
      "armv7l" := "arm-7",
      "ppc64le" := "ppc64le",
      "riscv64" := "riscv64",
      "s390x" := "s390x"
    ]
  }

  /** The OSError raised for a machine missing from `arch_map`. */
  datatype PlatformError = Unsupported(message: string)

  const UnsupportedMessage := "Your machine architecture is not supported."

  /** `(file_cont, file_ext)`: the text an artifact name must contain and its extension. */
  datatype PlatformTag = PlatformTag(cont: string, ext: string)

  /** `get_name()`, with `platform.machine()` and `sys.platform` as inputs. */
  function GetName(machine: string, platform: string): (r: Result<PlatformTag, PlatformError>)
    ensures r.Err? <==> Lower(machine) !in ArchMap()
    ensures r.Err? ==> r.error == Unsupported(UnsupportedMessage)
    ensures r.Ok? && platform == "darwin" ==>
      r.value == PlatformTag("darwin-" + ArchMap()[Lower(machine)], ".dylib")
    ensures r.Ok? && (platform == "win32" || platform == "cygwin") ==>
      r.value == PlatformTag("windows-" + ArchMap()[Lower(machine)], ".dll")
    ensures r.Ok? && platform != "darwin" && platform != "win32" && platform != "cygwin" ==>
      r.value == PlatformTag("linux-" + ArchMap()[Lower(machine)], ".so")
  {
    var key := Lower(machine);
    if key !in ArchMap() then Err(Unsupported(UnsupportedMessage))
    else
      var arch := ArchMap()[key];
      if platform == "darwin" then Ok(PlatformTag("darwin-" + arch, ".dylib"))
      else if platform == "win32" || platform == "cygwin" then Ok(PlatformTag("windows-" + arch, ".dll"))
      else Ok(PlatformTag("linux-" + arch, ".so"))
  }

  /** The lookup ignores the case of the machine string. */
  lemma GetNameIgnoresCase(machine: string, platform: string)
    ensures GetName(Lower(machine), platform) == GetName(machine, platform)
  {
    LowerIdempotent(machine);
  }

  /** Aliases of one architecture select the same artifact. */
  lemma AliasesAgree(platform: string)
    ensures GetName("x86_64", platform) == GetName("AMD64", platform)
    ensures GetName("aarch64", platform) == GetName("arm64", platform)
    ensures GetName("i686", platform) == GetName("x86", platform)
  {
    assert Lower("AMD64") == "amd64";
    assert Lower("x86_64") == "x86_64";
    assert Lower("aarch64") == "aarch64";
    assert Lower("arm64") == "arm64";
    assert Lower("i686") == "i686";
    assert Lower("x86") == "x86";
  }

  /** A tag's extension always matches the operating system named in `cont`. */
  lemma TagIsConsistent(machine: string, platform: string)
    requires GetName(machine, platform).Ok?
    ensures var t := GetName(machine, platform).value;
      (t.ext == ".dylib" <==> StartsWith(t.cont, "darwin-"))
      && (t.ext == ".dll" <==> StartsWith(t.cont, "windows-"))
      && (t.ext == ".so" <==> StartsWith(t.cont, "linux-"))
  {
    var t := GetName(machine, platform).value;
    var arch := ArchMap()[Lower(machine)];
    assert t.cont[0] == 'd' <==> t.ext == ".dylib";
    assert t.cont[0] == 'w' <==> t.ext == ".dll";
    assert t.cont[0] == 'l' <==> t.ext == ".so";
    assert StartsWith("darwin-" + arch, "darwin-");
    assert StartsWith("windows-" + arch, "windows-");
    assert StartsWith("linux-" + arch, "linux-");
  }
}
