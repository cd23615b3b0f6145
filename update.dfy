/** `LibraryUpdate` and the `fetch`, `remove` and `version` commands of
    python-bindings/hazetunnel/__main__.py: compare the installed artifact with
    the newest one in the release feed, update it, or remove it. */
module Update {
  import opened Wrappers
  import opened Text
  import opened Versions
  import opened LocalStore

  datatype UpdateError =
    | InstallFailed(install: InstallError)
    | BadVersion(version: VersionError)
    | NoAssets(message: string)  // ValueError('No assets found for hazetunnel-api')

  /** `Asset(url, name)` with the version its `__post_init__` reads from the name. */
  datatype Asset = Asset(url: string, name: string, version: Version)

  /** `name` heads `get_files()`: a listed name that every other listed name sorts below. */
  ghost predicate IsGreatestListed(files: set<string>, name: string) {
    name in files && Listed(name) && forall f :: f in files && Listed(f) && f != name ==> Below(f, name)
  }

  lemma GreatestListedUnique(files: set<string>, p: string, q: string)
    requires IsGreatestListed(files, p) && IsGreatestListed(files, q)
    ensures p == q
  {
    if p != q {
      BelowAsymmetric(q, p);
    }
  }

  /** Any listing with a listed name has a greatest one, so the contracts below that speak
      of "the greatest listed name" cover every non-empty listing. */
  lemma {:induction false} GreatestListedExists(files: set<string>)
    requires exists f :: f in files && Listed(f)
    ensures exists p :: IsGreatestListed(files, p)
    decreases |files|
  {
    var x :| x in files && Listed(x);
    var rest := files - {x};
    if exists f :: f in rest && Listed(f) {
      GreatestListedExists(rest);
      var q :| IsGreatestListed(rest, q);
      if Below(q, x) {
        forall f | f in files && Listed(f) && f != x
          ensures Below(f, x)
        {
          if f != q {
            BelowTransitive(f, q, x);
          }
        }
        assert IsGreatestListed(files, x);
      } else {
        BelowTotal(q, x);
        assert IsGreatestListed(files, q);
      }
    } else {
      assert IsGreatestListed(files, x);
    }
  }

  /** `LibraryUpdate.path`: the first name of `get_files()`, whatever its extension. */
  method Path(dir: BinDirectory) returns (p: Option<string>)
    ensures p.None? <==> forall f :: f in dir.files ==> !Listed(f)
    ensures p.Some? ==> IsGreatestListed(dir.files, p.value)
  {
    var files := GetFiles(dir);
    if |files| == 0 {
      return None;
    }
    assert files[0] in files;
    assert forall f :: f in files && f != files[0] ==> Below(f, files[0]);
    return Some(files[0]);
  }

  /** `latest_asset()`: the first matching asset of the feed, with its version. */
  function LatestAsset(m: Manager, feed: Feed): (r: Result<Asset, UpdateError>)
    ensures feed.Unavailable? ==> r == Err(InstallFailed(ConnectionFailed("Could not connect to GitHub: " + feed.body)))
    ensures feed.Releases? && FindAsset(m, feed.releases).None? ==>
      r == Err(NoAssets("No assets found for hazetunnel-api"))
    ensures r.Ok? ==>
      feed.Releases? && FindAsset(m, feed.releases) == Some(AssetEntry(r.value.url, r.value.name))
      && m.Current(r.value.name) && GetVersion(r.value.name) == Ok(r.value.version)
    // a found asset yields its version, or the ValueError of its name
    ensures feed.Releases? && FindAsset(m, feed.releases).Some? ==>
      var version := GetVersion(FindAsset(m, feed.releases).value.name);
      (r.Ok? <==> version.Ok?) && (version.Err? ==> r == Err(BadVersion(version.error)))
  {
    if feed.Unavailable? then Err(InstallFailed(ConnectionFailed("Could not connect to GitHub: " + feed.body)))
    else
      match FindAsset(m, feed.releases)
      case None => Err(NoAssets("No assets found for hazetunnel-api"))
      case Some(a) =>
        AssetNameIsCurrent(m, a.name);
        match GetVersion(a.name)
        case Err(e) => Err(BadVersion(e))
        case Ok(v) => Ok(Asset(a.url, a.name, v))
  }

  datatype UpdateOutcome =
    | Installed(name: string)                            // `install()` ran
    | UpToDate(current: Version)                         // nothing downloaded, nothing deleted
    | Updated(from: Version, to: Version, oldRemoved: bool)  // new file in, old one removed unless OSError

  /** `update()`. */
  method Update(dir: BinDirectory, m: Manager, feed: Feed, interrupted: bool)
      returns (r: Result<UpdateOutcome, UpdateError>)
    modifies dir
    ensures r.Ok? && r.value.Installed? ==>
      m.Current(r.value.name) && r.value.name in dir.files
      && forall f :: f in old(dir.files) ==> !Listed(f)
    // with nothing listed, `install()` runs: `check_library()` downloads the feed's asset,
    // then its version is read from the name
    ensures (forall f :: f in old(dir.files) ==> !Listed(f)) ==> r.Err? || r.value.Installed?
    ensures (forall f :: f in old(dir.files) ==> !Listed(f)) ==>
      (feed.Unavailable? ==>
         r == Err(InstallFailed(ConnectionFailed("Could not connect to GitHub: " + feed.body)))
         && dir.files == old(dir.files))
      && (feed.Releases? && FindAsset(m, feed.releases).None? ==>
            r == Err(InstallFailed(NoMatchingBinary(NoBinaryMessage))) && dir.files == old(dir.files))
      && (feed.Releases? && FindAsset(m, feed.releases).Some? ==>
            var name := FindAsset(m, feed.releases).value.name;
            (!interrupted ==>
               dir.files == old(dir.files) + {name}
               && (GetVersion(name).Ok? ==> r == Ok(Installed(name)))
               && (GetVersion(name).Err? ==> r == Err(BadVersion(GetVersion(name).error))))
            && (interrupted && name !in dir.locked ==>
                  r == Err(InstallFailed(Cancelled)) && dir.files == old(dir.files) - {name})
            && (interrupted && name in dir.locked ==>
                  r == Err(InstallFailed(RemoveFailed(name))) && dir.files == old(dir.files) + {name}))
    // otherwise the greatest listed name decides
    ensures forall p :: IsGreatestListed(old(dir.files), p) ==>
      var current := GetVersion(p);
      var latest := LatestAsset(m, feed);
      (current.Err? ==> r == Err(BadVersion(current.error)) && dir.files == old(dir.files))
      && (current.Ok? && latest.Err? ==> r == Err(latest.error) && dir.files == old(dir.files))
      && (current.Ok? && latest.Ok? && AtLeast(current.value, latest.value.version) ==>
            r == Ok(UpToDate(current.value)) && dir.files == old(dir.files))
      && (current.Ok? && latest.Ok? && Older(current.value, latest.value.version) ==>
            var name := latest.value.name;
            p != name
            && (!interrupted ==>
                  r.Ok? && r.value == Updated(current.value, latest.value.version, p !in dir.locked)
                  && dir.files == old(dir.files) + {name} - (if p !in dir.locked then {p} else {}))
            // the partial file is removed and KeyboardInterrupt re-raised, or the removal raises
            && (interrupted && name !in dir.locked ==>
                  r == Err(InstallFailed(Cancelled)) && dir.files == old(dir.files) - {name})
            && (interrupted && name in dir.locked ==>
                  r == Err(InstallFailed(RemoveFailed(name))) && dir.files == old(dir.files) + {name}))
  {
    var path := Path(dir);
    if path.Some? {
      forall p | IsGreatestListed(old(dir.files), p)
        ensures p == path.value
      {
        GreatestListedUnique(old(dir.files), p, path.value);
      }
    }
    if path.None? {
      assert Candidates(m, dir.files) == {} && !HasCurrent(m, dir.files);
      var installed := CheckLibrary(dir, m, feed, interrupted);
      if installed.Err? {
        return Err(InstallFailed(installed.error));
      }
      var ver := GetVersion(installed.value);
      if ver.Err? {
        return Err(BadVersion(ver.error));
      }
      return Ok(Installed(installed.value));
    }
    var current := GetVersion(path.value);
    if current.Err? {
      return Err(BadVersion(current.error));
    }
    var asset := LatestAsset(m, feed);
    if asset.Err? {
      return Err(asset.error);
    }
    if AtLeast(current.value, asset.value.version) {
      return Ok(UpToDate(current.value));
    }
    // the names differ: equal names would carry equal versions
    KeyLessIrreflexive(current.value.key);
    assert path.value != asset.value.name;
    var done := DownloadFile(dir, asset.value.name, interrupted);
    if done.Err? {
      return Err(InstallFailed(done.error));
    }
    var removed := dir.Remove(path.value);
    return Ok(Updated(current.value, asset.value.version, removed));
  }

  /** What `remove` reports about the library file. */
  datatype RemoveReport =
    | NotDownloaded           // 'Library is not downloaded.'
    | Removed(path: string)
    | CouldNotRemove(path: string)  // the OSError is only printed

  /** The names `(root_dir / 'bin').glob('*.pem')` yields. */
  ghost function Pems(files: set<string>): set<string> {
    set f | f in files && EndsWith(f, ".pem")
  }

  /** The `*.pem` loop of `remove`: every such file is unlinked, and the first one that
      cannot be unlinked stops the loop with its error. */
  method RemovePems(dir: BinDirectory) returns (failed: Option<string>)
    modifies dir
    ensures failed.None? ==> dir.files == old(dir.files) - Pems(old(dir.files))
    ensures failed.Some? ==>
      failed.value in Pems(old(dir.files)) && failed.value in dir.locked && failed.value in dir.files
      && old(dir.files) - Pems(old(dir.files)) <= dir.files <= old(dir.files)
  {
    var pems := set f | f in dir.files && EndsWith(f, ".pem");
    ghost var before := dir.files;
    while pems != {}
      invariant pems <= dir.files <= before
      invariant dir.files == before - (Pems(before) - pems)
      decreases pems
    {
      var f :| f in pems;
      var ok := dir.Remove(f);
      if !ok {
        return Some(f);
      }
      pems := pems - {f};
    }
    return None;
  }

  /** The `remove` command: the library path is taken first, then every `*.pem` file is
      unlinked (a failure propagates), then the library file is removed. */
  method RemoveCommand(dir: BinDirectory) returns (r: Result<RemoveReport, string>)
    modifies dir
    ensures dir.files <= old(dir.files)
    ensures r.Ok? ==> forall f :: f in dir.files ==> !EndsWith(f, ".pem")
    ensures r.Ok? && r.value.NotDownloaded? ==> dir.files == old(dir.files) - Pems(old(dir.files))
    ensures r.Ok? && !r.value.NotDownloaded? ==>
      var p := r.value.path;
      IsGreatestListed(old(dir.files), p) && !EndsWith(p, ".pem")
      && (r.value.Removed? <==> p !in dir.locked)
      && dir.files == old(dir.files) - Pems(old(dir.files)) - (if r.value.Removed? then {p} else {})
    ensures r.Err? ==> EndsWith(r.error, ".pem") && r.error in dir.locked && r.error in dir.files
    ensures forall f :: f in old(dir.files) && !EndsWith(f, ".pem") && (r.Err? || r.value.NotDownloaded? || f != r.value.path) ==> f in dir.files
    // the `*.pem` loop fails only on a file it cannot unlink
    ensures (forall f :: f in old(dir.files) && EndsWith(f, ".pem") ==> f !in dir.locked) ==> r.Ok?
    // the library is the greatest listed name; it is gone before its turn only if it is a `*.pem`
    ensures forall p :: IsGreatestListed(old(dir.files), p) ==>
      r.Ok? ==> (r.value.NotDownloaded? <==> EndsWith(p, ".pem")) && (!r.value.NotDownloaded? ==> r.value.path == p)
  {
    var path := Path(dir);
    if path.Some? {
      forall p | IsGreatestListed(old(dir.files), p)
        ensures p == path.value
      {
        GreatestListedUnique(old(dir.files), p, path.value);
      }
    }
    var failed := RemovePems(dir);
    if failed.Some? {
      return Err(failed.value);
    }
    if path.None? || path.value !in dir.files {
      return Ok(NotDownloaded);
    }
    var ok := dir.Remove(path.value);
    if ok {
      return Ok(Removed(path.value));
    }
    return Ok(CouldNotRemove(path.value));
  }

  /** What `version` prints about the library. */
  datatype VersionReport =
    | NotInstalled  // 'Not downloaded!'
    | Report(installed: Version, latest: Version, upToDate: bool)

  /** The `version` command: "Up to date" exactly when the versions are equal as tuples. */
  method VersionCommand(dir: BinDirectory, m: Manager, feed: Feed) returns (r: Result<VersionReport, UpdateError>)
    ensures r.Ok? && r.value.NotInstalled? <==> forall f :: f in dir.files ==> !Listed(f)
    // otherwise the version of the greatest listed name is reported against the latest one
    ensures forall p :: IsGreatestListed(dir.files, p) ==>
      var installed := GetVersion(p);
      var latest := LatestAsset(m, feed);
      (installed.Err? ==> r == Err(BadVersion(installed.error)))
      && (installed.Ok? && latest.Err? ==> r == Err(latest.error))
      && (installed.Ok? && latest.Ok? ==>
            r.Ok? && r.value.Report? && r.value.installed == installed.value
            && r.value.latest == latest.value.version
            && (r.value.upToDate <==> Same(latest.value.version, installed.value)))
  {
    var path := Path(dir);
    if path.Some? {
      forall p | IsGreatestListed(dir.files, p)
        ensures p == path.value
      {
        GreatestListedUnique(dir.files, p, path.value);
      }
    }
    if path.None? {
      return Ok(NotInstalled);
    }
    var installed := GetVersion(path.value);
    if installed.Err? {
      return Err(BadVersion(installed.error));
    }
    var asset := LatestAsset(m, feed);
    if asset.Err? {
      return Err(asset.error);
    }
    return Ok(Report(installed.value, asset.value.version, Same(asset.value.version, installed.value)));
  }

  /** When `version` says "Up to date", `update` downloads nothing. */
  lemma UpToDateAgrees(installed: Version, latest: Version)
    requires Same(latest, installed)
    ensures AtLeast(installed, latest)
  {
    KeyLessIrreflexive(installed.key);
  }
}
