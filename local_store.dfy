/** `LibraryManager` of python-bindings/hazetunnel/cffi.py: the bin directory
    that holds downloaded hazetunnel-api artifacts, the release feed they are
    chosen from, and `check_library`, which keeps the current artifact and
    deletes stale ones. */
module LocalStore {
  import opened Wrappers
  import opened Text
  import opened Platform

  /** Names matched by `parent_path.glob('hazetunnel-api-*')`. */
  const GlobPrefix := "hazetunnel-api-"

  predicate Listed(name: string) {
    StartsWith(name, GlobPrefix)
  }

  /** One entry of a release's `assets` list. */
  datatype AssetEntry = AssetEntry(url: string, name: string)

  /** The answer of the releases endpoint: a failure with its body, or the releases in feed order. */
  datatype Feed = Unavailable(body: string) | Releases(releases: seq<seq<AssetEntry>>)

  datatype InstallError =
    | RemoveFailed(name: string)        // os.remove raised OSError
    | ConnectionFailed(message: string) // ConnectionError from get_releases
    | NoMatchingBinary(message: string) // IOError from download_library
    | Cancelled                         // KeyboardInterrupt re-raised by download_file

  const NoBinaryMessage := "Could not find a matching binary for your system."

  /** The manager's naming constants: `(file_cont, file_ext)` and the bridge version in `file_pref`. */
  datatype Manager = Manager(tag: PlatformTag, bridgeVersion: string) {
    function FilePref(): (p: string)
      ensures StartsWith(p, GlobPrefix)
    {
      "hazetunnel-api-v" + bridgeVersion
    }

    /** A listed file with the platform's extension: `check_library` looks at it. */
    predicate Candidate(name: string) {
      Listed(name) && EndsWith(name, tag.ext)
    }

    /** A candidate of the required version: `check_library` returns it. */
    predicate Current(name: string) {
      Candidate(name) && StartsWith(name, FilePref())
    }

    /** The three filters of `check_assets`. */
    predicate AssetMatches(name: string) {
      StartsWith(name, FilePref()) && Contains(name, tag.cont) && EndsWith(name, tag.ext)
    }
  }

  lemma AssetNameIsCurrent(m: Manager, name: string)
    requires m.AssetMatches(name)
    ensures m.Current(name)
  {
    var p := m.FilePref();
    assert name[..|GlobPrefix|] == p[..|GlobPrefix|];
  }

  /** The bin directory. `locked` holds the names whose removal raises OSError. */
  class BinDirectory {
    var files: set<string>
    const locked: set<string>

    constructor (files: set<string>, locked: set<string>)
      ensures this.files == files && this.locked == locked
    {
      this.files := files;
      this.locked := locked;
    }

    /** `os.remove(parent_path / name)`. */
    method Remove(name: string) returns (ok: bool)
      modifies this
      ensures ok <==> old(files) == files + {name} && name !in files && name !in locked
      ensures ok == (name in old(files) && name !in locked)
      ensures files == if ok then old(files) - {name} else old(files)
    {
      ok := name in files && name !in locked;
      if ok {
        files := files - {name};
      }
    }

    /** `open(parent_path / name, 'wb')`: the file exists from then on. */
    method Create(name: string)
      modifies this
      ensures files == old(files) + {name}
    {
      files := files + {name};
    }
  }

  /** `s` is in strictly descending lexical order, as `sorted(..., reverse=True)` leaves distinct names. */
  ghost predicate Descending(s: seq<string>) {
    forall i, j :: 0 <= i < j < |s| ==> Below(s[j], s[i])
  }

  /** The greatest element of a non-empty set of names. */
  method Greatest(s: set<string>) returns (m: string)
    requires s != {}
    ensures m in s
    ensures forall x :: x in s && x != m ==> Below(x, m)
  {
    m :| m in s;
    var rest := s - {m};
    while rest != {}
      invariant rest <= s && m in s && m !in rest
      invariant forall x :: x in s && x !in rest && x != m ==> Below(x, m)
      decreases rest
    {
      var x :| x in rest;
      if Below(m, x) {
        forall y | y in s && y !in rest && y != m
          ensures Below(y, x)
        {
          BelowTransitive(y, m, x);
        }
        m := x;
      } else {
        BelowTotal(x, m);
      }
      rest := rest - {x};
    }
  }

  /** `sorted(names, reverse=True)` for a set of names. */
  method SortDescending(names: set<string>) returns (r: seq<string>)
    ensures Descending(r)
    ensures forall x :: x in r <==> x in names
  {
    r := [];
    var rest := names;
    while rest != {}
      invariant rest <= names
      invariant forall x :: x in r <==> x in names && x !in rest
      invariant Descending(r)
      invariant forall i, x :: 0 <= i < |r| && x in rest ==> Below(x, r[i])
      decreases rest
    {
      var m := Greatest(rest);
      r := r + [m];
      rest := rest - {m};
    }
  }

  /** `get_files()`: the listed names of the directory, in descending lexical order. */
  method GetFiles(dir: BinDirectory) returns (r: seq<string>)
    ensures Descending(r)
    ensures forall x :: x in r <==> x in dir.files && Listed(x)
  {
    r := SortDescending(set f | f in dir.files && Listed(f));
  }

  lemma InSeq<T>(s: seq<T>, i: int)
    requires 0 <= i < |s|
    ensures s[i] in s
  {
  }

  /** A strictly descending listing is determined by its elements: list order is not a choice. */
  lemma {:induction false} DescendingUnique(a: seq<string>, b: seq<string>)
    requires Descending(a) && Descending(b)
    requires forall x :: x in a <==> x in b
    ensures a == b
    decreases |a|
  {
    if |a| == 0 || |b| == 0 {
      if |a| > 0 {
        InSeq(a, 0);
        assert false;
      } else if |b| > 0 {
        InSeq(b, 0);
        assert false;
      }
    } else {
      assert a[0] in b;
      assert b[0] in a;
      if a[0] != b[0] {
        var i :| 0 <= i < |b| && b[i] == a[0];
        var j :| 0 <= j < |a| && a[j] == b[0];
        assert Below(a[0], b[0]);
        assert Below(b[0], a[0]);
        BelowAsymmetric(a[0], b[0]);
      }
      forall x
        ensures x in a[1..] <==> x in b[1..]
      {
        if x in a[1..] {
          var i :| 1 <= i < |a| && a[i] == x;
          assert Below(x, a[0]);
          BelowIrreflexive(x);
          assert x in b;
        }
        if x in b[1..] {
          var i :| 1 <= i < |b| && b[i] == x;
          assert Below(x, b[0]);
          BelowIrreflexive(x);
          assert x in a;
        }
      }
      DescendingUnique(a[1..], b[1..]);
      assert a == [a[0]] + a[1..] && b == [b[0]] + b[1..];
    }
  }

  /** The asset at index `k` passes the filters and no earlier one does. */
  ghost predicate FirstMatchAt(m: Manager, assets: seq<AssetEntry>, k: int) {
    0 <= k < |assets| && m.AssetMatches(assets[k].name)
    && forall j :: 0 <= j < k ==> !m.AssetMatches(assets[j].name)
  }

  /** `check_assets(assets)`: the first asset in list order passing all three filters. */
  function CheckAssets(m: Manager, assets: seq<AssetEntry>): (r: Option<AssetEntry>)
    ensures r.None? <==> forall j :: 0 <= j < |assets| ==> !m.AssetMatches(assets[j].name)
    ensures r.Some? ==> exists k :: FirstMatchAt(m, assets, k) && assets[k] == r.value
    decreases |assets|
  {
    if |assets| == 0 then None
    else if m.AssetMatches(assets[0].name) then
      assert FirstMatchAt(m, assets, 0);
      Some(assets[0])
    else
      var r := CheckAssets(m, assets[1..]);
      if r.Some? then
        assert exists k :: FirstMatchAt(m, assets, k) && assets[k] == r.value by {
          var k :| FirstMatchAt(m, assets[1..], k) && assets[1..][k] == r.value;
          assert FirstMatchAt(m, assets, k + 1);
        }
        r
      else r
  }

  /** The release at index `k` is the first one in feed order that has a matching asset. */
  ghost predicate FirstReleaseAt(m: Manager, releases: seq<seq<AssetEntry>>, k: int) {
    0 <= k < |releases| && CheckAssets(m, releases[k]).Some?
    && forall j :: 0 <= j < k ==> CheckAssets(m, releases[j]).None?
  }

  /** The loop of `download_library` and `latest_asset` over the releases. */
  function FindAsset(m: Manager, releases: seq<seq<AssetEntry>>): (r: Option<AssetEntry>)
    ensures r.None? <==> forall j :: 0 <= j < |releases| ==> CheckAssets(m, releases[j]).None?
    ensures r.Some? ==> exists k :: FirstReleaseAt(m, releases, k) && CheckAssets(m, releases[k]) == r
    ensures r.Some? ==> m.AssetMatches(r.value.name)
    decreases |releases|
  {
    if |releases| == 0 then None
    else
      var here := CheckAssets(m, releases[0]);
      if here.Some? then
        assert FirstReleaseAt(m, releases, 0);
        here
      else
        var r := FindAsset(m, releases[1..]);
        if r.Some? then
          assert exists k :: FirstReleaseAt(m, releases, k) && CheckAssets(m, releases[k]) == r by {
            var k :| FirstReleaseAt(m, releases[1..], k) && CheckAssets(m, releases[1..][k]) == r;
            FirstReleaseShift(m, releases, k);
          }
          r
        else r
  }

  /** A first match in the tail is the first match overall when the head release has none. */
  lemma FirstReleaseShift(m: Manager, releases: seq<seq<AssetEntry>>, k: int)
    requires |releases| > 0 && CheckAssets(m, releases[0]).None?
    requires FirstReleaseAt(m, releases[1..], k)
    ensures FirstReleaseAt(m, releases, k + 1) && releases[k + 1] == releases[1..][k]
  {
    forall j | 0 <= j < k + 1
      ensures CheckAssets(m, releases[j]).None?
    {
      if j > 0 {
        assert releases[j] == releases[1..][j - 1];
      }
    }
  }

  /** `download_file(parent_path / name, url)`: the file is created; when the transfer is
      interrupted it is removed again and the interrupt re-raised. */
  method DownloadFile(dir: BinDirectory, name: string, interrupted: bool) returns (r: Result<(), InstallError>)
    modifies dir
    ensures !interrupted ==> r.Ok? && dir.files == old(dir.files) + {name}
    ensures interrupted && name !in dir.locked ==> r == Err(Cancelled) && dir.files == old(dir.files) - {name}
    ensures interrupted && name in dir.locked ==> r == Err(RemoveFailed(name)) && dir.files == old(dir.files) + {name}
  {
    dir.Create(name);
    if interrupted {
      var ok := dir.Remove(name);
      if ok {
        return Err(Cancelled);
      }
      return Err(RemoveFailed(name));
    }
    return Ok(());
  }

  /** `download_library()`: the first matching asset of the feed, downloaded under its own name. */
  method DownloadLibrary(dir: BinDirectory, m: Manager, feed: Feed, interrupted: bool)
      returns (r: Result<string, InstallError>)
    modifies dir
    ensures feed.Unavailable? ==> r == Err(ConnectionFailed("Could not connect to GitHub: " + feed.body))
    ensures feed.Releases? && FindAsset(m, feed.releases).None? ==> r == Err(NoMatchingBinary(NoBinaryMessage))
    ensures r.Ok? ==> feed.Releases? && FindAsset(m, feed.releases) == Some(AssetEntry(FindAsset(m, feed.releases).value.url, r.value))
    ensures r.Ok? ==> m.Current(r.value) && dir.files == old(dir.files) + {r.value}
    // a found asset is downloaded unless the transfer is interrupted
    ensures feed.Releases? && FindAsset(m, feed.releases).Some? ==> (r.Ok? <==> !interrupted)
    ensures r.Err? && feed.Releases? && FindAsset(m, feed.releases).Some? ==>
      var name := FindAsset(m, feed.releases).value.name;
      interrupted
      && (name !in dir.locked ==> r == Err(Cancelled) && dir.files == old(dir.files) - {name})
      && (name in dir.locked ==> r == Err(RemoveFailed(name)) && dir.files == old(dir.files) + {name})
    ensures r.Err? && !(feed.Releases? && FindAsset(m, feed.releases).Some?) ==> dir.files == old(dir.files)
  {
    if feed.Unavailable? {
      return Err(ConnectionFailed("Could not connect to GitHub: " + feed.body));
    }
    var asset := FindAsset(m, feed.releases);
    if asset.None? {
      return Err(NoMatchingBinary(NoBinaryMessage));
    }
    AssetNameIsCurrent(m, asset.value.name);
    var done := DownloadFile(dir, asset.value.name, interrupted);
    if done.Err? {
      return Err(done.error);
    }
    return Ok(asset.value.name);
  }

  /** The candidates of `files` that sort after `name` (they come before it in the listing). */
  ghost function Above(m: Manager, files: set<string>, name: string): set<string> {
    set f | f in files && m.Candidate(f) && Below(name, f)
  }

  ghost function Candidates(m: Manager, files: set<string>): set<string> {
    set f | f in files && m.Candidate(f)
  }

  ghost predicate HasCurrent(m: Manager, files: set<string>) {
    exists f :: f in files && m.Current(f)
  }

  /** In a descending listing, the names before index `i` are exactly those that sort after `s[i]`. */
  lemma PrefixIsAbove(s: seq<string>, i: int)
    requires Descending(s) && 0 <= i < |s|
    ensures forall x :: x in s[..i] <==> x in s && Below(s[i], x)
  {
    forall x | x in s
      ensures x in s[..i] <==> Below(s[i], x)
    {
      var k :| 0 <= k < |s| && s[k] == x;
      if k == i {
        BelowIrreflexive(x);
      } else if k > i {
        assert Below(s[k], s[i]);
        BelowAsymmetric(s[k], s[i]);
      }
    }
  }

  /** Where the walk of `check_library` over the listing stopped. */
  datatype SweepStop =
    | Found(name: string)    // a name of the required version: returned
    | Blocked(name: string)  // a stale name whose removal raised OSError
    | Exhausted              // the listing ran out

  /** The `for file in files` loop of `check_library`, over a descending listing of the directory. */
  method Sweep(dir: BinDirectory, m: Manager, listing: seq<string>) returns (stop: SweepStop)
    requires Descending(listing)
    requires forall x :: x in listing <==> x in dir.files && Listed(x)
    modifies dir
    ensures dir.files <= old(dir.files)
    ensures forall f :: f in old(dir.files) && !m.Candidate(f) ==> f in dir.files
    ensures stop.Found? ==>
      var c := stop.name;
      c in old(dir.files) && m.Current(c)
      && (forall f :: f in old(dir.files) && m.Current(f) ==> !Below(c, f))
      && dir.files == old(dir.files) - Above(m, old(dir.files), c)
    ensures stop.Blocked? ==>
      var g := stop.name;
      g in old(dir.files) && m.Candidate(g) && !m.Current(g) && g in dir.locked
      && (forall f :: f in old(dir.files) && m.Current(f) ==> Below(f, g))
      && dir.files == old(dir.files) - Above(m, old(dir.files), g)
    ensures stop.Exhausted? ==>
      !HasCurrent(m, old(dir.files))
      && Candidates(m, old(dir.files)) !! dir.locked
      && dir.files == old(dir.files) - Candidates(m, old(dir.files))
  {
    ghost var before := dir.files;
    var i := 0;
    while i < |listing|
      invariant 0 <= i <= |listing|
      invariant dir.files <= before
      invariant forall f :: f in before ==> (f in dir.files <==> !(f in listing[..i] && m.Candidate(f)))
      invariant forall k :: 0 <= k < i ==> !m.Current(listing[k])
      invariant forall k :: 0 <= k < i && m.Candidate(listing[k]) ==> listing[k] !in dir.locked
    {
      var f := listing[i];
      if EndsWith(f, m.tag.ext) {
        PrefixIsAbove(listing, i);
        BelowIrreflexive(f);
        if StartsWith(f, m.FilePref()) {
          forall c | c in before && m.Current(c)
            ensures !Below(f, c)
          {
          }
          return Found(f);
        }
        var ok := dir.Remove(f);
        if !ok {
          forall c | c in before && m.Current(c)
            ensures Below(c, f)
          {
            assert c in listing;
            if !Below(c, f) {
              BelowTotal(c, f);
            }
          }
          return Blocked(f);
        }
      }
      assert listing[..i + 1] == listing[..i] + [f];
      i := i + 1;
    }
    assert listing[..i] == listing;
    assert forall c :: c in before && m.Current(c) ==> c in listing;
    return Exhausted;
  }

  /** `check_library()`. Walking the listing in descending order it skips names with
      another extension, returns the first name of the required version and deletes
      every other candidate before it; with no such name it downloads the artifact
      and checks again. */
  method CheckLibrary(dir: BinDirectory, m: Manager, feed: Feed, interrupted: bool)
      returns (r: Result<string, InstallError>)
    modifies dir
    decreases if HasCurrent(m, dir.files) then 0 else 1, 1
    // only candidates are ever deleted
    ensures forall f :: f in old(dir.files) && !m.Candidate(f) ==> f in dir.files
    ensures r.Ok? ==> m.Current(r.value) && r.value in dir.files
    // an installed artifact: the greatest current name, the candidates above it deleted
    ensures r.Ok? && r.value in old(dir.files) ==>
      (forall f :: f in old(dir.files) && m.Current(f) ==> !Below(r.value, f))
      && dir.files == old(dir.files) - Above(m, old(dir.files), r.value)
    // a fresh download: no current name existed and every candidate was deleted
    ensures r.Ok? && r.value !in old(dir.files) ==>
      !HasCurrent(m, old(dir.files))
      && feed.Releases? && FindAsset(m, feed.releases).Some?
      && FindAsset(m, feed.releases).value.name == r.value
      && dir.files == old(dir.files) - Candidates(m, old(dir.files)) + {r.value}
    // a stale candidate that could not be deleted: the walk stopped there
    ensures r.Err? && r.error.RemoveFailed? && r.error.name in old(dir.files) ==>
      var g := r.error.name;
      m.Candidate(g) && !m.Current(g) && g in dir.locked
      && (forall f :: f in old(dir.files) && m.Current(f) ==> Below(f, g))
      && dir.files == old(dir.files) - Above(m, old(dir.files), g)
    // the download step failed after every candidate had been deleted
    ensures r.Err? && !(r.error.RemoveFailed? && r.error.name in old(dir.files)) ==>
      !HasCurrent(m, old(dir.files))
      && Candidates(m, old(dir.files)) !! dir.locked
    // with no current name and nothing locked among the candidates, every candidate goes and
    // `download_library` decides; the re-check then returns the downloaded name
    ensures !HasCurrent(m, old(dir.files)) && Candidates(m, old(dir.files)) !! dir.locked ==>
      var swept := old(dir.files) - Candidates(m, old(dir.files));
      (feed.Unavailable? ==>
         r == Err(ConnectionFailed("Could not connect to GitHub: " + feed.body)) && dir.files == swept)
      && (feed.Releases? && FindAsset(m, feed.releases).None? ==>
            r == Err(NoMatchingBinary(NoBinaryMessage)) && dir.files == swept)
      && (feed.Releases? && FindAsset(m, feed.releases).Some? ==>
            var name := FindAsset(m, feed.releases).value.name;
            (!interrupted ==> r == Ok(name) && dir.files == swept + {name})
            && (interrupted && name !in dir.locked ==> r == Err(Cancelled) && dir.files == swept - {name})
            && (interrupted && name in dir.locked ==> r == Err(RemoveFailed(name)) && dir.files == swept + {name}))
  {
    var listing := GetFiles(dir);
    var stop := Sweep(dir, m, listing);
    match stop {
      case Found(c) => return Ok(c);
      case Blocked(g) => return Err(RemoveFailed(g));
      case Exhausted =>
    }
    r := DownloadAndCheck(dir, m, feed, interrupted);
  }

  /** The last two lines of `check_library()`, reached with no candidate left in the directory:
      `download_library()`, then `check_library()` again, which finds the downloaded name. */
  method DownloadAndCheck(dir: BinDirectory, m: Manager, feed: Feed, interrupted: bool)
      returns (r: Result<string, InstallError>)
    requires Candidates(m, dir.files) == {}
    modifies dir
    decreases 1, 0
    ensures feed.Unavailable? ==>
      r == Err(ConnectionFailed("Could not connect to GitHub: " + feed.body)) && dir.files == old(dir.files)
    ensures feed.Releases? && FindAsset(m, feed.releases).None? ==>
      r == Err(NoMatchingBinary(NoBinaryMessage)) && dir.files == old(dir.files)
    ensures feed.Releases? && FindAsset(m, feed.releases).Some? ==>
      var name := FindAsset(m, feed.releases).value.name;
      m.Current(name)
      && (!interrupted ==> r == Ok(name) && dir.files == old(dir.files) + {name})
      && (interrupted && name !in dir.locked ==> r == Err(Cancelled) && dir.files == old(dir.files) - {name})
      && (interrupted && name in dir.locked ==> r == Err(RemoveFailed(name)) && dir.files == old(dir.files) + {name})
  {
    var downloaded := DownloadLibrary(dir, m, feed, interrupted);
    if downloaded.Err? {
      if feed.Releases? && FindAsset(m, feed.releases).Some? {
        AssetNameIsCurrent(m, FindAsset(m, feed.releases).value.name);
      }
      return Err(downloaded.error);
    }
    var name := downloaded.value;
    assert Candidates(m, dir.files) == {name};
    r := Recheck(dir, m, feed, interrupted, name);
  }

  /** The recursive `check_library()` once the downloaded name is the only candidate: it is
      returned and the directory is left as it is. */
  method Recheck(dir: BinDirectory, m: Manager, feed: Feed, interrupted: bool, name: string)
      returns (r: Result<string, InstallError>)
    requires m.Current(name) && Candidates(m, dir.files) == {name}
    modifies dir
    decreases 0, 2
    ensures r == Ok(name) && dir.files == old(dir.files)
  {
    ghost var files := dir.files;
    SoleCandidate(m, files, name);
    BelowIrreflexive(name);
    r := CheckLibrary(dir, m, feed, interrupted);
    assert r.Ok? && r.value == name;
    assert Above(m, files, name) == {};
  }

  lemma SoleCandidate(m: Manager, files: set<string>, name: string)
    requires Candidates(m, files) == {name}
    ensures name in files && m.Candidate(name)
    ensures forall g :: g in files && m.Candidate(g) ==> g == name
  {
    assert name in Candidates(m, files);
    forall g | g in files && m.Candidate(g)
      ensures g == name
    {
      assert g in Candidates(m, files);
    }
  }
}
