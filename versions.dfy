/** `Version` and `Version.get_version` of python-bindings/hazetunnel/__main__.py:
    dotted version strings become tuples of integers that compare like
    Python tuples, and artifact names carry their version after a fixed
    prefix. */
module Versions {
  import opened Wrappers
  import opened Text

  /** A parsed version: its text (`str(v)`) and `sort_version`, the tuple of its segments. */
  datatype Version = Version(text: string, key: seq<nat>)

  datatype VersionError =
    | InvalidSegment(segment: string)  // `int(x)` raised ValueError
    | NoVersionIn(name: string)        // 'Could not find version in {name}'

  /** `int(x)` on one segment, for the characters the file-name pattern admits. */
  function ParseSegment(segment: string): (r: Result<nat, VersionError>)
    ensures r.Ok? <==> |segment| > 0 && AllDigits(segment)
  {
    if |segment| > 0 && AllDigits(segment) then Ok(DigitsValue(segment))
    else Err(InvalidSegment(segment))
  }

  /** `tuple(int(x) for x in segments)`: the first bad segment raises. */
  function ParseSegments(segments: seq<string>): (r: Result<seq<nat>, VersionError>)
    ensures r.Ok? ==> |r.value| == |segments|
    ensures r.Ok? <==> forall i :: 0 <= i < |segments| ==> ParseSegment(segments[i]).Ok?
    ensures r.Ok? ==> forall i :: 0 <= i < |segments| ==> r.value[i] == ParseSegment(segments[i]).value
    decreases |segments|
  {
    if |segments| == 0 then Ok([])
    else
      match ParseSegment(segments[0])
      case Err(e) => Err(e)
      case Ok(n) =>
        match ParseSegments(segments[1..])
        case Err(e) => Err(e)
        case Ok(ns) => Ok([n] + ns)
  }

  /** `Version(text)`: `__post_init__` splits on '.' and converts every segment. */
  function Parse(text: string): Result<Version, VersionError> {
    match ParseSegments(Split(text, '.'))
    case Err(e) => Err(e)
    case Ok(key) => Ok(Version(text, key))
  }

  /** `a < b` on integer tuples: the first differing segment decides, a proper prefix is smaller. */
  predicate KeyLess(a: seq<nat>, b: seq<nat>)
    decreases |a|
  {
    if |a| == 0 then |b| > 0
    else if |b| == 0 then false
    else if a[0] != b[0] then a[0] < b[0]
    else KeyLess(a[1..], b[1..])
  }

  /** `Version.__eq__`. */
  predicate Same(a: Version, b: Version) {
    a.key == b.key
  }

  /** `Version.__lt__`. */
  predicate Older(a: Version, b: Version) {
    KeyLess(a.key, b.key)
  }

  /** `a >= b` as `functools.total_ordering` derives it from `__lt__`. */
  predicate AtLeast(a: Version, b: Version) {
    !Older(a, b)
  }

  lemma {:induction false} KeyLessIrreflexive(a: seq<nat>)
    ensures !KeyLess(a, a)
    decreases |a|
  {
    if |a| > 0 {
      KeyLessIrreflexive(a[1..]);
    }
  }

  lemma {:induction false} KeyLessTransitive(a: seq<nat>, b: seq<nat>, c: seq<nat>)
    requires KeyLess(a, b) && KeyLess(b, c)
    ensures KeyLess(a, c)
    decreases |a|
  {
    if |a| > 0 && a[0] == b[0] && b[0] == c[0] {
      KeyLessTransitive(a[1..], b[1..], c[1..]);
    }
  }

  /** Any two versions are ordered one way or the other, or are equal. */
  lemma {:induction false} KeyLessTrichotomy(a: seq<nat>, b: seq<nat>)
    ensures KeyLess(a, b) || KeyLess(b, a) || a == b
    ensures !(KeyLess(a, b) && KeyLess(b, a))
    decreases |a|
  {
    if |a| > 0 && |b| > 0 && a[0] == b[0] {
      KeyLessTrichotomy(a[1..], b[1..]);
      assert a == [a[0]] + a[1..] && b == [b[0]] + b[1..];
    }
  }

  /** `AtLeast` is exactly "newer or the same". */
  lemma AtLeastMeansNewerOrSame(a: Version, b: Version)
    ensures AtLeast(a, b) <==> Older(b, a) || Same(a, b)
  {
    KeyLessTrichotomy(a.key, b.key);
    if a.key == b.key {
      KeyLessIrreflexive(a.key);
    }
  }

  /** `'.'.join(str(n) for n in key)`. */
  function Format(key: seq<nat>): (text: string)
    requires |key| >= 1
  {
    Join(FormatSegments(key), '.')
  }

  function FormatSegments(key: seq<nat>): (parts: seq<string>)
    ensures |parts| == |key|
    ensures forall i :: 0 <= i < |key| ==> parts[i] == NatToString(key[i])
  {
    seq(|key|, i requires 0 <= i < |key| => NatToString(key[i]))
  }

  /** Parsing the dotted form of a tuple gives the tuple back. */
  lemma ParseFormat(key: seq<nat>)
    requires |key| >= 1
    ensures Parse(Format(key)) == Ok(Version(Format(key), key))
  {
    var parts := FormatSegments(key);
    forall i | 0 <= i < |parts|
      ensures '.' !in parts[i]
    {
      NatToStringHasNoChar(key[i], '.');
    }
    SplitJoin(parts, '.');
    forall i | 0 <= i < |parts|
      ensures ParseSegment(parts[i]) == Ok(key[i])
    {
      NatToStringRoundTrip(key[i]);
    }
    var r := ParseSegments(parts);
    assert r.value == key;
  }

  /** The group of `^hazetunnel-api-v([\d\.]+)`. */
  const FilePrefix := "hazetunnel-api-v"

  predicate IsVersionChar(c: char) {
    IsDigit(c) || c == '.'
  }

  /** The longest run of digits and dots at the start of `s` (the greedy `[\d\.]+`). */
  function VersionRun(s: string): (run: string)
    ensures StartsWith(s, run)
    ensures forall i :: 0 <= i < |run| ==> IsVersionChar(run[i])
    ensures |run| < |s| ==> !IsVersionChar(s[|run|])
    decreases |s|
  {
    if |s| > 0 && IsVersionChar(s[0]) then [s[0]] + VersionRun(s[1..]) else ""
  }

  /** `Version.get_version(name)`. */
  function GetVersion(name: string): Result<Version, VersionError> {
    if !StartsWith(name, FilePrefix) then Err(NoVersionIn(name))
    else
      var run := VersionRun(name[|FilePrefix|..]);
      if |run| == 0 then Err(NoVersionIn(name)) else Parse(run)
  }

  /** An artifact name `hazetunnel-api-v<version>-...` yields its version. */
  lemma {:induction false} GetVersionOfArtifact(key: seq<nat>, rest: string)
    requires |key| >= 1
    requires |rest| > 0 && !IsVersionChar(rest[0])
    ensures GetVersion(FilePrefix + Format(key) + rest) == Ok(Version(Format(key), key))
  {
    var text := Format(key);
    var name := FilePrefix + text + rest;
    assert name[|FilePrefix|..] == text + rest;
    assert forall i :: 0 <= i < |text| ==> IsVersionChar(text[i]) by {
      FormatChars(key);
    }
    RunOfPrefix(text, rest);
    ParseFormat(key);
  }

  lemma {:induction false} FormatChars(key: seq<nat>)
    requires |key| >= 1
    ensures forall i :: 0 <= i < |Format(key)| ==> IsVersionChar(Format(key)[i])
    decreases |key|
  {
    var parts := FormatSegments(key);
    JoinChars(parts);
  }

  lemma {:induction false} JoinChars(parts: seq<string>)
    requires |parts| >= 1
    requires forall i :: 0 <= i < |parts| ==> AllDigits(parts[i])
    ensures forall i :: 0 <= i < |Join(parts, '.')| ==> IsVersionChar(Join(parts, '.')[i])
    decreases |parts|
  {
    if |parts| > 1 {
      JoinChars(parts[1..]);
    }
  }

  lemma {:induction false} RunOfPrefix(text: string, rest: string)
    requires forall i :: 0 <= i < |text| ==> IsVersionChar(text[i])
    requires |rest| > 0 && !IsVersionChar(rest[0])
    ensures VersionRun(text + rest) == text
    decreases |text|
  {
    if |text| > 0 {
      assert (text + rest)[1..] == text[1..] + rest;
      RunOfPrefix(text[1..], rest);
      assert [text[0]] + text[1..] == text;
    } else {
      assert text + rest == rest;
    }
  }

  /** Examples of the tuple order. */
  lemma OrderExamples()
    ensures KeyLess([1, 9, 0], [1, 10, 0])
    ensures KeyLess([1, 2], [1, 2, 0])
    ensures [1, 2] != [1, 2, 0]
  {
    assert [1, 9, 0][1..] == [9, 0] && [1, 10, 0][1..] == [10, 0];
    assert [1, 2][1..] == [2] && [1, 2, 0][1..] == [2, 0];
    assert [2][1..] == [] && [2, 0][1..] == [0];
  }

  /** A name whose version is followed directly by the extension captures a trailing
      dot, and `int('')` fails on the empty last segment. */
  lemma TrailingDotFails()
    ensures GetVersion("hazetunnel-api-v1.2.so").Err?
  {
    var name := "hazetunnel-api-v1.2.so";
    assert name[|FilePrefix|..] == "1.2.so";
    assert VersionRun("1.2.so") == "1.2." by {
      assert "1.2.so"[1..] == ".2.so";
      assert ".2.so"[1..] == "2.so";
      assert "2.so"[1..] == ".so";
      assert ".so"[1..] == "so";
    }
    var parts := Split("1.2.", '.');
    assert Split("", '.') == [""];
    assert parts[|parts| - 1] == "" by {
      assert "1.2."[1..] == ".2.";
      assert ".2."[1..] == "2.";
      assert "2."[1..] == ".";
      assert "."[1..] == "";
    }
    assert !ParseSegment(parts[|parts| - 1]).Ok?;
  }
}
