/** `utlsDict`, `utlsVersion` and `uagentToUtls` of hazetunnel/api/profiles.go:
    a browser's name and major version select the uTLS ClientHello profile. */
module Profiles {
  import opened Wrappers
  import opened Text

  function FirefoxVersions(): map<int, string> {
    map[-1 := "55", 56 := "56", 63 := "63", 65 := "65", 99 := "99", 102 := "102", 105 := "105", 120 := "120"]
  }

  function ChromeVersions(): map<int, string> {
    map[-1 := "58", 62 := "62", 70 := "70", 72 := "72", 83 := "83", 87 := "87", 96 := "96", 100 := "100",
        102 := "102", 106 := "106", 112 := "112_PSK", 114 := "114_PSK", 120 := "120"]
  }

  /** `utlsDict`: per browser, the first major version of each uTLS profile. */
  function UtlsDict(browser: string): Option<map<int, string>> {
    if browser == "Firefox" then Some(FirefoxVersions())
    else if browser == "Chrome" then Some(ChromeVersions())
    else if browser == "iOS" then Some(map[-1 := "111", 12 := "12.1", 13 := "13", 14 := "14"])
    else if browser == "Android" then Some(map[-1 := "11"])
    else if browser == "Edge" then Some(map[-1 := "85"])
    else if browser == "Safari" then Some(map[-1 := "16.0"])
    else if browser == "360Browser" then Some(map[-1 := "7.5"])
    else if browser == "QQBrowser" then Some(map[-1 := "11.1"])
    else None
  }

  datatype ProfileError =
    | NotInDictionary(browser: string)             // "browser '%s' not found in UTLS dictionary"
    | BadMajorVersion(version: string)             // "error parsing major version number ..."
    | NoUtlsValue(browser: string, version: string) // "no UTLS value found for browser ..."

  /** `strings.Split(browserVersion, ".")[0]`. */
  function MajorPart(version: string): string {
    Split(version, '.')[0]
  }

  /** `strconv.Atoi` on a 64-bit platform: an optional sign, decimal digits, in range. */
  function Atoi(s: string): (r: Option<int>)
    ensures r.Some? ==> -0x8000_0000_0000_0000 <= r.value <= 0x7FFF_FFFF_FFFF_FFFF
    ensures AllDigits(s) && |s| > 0 && DigitsValue(s) <= 0x7FFF_FFFF_FFFF_FFFF ==> r == Some(DigitsValue(s))
    ensures |s| == 0 ==> r.None?
    // a success is an optional sign and a non-empty run of digits, negated after '-'
    ensures r.Some? ==>
      |s| > 0
      && var digits := if s[0] == '-' || s[0] == '+' then s[1..] else s;
      |digits| > 0 && AllDigits(digits)
      && r.value == (if s[0] == '-' then -(DigitsValue(digits) as int) else DigitsValue(digits))
    ensures |s| > 1 && s[0] == '-' && AllDigits(s[1..]) && DigitsValue(s[1..]) <= 0x8000_0000_0000_0000 ==>
      r == Some(-(DigitsValue(s[1..]) as int))
    // out of range is an error
    ensures AllDigits(s) && DigitsValue(s) > 0x7FFF_FFFF_FFFF_FFFF ==> r.None?
  {
    var signed := |s| > 0 && (s[0] == '-' || s[0] == '+');
    var digits := if signed then s[1..] else s;
    if |digits| == 0 || !AllDigits(digits) then None
    else
      var v := if signed && s[0] == '-' then -(DigitsValue(digits) as int) else DigitsValue(digits);
      if -0x8000_0000_0000_0000 <= v <= 0x7FFF_FFFF_FFFF_FFFF then Some(v) else None
  }

  /** `s` is the largest key in (-1, major], or -1 when there is none: what the loop of
      `utlsVersion` leaves in `selectedVersion`, whatever order it visits the keys in. */
  ghost predicate IsSelection(keys: set<int>, major: int, s: int) {
    (s == -1 || (s in keys && -1 < s <= major))
    && forall k :: k in keys && -1 < k <= major ==> k <= s
  }

  lemma {:induction false} SelectionExists(keys: set<int>, major: int)
    ensures exists s :: IsSelection(keys, major, s)
    decreases major
  {
    if major <= -1 {
      assert IsSelection(keys, major, -1);
    } else if major in keys {
      assert IsSelection(keys, major, major);
    } else {
      SelectionExists(keys, major - 1);
      var s :| IsSelection(keys, major - 1, s);
      assert IsSelection(keys, major, s);
    }
  }

  /** The selection is determined by the keys: the map's iteration order cannot change it. */
  lemma SelectionUnique(keys: set<int>, major: int, s1: int, s2: int)
    requires IsSelection(keys, major, s1) && IsSelection(keys, major, s2)
    ensures s1 == s2
  {
  }

  ghost function SelectedKey(keys: set<int>, major: int): (s: int)
    ensures IsSelection(keys, major, s)
  {
    SelectionExists(keys, major);
    var s :| IsSelection(keys, major, s); s
  }

  /** A larger major version never selects a smaller key. */
  lemma SelectionMonotone(keys: set<int>, major1: int, major2: int, s1: int, s2: int)
    requires major1 <= major2
    requires IsSelection(keys, major1, s1) && IsSelection(keys, major2, s2)
    ensures s1 <= s2
  {
  }

  /** What `utlsVersion(browserName, browserVersion)` returns. */
  ghost function UtlsVersionSpec(browser: string, version: string): Result<string, ProfileError> {
    match UtlsDict(browser)
    case None => Err(NotInDictionary(browser))
    case Some(versions) =>
      match Atoi(MajorPart(version))
      case None => Err(BadMajorVersion(version))
      case Some(major) =>
        var s := SelectedKey(versions.Keys, major);
        if s in versions then Ok(versions[s]) else Err(NoUtlsValue(browser, version))
  }

  /** `utlsVersion`: the `for version := range versions` loop visits the keys in any order. */
  method UtlsVersion(browser: string, version: string) returns (r: Result<string, ProfileError>)
    ensures r == UtlsVersionSpec(browser, version)
  {
    var versions := UtlsDict(browser);
    if versions.None? {
      return Err(NotInDictionary(browser));
    }
    var major := Atoi(MajorPart(version));
    if major.None? {
      return Err(BadMajorVersion(version));
    }
    var selected := -1;
    var rest := versions.value.Keys;
    while rest != {}
      invariant rest <= versions.value.Keys
      invariant IsSelection(versions.value.Keys - rest, major.value, selected)
      decreases rest
    {
      var k :| k in rest;
      ghost var seen := versions.value.Keys - rest;
      if k <= major.value && k > selected {
        selected := k;
      }
      rest := rest - {k};
      forall x | x in versions.value.Keys - rest && -1 < x <= major.value ensures x <= selected {
        if x != k {
          assert x in seen;
        }
      }
    }
    assert versions.value.Keys - rest == versions.value.Keys;
    SelectionUnique(versions.value.Keys, major.value, selected, SelectedKey(versions.value.Keys, major.value));
    if selected in versions.value {
      return Ok(versions.value[selected]);
    }
    return Err(NoUtlsValue(browser, version));
  }

  /** Every table has the key -1, so a known browser with a parsable version always gets a value. */
  lemma KnownBrowserAlwaysSelects(browser: string, version: string)
    requires UtlsDict(browser).Some?
    requires Atoi(MajorPart(version)).Some?
    ensures UtlsVersionSpec(browser, version).Ok?
  {
    var versions := UtlsDict(browser).value;
    assert -1 in versions;
  }

  /** An unknown browser is an error whatever its version. */
  lemma UnknownBrowserFails(browser: string, version: string)
    requires UtlsDict(browser).None?
    ensures UtlsVersionSpec(browser, version) == Err(NotInDictionary(browser))
  {
  }

  /** Chrome 113 selects the 112 entry. */
  lemma ChromeExample()
    ensures UtlsVersionSpec("Chrome", "113.0") == Ok("112_PSK")
  {
    assert MajorPart("113.0") == "113" by {
      assert "113.0"[1..] == "13.0";
      assert "13.0"[1..] == "3.0";
      assert "3.0"[1..] == ".0";
    }
    assert DigitsValue("113") == 113 by {
      assert "113"[..2] == "11" && "11"[..1] == "1" && "1"[..0] == "";
    }
    var versions := ChromeVersions();
    assert UtlsDict("Chrome") == Some(versions);
    forall k | k in versions.Keys && -1 < k <= 113 ensures k <= 112 { }
    assert IsSelection(versions.Keys, 113, 112);
    SelectionUnique(versions.Keys, 113, 112, SelectedKey(versions.Keys, 113));
  }

  /** Firefox 50 lies below every listed version and falls back to the -1 entry. */
  lemma FirefoxExample()
    ensures UtlsVersionSpec("Firefox", "50.0") == Ok("55")
  {
    assert MajorPart("50.0") == "50" by {
      assert "50.0"[1..] == "0.0";
      assert "0.0"[1..] == ".0";
    }
    assert DigitsValue("50") == 50 by {
      assert "50"[..1] == "5" && "5"[..0] == "";
    }
    var versions := FirefoxVersions();
    assert UtlsDict("Firefox") == Some(versions);
    forall k | k in versions.Keys && -1 < k <= 50 ensures k <= -1 { }
    assert IsSelection(versions.Keys, 50, -1);
    SelectionUnique(versions.Keys, 50, -1, SelectedKey(versions.Keys, 50));
  }

  /** What `useragent.Parse` extracts from a User-Agent header; the parser itself is an input. */
  datatype UserAgent = UserAgent(name: string, version: string)

  /** `uagentToUtls`: the browser name and its uTLS version, or the lookup's error. */
  method UagentToUtls(ua: UserAgent) returns (r: Result<(string, string), ProfileError>)
    ensures r.Ok? <==> UtlsVersionSpec(ua.name, ua.version).Ok?
    ensures r.Ok? ==> r.value.0 == ua.name && r.value.1 == UtlsVersionSpec(ua.name, ua.version).value
    ensures r.Err? ==> r.error == UtlsVersionSpec(ua.name, ua.version).error
  {
    var v := UtlsVersion(ua.name, ua.version);
    if v.Err? {
      return Err(v.error);
    }
    return Ok((ua.name, v.value));
  }
}
