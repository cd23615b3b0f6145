# hazetunnel, modelled in Dafny

hazetunnel is a TLS-intercepting HTTP proxy. Requests go out with a browser-like ClientHello
chosen from the User-Agent (through uTLS). The proxy can also inject a JavaScript payload into
the responses it relays. It has three parts:
- a Go core (the `hazetunnel/api` package);
- an older single-instance Go proxy (the `hazetunnel` main package);
- Python bindings that download the compiled library, load it and drive it through four
  foreign calls.

This project models the deterministic rules underneath and proves what they promise:

- **Artifact resolution and update** (`platform.dfy`, `versions.dfy`, `local_store.dfy`,
  `update.dfy`).
  - Machine and OS map to an artifact name.
  - The bin directory is listed in descending string order.
  - `check_library` keeps the current artifact and deletes stale ones before it.
  - A release feed is searched for the first matching asset.
  - Dotted versions are compared as integer tuples.
  - The `fetch`, `remove` and `version` commands.
- **Python control surface** (`bindings.dfy`, `control.dfy`).
  - `gostring`, the `Library` setters and the `get_library` singleton.
  - `launch`/`kill` guarded by the started flag, with default certificate paths.
  - The `url`/`cert`/`key` accessors and the `Context` manager.
- **Go session registry** (`native.dfy`, `legacy.dfy`, `address.dfy`).
  - `proxyInstanceMap` insertion and removal.
  - `SetVerbose`, `SetKeyPair` and `StartServer`.
  - The log-level rules and the listen address.
  - The main package's single global server.
- **Request and CA policy** (`request_policy.dfy`, `ca_policy.dfy`).
  - The per-request decision tree of both proxies.
  - The `loadCA` decision over the loaded flag and which of the two files exist.
  - The files `generateCA` writes.
- **Browser profiles** (`profiles.dfy`, `api_config.dfy`).
  - `utlsVersion` picks the largest table key not above the major version.
  - `getClientHelloID`.
  - The JSON records with their `omitempty` members.
- **Payload injection** (`injector.dfy`, `base64.dfy`, `headers.dfy`).
  - Dispatch on the content type.
  - The rewrite of `data:(application|text)/javascript;base64,` URIs, with standard Base64
    (RFC 4648, section 4).
  - Reading and stripping the `x-mitm-*` headers.

Shared helpers: `wrappers.dfy` holds Option and Result. `text.dfy` holds Python string order,
split/join and decimal digits. `bytes.dfy` holds UTF-8 encoding.

Where the source updates state in place, the model is a class with `modifies` clauses:
- the bin directory;
- a request's header map;
- a response;
- the api and main-package globals;
- the Python `Library` and the control runtime.

Each such method states its new state and result in terms of its inputs and the old state,
through the model's functions and predicates (such as `LoadWith`, `InjectedBody`,
`IsGreatestListed` or `WithoutCustom`); the lemmas are stated about those functions.

## Model

| member | source | states |
|---|---|---|
| Platform.GetName | python-bindings/hazetunnel/cffi.py:51-61 | An unknown architecture is an error and never defaults. Otherwise the pair is ("darwin-"+arch, ".dylib") on darwin, ("windows-"+arch, ".dll") on win32/cygwin, and ("linux-"+arch, ".so") elsewhere. |
| Platform.GetNameIgnoresCase | python-bindings/hazetunnel/cffi.py:54 | The machine string is lower-cased before the lookup, so case does not matter. |
| Platform.AliasesAgree | python-bindings/hazetunnel/cffi.py:26-40 | The aliases x86_64/AMD64, aarch64/arm64 and i686/x86 give the same artifact. |
| Platform.TagIsConsistent | python-bindings/hazetunnel/cffi.py:57-61 | The extension always matches the OS named in the artifact name. |
| Versions.ParseSegments | python-bindings/hazetunnel/__main__.py:32-33 | `int` is applied to every '.'-separated segment. Parsing fails exactly when some segment is empty or not all digits. |
| Versions.KeyLessTransitive | python-bindings/hazetunnel/__main__.py:38-39 | Tuple order is transitive. |
| Versions.KeyLessTrichotomy | python-bindings/hazetunnel/__main__.py:35-39 | Tuple order is total and asymmetric. |
| Versions.AtLeastMeansNewerOrSame | python-bindings/hazetunnel/__main__.py:27-39 | `>=` from `total_ordering` is "newer or equal". |
| Versions.ParseFormat | python-bindings/hazetunnel/__main__.py:32-33 | Parsing the dotted text of any tuple gives that tuple back. |
| Versions.VersionRun | python-bindings/hazetunnel/__main__.py:66 | `[\d\.]+` takes the maximal run of digits and dots. |
| Versions.GetVersionOfArtifact | python-bindings/hazetunnel/__main__.py:45-49 | The version of `hazetunnel-api-v<x.y.z><rest>` is x.y.z whenever the rest does not start with a digit or a dot. |
| Versions.OrderExamples | python-bindings/hazetunnel/__main__.py:35-39 | 1.9.0 < 1.10.0, 1.2 < 1.2.0, and 1.2 != 1.2.0. |
| Versions.TrailingDotFails | python-bindings/hazetunnel/__main__.py:45-49 | A captured trailing '.' makes parsing fail. |
| LocalStore.BinDirectory.Remove | python-bindings/hazetunnel/cffi.py:75 | `os.remove` deletes the name, or fails on a missing or locked file and changes nothing. |
| LocalStore.SortDescending | python-bindings/hazetunnel/cffi.py:65 | `sorted(reverse=True)`: a strictly descending sequence with exactly the given names. |
| LocalStore.GetFiles | python-bindings/hazetunnel/cffi.py:63-65 | Exactly the names that start with `hazetunnel-api-`, in descending lexical order. |
| LocalStore.DescendingUnique | python-bindings/hazetunnel/cffi.py:65 | Only one descending sequence holds a given set of names. |
| LocalStore.AssetNameIsCurrent | python-bindings/hazetunnel/cffi.py:72-87 | A name that passes `check_assets`' filters also passes `check_library`'s, so the re-check finds the download. |
| LocalStore.CheckAssets | python-bindings/hazetunnel/cffi.py:79-89 | The first asset in list order that passes all three filters, or None exactly when none does. |
| LocalStore.FindAsset | python-bindings/hazetunnel/cffi.py:98-106 | The match of the first release, in feed order, that has one; none exactly when no release matches. |
| LocalStore.DownloadFile | python-bindings/hazetunnel/cffi.py:111-119 | A completed download adds the file. A cancel removes it and re-raises; a failed removal propagates. |
| LocalStore.DownloadLibrary | python-bindings/hazetunnel/cffi.py:98-109 | The feed error and the no-match IOError, with the directory unchanged. Otherwise the feed's first matching asset is downloaded exactly when the transfer is not interrupted; it passes `check_library`'s filters, and an interrupt gives Cancelled or, for a locked file, RemoveFailed, each with its file set. |
| LocalStore.Sweep | python-bindings/hazetunnel/cffi.py:67-75 | The loop skips other extensions and returns the first current file. It deletes only stale candidates sorted before it, and stops at a failed removal. |
| LocalStore.CheckLibrary | python-bindings/hazetunnel/cffi.py:67-77 | Returns a current file that is on disk. Files with another extension and files after the returned one are untouched. With no current file and no locked candidate, every candidate is deleted and `download_library` decides: the feed error, the no-match error, the downloaded name (the re-check returns it), or the interrupt's error, each with the resulting file set. |
| LocalStore.DownloadAndCheck | python-bindings/hazetunnel/cffi.py:76-77 | From a directory with no candidate: the download step's error with its file set, or the feed's first matching asset, added to the directory and returned by the re-check. |
| LocalStore.Recheck | python-bindings/hazetunnel/cffi.py:77 | When the downloaded name is the only candidate, the recursive `check_library()` returns it and deletes nothing. |
| Update.GreatestListedExists | python-bindings/hazetunnel/__main__.py:73-76 | Every listing with a listed name has a head, so `path` is defined exactly when something is listed. |
| Update.Path | python-bindings/hazetunnel/__main__.py:73-76 | The head of the listing: a listed name every other listed name sorts below; None exactly when nothing is listed. |
| Update.LatestAsset | python-bindings/hazetunnel/__main__.py:83-92 | The first matching asset in feed order with its parsed version: success exactly when that name has a version. ValueError when no release matches; the ConnectionError with the response text when the feed is unavailable. |
| Update.Update | python-bindings/hazetunnel/__main__.py:100-128 | With nothing listed, `install()` runs: the feed error or the no-match error with no change, the downloaded name as `Installed` (or the ValueError of its version), or the interrupt's error, each with the resulting file set. Otherwise the greatest listed name decides: its unparsable version or a failed `latest_asset` is an error with no change; current >= latest changes nothing; an older current downloads the newer asset first, then removes the old file, where a failed removal is only a warning; an interrupted download removes the partial file and re-raises the interrupt, or raises the removal's OSError when that file is locked. |
| Update.RemovePems | python-bindings/hazetunnel/__main__.py:150-153 | On success exactly the `*.pem` names are gone and nothing else changed. A failure names a `*.pem` file that is still present and locked, and the files kept are a subset of the old ones that still holds every non-`*.pem` name. |
| Update.RemoveCommand | python-bindings/hazetunnel/__main__.py:144-164 | Every `*.pem` in bin is unlinked, and a failed unlink is the only error. Then the greatest listed name is removed; "not downloaded" exactly when nothing is listed or that name was itself a `*.pem`. A locked library is reported, not raised. |
| Update.VersionCommand | python-bindings/hazetunnel/__main__.py:167-191 | "Not downloaded" exactly when nothing is listed. Otherwise the version of the greatest listed name is reported against the latest asset, with "up to date" exactly when the tuples are equal; an unparsable version or a failed `latest_asset` is the error. |
| Update.UpToDateAgrees | python-bindings/hazetunnel/__main__.py:114 | Equal versions also pass `update`'s `>=` test, so the two commands agree. |
| Profiles.Atoi | hazetunnel/api/profiles.go:78-81 | A success is an optional sign and a non-empty run of digits, negated after '-', within the int64 range; the empty string and out-of-range values fail. |
| Profiles.SelectionExists | hazetunnel/api/profiles.go:83-89 | Every key set and major version has a selection: the largest key in (-1, major], or -1. |
| Profiles.SelectionUnique | hazetunnel/api/profiles.go:83-89 | The selection is unique, whatever order the map is iterated in. |
| Profiles.SelectionMonotone | hazetunnel/api/profiles.go:83-89 | A larger major version never selects a smaller key. |
| Profiles.UtlsVersion | hazetunnel/api/profiles.go:74-98 | The loop over the map's keys, in any order, returns the specified result: the table value at the selected key, or one of the three errors. |
| Profiles.KnownBrowserAlwaysSelects | hazetunnel/api/profiles.go:14-95 | Every table has key -1, so a known browser with a parsable version always gets a value. |
| Profiles.UnknownBrowserFails | hazetunnel/api/profiles.go:74-98 | A browser missing from the table is an error whatever its version. |
| Profiles.ChromeExample | hazetunnel/api/profiles.go:20-92 | Chrome 113 gives "112_PSK". |
| Profiles.FirefoxExample | hazetunnel/api/profiles.go:14-92 | Firefox 50 falls back to the -1 entry, "55". |
| Profiles.UagentToUtls | hazetunnel/api/profiles.go:65-72 | (name, version) on success, the lookup's error otherwise. |
| ApiConfig.VerbosityLevel | hazetunnel/api/config.go:39-46 | Info when verbose, Error otherwise. |
| ApiConfig.Member | hazetunnel/api/config.go:16-24 | A non-empty value read for a member occurs in the object under that name; a member the object lacks reads as "". |
| ApiConfig.NoMember | hazetunnel/api/config.go:16-24 | An absent member decodes as "". |
| ApiConfig.OmitEmptyMember | hazetunnel/api/config.go:18-22 | An `omitempty` member reads back as its value, empty or not. |
| ApiConfig.DecodeEncode | hazetunnel/api/config.go:16-24 | Decoding the encoding of any `ProxySetup` gives it back. |
| ApiConfig.EncodeMembers | hazetunnel/api/config.go:16-24 | `port` and `id` are always present. `addr`, `user_agent`, `payload` and `upstreamproxy` are present exactly when non-empty. |
| ApiConfig.GetClientHelloID | hazetunnel/api/config.go:48-62 | The zero ClientHelloID with the error on a failed lookup. Otherwise (browser, uTLS version). |
| Bytes.Utf8LengthIsCharCountIffAscii | python-bindings/hazetunnel/cffi.py:149-151 | `len(s)` equals the UTF-8 byte length exactly for ASCII text. |
| Base64.DecodeEncode | hazetunnel/api/injector.go:65-79 | Decoding the standard encoding of any bytes gives them back (RFC 4648, section 4). |
| Base64.EncodeAlphabet | hazetunnel/api/injector.go:63-77 | Every encoded byte is in the alphabet or '=', so it matches `[\w+/=]`. |
| Base64.DecodeNeedsWholeQuanta | hazetunnel/api/injector.go:69-73 | A length that is not a multiple of 4 fails to decode. |
| Base64.DecodeRejectsForeign | hazetunnel/api/injector.go:63-73 | A byte outside the alphabet, such as '_' (which `\w` admits), fails to decode. |
| Injector.PrefixesSpellPattern | hazetunnel/api/injector.go:63 | The two literal prefixes are the pattern's alternatives, through "base64,". |
| Injector.TailLength | hazetunnel/api/injector.go:63 | `[\w+/=]+` is greedy: the tail is the longest run of tail bytes. |
| Injector.PrefixIsLiteral | hazetunnel/api/injector.go:63 | A match starts with one of the literal prefixes, followed by a tail byte. |
| Injector.RenderTokenize | hazetunnel/api/injector.go:65 | Splitting the page into kept bytes and matches loses nothing: concatenating the pieces gives the page back. |
| Injector.TokenizeShape | hazetunnel/api/injector.go:63-65 | Matches are non-overlapping and scanned left to right. Each keeps its prefix and takes a maximal tail. No match starts at a kept byte. |
| Injector.ScriptRewrite | hazetunnel/api/injector.go:67-79 | A match keeps its prefix. Its new tail decodes to payload ++ original script; an undecodable tail is kept verbatim. |
| Injector.UnderscoreTailKept | hazetunnel/api/injector.go:63-73 | A tail containing '_' is kept verbatim. |
| Injector.RewriteUndecodable | hazetunnel/api/injector.go:65-73 | When no tail decodes, the page is unchanged. |
| Injector.UnchangedWithoutScripts | hazetunnel/api/injector.go:61-81 | A page without a data-URI script is unchanged. |
| Injector.RewriteAppend | hazetunnel/api/injector.go:65 | The rewrite acts piece by piece: text outside matches is unchanged. |
| Injector.PayloadInjector | hazetunnel/api/injector.go:14-59 | The response is returned. Only the body changes, to the dispatched body. |
| Injector.InjectedBodyCases | hazetunnel/api/injector.go:15-58 | `application/javascript` and `text/javascript` get payload ++ body, `text/html` gets the rewrite, and other types are untouched. A nil body, a non-string or empty payload, or a failed read leaves the body unchanged. |
| Headers.FixCaseIdempotent | hazetunnel/headers.go:19-31 | Canonical header case is idempotent. |
| Headers.CanonicalIdempotent | hazetunnel/headers.go:19-31 | A canonical key is its own canonical form. |
| Headers.Get | hazetunnel/headers.go:21-23 | `Header.Get` reads the first value under the canonical key, or "" when the key is absent or has no values. |
| Headers.Del | hazetunnel/headers.go:29 | `Header.Del` removes exactly the canonical key; other entries keep their values. |
| Headers.ParseCustomHeaders | hazetunnel/headers.go:19-25 | The first values of x-mitm-upstream, x-mitm-payload and x-mitm-isbase64, "" when absent. |
| Headers.WithoutCustom | hazetunnel/headers.go:11-31 | Exactly the three custom keys are gone; every other header is unchanged. |
| Headers.RemoveIdempotent | hazetunnel/headers.go:27-31 | Removing twice removes nothing more. |
| Headers.ParseAfterRemove | hazetunnel/headers.go:19-31 | After removal, parsing yields three empty strings. |
| Headers.HeaderMap.RemoveCustomHeaders | hazetunnel/headers.go:27-31 | The loop over `CustomHeaders` leaves the map without the custom keys. |
| CaPolicy.Decide | hazetunnel/api/cert.go:55-70 | Load when both files exist, generate when neither does. One file alone is fatal and names the missing counterpart. |
| CaPolicy.WriteFile | hazetunnel/api/cert.go:92-102 | Create/truncate: an existing file keeps its mode, a new one gets the requested mode; nothing else changes. |
| CaPolicy.GeneratedFiles | hazetunnel/api/cert.go:92-113 | On fresh, distinct paths: the certificate file, then the key file with mode 0600, holding one pair; other files untouched. |
| CaPolicy.GeneratedSamePath | hazetunnel/api/cert.go:92-111 | With one path for both, the key overwrites the certificate and keeps the create mode. |
| CaPolicy.LoadWith | hazetunnel/cert.go:33-56 | A fatal stop changes nothing and no existing file is overwritten. On distinct paths, success installs the pair that is on disk. |
| CaPolicy.ApiLoadCA | hazetunnel/api/cert.go:40-79 | Returns at once when a CA is loaded; otherwise empty paths default to cert.pem/key.pem. Success sets `caLoaded`, and `caLoaded` only ever comes with an installed CA. |
| CaPolicy.LegacyLoadCA | hazetunnel/cert.go:33-56 | The paths are used as given, and there is no flag to set. |
| CaPolicy.ApiLoadIdempotent | hazetunnel/api/cert.go:37-43 | After a successful load, a second call is a no-op. |
| CaPolicy.ApiOneFileFatal | hazetunnel/api/cert.go:66-70 | Exactly one file present is fatal, names the other path, and changes nothing. |
| CaPolicy.ApiGenerates | hazetunnel/api/cert.go:73-78 | With neither file present, a fresh pair is written and installed. |
| CaPolicy.VariantsAgree | hazetunnel/cert.go:33-56 | With the flag clear and non-empty paths, both variants take the same branch and reach the same state. |
| CaPolicy.GeneratedPairReloads | hazetunnel/cert.go:33-56 | There is no flag, so a later call decides afresh. It loads the generated pair back without writing. |
| CaPolicy.SamePathDoesNotReload | hazetunnel/cert.go:33-88 | A pair generated with one path for both cannot be loaded back later. |
| Address.ListenAddress | hazetunnel/api/proxy.go:44 | `Addr + ":" + Port`. |
| Address.ListenAddressSplits | hazetunnel/api/proxy.go:44 | Splitting the address at its last colon gives the host and the port back whenever the port has no colon. |
| ApiRuntime.ShutdownOrder | hazetunnel/api/cffi.go:71-93 | Shutdown is called exactly when the id has a server, right after that id's context is cancelled. |
| ApiRuntime.RegistryKeepsServers | hazetunnel/api/proxy.go:50-53 | Insertion and removal keep every entry's server non-nil, so the nil-server branch is unreachable from this package. |
| ApiRuntime.Runtime.UpdateVerbosity | hazetunnel/api/config.go:39-46 | The log level follows `Config.Verbose`. |
| ApiRuntime.Runtime.LoadCA | hazetunnel/api/cert.go:40-79 | Reaches the state `ApiLoadCA` specifies, including the defaults written into `Config`. |
| ApiRuntime.Runtime.LoadConfigured | hazetunnel/api/cert.go:55-78 | With the paths filled in, reaches the state the shared decision tree specifies: load the matching pair, stop on one file alone, or generate and install a pair. |
| ApiRuntime.Runtime.GenerateCA | hazetunnel/api/cert.go:81-113 | Writes the certificate, then the key, and uses up one serial. |
| ApiRuntime.Runtime.SetVerbose | hazetunnel/api/cffi.go:35-46 | Malformed JSON is fatal before any change. Otherwise `Config.Verbose` is set and the level follows at once. |
| ApiRuntime.Runtime.SetKeyPair | hazetunnel/api/cffi.go:49-63 | Malformed JSON is fatal before any change. Otherwise new paths, the flag cleared, and `loadCA` run again. |
| ApiRuntime.Runtime.InitServer | hazetunnel/api/proxy.go:30-55 | Loads the CA if need be, then sets the entry for the id, silently replacing one with the same id. The address is Addr:Port. |
| ApiRuntime.Runtime.Launch | hazetunnel/api/proxy.go:127-133 | The listen address is logged exactly when the id is "cli" or the configuration is verbose. |
| ApiRuntime.Runtime.StartServer | hazetunnel/api/cffi.go:22-32 | Malformed JSON is fatal with no change. Otherwise the level follows the configured verbosity, then `Launch` runs: the CA and the configured paths become ApiLoadCA's result, a fatal load registers and announces nothing, and otherwise the instance is registered and its listen address announced for "cli" or a verbose configuration. |
| ApiRuntime.Runtime.ShutdownServer | hazetunnel/api/cffi.go:66-94 | An unknown id only logs; a nil server is deleted without a shutdown. Otherwise cancel, shutdown (a failure is only logged) and delete. Afterwards the id is gone and all other entries are unchanged. |
| RequestPolicy.Route | hazetunnel/api/proxy.go:91-118 | An upstream proxy that does not parse gives 400. Plain HTTP goes out without a round tripper; anything else uses uTLS with the chosen ClientHello and upstream. |
| RequestPolicy.ApiUserAgentRequired | hazetunnel/api/proxy.go:66-70 | Without an override, a missing User-Agent gives 400 "Missing header: User-Agent" and nothing else, and only then. |
| RequestPolicy.ApiOverride | hazetunnel/api/proxy.go:66-67 | An override replaces the User-Agent with that single value; other headers are unchanged. |
| RequestPolicy.ApiUnknownClientFallsBack | hazetunnel/api/proxy.go:74-80 | An unrecognised User-Agent is not refused: the Chrome-auto ClientHello is used. |
| RequestPolicy.ApiForwards | hazetunnel/api/proxy.go:60-119 | A request is forwarded exactly when a User-Agent is available and the upstream is absent or parses. Plain HTTP gets no round tripper. The payload is stored. |
| RequestPolicy.LegacyStripsCustomHeaders | hazetunnel/proxy.go:49-76 | The custom headers are read before they are stripped: the forwarded map has none, while the payload and upstream come from them. |
| RequestPolicy.LegacyUnknownClientRefused | hazetunnel/proxy.go:58-64 | An unrecognised User-Agent gives 400 "Invalid client: "+ua. |
| RequestPolicy.LegacyForwards | hazetunnel/proxy.go:47-97 | A request is forwarded exactly when a User-Agent survives, it maps to a profile, and the upstream is absent or parses. |
| RequestPolicy.Exchange.ApiHandle | hazetunnel/api/proxy.go:60-119 | The handler's in-place updates of the header, the context payload and the round tripper, with its reply, are those `ApiDecision` specifies. |
| RequestPolicy.Exchange.LegacyHandle | hazetunnel/proxy.go:47-97 | Likewise against `LegacyDecision`. |
| LegacyRuntime.FirstServerSticks | hazetunnel/proxy.go:27-42 | However often `initServer` runs, the first address stays. |
| LegacyRuntime.Runtime.InitServer | hazetunnel/proxy.go:27-42 | A no-op apart from a log line while a server exists; otherwise sets the server with the address. |
| LegacyRuntime.Runtime.LoadCA | hazetunnel/cert.go:33-56 | Reaches the state `LegacyLoadCA` specifies. |
| LegacyRuntime.Runtime.Launch | hazetunnel/proxy.go:104-118 | Without verbose output the level drops to Error first. The CA is loaded, then `initServer` runs, and the kept server's address is announced. |
| Bindings.MakeGoStringDelivers | python-bindings/hazetunnel/cffi.py:147-154 | With the byte length in `n`, Go receives exactly the UTF-8 text. |
| Bindings.AsWrittenDeliversIffAscii | python-bindings/hazetunnel/cffi.py:147-154 | With `n = len(s)`, Go receives the text intact exactly when it is ASCII, and a strict prefix otherwise. |
| Bindings.AsWrittenTruncatesAccent | python-bindings/hazetunnel/cffi.py:149-151 | "é" is sent as C3 A9 with n = 1, so Go reads only C3. |
| Bindings.KeyPairSettingOf | python-bindings/hazetunnel/cffi.py:212-217 | The setter sends the pair's first element as `cert` and the second as `key`. |
| Bindings.BinPathsDiffer | python-bindings/hazetunnel/cffi.py:173-174 | bin/cert.pem and bin/key.pem are different non-empty paths. |
| Bindings.AsWrittenSwapsCaFiles | python-bindings/hazetunnel/cffi.py:173-217 | The default pair as written makes Go write the certificate to key.pem and the 0600 private key to cert.pem. |
| Bindings.InitialPairFiles | python-bindings/hazetunnel/cffi.py:173-217 | With the pair in the setter's order, cert.pem holds the certificate and key.pem the 0600 key of the installed pair. |
| Bindings.Library.constructor | python-bindings/hazetunnel/cffi.py:157-174 | Not verbose; the default pair is stored and sent once. |
| Bindings.Library.SetVerbose | python-bindings/hazetunnel/cffi.py:201-206 | Stores the flag and sends `{"verbose": v}`. |
| Bindings.Library.SetKeyPair | python-bindings/hazetunnel/cffi.py:212-217 | Stores the pair and sends it as cert, key. |
| Bindings.Library.StartServer | python-bindings/hazetunnel/cffi.py:183-186 | Sends the options and changes nothing else. |
| Bindings.Library.StopServer | python-bindings/hazetunnel/cffi.py:188-191 | Sends the id as a GoString. |
| Bindings.Loader.GetLibrary | python-bindings/hazetunnel/cffi.py:221-228 | The first call builds the library; every later call returns the same instance. |
| Control.RequestFor | python-bindings/hazetunnel/control.py:35-38 | A falsy key or cert becomes bin/key.pem or bin/cert.pem under the package root; a given path is kept. |
| Control.DefaultsAreInitialPair | python-bindings/hazetunnel/control.py:35-38 | The defaults are the library's initial pair in certificate-then-key order. |
| Control.UrlOf | python-bindings/hazetunnel/control.py:52-56 | "http://localhost:" followed by the port. |
| Control.UrlRoundTrip | python-bindings/hazetunnel/control.py:52-56 | The port reads back from the URL, so different ports give different URLs. |
| Control.Runtime.GetLibrary | python-bindings/hazetunnel/control.py:39 | Builds the singleton on first use, then returns the same one. |
| Control.Runtime.Launch | python-bindings/hazetunnel/control.py:26-42 | A started library raises "Server is already running." and is not launched. Otherwise one launch with the defaulted paths. |
| Control.Runtime.Kill | python-bindings/hazetunnel/control.py:86-93 | Not started raises "Server is not running."; otherwise `stop_server` is called exactly once. |
| Control.Runtime.IsRunning | python-bindings/hazetunnel/control.py:75-83 | False when no library exists. Never builds one. |
| Control.Runtime.Url | python-bindings/hazetunnel/control.py:52-56 | The URL of the library's port. |
| Control.Runtime.Cert | python-bindings/hazetunnel/control.py:59-64 | The first element of the stored pair, None when no pair is set. |
| Control.Runtime.Key | python-bindings/hazetunnel/control.py:67-72 | The second element of the stored pair, None when no pair is set. |
| Control.Context.Enter | python-bindings/hazetunnel/control.py:119-121 | Launches with the stored arguments. |
| Control.Context.Exit | python-bindings/hazetunnel/control.py:123-124 | Always kills: a started server is stopped once; otherwise `kill` raises "Server is not running." and nothing is stopped. |
| Control.Context.With | python-bindings/hazetunnel/control.py:115-124 | From a stopped state: one launch with the context's arguments and one stop. |

## Left out

- I/O and the network. The releases feed is an input (`Feed`), and a completed download just
  adds the file. The progress bar, sockets (`get_open_port`), `ListenAndServe`, goroutines and
  the mutexes are not modelled: every call runs to completion before the next.
- Foreign calls. Loading the shared library and ctypes `argtypes` are not modelled. A call is
  recorded with the value Go receives. The JSON text `json.dumps` builds is not modelled; it is
  ASCII, so its GoString length is right.
- Crypto and TLS. X.509 parsing, `initca` key generation, the goproxy CA globals and the uTLS
  handshake are abstract: a pair is a serial number, and a round tripper is its ClientHello and
  upstream.
- Some failures are not modelled. These are `generateCA` failing to create or write a file, and
  `setGoproxyCA` failing to parse a certificate. `ListenAndServe` errors and the umask are also
  left out.
- Third-party parsers. `useragent.Parse` and `url.Parse` are function parameters.
  - Go's JSON decoder is modelled as exact, last-occurrence-wins member lookup. It does not
    match keys case-insensitively.
  - Base64 decoding follows RFC 4648, section 4, as Go's standard decoder does. The leniency of
    the base64 library the source imports is not modelled.
- `utls.HelloChrome_Auto` is a distinguished value. Its concrete version belongs to the uTLS
  library. The ClientHello's `Seed` and `Weights` are always nil and are not modelled.
- The main package's `uagentToUtls` is not part of this model (hazetunnel/config.go wraps it).
  The main-package handler is given the api package's lookup.
- A failed read of a response body is a flag. A partially read body is not modelled.
- Headers.CustomKeySet: the canonical forms of the three custom header names are kept as
  `CanonicalKey` applications. They are not evaluated to literal strings.
- Python text is a sequence of Unicode scalar values, so encoding errors for lone surrogates do
  not arise. Python's `int()` is modelled on ASCII digits only.
- Update.RemoveCommand: the `str(None)` path that `remove` builds when no library is listed is
  treated as a missing file.
- control.py and cffi.py come from different revisions. `library()`, `_started`, `lib.launch`,
  `_cert_key_pair` and the no-argument `stop_server` are not defined in cffi.py. The controls
  therefore drive an abstract library, `Control.LibraryState`.
  - Control.LibraryState.Start and Control.LibraryState.Stop: the library's own `launch` and
    `stop_server` are not part of this model. They are taken to record the request and pair,
    set the port, and set or clear the started flag.
  - Control.Runtime.Url: the port is a natural number. A library that has no port yet is not
    modelled.
- The CLI entry points are not modelled. They are `main` and `LaunchServer` (hazetunnel/main.go,
  hazetunnel/cmd.go), the click command group and output colours, and the `run` sleep loop.
  The log lines the proxies print are modelled only where a rule depends on them: the listen
  announcement, the shutdown messages, and the already-running notice.
- Bindings.Library.constructor and Bindings.Library.StopServer use the corrected default pair
  and the corrected GoString length (see Findings). The as-written behaviour is captured by
  `Bindings.InitialKeyPairAsWritten` and `Bindings.GoStringAsWritten`.

## Findings

| source | as written | input that shows it | evidently intended | confidence | as-written member | corrected member |
|---|---|---|---|---|---|---|
| python-bindings/hazetunnel/cffi.py:173-174 | `Library.__init__` sets `key_pair = (bin/key.pem, bin/cert.pem)`, but the setter unpacks the pair as `cert, key` (cffi.py:215) | the first `get_library()` on a bin directory with neither file: Go generates the CA, writes the certificate to bin/key.pem and the private key (mode 0600) to bin/cert.pem | certificate in bin/cert.pem and key in bin/key.pem, the defaults control.py:35-38 passes as `cert`/`key` | high; not executed | Bindings.InitialKeyPairAsWritten, Bindings.AsWrittenSwapsCaFiles | Bindings.InitialKeyPair, Bindings.InitialPairFiles |
| python-bindings/hazetunnel/cffi.py:147-154 | `gostring` sets `n = len(s)`, a count of code points, over a UTF-8 buffer | `stop_server("é")`: buffer C3 A9 00 with n = 1, so Go reads the single byte C3 | `n` is the byte length of the encoded buffer | medium; not executed | Bindings.GoStringAsWritten, Bindings.AsWrittenTruncatesAccent | Bindings.MakeGoString, Bindings.MakeGoStringDelivers |
