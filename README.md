# tupm install workflow in Dafny

tupm installs a single executable by name. It reads the source list from its
configuration file, writing a default configuration when the file cannot be
read. It asks each source's JSON manifest in turn for a download URL, and
downloads the first URL found into the platform's binary directory. Off
Windows it then marks the file executable. This project models the three
parts of `src/install.rs` that carry that logic:

- **Source list** (module `SourceList`, with the string helpers in `Text`
  and the generic filter in `Wrappers`). `get_sources` loads the
  configuration text, or the default `src "80.51.80.42:9763/sources.json";`.
  It then keeps every trimmed line that starts with `src ` and ends with `;`,
  takes the text between the line's first and last double quote, and puts
  `http://` in front when the text has no `http://` or `https://` scheme.
  An empty result is an error.
- **Resolver** (module `Resolver`). `find_package_url` fetches each source's
  manifest in order. It returns the string stored under the package name in
  the first manifest that decodes to a JSON object holding one. Failed
  fetches, undecodable manifests and manifests without the entry move on to
  the next source.
- **Install workflow** (module `Installer`). `install_package` runs the
  permission gate, reads the sources, resolves the URL, downloads it to
  `<bin dir><separator><package>`, and, off Windows, runs `chmod +x`. The
  first failing step ends the workflow.

The outside world is given as oracles: a `ConfigStore` holds the outcomes of
the three filesystem calls. `fetch: string -> FetchOutcome` gives what curl
and serde_json make of each manifest. An `Environment` holds the gate's
answer and the download's success. The platform is a parameter. What the
workflow does is recorded as a sequence of `Effect`s: the permission probe,
reading the source list, each manifest query, the download and the chmod.

The imperative functions of the source (`get_sources`' loop,
`find_package_url`, `install_package`) are methods. Each is proved equal to a
specification function (`ParseConfig`/`ReadSources`, `Resolve`/`Consulted`,
`Install`), and the properties below are proved about those functions.

## Model

| member | source | states |
|---|---|---|
| SourceList.LoadConfig | src/install.rs:74-88 | fails exactly when the directory cannot be created, or the file cannot be read and the default cannot be written; otherwise gives the file's text, or the default configuration when it could not be read |
| SourceList.AfterLoad | src/install.rs:80-88 | the store the next run finds: once the default is written it reads back as the default text; its contract is stated by `DefaultReadBack` |
| SourceList.DefaultReadBack | src/install.rs:80-88 | after a successful load, the next run (which finds the written default in place of an unreadable file) loads the same text and gets the same source list |
| SourceList.Normalize | src/install.rs:98-102 | the URL as stored; its contract is stated by `NormalizeSpec` |
| SourceList.NormalizeSpec | src/install.rs:98-102 | the stored URL always has an `http://` or `https://` scheme; a URL is left unchanged exactly when it already has one, and is otherwise prefixed with `http://` |
| SourceList.Unquote | src/install.rs:94-97 | the text between the first and the last quote; its contract is stated by `UnquoteSpec` and `UnquoteAt` |
| SourceList.UnquoteSpec | src/install.rs:94-97 | a text is extracted exactly when the line holds two distinct double quotes, and it is the text strictly between the first and the last |
| SourceList.UnquoteAt | src/install.rs:94-97 | for any first/last quote pair, the extracted text is what lies between them |
| SourceList.ParseLine | src/install.rs:92-102 | the source one line declares; its contract is stated by `ParseLineSpec`, `ParseLineSkips`, `ParseLineScheme` and `WellFormedLine` |
| SourceList.ParseLineSpec | src/install.rs:92-102 | a line yields `u` exactly when its trimmed form starts with `src `, ends with `;`, and `u` is the normalised text between its outermost quotes |
| SourceList.ParseLineSkips | src/install.rs:93-96 | a line is skipped exactly when, trimmed, it is not a declaration or has fewer than two quotes (one quote is skipped) |
| SourceList.ParseLineScheme | src/install.rs:98-102 | every source a line yields has a scheme |
| SourceList.WellFormedLine | src/install.rs:91-102 | `src "X";` with any whitespace around it yields `X` if it has a scheme, else `http://X` |
| SourceList.Entries | src/install.rs:90-107 | the sources of the lines in order; its contract is stated by `EntriesInOrder`, `EntriesStep` and `ParseConfigEntries` |
| SourceList.EntriesInOrder | src/install.rs:90-107 | the sources of consecutive lines are those of the earlier lines followed by those of the later ones |
| SourceList.EntriesStep | src/install.rs:91-106 | one more line appends its source, if any, at the end |
| SourceList.ParseConfig | src/install.rs:90-113 | the only parse error is `NoSources`; a parsed list is non-empty and has no more entries than the text has lines |
| SourceList.ParseConfigFails | src/install.rs:109-111 | parsing fails exactly when no line declares a source |
| SourceList.ParseConfigEntries | src/install.rs:90-113 | a URL is in the parsed list exactly when some line yields it, and every entry has a scheme |
| SourceList.DefaultConfigParses | src/install.rs:83 | the default configuration parses to the single source `http://80.51.80.42:9763/sources.json` |
| SourceList.DefaultConfigDeclares | src/install.rs:83 | the default configuration's line declares `80.51.80.42:9763/sources.json`, normalised |
| SourceList.DefaultHostNormalized | src/install.rs:98-102 | the default host has no scheme and is stored behind `http://` |
| SourceList.DefaultConfigIsOneLine | src/install.rs:83 | the default configuration is a single line |
| SourceList.SingleDeclaration | src/install.rs:90-113 | a one-line configuration whose line declares `u` parses to `[u]` |
| SourceList.CollectSources | src/install.rs:90-113 | the push loop over the lines returns exactly `ParseConfig` of the text |
| SourceList.ReadSources | src/install.rs:74-113 | what `get_sources` returns; its contract is stated by `ReadSourcesSpec` and `DefaultReadBack` |
| SourceList.ReadSourcesSpec | src/install.rs:74-113 | `get_sources` fails exactly when loading fails or no line declares a source; a returned list is non-empty and every entry has a scheme |
| SourceList.GetSources | src/install.rs:74-114 | loading then collecting returns exactly `ReadSources` of the store |
| Text.Trim | src/install.rs:92 | the result has no whitespace at either end, whitespace being the 25 Unicode White_Space code points of Rust's `char::is_whitespace`, written out as a constant set |
| Text.TrimPadded | src/install.rs:92 | trimming whitespace-padded text with no whitespace at its ends gives back that text |
| Text.FindChar | src/install.rs:94 | finds the first occurrence of a character, or none exactly when it is absent |
| Text.RFindChar | src/install.rs:95 | finds the last occurrence of a character, or none exactly when it is absent |
| Text.Lines | src/install.rs:91 | no line holds a line feed, and there are no more lines than characters |
| Text.LinesOfJoin | src/install.rs:91 | splitting newline-terminated lines gives those lines back |
| Text.JoinOfLines | src/install.rs:91 | joining the lines back gives the text, with a final line feed added when it lacked one |
| Resolver.FirstOffer | src/install.rs:116-150 | the index found is that of a source whose manifest offers the package, no earlier source offers it, and none is found exactly when no source offers it |
| Resolver.Offer | src/install.rs:127-133 | the URL one manifest offers; its contract is stated by `ResolveFirstMatch`, `SoleSourceScenario` and `SkipUndecodableScenario` |
| Resolver.Resolve | src/install.rs:116-150 | the URL `find_package_url` returns; its contract is stated by `ResolveFirstMatch`, `ResolveNotFound` and `ResolveAppend` |
| Resolver.Consulted | src/install.rs:117-123 | the sources fetched, in order; its contract is stated by `ConsultedPrefix` and `ConsultedAppend` |
| Resolver.FirstOfferAt | src/install.rs:117-135 | a source that offers the package with no offer before it is the one found |
| Resolver.ResolveFirstMatch | src/install.rs:116-150 | the URL returned is `u` exactly when some source's manifest is an object mapping the package to the string `u` and no earlier source's manifest does |
| Resolver.ResolveNotFound | src/install.rs:116-150 | nothing is returned exactly when no source's manifest offers the package |
| Resolver.ResolveAppend | src/install.rs:117-135 | with two lists in a row, a hit in the first decides the result, and otherwise the second list's result is returned |
| Resolver.ConsultedAppend | src/install.rs:117-135 | after a hit in the first list, no source of the second list is fetched |
| Resolver.FirstOfferAppend | src/install.rs:117-135 | the first offer in two lists in a row is the first list's, or the second list's shifted past the first |
| Resolver.ConsultedPrefix | src/install.rs:117-133 | the sources fetched are a prefix of the list, non-empty for a non-empty list; when a URL is returned, the last source fetched offers it and no earlier fetched source offers the package; when none is, the whole list is fetched |
| Resolver.SoleSourceScenario | src/install.rs:127-133 | a sole manifest `{"foo": "http://x/foo.bin"}` resolves `foo` to `http://x/foo.bin` |
| Resolver.SkipUndecodableScenario | src/install.rs:129-139 | an undecodable first manifest is skipped, and `bar` is found in the second |
| Resolver.FindPackageUrl | src/install.rs:116-150 | the loop with early return gives exactly `Resolve`, and fetches exactly the `Consulted` sources in order |
| Installer.TargetPath | src/install.rs:31-37 | where the package is downloaded to; its contract is stated by `TargetPathSpec` and `TargetPathInjective` |
| Installer.TargetPathSpec | src/install.rs:31-37 | the target path is the binary directory, the platform's separator, then the package name, which can be read back from the path |
| Installer.TargetPathInjective | src/install.rs:31-37 | two packages share a target path only when they are the same package |
| Installer.Install | src/install.rs:6-63 | the effects and outcome of `install_package`; its contract is stated by `GateFirst`, `QueriesFollowSources`, `DownloadOnlyAfterResolve`, `MarkOnlyAfterDownload`, `MarkIsLast` and `InstalledIffDownloaded` |
| Installer.GateFirst | src/install.rs:7-9 | the permission probe is the first step, and a refused probe ends the workflow with nothing else done |
| Installer.QueriesFollowSources | src/install.rs:13-27 | a manifest is queried exactly when the gate passed, the source list was read, and the source is among those the resolver consults |
| Installer.DownloadOnlyAfterResolve | src/install.rs:13-44 | a download happens exactly when the gate passed, the sources were read and resolved the package, and it is of the resolved URL to the target path |
| Installer.MarkOnlyAfterDownload | src/install.rs:46-55 | the file is marked executable exactly when the download to its target path succeeded on a non-Windows platform |
| Installer.MarkIsLast | src/install.rs:46-55 | marking executable is the last step, right after the download to the same path |
| Installer.InstalledIffDownloaded | src/install.rs:46-59 | success is reported exactly when a download to the target path took place and curl succeeded |
| Installer.InstallPackage | src/install.rs:6-63 | the step-by-step workflow with its early returns has exactly the effects and outcome of `Install` |

## Left out

- Processes: spawning curl and chmod is not modelled. A manifest fetch and its JSON decoding are the oracle `fetch`, which gives one outcome per URL. A URL listed twice is fetched twice by the program (install.rs:117-123), but in the model both fetches have the same outcome, so a run where the first fetch of a URL fails and a later fetch of it succeeds is not expressed. The download's success is one boolean. The exit status of chmod is ignored, as in the source.
- JSON: serde_json's decoding is not modelled, and numbers are kept as integers. Only the shape the resolver inspects matters: an object, the entry under the package, a string.
- Filesystem: the outcomes of `create_dir_all`, `read_to_string` and `fs::write` are inputs in `ConfigStore`. The file itself and its path (`get_config_path`) are not modelled. Of its contents after a write, only that a written default reads back is modelled (`SourceList.AfterLoad`).
- SourceList.LoadConfig: any failure of `read_to_string`, not only a missing file, makes the code write and use the default configuration; the model follows the code (install.rs:80-88).
- SourceList.DefaultReadBack: `AfterLoad` records only that a written default reads back; whether the configuration directory can be created again on the next run is taken to be unchanged.
- Permission gate: `check_install_permissions` (a write probe in the binary directory, and the user's identity used for messages) is not part of this model. Its answer is the boolean `Environment.permitted`.
- Platform: `cfg!(target_os = "windows")` is the `Platform` parameter.
- Messages: `println!`/`eprintln!` output is not modelled. The "Checking source" lines correspond to the `QuerySource` effects.
- Uninstall and the command-line entry point (`src/main.rs`) are not part of this model.
- Text.Lines: splits at `\n` only. A `\r` before it stays on the line, and `trim` then removes it, so parsing agrees with Rust's `lines`, which strips `\r\n`.
