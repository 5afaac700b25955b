/** The install workflow, `install_package` (src/install.rs:6-63): the
    permission gate, reading the source list, resolving the package, the
    download to the platform's binary directory and, off Windows, marking the
    download executable. The processes it spawns and the files it touches are
    oracles in an `Environment`; what the workflow does is recorded as a
    sequence of `Effect`s. */
module Installer {
  import opened Wrappers
  import opened SourceList
  import opened Resolver

  /** The target platform, `cfg!(target_os = "windows")`. */
  datatype Platform = Windows | Unix

  /** The directory packages are installed into. */
  function BinDir(platform: Platform): string
  {
    match platform
    case Windows => "C:\\Program Files\\TUPM-Apps\\bin"
    case Unix => "/bin"
  }

  /** The path separator placed between the directory and the package. */
  function Separator(platform: Platform): char
  {
    match platform
    case Windows => '\\'
    case Unix => '/'
  }

  /** Where the package is downloaded to (src/install.rs:31-37). */
  function TargetPath(platform: Platform, package: string): string
  {
    BinDir(platform) + [Separator(platform)] + package
  }

  /** The package name a target path names: what follows the directory and
      its separator. */
  function PackageOf(platform: Platform, path: string): Option<string>
  {
    var prefix := BinDir(platform) + [Separator(platform)];
    if |prefix| <= |path| && path[..|prefix|] == prefix then Some(path[|prefix|..]) else None
  }

  /** A target path is the binary directory, the separator, then the package
      name; the name is recovered from the path, so distinct packages never
      share a target. */
  lemma TargetPathSpec(platform: Platform, package: string)
    ensures var path := TargetPath(platform, package); var n := |BinDir(platform)|;
      |path| == n + 1 + |package| && path[..n] == BinDir(platform) &&
      path[n] == Separator(platform) && path[n + 1..] == package
    ensures PackageOf(platform, TargetPath(platform, package)) == Some(package)
  {
    var prefix := BinDir(platform) + [Separator(platform)];
    var path := TargetPath(platform, package);
    assert path == prefix + package;
    assert path[..|prefix|] == prefix;
    assert path[|prefix|..] == package;
  }

  lemma TargetPathInjective(platform: Platform, a: string, b: string)
    ensures TargetPath(platform, a) == TargetPath(platform, b) <==> a == b
  {
    TargetPathSpec(platform, a);
    TargetPathSpec(platform, b);
  }

  /** An observable step of the workflow. */
  datatype Effect =
    | ProbePermissions                     // `check_install_permissions()`
    | ReadSourceList                       // `get_sources()`
    | QuerySource(source: string)          // `curl -s -L <source>` for one manifest
    | Download(url: string, target: string) // `curl -L -o <target> <url>`
    | MarkExecutable(target: string)       // `chmod +x <target>`

  /** How the workflow ended. */
  datatype Outcome =
    | PermissionDenied
    | SourcesUnavailable(error: SourcesError)
    | PackageNotFound
    | DownloadFailed   // curl could not be started or exited with a failure status
    | Installed

  /** The answers of everything outside the workflow. */
  datatype Environment = Environment(
    permitted: bool,                // `check_install_permissions()` allowed the install
    store: ConfigStore,             // the configuration file's behaviour
    fetch: string -> FetchOutcome,  // each manifest, fetched and decoded
    downloaded: bool)               // the download curl ran and exited successfully

  datatype Run = Run(effects: seq<Effect>, outcome: Outcome)

  /** One query per consulted source, in order. */
  function Queries(sources: seq<string>): (qs: seq<Effect>)
    ensures |qs| == |sources|
    ensures forall k :: 0 <= k < |qs| ==> qs[k] == QuerySource(sources[k])
  {
    seq(|sources|, k requires 0 <= k < |sources| => QuerySource(sources[k]))
  }

  /** The two steps every permitted run begins with. */
  const Prologue: seq<Effect> := [ProbePermissions, ReadSourceList]

  /** The download of the resolved URL and, off Windows, marking it
      executable once curl succeeded (src/install.rs:39-55). */
  function Delivery(platform: Platform, package: string, url: string, downloaded: bool): Run
  {
    var target := TargetPath(platform, package);
    if !downloaded then Run([Download(url, target)], DownloadFailed)
    else if platform == Windows then Run([Download(url, target)], Installed)
    else Run([Download(url, target), MarkExecutable(target)], Installed)
  }

  /** What follows the queries: nothing when no source offers the package,
      the delivery of the URL otherwise. */
  function AfterQueries(platform: Platform, package: string, env: Environment, sources: seq<string>): Run
  {
    match Resolve(sources, env.fetch, package)
    case None => Run([], PackageNotFound)
    case Some(url) => Delivery(platform, package, url, env.downloaded)
  }

  /** What `install_package` does and how it ends. */
  function Install(platform: Platform, package: string, env: Environment): Run
  {
    if !env.permitted then Run([ProbePermissions], PermissionDenied)
    else match ReadSources(env.store)
      case Err(e) => Run(Prologue, SourcesUnavailable(e))
      case Ok(sources) =>
        var rest := AfterQueries(platform, package, env, sources);
        Run(Prologue + Queries(Consulted(sources, env.fetch, package)) + rest.effects, rest.outcome)
  }

  /** Where an effect can sit in a permitted run: in the prologue, among the
      queries, or after them. */
  lemma Locate(consulted: seq<string>, rest: seq<Effect>, e: Effect)
    ensures e in Prologue + Queries(consulted) + rest <==>
      e == ProbePermissions || e == ReadSourceList || (e.QuerySource? && e.source in consulted) || e in rest
  {
    var qs := Queries(consulted);
    var es := Prologue + qs + rest;
    if e in es {
      var i :| 0 <= i < |es| && es[i] == e;
      if 2 <= i < 2 + |qs| {
        assert qs[i - 2] == e;
      } else if 2 + |qs| <= i {
        assert rest[i - 2 - |qs|] == e;
      }
    }
    if e.QuerySource? && e.source in consulted {
      var k :| 0 <= k < |consulted| && consulted[k] == e.source;
      assert es[2 + k] == qs[k];
    }
    if e in rest {
      var k :| 0 <= k < |rest| && rest[k] == e;
      assert es[2 + |qs| + k] == e;
    }
  }

  /** After the queries come only downloads and marks. */
  lemma AfterQueriesEffects(platform: Platform, package: string, env: Environment, sources: seq<string>, e: Effect)
    requires e in AfterQueries(platform, package, env, sources).effects
    ensures e.Download? || e.MarkExecutable?
  {
  }

  /** The permission probe comes first, and a refused probe ends the
      workflow before anything else happens. */
  lemma GateFirst(platform: Platform, package: string, env: Environment)
    ensures var run := Install(platform, package, env);
      run.effects != [] && run.effects[0] == ProbePermissions
    ensures !env.permitted <==> Install(platform, package, env) == Run([ProbePermissions], PermissionDenied)
  {
  }

  /** The manifests queried are those of the consulted prefix of a source
      list that was read: a refused gate or an unreadable source list means
      no query at all. */
  lemma QueriesFollowSources(platform: Platform, package: string, env: Environment, source: string)
    ensures QuerySource(source) in Install(platform, package, env).effects <==>
      env.permitted && ReadSources(env.store).Ok? &&
      source in Consulted(ReadSources(env.store).value, env.fetch, package)
  {
    if env.permitted && ReadSources(env.store).Ok? {
      var sources := ReadSources(env.store).value;
      var rest := AfterQueries(platform, package, env, sources);
      Locate(Consulted(sources, env.fetch, package), rest.effects, QuerySource(source));
      if QuerySource(source) in rest.effects {
        AfterQueriesEffects(platform, package, env, sources, QuerySource(source));
      }
    }
  }

  /** A download happens exactly when the gate passed, a source list was read
      and resolved the package, and it goes to the package's target path. */
  lemma DownloadOnlyAfterResolve(platform: Platform, package: string, env: Environment, url: string, target: string)
    ensures Download(url, target) in Install(platform, package, env).effects <==>
      env.permitted && ReadSources(env.store).Ok? &&
      Resolve(ReadSources(env.store).value, env.fetch, package) == Some(url) &&
      target == TargetPath(platform, package)
  {
    if env.permitted && ReadSources(env.store).Ok? {
      var sources := ReadSources(env.store).value;
      var rest := AfterQueries(platform, package, env, sources);
      Locate(Consulted(sources, env.fetch, package), rest.effects, Download(url, target));
    }
  }

  /** The download is marked executable exactly when it was made to the
      package's target path, curl succeeded, and the platform is not Windows. */
  lemma MarkOnlyAfterDownload(platform: Platform, package: string, env: Environment, target: string)
    ensures MarkExecutable(target) in Install(platform, package, env).effects <==>
      env.permitted && ReadSources(env.store).Ok? &&
      Resolve(ReadSources(env.store).value, env.fetch, package).Some? &&
      target == TargetPath(platform, package) && env.downloaded && platform == Unix
  {
    if env.permitted && ReadSources(env.store).Ok? {
      var sources := ReadSources(env.store).value;
      var rest := AfterQueries(platform, package, env, sources);
      Locate(Consulted(sources, env.fetch, package), rest.effects, MarkExecutable(target));
    }
  }

  /** Marking executable is the last step, and the step before it is the
      download of the resolved URL to the same path. */
  lemma MarkIsLast(platform: Platform, package: string, env: Environment, target: string)
    ensures var es := Install(platform, package, env).effects;
      MarkExecutable(target) in es ==>
      |es| >= 2 && es[|es| - 1] == MarkExecutable(target) &&
      es[|es| - 2] == Download(Resolve(ReadSources(env.store).value, env.fetch, package).value, target)
  {
    MarkOnlyAfterDownload(platform, package, env, target);
  }

  /** The workflow reports success exactly when a download to the target
      path happened and curl succeeded. */
  lemma InstalledIffDownloaded(platform: Platform, package: string, env: Environment)
    ensures Install(platform, package, env).outcome == Installed <==>
      (exists url :: Download(url, TargetPath(platform, package)) in Install(platform, package, env).effects) &&
      env.downloaded
  {
    var target := TargetPath(platform, package);
    if exists url :: Download(url, target) in Install(platform, package, env).effects {
      var url :| Download(url, target) in Install(platform, package, env).effects;
      DownloadOnlyAfterResolve(platform, package, env, url, target);
    }
    if Install(platform, package, env).outcome == Installed {
      var url := Resolve(ReadSources(env.store).value, env.fetch, package).value;
      DownloadOnlyAfterResolve(platform, package, env, url, target);
    }
  }

  /** `install_package`: each step runs only when the one before it
      succeeded, and every failure ends the workflow. */
  method InstallPackage(platform: Platform, package: string, env: Environment) returns (run: Run)
    ensures run == Install(platform, package, env)
  {
    var effects := [ProbePermissions];
    if !env.permitted {
      return Run(effects, PermissionDenied);
    }
    effects := effects + [ReadSourceList];
    assert effects == [ProbePermissions, ReadSourceList];
    var sources := GetSources(env.store);
    if sources.Err? {
      return Run(effects, SourcesUnavailable(sources.error));
    }
    var packageUrl, checked := FindPackageUrl(sources.value, env.fetch, package);
    effects := effects + Queries(checked);
    if packageUrl.None? {
      return Run(effects, PackageNotFound);
    }
    var targetPath := match platform
      case Windows => BinDir(Windows) + ['\\'] + package
      case Unix => BinDir(Unix) + ['/'] + package;
    assert targetPath == TargetPath(platform, package);
    effects := effects + [Download(packageUrl.value, targetPath)];
    if !env.downloaded {
      return Run(effects, DownloadFailed);
    }
    if platform != Windows {
      effects := effects + [MarkExecutable(targetPath)];
    }
    return Run(effects, Installed);
  }
}
