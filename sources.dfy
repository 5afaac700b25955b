/** The source list: the text half of `get_sources` (src/install.rs:74-114).
    The configuration text is read line by line; a line declares a source when,
    trimmed, it starts with `src ` and ends with `;`, and the source is the text
    between its first and its last double quote, given an `http://` scheme when
    it has neither `http://` nor `https://`. */
module SourceList {
  import opened Wrappers
  import opened Text

  /** Why no source list could be obtained. */
  datatype SourcesError =
    | CreateDirFailed     // `create_dir_all` on the configuration directory failed
    | WriteDefaultFailed  // the configuration could not be read and the default could not be written
    | NoSources           // no line of the configuration declares a source

  /** The source the default configuration declares. */
  const DefaultHost: string := "80.51.80.42:9763/sources.json"

  /** The default configuration written when the configuration file cannot be
      read: `src "80.51.80.42:9763/sources.json";`. */
  const DefaultConfig: string := "src \"" + DefaultHost + "\";"

  /** The outcomes of the three filesystem calls `get_sources` makes. */
  datatype ConfigStore = ConfigStore(
    dirCreated: bool,         // `create_dir_all(parent)` succeeded
    contents: Option<string>, // `read_to_string` succeeded with this text
    defaultWritten: bool)     // `fs::write` of the default configuration succeeded

  /** The configuration text `get_sources` goes on to parse, or the I/O error
      it returns first. Any failure to read, not only a missing file, makes it
      write and use the default. */
  function LoadConfig(store: ConfigStore): (r: Result<string, SourcesError>)
    ensures r.Err? <==> !store.dirCreated || (store.contents.None? && !store.defaultWritten)
    ensures r.Err? ==> r.error != NoSources
    ensures r.Ok? ==> r.value == if store.contents.Some? then store.contents.value else DefaultConfig
  {
    if !store.dirCreated then Err(CreateDirFailed)
    else match store.contents
      case Some(text) => Ok(text)
      case None => if store.defaultWritten then Ok(DefaultConfig) else Err(WriteDefaultFailed)
  }

  /** The store as the next run finds it: once the default configuration has
      been written, the file reads back as that default (src/install.rs:84). */
  function AfterLoad(store: ConfigStore): ConfigStore
  {
    if store.dirCreated && store.contents.None? && store.defaultWritten then
      store.(contents := Some(DefaultConfig))
    else
      store
  }

  /** Loading is idempotent: the run after a successful load loads exactly the
      same text, in particular reading back the default the first run wrote. */
  lemma DefaultReadBack(first: ConfigStore)
    requires LoadConfig(first).Ok?
    ensures LoadConfig(AfterLoad(first)) == LoadConfig(first)
    ensures ReadSources(AfterLoad(first)) == ReadSources(first)
    ensures first.contents.None? ==> AfterLoad(first).contents == Some(DefaultConfig)
  {
  }

  predicate HasScheme(url: string)
  {
    StartsWith(url, "http://") || StartsWith(url, "https://")
  }

  /** A trimmed line that declares a source. */
  predicate IsDeclaration(t: string)
  {
    StartsWith(t, "src ") && EndsWith(t, ";")
  }

  /** The URL as stored: unchanged when it has a scheme, else behind `http://`. */
  function Normalize(url: string): string
  {
    if HasScheme(url) then url else "http://" + url
  }

  /** Normalising gives a URL with a scheme; it changes exactly the URLs
      without one, and only by putting `http://` in front. */
  lemma NormalizeSpec(url: string)
    ensures HasScheme(Normalize(url))
    ensures Normalize(url) == url <==> HasScheme(url)
    ensures Normalize(url) == url || Normalize(url) == "http://" + url
  {
    if !HasScheme(url) {
      assert ("http://" + url)[..7] == "http://";
      assert |"http://" + url| != |url|;
    }
  }

  /** Positions `i` and `j` hold the first and the last double quote of `t`,
      and they are two different quotes. */
  ghost predicate OuterQuotes(t: string, i: int, j: int)
  {
    0 <= i < j < |t| && t[i] == '"' && t[j] == '"' && '"' !in t[..i] && '"' !in t[j + 1..]
  }

  ghost predicate HasTwoQuotes(t: string)
  {
    exists i, j :: 0 <= i < j < |t| && t[i] == '"' && t[j] == '"'
  }

  /** The text strictly between the first and the last double quote of `t`,
      when these are two different quotes (src/install.rs:94-97). */
  function Unquote(t: string): Option<string>
  {
    match FindChar(t, '"')
    case None => None
    case Some(start) =>
      match RFindChar(t, '"')
      case None => None
      case Some(end) => if start < end then Some(t[start + 1..end]) else None
  }

  /** `Unquote` finds a text exactly when `t` holds two quotes, and the text it
      finds is the one between the outermost two. */
  lemma UnquoteSpec(t: string)
    ensures Unquote(t).None? <==> !HasTwoQuotes(t)
    ensures Unquote(t).Some? ==> exists i, j :: OuterQuotes(t, i, j) && Unquote(t).value == t[i + 1..j]
  {
    if HasTwoQuotes(t) {
      var i, j :| 0 <= i < j < |t| && t[i] == '"' && t[j] == '"';
      var s, e := FindChar(t, '"').value, RFindChar(t, '"').value;
      assert s <= i && j <= e;
    }
    if Unquote(t).Some? {
      var s, e := FindChar(t, '"').value, RFindChar(t, '"').value;
      assert OuterQuotes(t, s, e);
    }
  }

  /** Whatever lies between two outermost quotes is what `Unquote` finds. */
  lemma UnquoteAt(t: string, i: int, j: int)
    requires OuterQuotes(t, i, j)
    ensures Unquote(t) == Some(t[i + 1..j])
  {
    FindCharAt(t, '"', i);
    RFindCharAt(t, '"', j);
  }

  /** The source one line declares, if any: the trimmed line must start with
      `src ` and end with `;`, and its quoted text is then normalised
      (src/install.rs:92-102). */
  function ParseLine(line: string): Option<string>
  {
    var t := Trim(line);
    if IsDeclaration(t) then
      match Unquote(t)
      case None => None
      case Some(url) => Some(Normalize(url))
    else
      None
  }

  /** A line yields exactly the normalised text strictly between the first
      and the last quote of the trimmed line, when that line is a declaration. */
  lemma ParseLineSpec(line: string, u: string)
    ensures ParseLine(line) == Some(u) <==>
      IsDeclaration(Trim(line)) &&
      exists i, j :: OuterQuotes(Trim(line), i, j) && u == Normalize(Trim(line)[i + 1..j])
  {
    var t := Trim(line);
    UnquoteSpec(t);
    if IsDeclaration(t) && exists i, j :: OuterQuotes(t, i, j) && u == Normalize(t[i + 1..j]) {
      var i, j :| OuterQuotes(t, i, j) && u == Normalize(t[i + 1..j]);
      UnquoteAt(t, i, j);
    }
  }

  /** A line is skipped, without error, exactly when its trimmed form is not
      a declaration or holds fewer than two double quotes. */
  lemma ParseLineSkips(line: string)
    ensures ParseLine(line).None? <==> !IsDeclaration(Trim(line)) || !HasTwoQuotes(Trim(line))
  {
    UnquoteSpec(Trim(line));
  }

  /** Every source a line yields has an `http://` or `https://` scheme. */
  lemma ParseLineScheme(line: string)
    ensures ParseLine(line).Some? ==> HasScheme(ParseLine(line).value)
  {
    var t := Trim(line);
    if IsDeclaration(t) && Unquote(t).Some? {
      NormalizeSpec(Unquote(t).value);
    }
  }

  /** A well-formed declaration `src "X";`, with any whitespace around it,
      yields `X` normalised, whatever `X` holds (quotes included). */
  lemma WellFormedLine(a: string, x: string, b: string)
    requires AllWhitespace(a) && AllWhitespace(b)
    ensures ParseLine(a + "src \"" + x + "\";" + b) == Some(Normalize(x))
  {
    var m := "src \"" + x + "\";";
    assert a + "src \"" + x + "\";" + b == a + m + b;
    DeclarationShape(x);
    TrimPadded(a, m, b);
    UnquoteAt(m, 4, |m| - 2);
  }

  /** `src "X";` is trimmed, a declaration, and quotes `X` between its
      outermost quotes. */
  lemma DeclarationShape(x: string)
    ensures var m := "src \"" + x + "\";";
      Trimmed(m) && IsDeclaration(m) && OuterQuotes(m, 4, |m| - 2) && m[5..|m| - 2] == x
  {
    var m := "src \"" + x + "\";";
    assert m[0] == 's' && m[|m| - 1] == ';';
    assert m[..4] == "src " && m[|m| - 1..] == ";";
    assert m[4] == '"' && m[|m| - 2] == '"';
    assert m[5..|m| - 2] == x;
  }

  /** The sources the lines declare, in line order: what the `sources` vector
      of `get_sources` holds after its loop. */
  function Entries(lines: seq<string>): seq<string>
  {
    FilterMap(ParseLine, lines)
  }

  /** Entries keep the order of their lines: those of earlier lines come first. */
  lemma EntriesInOrder(a: seq<string>, b: seq<string>)
    ensures Entries(a + b) == Entries(a) + Entries(b)
  {
    FilterMapAppend(ParseLine, a, b);
  }

  /** One more line adds its source, if it declares one, at the end. */
  lemma EntriesStep(lines: seq<string>, i: nat)
    requires i < |lines|
    ensures Entries(lines[..i + 1]) ==
      Entries(lines[..i]) + if ParseLine(lines[i]).Some? then [ParseLine(lines[i]).value] else []
  {
    assert lines[..i + 1] == lines[..i] + [lines[i]];
    EntriesInOrder(lines[..i], [lines[i]]);
    FilterMapOne(ParseLine, lines[i]);
  }

  /** The text half of `get_sources`: the entries of the configuration's
      lines, or `NoSources` when there are none. */
  function ParseConfig(text: string): (r: Result<seq<string>, SourcesError>)
    ensures r.Err? ==> r.error == NoSources
    ensures r.Ok? ==> r.value != [] && |r.value| <= |Lines(text)|
  {
    var srcs := Entries(Lines(text));
    if srcs == [] then Err(NoSources) else Ok(srcs)
  }

  /** Parsing fails exactly when no line of the text declares a source. */
  lemma ParseConfigFails(text: string)
    ensures ParseConfig(text).Err? <==> NoDeclarations(Lines(text))
  {
    FilterMapEmpty(ParseLine, Lines(text));
  }

  /** No line declares a source. */
  ghost predicate NoDeclarations(lines: seq<string>)
  {
    forall k :: 0 <= k < |lines| ==> ParseLine(lines[k]).None?
  }

  /** A parsed source list holds exactly the sources its lines declare, each
      with a scheme. */
  lemma ParseConfigEntries(text: string, u: string)
    requires ParseConfig(text).Ok?
    ensures u in ParseConfig(text).value <==>
      exists k :: 0 <= k < |Lines(text)| && ParseLine(Lines(text)[k]) == Some(u)
    ensures forall k :: 0 <= k < |ParseConfig(text).value| ==> HasScheme(ParseConfig(text).value[k])
  {
    var ls := Lines(text);
    FilterMapMembership(ParseLine, ls, u);
    forall k | 0 <= k < |ls| && ParseLine(ls[k]).Some? ensures HasScheme(ParseLine(ls[k]).value) {
      ParseLineScheme(ls[k]);
    }
    FilterMapAll(ParseLine, ls, HasScheme);
  }

  /** The default configuration declares exactly one source. */
  lemma DefaultConfigParses()
    ensures ParseConfig(DefaultConfig) == Ok(["http://" + DefaultHost])
  {
    DefaultConfigIsOneLine();
    DefaultConfigDeclares();
    DefaultHostNormalized();
    SingleDeclaration(DefaultConfig, "http://" + DefaultHost);
  }

  lemma DefaultConfigIsOneLine()
    ensures Lines(DefaultConfig) == [DefaultConfig]
  {
    assert '\n' !in DefaultHost;
    assert '\n' !in DefaultConfig;
    SingleLine(DefaultConfig);
  }

  lemma DefaultConfigDeclares()
    ensures ParseLine(DefaultConfig) == Some(Normalize(DefaultHost))
  {
    assert DefaultConfig == [] + "src \"" + DefaultHost + "\";" + [];
    WellFormedLine([], DefaultHost, []);
  }

  lemma DefaultHostNormalized()
    ensures Normalize(DefaultHost) == "http://" + DefaultHost
  {
    assert DefaultHost[..7][0] == '8' && DefaultHost[..8][0] == '8';
  }

  /** A configuration that is one declaring line parses to that line's source. */
  lemma SingleDeclaration(text: string, u: string)
    requires Lines(text) == [text] && ParseLine(text) == Some(u)
    ensures ParseConfig(text) == Ok([u])
  {
    assert Entries([text]) == [u];
  }

  /** The loop of `get_sources`: push the source of every declaring line, in
      order; no source at all is an error (src/install.rs:90-113). The test
      and the extraction of one line are `ParseLine`. */
  method CollectSources(content: string) returns (r: Result<seq<string>, SourcesError>)
    ensures r == ParseConfig(content)
  {
    var lines := Lines(content);
    var sources: seq<string> := [];
    for i := 0 to |lines|
      invariant sources == Entries(lines[..i])
    {
      EntriesStep(lines, i);
      match ParseLine(lines[i])
      case Some(url) =>
        sources := sources + [url];
      case None =>
    }
    assert lines[..|lines|] == lines;
    if sources == [] {
      return Err(NoSources);
    }
    return Ok(sources);
  }

  /** What `get_sources` returns: the loading error, or the parse of the
      loaded configuration. */
  function ReadSources(store: ConfigStore): Result<seq<string>, SourcesError>
  {
    match LoadConfig(store)
    case Err(e) => Err(e)
    case Ok(text) => ParseConfig(text)
  }

  /** `get_sources` fails exactly when the configuration cannot be loaded or
      declares no source; a source list it returns is non-empty and every
      entry has an `http://` or `https://` scheme. */
  lemma ReadSourcesSpec(store: ConfigStore)
    ensures ReadSources(store).Err? <==>
      LoadConfig(store).Err? || NoDeclarations(Lines(LoadConfig(store).value))
    ensures ReadSources(store).Ok? ==>
      ReadSources(store).value != [] &&
      forall k :: 0 <= k < |ReadSources(store).value| ==> HasScheme(ReadSources(store).value[k])
  {
    if LoadConfig(store).Ok? {
      var text := LoadConfig(store).value;
      ParseConfigFails(text);
      if ParseConfig(text).Ok? {
        ParseConfigEntries(text, "");
      }
    }
  }

  /** `get_sources`: load the configuration, then collect its sources
      (src/install.rs:74-114). */
  method GetSources(store: ConfigStore) returns (r: Result<seq<string>, SourcesError>)
    ensures r == ReadSources(store)
  {
    var loaded := LoadConfig(store);
    if loaded.Err? {
      return Err(loaded.error);
    }
    r := CollectSources(loaded.value);
  }
}
