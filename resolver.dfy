/** The resolver: `find_package_url` (src/install.rs:116-150). Each source's
    manifest is fetched with curl and decoded with serde_json; both are outside
    the model, so the outcome of fetching and decoding a source's manifest is
    given by the oracle `fetch`. The first source, in list order, whose
    manifest is a JSON object mapping the package to a string gives the URL;
    every other outcome moves on to the next source. */
module Resolver {
  import opened Wrappers

  /** A decoded JSON value, as serde_json's `Value`. Numbers are kept as
      integers: their representation plays no part in resolution. */
  datatype Json =
    | JNull
    | JBool(b: bool)
    | JNumber(n: int)
    | JString(str: string)
    | JArray(items: seq<Json>)
    | JObject(fields: map<string, Json>)

  /** What running `curl -s -L <source>` and decoding its output gives. */
  datatype FetchOutcome =
    | SpawnFailed       // the curl process could not be started
    | FailedStatus      // curl exited with a non-success status
    | Undecodable       // the output is not JSON
    | Decoded(body: Json)

  /** The URL a source's manifest offers for `package`: the manifest must be
      a JSON object whose value under `package` is a string
      (src/install.rs:127-133). */
  function Offer(outcome: FetchOutcome, package: string): Option<string>
  {
    match outcome
    case Decoded(JObject(fields)) =>
      if package in fields && fields[package].JString? then Some(fields[package].str) else None
    case _ => None
  }

  /** None of the first `n` sources offers the package. */
  ghost predicate NoOfferBefore(sources: seq<string>, fetch: string -> FetchOutcome, package: string, n: nat)
    requires n <= |sources|
  {
    forall j :: 0 <= j < n ==> Offer(fetch(sources[j]), package).None?
  }

  /** The index of the first source whose manifest offers the package. */
  function FirstOffer(sources: seq<string>, fetch: string -> FetchOutcome, package: string): (r: Option<nat>)
    ensures r.Some? ==> r.value < |sources| && Offer(fetch(sources[r.value]), package).Some?
    ensures r.Some? ==> NoOfferBefore(sources, fetch, package, r.value)
    ensures r.None? <==> NoOfferBefore(sources, fetch, package, |sources|)
  {
    if sources == [] then None
    else if Offer(fetch(sources[0]), package).Some? then Some(0)
    else match FirstOffer(sources[1..], fetch, package)
      case None =>
        assert forall j :: 1 <= j < |sources| ==> sources[j] == sources[1..][j - 1];
        None
      case Some(i) =>
        assert forall j :: 1 <= j <= i ==> sources[j] == sources[1..][j - 1];
        Some(i + 1)
  }

  /** The URL `find_package_url` returns. */
  function Resolve(sources: seq<string>, fetch: string -> FetchOutcome, package: string): Option<string>
  {
    match FirstOffer(sources, fetch, package)
    case None => None
    case Some(i) => Offer(fetch(sources[i]), package)
  }

  /** The sources `find_package_url` fetches, in order: all of them up to and
      including the first that offers the package. */
  function Consulted(sources: seq<string>, fetch: string -> FetchOutcome, package: string): seq<string>
  {
    match FirstOffer(sources, fetch, package)
    case None => sources
    case Some(i) => sources[..i + 1]
  }

  /** An index whose source offers the package, with no offer before it, is
      the first offer. */
  lemma FirstOfferAt(sources: seq<string>, fetch: string -> FetchOutcome, package: string, i: nat)
    requires i < |sources| && Offer(fetch(sources[i]), package).Some?
    requires forall j :: 0 <= j < i ==> Offer(fetch(sources[j]), package).None?
    ensures FirstOffer(sources, fetch, package) == Some(i)
  {
    var r := FirstOffer(sources, fetch, package);
    assert r.Some?;
    assert !(r.value < i) && !(i < r.value);
  }

  /** The resolved URL is the offer of the first source, in list order, that
      offers the package: every earlier source failed, or its manifest was not
      an object, or had no string under the package. */
  lemma ResolveFirstMatch(sources: seq<string>, fetch: string -> FetchOutcome, package: string, u: string)
    ensures Resolve(sources, fetch, package) == Some(u) <==>
      exists i :: 0 <= i < |sources| && Offer(fetch(sources[i]), package) == Some(u) &&
        forall j :: 0 <= j < i ==> Offer(fetch(sources[j]), package).None?
  {
    if exists i :: 0 <= i < |sources| && Offer(fetch(sources[i]), package) == Some(u) &&
        forall j :: 0 <= j < i ==> Offer(fetch(sources[j]), package).None? {
      var i :| 0 <= i < |sources| && Offer(fetch(sources[i]), package) == Some(u) &&
        forall j :: 0 <= j < i ==> Offer(fetch(sources[j]), package).None?;
      FirstOfferAt(sources, fetch, package, i);
    }
  }

  /** Nothing is resolved exactly when no source offers the package, whether
      the sources failed or lacked the key. */
  lemma ResolveNotFound(sources: seq<string>, fetch: string -> FetchOutcome, package: string)
    ensures Resolve(sources, fetch, package).None? <==>
      forall j :: 0 <= j < |sources| ==> Offer(fetch(sources[j]), package).None?
  {
    match FirstOffer(sources, fetch, package)
    case None =>
    case Some(i) =>
      assert Offer(fetch(sources[i]), package).Some?;
  }

  /** Resolving over two lists in a row: a hit in the first list decides, and
      the second list can then not change the result. */
  lemma ResolveAppend(a: seq<string>, b: seq<string>, fetch: string -> FetchOutcome, package: string)
    ensures Resolve(a + b, fetch, package) ==
      if Resolve(a, fetch, package).Some? then Resolve(a, fetch, package) else Resolve(b, fetch, package)
  {
    FirstOfferAppend(a, b, fetch, package);
  }

  /** A hit in the first list means the second is never fetched. */
  lemma ConsultedAppend(a: seq<string>, b: seq<string>, fetch: string -> FetchOutcome, package: string)
    ensures Consulted(a + b, fetch, package) ==
      if Resolve(a, fetch, package).Some? then Consulted(a, fetch, package) else a + Consulted(b, fetch, package)
  {
    FirstOfferAppend(a, b, fetch, package);
    match FirstOffer(a, fetch, package)
    case Some(i) =>
      assert (a + b)[..i + 1] == a[..i + 1];
    case None =>
      match FirstOffer(b, fetch, package)
      case Some(i) =>
        assert (a + b)[..|a| + i + 1] == a + b[..i + 1];
      case None =>
  }

  /** The first offer in two lists in a row: the first list's, or the second
      list's shifted past the first. */
  lemma FirstOfferAppend(a: seq<string>, b: seq<string>, fetch: string -> FetchOutcome, package: string)
    ensures FirstOffer(a + b, fetch, package) ==
      match FirstOffer(a, fetch, package)
      case Some(i) => Some(i)
      case None =>
        match FirstOffer(b, fetch, package)
        case Some(i) => Some(|a| + i)
        case None => None
  {
    match FirstOffer(a, fetch, package)
    case Some(i) =>
      assert forall j :: 0 <= j <= i ==> (a + b)[j] == a[j];
      FirstOfferAt(a + b, fetch, package, i);
    case None =>
      assert forall j :: 0 <= j < |b| ==> (a + b)[|a| + j] == b[j];
      match FirstOffer(b, fetch, package)
      case Some(i) =>
        FirstOfferAt(a + b, fetch, package, |a| + i);
      case None =>
        assert forall j :: 0 <= j < |a + b| ==> Offer(fetch((a + b)[j]), package).None? by {
          forall j | 0 <= j < |a + b| ensures Offer(fetch((a + b)[j]), package).None? {
            if j >= |a| {
              assert (a + b)[j] == b[j - |a|];
            }
          }
        }
  }

  /** The consulted sources are a non-empty prefix of the list when the list is
      non-empty, and end with the source that gave the URL. */
  lemma ConsultedPrefix(sources: seq<string>, fetch: string -> FetchOutcome, package: string)
    ensures var c := Consulted(sources, fetch, package);
      |c| <= |sources| && c == sources[..|c|] && (sources != [] ==> c != [])
    ensures Resolve(sources, fetch, package).Some? ==>
      var c := Consulted(sources, fetch, package);
      c != [] && Resolve(sources, fetch, package) == Offer(fetch(c[|c| - 1]), package) &&
      forall j :: 0 <= j < |c| - 1 ==> Offer(fetch(c[j]), package).None?
    ensures Resolve(sources, fetch, package).None? ==> Consulted(sources, fetch, package) == sources
  {
    ResolveNotFound(sources, fetch, package);
  }

  /** A manifest at the sole source mapping `foo` to `http://x/foo.bin`
      resolves `foo` to that URL. */
  lemma SoleSourceScenario(src: string, fetch: string -> FetchOutcome)
    requires fetch(src) == Decoded(JObject(map["foo" := JString("http://x/foo.bin")]))
    ensures Resolve([src], fetch, "foo") == Some("http://x/foo.bin")
  {
    FirstOfferAt([src], fetch, "foo", 0);
  }

  /** An undecodable first manifest is skipped, and the second source's entry
      is found. */
  lemma SkipUndecodableScenario(s1: string, s2: string, fetch: string -> FetchOutcome)
    requires fetch(s1) == Undecodable
    requires fetch(s2) == Decoded(JObject(map["bar" := JString("http://y/bar")]))
    ensures Resolve([s1, s2], fetch, "bar") == Some("http://y/bar")
    ensures Consulted([s1, s2], fetch, "bar") == [s1, s2]
  {
    FirstOfferAt([s1, s2], fetch, "bar", 1);
  }

  /** `find_package_url`: fetch each source in order, return the first
      offer; `checked` lists the sources fetched, in order. */
  method FindPackageUrl(sources: seq<string>, fetch: string -> FetchOutcome, package: string)
    returns (url: Option<string>, checked: seq<string>)
    ensures url == Resolve(sources, fetch, package)
    ensures checked == Consulted(sources, fetch, package)
  {
    checked := [];
    for i := 0 to |sources|
      invariant checked == sources[..i]
      invariant forall j :: 0 <= j < i ==> Offer(fetch(sources[j]), package).None?
    {
      var sourceUrl := sources[i];
      checked := checked + [sourceUrl];
      match fetch(sourceUrl)
      case SpawnFailed =>
      case FailedStatus =>
      case Undecodable =>
      case Decoded(json) =>
        if json.JObject? && package in json.fields && json.fields[package].JString? {
          FirstOfferAt(sources, fetch, package, i);
          assert checked == sources[..i + 1];
          return Some(json.fields[package].str), checked;
        }
    }
    assert checked == sources;
    return None, checked;
  }
}
