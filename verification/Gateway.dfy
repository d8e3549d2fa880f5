/** The reverse proxy: the registry of models, the director, and the gates that keep no state. */
module Gateway {
  import opened Wrappers
  import opened GoStrings
  import opened Routing

  datatype Url = Url(scheme: string, host: string, path: string, rawQuery: string)

  datatype Backend = Backend(name: string, url: Url, endpoints: seq<string>)

  type Registry = map<string, Backend>

  function SingleJoiningSlash(a: string, b: string): string {
    var aslash := a != "" && a[|a| - 1] == '/';
    var bslash := "/" <= b;
    if aslash && bslash then a + b[1..]
    else if !aslash && !bslash then a + "/" + b
    else a + b
  }

  predicate IsPathSupported(backend: Backend, path: string) {
    path == "/v1/models" || backend.endpoints == [] || path in backend.endpoints
  }

  // ---- The registry -----------------------------------------------------------------

  /** One model reported by the management service. */
  datatype Reported = Reported(name: string, status: string, port: nat)

  function BackendOf(m: Reported, endpoints: map<string, seq<string>>): Backend {
    Backend(m.name, Url("http", "localhost:" + Digits(m.port), "", ""),
            if m.name in endpoints then endpoints[m.name] else [])
  }

  /** Every registered name is a running model, registered under its own name, with no base path. */
  predicate WellFormed(registry: Registry) {
    forall name | name in registry :: registry[name].name == name && registry[name].url.path == ""
  }

  predicate Running(m: Reported, name: string) { m.name == name && m.status == "running" }

  /** The last running entry of each name. */
  function RegistryOf(models: seq<Reported>, endpoints: map<string, seq<string>>): (r: Registry)
    ensures WellFormed(r)
    ensures forall name :: name in r <==> exists m :: m in models && Running(m, name)
  {
    if models == [] then map[]
    else
      var before, m := RegistryOf(models[..|models| - 1], endpoints), models[|models| - 1];
      assert models == models[..|models| - 1] + [m] && m in models;
      assert m.status == "running" ==> Running(m, m.name);
      if m.status == "running" then before[m.name := BackendOf(m, endpoints)] else before
  }

  lemma RegistryHasSome(models: seq<Reported>, endpoints: map<string, seq<string>>, name: string)
    requires name in RegistryOf(models, endpoints)
    ensures models != []
  {
  }

  lemma RegistryNext(models: seq<Reported>, endpoints: map<string, seq<string>>)
    requires models != []
    ensures var before, m := RegistryOf(models[..|models| - 1], endpoints), models[|models| - 1];
            RegistryOf(models, endpoints) ==
              if m.status == "running" then before[m.name := BackendOf(m, endpoints)] else before
  {
  }

  /** A registered backend is the one of the last running entry of its name. */
  lemma {:induction false} LastRunningEntryWins(models: seq<Reported>, endpoints: map<string, seq<string>>,
                                                name: string)
    returns (i: nat)
    requires name in RegistryOf(models, endpoints)
    ensures i < |models| && Running(models[i], name)
    ensures RegistryOf(models, endpoints)[name] == BackendOf(models[i], endpoints)
    ensures forall j | i < j < |models| :: !Running(models[j], name)
  {
    hide BackendOf, WellFormed, RegistryOf;
    RegistryHasSome(models, endpoints, name);
    RegistryNext(models, endpoints);
    var last := |models| - 1;
    if Running(models[last], name) {
      i := last;
    } else {
      i := LastRunningEntryWins(models[..last], endpoints, name);
      assert models[..last][i] == models[i];
      assert forall j | i < j < last :: models[j] == models[..last][j];
    }
  }

  /** The report and the capabilities behind the registry are kept as history. */
  class ModelRouter {
    var registry: Registry
    ghost var models: seq<Reported>
    ghost var endpoints: map<string, seq<string>>

    ghost predicate Valid()
      reads this
    {
      registry == RegistryOf(models, endpoints)
    }

    constructor ()
      ensures Valid() && models == []
    {
      registry, models, endpoints := map[], [], map[];
    }

    /** The new registry is built aside and swapped in at the end; a failed query keeps the old. */
    method Refresh(response: Option<seq<Reported>>, capabilities: map<string, seq<string>>)
      requires Valid()
      modifies this
      ensures Valid()
      ensures if response.Some? then models == response.value && endpoints == capabilities
              else models == old(models) && endpoints == old(endpoints)
    {
      if response.None? {
        return;
      }
      var reported := response.value;
      var newRegistry: Registry := map[];
      for i := 0 to |reported|
        invariant newRegistry == RegistryOf(reported[..i], capabilities)
        invariant Valid() && models == old(models) && endpoints == old(endpoints)
      {
        assert reported[..i + 1][..i] == reported[..i];
        if reported[i].status == "running" {
          newRegistry := newRegistry[reported[i].name := BackendOf(reported[i], capabilities)];
        }
      }
      assert reported[..|reported|] == reported;
      registry, models, endpoints := newRegistry, reported, capabilities;
    }

    /** A backend is returned if and only if the latest report lists the name as running; it is the
        one of the last such entry, under its own name and without a base path. */
    method GetBackend(name: string) returns (backend: Option<Backend>)
      requires Valid()
      ensures backend.Some? <==> exists m :: m in models && Running(m, name)
      ensures backend.Some? ==>
        && backend.value.name == name && backend.value.url.path == ""
        && exists i | 0 <= i < |models| ::
             && Running(models[i], name) && backend.value == BackendOf(models[i], endpoints)
             && forall j | i < j < |models| :: !Running(models[j], name)
    {
      if name !in registry {
        return None;
      }
      var i := LastRunningEntryWins(models, endpoints, name);
      return Some(registry[name]);
    }
  }

  /** What a running model is registered as: plain HTTP at the reported local port, without base path and query,
      under its name, with the endpoints discovered for it, if any. */
  lemma RegisteredAs(m: Reported, endpoints: map<string, seq<string>>)
    ensures var b := BackendOf(m, endpoints);
            && b.name == m.name && b.url.scheme == "http" && b.url.host == "localhost:" + Digits(m.port)
            && b.url.path == "" && b.url.rawQuery == ""
            && (m.name in endpoints ==> b.endpoints == endpoints[m.name])
            && (m.name !in endpoints ==> b.endpoints == [])
  {
  }

  // ---- The director -----------------------------------------------------------------

  /** Where a request for `path` goes, with the registry as it is when the director runs. */
  function Directed(router: Option<Registry>, target: Url, path: string, query: string): Url {
    var model := if router.Some? then ExtractModelName(path) else "";
    var stripped := if model == "" then path else StripModelPrefix(path, model);
    var url := if model != "" && model in router.value then router.value[model].url else target;
    Url(url.scheme, url.host, SingleJoiningSlash(url.path, stripped),
        if url.rawQuery == "" || query == "" then url.rawQuery + query else url.rawQuery + "&" + query)
  }

  /** Headers by canonical name; a header that is not there reads as the empty text. */
  type Headers = map<string, string>

  function Header(headers: Headers, name: string): string { if name in headers then headers[name] else "" }

  /** The first forwarded address, the real address, or the peer's host. */
  function ClientIP(headers: Headers, remoteAddr: string): string {
    if Header(headers, "X-Forwarded-For") != "" then TrimSpace(Split(Header(headers, "X-Forwarded-For"), ',')[0])
    else if Header(headers, "X-Real-Ip") != "" then Header(headers, "X-Real-Ip")
    else Split(remoteAddr, ':')[0]
  }

  /** The headers as sent on: without the key, and with the forwarding ones. */
  function DirectedHeaders(headers: Headers, keyHeader: string, remoteAddr: string, host: string): Headers {
    var keyless := headers - {keyHeader};
    var client := ClientIP(keyless, remoteAddr);
    var forwarded := if client == "" then keyless else keyless["X-Forwarded-For" := client];
    var proto := forwarded["X-Forwarded-Proto" := "http"];
    if Header(proto, "X-Forwarded-Host") == "" then proto["X-Forwarded-Host" := host] else proto
  }

  const FORWARDING := {"X-Forwarded-For", "X-Forwarded-Proto", "X-Forwarded-Host"}

  /** The key header is not sent on; every header but it and the forwarding ones is sent as it came,
      and nothing else is added. */
  lemma HeadersAreKept(headers: Headers, keyHeader: string, remoteAddr: string, host: string, name: string)
    requires name !in FORWARDING
    ensures var sent := DirectedHeaders(headers, keyHeader, remoteAddr, host);
            && (name in sent <==> name in headers && name != keyHeader)
            && (name in sent ==> sent[name] == headers[name])
  {
  }

  /** The forwarding headers as sent on: the client's address, if one is known, or what came; always plain
      HTTP; and the host the client asked for, unless the request already names one. */
  lemma ForwardingHeaders(headers: Headers, keyHeader: string, remoteAddr: string, host: string)
    requires keyHeader !in FORWARDING
    ensures var sent := DirectedHeaders(headers, keyHeader, remoteAddr, host);
            var client := ClientIP(headers - {keyHeader}, remoteAddr);
            && "X-Forwarded-Proto" in sent && sent["X-Forwarded-Proto"] == "http"
            && "X-Forwarded-Host" in sent
            && sent["X-Forwarded-Host"] == (if "X-Forwarded-Host" in headers && headers["X-Forwarded-Host"] != ""
                                            then headers["X-Forwarded-Host"] else host)
            && (client != "" ==> "X-Forwarded-For" in sent && sent["X-Forwarded-For"] == client)
            && (client == "" ==> ("X-Forwarded-For" in sent <==> "X-Forwarded-For" in headers))
            && (client == "" && "X-Forwarded-For" in sent ==> sent["X-Forwarded-For"] == headers["X-Forwarded-For"])
  {
  }

  /** Whom the gateway takes for the client: the first address of the forwarding header, up to its first
      comma and without blanks around it; without that header, the real address; without either, the
      peer's address up to its first colon. */
  lemma ClientIs(headers: Headers, remoteAddr: string, first: string, rest: string)
    ensures ',' !in first && first != "" && "X-Forwarded-For" in headers
            && headers["X-Forwarded-For"] in {first, first + "," + rest}
            ==> ClientIP(headers, remoteAddr) == TrimSpace(first)
    ensures ("X-Forwarded-For" !in headers || headers["X-Forwarded-For"] == "")
            && "X-Real-Ip" in headers && headers["X-Real-Ip"] != ""
            ==> ClientIP(headers, remoteAddr) == headers["X-Real-Ip"]
    ensures ("X-Forwarded-For" !in headers || headers["X-Forwarded-For"] == "")
            && ("X-Real-Ip" !in headers || headers["X-Real-Ip"] == "")
            && ':' !in first && remoteAddr in {first, first + ":" + rest}
            ==> ClientIP(headers, remoteAddr) == first
  {
    FirstPart(first, rest, ',');
    FirstPart(first, rest, ':');
  }

  /** The peer's own host is found if and only if it has no colon: of an IPv6 address only the text before
      its first colon is left. */
  lemma PeerIsFoundIff(headers: Headers, host: string, port: string)
    requires "X-Forwarded-For" !in headers && "X-Real-Ip" !in headers
    ensures ClientIP(headers, host + ":" + port) == host <==> ':' !in host
    ensures ClientIP(headers, "[::1]:8080") == "["
  {
    SplitJoins(host + ":" + port, ':');
    assert Split(host + ":" + port, ':')[0] in Split(host + ":" + port, ':');
    FirstPart(host, port, ':');
    FirstPart("[", ":1]:8080", ':');
    assert "[::1]:8080" == "[" + [':'] + ":1]:8080";
  }

  lemma FirstPart(first: string, rest: string, sep: char)
    ensures sep !in first ==> Split(first, sep)[0] == first && Split(first + [sep] + rest, sep)[0] == first
  {
    if sep !in first {
      SplitOne(first, sep);
      SplitStep(first, rest, sep);
    }
  }

  class ProxiedRequest {
    var url: Url
    var rawPath: string
    var headers: Headers
    const remoteAddr: string
    const host: string

    constructor (url: Url, rawPath: string, headers: Headers, remoteAddr: string, host: string)
      ensures this.url == url && this.rawPath == rawPath && this.headers == headers
      ensures this.remoteAddr == remoteAddr && this.host == host
    {
      this.url, this.rawPath, this.headers, this.remoteAddr, this.host := url, rawPath, headers, remoteAddr, host;
    }

    method Direct(router: Option<Registry>, target: Url, keyHeader: string)
      modifies this
      ensures url == Directed(router, target, old(url.path), old(url.rawQuery))
      ensures rawPath == if router.Some? && ExtractModelName(old(url.path)) != "" then "" else old(rawPath)
      ensures headers == DirectedHeaders(old(headers), keyHeader, remoteAddr, host)
    {
      DirectUrl(router, target);
      headers := headers - {keyHeader};
      var client := ClientIP(headers, remoteAddr);
      if client != "" {
        headers := headers["X-Forwarded-For" := client];
      }
      headers := headers["X-Forwarded-Proto" := "http"];
      if Header(headers, "X-Forwarded-Host") == "" {
        headers := headers["X-Forwarded-Host" := host];
      }
    }

    method DirectUrl(router: Option<Registry>, target: Url)
      modifies this`url, this`rawPath
      ensures url == Directed(router, target, old(url.path), old(url.rawQuery))
      ensures rawPath == if router.Some? && ExtractModelName(old(url.path)) != "" then "" else old(rawPath)
    {
      var targetUrl := target;
      if router.Some? {
        var model := ExtractModelName(url.path);
        if model != "" {
          url := url.(path := StripModelPrefix(url.path, model));
          rawPath := "";
          if model in router.value {
            targetUrl := router.value[model].url;
          }
        }
      }
      url := url.(scheme := targetUrl.scheme, host := targetUrl.host,
                  path := SingleJoiningSlash(targetUrl.path, url.path));
      if targetUrl.rawQuery == "" || url.rawQuery == "" {
        url := url.(rawQuery := targetUrl.rawQuery + url.rawQuery);
      } else {
        url := url.(rawQuery := targetUrl.rawQuery + "&" + url.rawQuery);
      }
    }
  }

  // ---- Requests and the gates that keep no state ------------------------------------

  /** The answers of the key store to the gateway, as far as they are configured. */
  datatype Gates = Gates(
    authenticate: Option<string -> Option<string>>,
    sourceAllowed: Option<(string, string) -> bool>,
    canAccess: Option<(string, string) -> bool>)

  datatype Request = Request(isGet: bool, path: string, apiKey: string, clientIP: string, bodyModel: Option<string>)

  datatype Outcome =
    | Unauthorized
    | ListModels
    | ListTargets
    | ModelMetrics(model: string)
    | SourceDenied
    | AccessDenied
    | QuotaExceeded
    | RateLimited
    | Shed
    | EndpointNotSupported
    | ModelNotDeployed
    | Forwarded(user: string, model: string)

  /** The path wins over the "model" field of the body. */
  function ModelOf(r: Request): string {
    var name := ExtractModelName(r.path);
    if name != "" then name else if r.bodyModel.Some? && r.bodyModel.value != "" then r.bodyModel.value else "unknown"
  }

  predicate HasSuffix(s: string, t: string) { |t| <= |s| && s[|s| - |t|..] == t }

  /** Whom a request speaks for; nobody, "", without a key. */
  function UserOf(g: Gates, r: Request): Option<string> {
    if g.authenticate.Some? && r.apiKey != "" then (g.authenticate.value)(r.apiKey) else Some("")
  }

  /** What is answered before any quota is looked at, or the user who may go on. */
  function Entry(g: Gates, hasRouter: bool, r: Request): Result<string, Outcome> {
    var user := UserOf(g, r);
    if user.None? then Err(Unauthorized)
    else if r.isGet && hasRouter && r.path == "/v1/models" then Err(ListModels)
    else if r.isGet && hasRouter && r.path == "/api/v1/prometheus/targets" then Err(ListTargets)
    else if r.isGet && hasRouter && ExtractModelName(r.path) != "" && HasSuffix(r.path, "/metrics") then
      Err(ModelMetrics(ExtractModelName(r.path)))
    else if g.sourceAllowed.Some? && user.value != "" && !(g.sourceAllowed.value)(user.value, r.clientIP) then
      Err(SourceDenied)
    else if g.canAccess.Some? && user.value != "" && !(g.canAccess.value)(user.value, ModelOf(r)) then Err(AccessDenied)
    else Ok(user.value)
  }

  /** The last gate: the model is deployed and serves the path. */
  function Capability(router: Option<Registry>, r: Request): Option<Outcome> {
    var model := ExtractModelName(r.path);
    if router.None? || model == "" then None
    else if model !in router.value then Some(ModelNotDeployed)
    else if !IsPathSupported(router.value[model], StripModelPrefix(r.path, model)) then Some(EndpointNotSupported)
    else None
  }

  /** Joining a base path and a path puts exactly one slash between them, whether either or both have
      one there already. */
  lemma JoinedByOneSlash(a: string, b: string)
    ensures SingleJoiningSlash(a + "/", "/" + b) == a + "/" + b
    ensures !("/" <= b) ==> SingleJoiningSlash(a + "/", b) == a + "/" + b
    ensures (a == "" || a[|a| - 1] != '/') ==> SingleJoiningSlash(a, "/" + b) == a + "/" + b
    ensures (a == "" || a[|a| - 1] != '/') && !("/" <= b) ==> SingleJoiningSlash(a, b) == a + "/" + b
  {
    assert (a + "/")[|a + "/"| - 1] == '/' && ("/" + b)[1..] == b;
    assert a + "/" + b == a + ("/" + b);
  }

  /** A path that names no model goes to the default target, as does every path without a router: its
      scheme and host, its base path joined with the path, and both queries joined. */
  lemma UnroutedGoesToTarget(router: Option<Registry>, target: Url, path: string, query: string)
    requires router.None? || ExtractModelName(path) == ""
    ensures var sent := Directed(router, target, path, query);
            && sent.scheme == target.scheme && sent.host == target.host
            && sent.path == SingleJoiningSlash(target.path, path)
            && QueriesJoined(target.rawQuery, query, sent.rawQuery)
  {
  }

  /** `joined` is the two queries with an ampersand between them, or the one that is not empty. */
  predicate QueriesJoined(a: string, b: string, joined: string) {
    && (a != "" && b != "" ==> joined == a + "&" + b)
    && (a == "" ==> joined == b)
    && (b == "" ==> joined == a)
  }

  /** "/models/name/rest" goes to the backend of that name, or without one to the default target, as
      "/rest" below its base path. */
  lemma RoutedGoesToBackend(router: Registry, target: Url, name: string, rest: string, query: string)
    requires name != "" && '/' !in name
    ensures var sent := Directed(Some(router), target, "/models/" + name + "/" + rest, query);
            var to := if name in router then router[name].url else target;
            && sent.scheme == to.scheme && sent.host == to.host
            && sent.path == SingleJoiningSlash(to.path, "/" + rest) && QueriesJoined(to.rawQuery, query, sent.rawQuery)
  {
    PlainPathExtracts(name, rest);
    PlainPathStripped(name, rest);
  }

  /** The capability gate for "/models/name/rest": a name that is not registered is refused, and a
      registered one serves the model list, every path if no endpoints were discovered, and otherwise
      exactly the discovered ones. */
  lemma CapabilityOfPlainPath(router: Registry, r: Request, name: string, rest: string)
    requires name != "" && '/' !in name && r.path == "/models/" + name + "/" + rest
    ensures Capability(Some(router), r) ==
              if name !in router then Some(ModelNotDeployed)
              else if rest == "v1/models" || router[name].endpoints == [] then None
              else if "/" + rest in router[name].endpoints then None
              else Some(EndpointNotSupported)
    ensures Capability(None, r) == None
  {
    PlainPathExtracts(name, rest);
    PlainPathStripped(name, rest);
    assert "/" + rest == "/v1/models" <==> rest == "v1/models" by {
      assert ("/" + rest)[1..] == rest && "/v1/models"[1..] == "v1/models";
    }
  }

  /** A path that names no model passes the capability gate. */
  lemma UnroutedIsCapable(router: Option<Registry>, r: Request)
    requires ExtractModelName(r.path) == ""
    ensures Capability(router, r) == None
  {
  }

  /** The model asked for: the one the path names, or else the one the body names, or else "unknown". */
  lemma ModelAskedFor(r: Request, m: string)
    ensures ModelOf(r) == m <==>
              || (m != "" && ExtractModelName(r.path) == m)
              || (m != "" && ExtractModelName(r.path) == "" && r.bodyModel == Some(m))
              || (m == "unknown" && ExtractModelName(r.path) == "" && (r.bodyModel == None || r.bodyModel == Some("")))
  {
  }

  // ---- What each request is answered before the quotas --------------------------------

  /** The request speaks for `user`: for nobody without a key or a provider, and else for whom the
      provider names. */
  ghost predicate SpeaksFor(g: Gates, r: Request, user: string) {
    if g.authenticate.None? || r.apiKey == "" then user == "" else (g.authenticate.value)(r.apiKey) == Some(user)
  }

  /** The gateway answers the request itself. */
  ghost predicate AnsweredHere(hasRouter: bool, r: Request) {
    && r.isGet && hasRouter
    && (r.path == "/v1/models" || r.path == "/api/v1/prometheus/targets" || AsksForMetrics(r))
  }

  ghost predicate AsksForMetrics(r: Request) {
    ExtractModelName(r.path) != "" && exists before :: r.path == before + "/metrics"
  }

  ghost predicate FromAllowedSource(g: Gates, r: Request, user: string) {
    user != "" && g.sourceAllowed.Some? ==> (g.sourceAllowed.value)(user, r.clientIP)
  }

  ghost predicate MayUse(g: Gates, r: Request, user: string) {
    user != "" && g.canAccess.Some? ==> (g.canAccess.value)(user, ModelOf(r))
  }

  lemma SuffixIff(s: string, t: string)
    ensures HasSuffix(s, t) <==> exists before :: s == before + t
  {
    if HasSuffix(s, t) {
      assert s == s[..|s| - |t|] + t;
    }
  }

  /** A request enters for `user` exactly if it speaks for that user, is not answered by the gateway
      itself, comes from an allowed source and asks for a model the user may use. */
  lemma EntersIff(g: Gates, hasRouter: bool, r: Request, user: string)
    ensures Entry(g, hasRouter, r) == Ok(user) <==>
              && SpeaksFor(g, r, user) && !AnsweredHere(hasRouter, r)
              && FromAllowedSource(g, r, user) && MayUse(g, r, user)
  {
    SuffixIff(r.path, "/metrics");
  }

  /** And when it does not, what it is answered. */
  lemma AnsweredAtEntry(g: Gates, hasRouter: bool, r: Request)
    ensures Entry(g, hasRouter, r) == Err(Unauthorized) <==> forall user :: !SpeaksFor(g, r, user)
    ensures Entry(g, hasRouter, r) == Err(ListModels) <==>
              (exists user :: SpeaksFor(g, r, user)) && r.isGet && hasRouter && r.path == "/v1/models"
    ensures Entry(g, hasRouter, r) == Err(ListTargets) <==>
              (exists user :: SpeaksFor(g, r, user)) && r.isGet && hasRouter && r.path == "/api/v1/prometheus/targets"
    ensures forall m :: Entry(g, hasRouter, r) == Err(ModelMetrics(m)) <==>
              && (exists user :: SpeaksFor(g, r, user)) && r.isGet && hasRouter
              && AsksForMetrics(r) && m == ExtractModelName(r.path)
    ensures Entry(g, hasRouter, r) == Err(SourceDenied) <==>
              exists user :: SpeaksFor(g, r, user) && !AnsweredHere(hasRouter, r) && !FromAllowedSource(g, r, user)
    ensures Entry(g, hasRouter, r) == Err(AccessDenied) <==>
              exists user :: && SpeaksFor(g, r, user) && !AnsweredHere(hasRouter, r)
                             && FromAllowedSource(g, r, user) && !MayUse(g, r, user)
  {
    hide ExtractModelName, ModelOf, HasSuffix;
    var user := UserOf(g, r);
    assert user.Some? ==> SpeaksFor(g, r, user.value);
    assert forall u :: SpeaksFor(g, r, u) ==> user == Some(u);
    SuffixIff(r.path, "/metrics");
    ListsAreNotMetrics();
  }

  lemma ListsAreNotMetrics()
    ensures !HasSuffix("/v1/models", "/metrics") && !HasSuffix("/api/v1/prometheus/targets", "/metrics")
  {
    assert "/v1/models"[2..][0] == '1' && "/api/v1/prometheus/targets"[18..][1] == 't';
  }

  lemma NoBasePath(parts: seq<string>)
    requires parts != []
    ensures SingleJoiningSlash("", Path(parts)) == Path(parts)
  {
    assert Path(parts)[0] == '/';
  }

  /** Without a base path the director sends the path without its two routing segments. */
  lemma SentWithoutRoutingSegments(router: Registry, target: Url, path: string, query: string)
    requires "/" <= path && ExtractModelName(path) != ""
    requires (if ExtractModelName(path) in router then router[ExtractModelName(path)].url else target).path == ""
    ensures var sent := Directed(Some(router), target, path, query);
            var parts := Segments(path);
            var i := RouteFrom(parts, 0);
            && i >= 0 && i + 2 < |parts|
            && sent.path == StripModelPrefix(path, ExtractModelName(path)) == Path(parts[..i] + parts[i + 2..])
            && Segments(sent.path) == parts[..i] + parts[i + 2..]
            && sent.host ==
               (if ExtractModelName(path) in router then router[ExtractModelName(path)].url else target).host
  {
    StrippingRemovesTheRoutedSegments(path);
    var parts := Segments(path);
    var i := RouteFrom(parts, 0);
    NoBasePath(parts[..i] + parts[i + 2..]);
  }

  /** A routed request that enters and passes the capability gate is sent, if the registry has not
      changed by then, to the backend of the very model that access control was asked about, under
      the path the gate checked: the original without its two routing segments. */
  lemma ForwardedAsChecked(g: Gates, r: Request, registry: Registry, target: Url, query: string)
    requires "/" <= r.path && ExtractModelName(r.path) != "" && WellFormed(registry)
    requires Entry(g, true, r).Ok? && Capability(Some(registry), r).None?
    ensures var model, user := ExtractModelName(r.path), Entry(g, true, r).value;
            var sent := Directed(Some(registry), target, r.path, query);
            var parts := Segments(r.path);
            var i := RouteFrom(parts, 0);
            && ModelOf(r) == model && model in registry
            && (user != "" && g.canAccess.Some? ==> (g.canAccess.value)(user, model))
            && sent.host == registry[model].url.host
            && IsPathSupported(registry[model], sent.path)
            && i >= 0 && i + 2 < |parts| && Segments(sent.path) == parts[..i] + parts[i + 2..]
  {
    SentWithoutRoutingSegments(registry, target, r.path, query);
  }

  /** If the registry lost the model between the gate and the director, the request goes to the
      default backend, still without the routing segments. */
  lemma LostModelStillStripped(registry: Registry, target: Url, path: string, query: string)
    requires "/" <= path && ExtractModelName(path) != "" && ExtractModelName(path) !in registry && target.path == ""
    ensures var parts := Segments(path);
            var i := RouteFrom(parts, 0);
            var sent := Directed(Some(registry), target, path, query);
            i >= 0 && i + 2 < |parts| && sent.host == target.host && Segments(sent.path) == parts[..i] + parts[i + 2..]
  {
    SentWithoutRoutingSegments(registry, target, path, query);
  }
}
