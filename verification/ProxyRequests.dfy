/** What both proxies do with a request as it is typed: which server they ask, which port, and what
    they answer and store. Host, port and path are the parts of the URI; behind the first line of a
    request may stand anything. */
module ProxyRequests {
  import opened CStrings
  import opened HostList
  import opened Url
  import opened UncachedProxy
  import opened CachingProxy

  // The first line of a request, taken apart, and the text behind it.
  datatype Typed = Typed(verb: string, form: Form, host: string, port: Port, path: string, version: string,
                         rest: string)

  function TextOf(r: Typed): string {
    Line([r.verb, Render(r.form, r.host, r.port, r.path), r.version]) + r.rest
  }

  predicate IsTyped(r: Typed) {
    IsHost(r.host) && IsPath(r.path) && IsWord(r.verb) && IsWord(Render(r.form, r.host, r.port, r.path)) &&
    IsWord(r.version) && (r.rest == "" || IsSeparator(WhiteSpace, r.rest[0]))
  }

  /** The port that was typed, or 80. */
  function PortTyped(r: Typed): int {
    if r.port.Explicit? then r.port.number else 80
  }

  lemma ReadsAs(r: Typed)
    requires IsTyped(r)
    ensures var request := TextOf(r);
            MethodOf(request) == r.verb && UriOf(request) == Render(r.form, r.host, r.port, r.path) &&
            VersionOf(request) == r.version && RequestHost(request) == r.host && RequestPort(request) == PortTyped(r)
  {
    var words := [r.verb, Render(r.form, r.host, r.port, r.path), r.version];
    assert AreWords(words);
    TokensOfLineThen(WhiteSpace, words, r.rest);
    UrlRoundTrip(r.form, r.host, r.port, r.path);
    hide Tokens, Line, Render, IsHost, IsPath, IsWord, Target;
    var all := words + Tokens(WhiteSpace, r.rest);
    assert all[0] == r.verb && all[1] == words[1] && all[2] == r.version;
  }

  /** The proxy without a cache: a GET goes to the typed port of the address that the host resolves to;
      anything else, and a host that does not resolve, is answered with an error. */
  lemma UncachedAnswers(r: Typed, w: World, now: Time)
    requires IsTyped(r)
    ensures var reply := Uncached(TextOf(r), w, now);
            (!("GET" <= r.verb) ==> reply == ServerError) &&
            ("GET" <= r.verb && w.resolve(r.host) == None ==> reply == ServerError) &&
            forall ip :: "GET" <= r.verb && w.resolve(r.host) == Some(ip) ==>
              reply == Body(w.origin(ip, if r.port.Explicit? then r.port.number else 80, TextOf(r), now))
  {
    ReadsAs(r);
    hide TextOf, IsTyped, Target, Token;
  }

  // ----- the caching proxy -----

  /** Whether the proxy goes on with the request. */
  predicate Taken(r: Typed) {
    "GET" <= r.verb && !("undefined" <= r.version)
  }

  /** The first node with this host name or address is the i-th. */
  predicate HostAt(entries: seq<Entry>, key: string, i: nat) {
    i < |entries| && (entries[i].hostname == key || entries[i].ip == key) &&
    forall j | 0 <= j < i :: entries[j].hostname != key && entries[j].ip != key
  }

  predicate NoHost(entries: seq<Entry>, key: string) {
    forall e | e in entries :: e.hostname != key && e.ip != key
  }

  /** The name of the file in which the answer to a URI is kept. */
  predicate IsFileFor(name: string, uri: string) {
    |name| == |uri| && forall i | 0 <= i < |uri| :: name[i] == if uri[i] in ['.', ':', '/'] then '_' else uri[i]
  }

  predicate FileAt(entries: seq<Entry>, name: string, j: nat) {
    j < |entries| && entries[j].filename == name && forall i | 0 <= i < j :: entries[i].filename != name
  }

  predicate NoFile(entries: seq<Entry>, name: string) {
    forall e | e in entries :: e.filename != name
  }

  lemma Searches(entries: seq<Entry>, key: string, name: string)
    ensures NoHost(entries, key) <==> FirstHost(entries, key) == |entries|
    ensures forall i: nat :: HostAt(entries, key, i) <==> i == FirstHost(entries, key) < |entries|
    ensures NoFile(entries, name) <==> FirstFile(entries, name) == |entries|
    ensures forall j: nat :: FileAt(entries, name, j) <==> j == FirstFile(entries, name) < |entries|
  {
    var i, j := FirstHost(entries, key), FirstFile(entries, name);
    assert i < |entries| ==> entries[i] in entries;
    assert j < |entries| ==> entries[j] in entries;
  }

  lemma FileNameIs(name: string, uri: string)
    ensures IsFileFor(name, uri) <==> name == Mangle(uri)
  {
  }

  lemma TakenIsAccepted(r: Typed)
    requires IsTyped(r)
    ensures Accepted(TextOf(r)) <==> Taken(r)
  {
    ReadsAs(r);
    hide TextOf, IsTyped, Token;
  }

  /** Not a GET, or a version that is not known: an error, and nothing else happens. */
  lemma NotTaken(r: Typed, cache: Cache, timeout: int, w: World, moment: Moment)
    requires IsTyped(r) && !Taken(r)
    ensures Serve(cache, timeout, TextOf(r), w, moment) == Served(cache, ServerError, None)
  {
    TakenIsAccepted(r);
    hide TextOf, IsTyped, Accepted, Taken;
  }

  /** A connection to this address and the typed port; the answer is kept under the name, and sent. */
  predicate FetchedFrom(served: Served, before: Cache, entries: seq<Entry>, r: Typed, ip: string, name: string,
                        w: World,
                        moment: Moment) {
    var port := if r.port.Explicit? then r.port.number else 80;
    var body := w.origin(ip, port, TextOf(r), moment.fetched);
    served.connection == Some(Connection(ip, port)) && served.reply == Body(body) &&
    served.cache.entries == entries && served.cache.files == before.files[name := body]
  }

  predicate NewFileServed(served: Served, cache: Cache, r: Typed, ip: string, name: string, w: World, moment: Moment) {
    if moment.canOpen then
      FetchedFrom(served, cache, cache.entries + [Entry(r.host, ip, name, moment.stamped, false)], r, ip, name, w,
                  moment)
    else served == Served(cache, ServerError, None)
  }

  lemma NewFile(r: Typed, name: string, ip: string, cache: Cache, w: World, moment: Moment)
    requires IsTyped(r) && IsFileFor(name, Render(r.form, r.host, r.port, r.path))
    ensures NewFileServed(ServeNewFile(cache, ip, TextOf(r), w, moment), cache, r, ip, name, w, moment)
  {
    ReadsAs(r);
    FileNameIs(name, Render(r.form, r.host, r.port, r.path));
    hide TextOf, IsTyped, Mangle, Render, IsFileFor, UriOf, RequestHost, RequestPort;
  }

  /** A host that is not in the list and does not resolve. */
  lemma UnresolvedHost(r: Typed, cache: Cache, timeout: int, w: World, moment: Moment)
    requires IsTyped(r) && Taken(r) && NoHost(cache.entries, r.host) && w.resolve(r.host) == None
    ensures Serve(cache, timeout, TextOf(r), w, moment) == Served(cache, NotFound, None)
  {
    ReadsAs(r);
    TakenIsAccepted(r);
    Searches(cache.entries, r.host, "");
    hide TextOf, IsTyped, Accepted, Taken, RequestHost, FirstHost, NoHost;
  }

  /** A host that is not in the list: refused when its address is blacklisted, and else fetched and
      given a node, if the file can be written. */
  lemma UnknownHost(r: Typed, name: string, ip: string, cache: Cache, timeout: int, w: World, moment: Moment)
    requires IsTyped(r) && Taken(r) && NoHost(cache.entries, r.host) && w.resolve(r.host) == Some(ip)
    requires IsFileFor(name, Render(r.form, r.host, r.port, r.path))
    ensures var served := Serve(cache, timeout, TextOf(r), w, moment);
            if exists k: nat :: HostAt(cache.entries, ip, k) && cache.entries[k].blacklisted
            then served == Served(cache, Forbidden, None)
            else NewFileServed(served, cache, r, ip, name, w, moment)
  {
    ReadsAs(r);
    TakenIsAccepted(r);
    Searches(cache.entries, r.host, name);
    Searches(cache.entries, ip, name);
    NewFile(r, name, ip, cache, w, moment);
    hide TextOf, IsTyped, Accepted, Taken, RequestHost, FirstHost, FirstFile, NoHost, HostAt, NewFileServed,
         ServeNewFile;
  }

  /** A host that is in the list and blacklisted. */
  lemma ForbiddenHost(r: Typed, i: nat, cache: Cache, timeout: int, w: World, moment: Moment)
    requires IsTyped(r) && Taken(r) && HostAt(cache.entries, r.host, i) && cache.entries[i].blacklisted
    ensures Serve(cache, timeout, TextOf(r), w, moment) == Served(cache, Forbidden, None)
  {
    ReadsAs(r);
    TakenIsAccepted(r);
    Searches(cache.entries, r.host, "");
    hide TextOf, IsTyped, Accepted, Taken, RequestHost, FirstHost;
  }

  /** What is done with a file that has a node: sent as it is while it is fresh, and else fetched again
      from the address of its node, of which only the stamp changes. */
  predicate KeptFileServed(served: Served, cache: Cache, j: nat, timeout: int, r: Typed, name: string, w: World,
                           moment: Moment)
    requires j < |cache.entries|
  {
    var kept := cache.entries[j];
    if !moment.canOpen then served == Served(cache, ServerError, None)
    else if moment.checked.sec - kept.stamp.sec <= timeout then
      served == Served(cache, if name in cache.files then Body(cache.files[name]) else ServerError, None)
    else
      FetchedFrom(served, cache, cache.entries[j := kept.(stamp := moment.stamped)], r, kept.ip, name, w, moment)
  }

  lemma KeptFile(r: Typed, name: string, j: nat, cache: Cache, timeout: int, w: World, moment: Moment)
    requires IsTyped(r) && j < |cache.entries| && cache.entries[j].filename == name
    ensures KeptFileServed(ServeKnownFile(cache, j, timeout, TextOf(r), w, moment), cache, j, timeout, r, name, w,
                           moment)
  {
    ReadsAs(r);
    hide TextOf, IsTyped, RequestPort;
  }

  /** A host that is in the list and not blacklisted: the file decides. A file without a node is fetched
      from the host's address and gets one. */
  lemma KnownHost(r: Typed, name: string, i: nat, cache: Cache, timeout: int, w: World, moment: Moment)
    requires IsTyped(r) && Taken(r) && HostAt(cache.entries, r.host, i) && !cache.entries[i].blacklisted
    requires IsFileFor(name, Render(r.form, r.host, r.port, r.path))
    ensures var served := Serve(cache, timeout, TextOf(r), w, moment);
            (NoFile(cache.entries, name) ==> NewFileServed(served, cache, r, cache.entries[i].ip, name, w, moment)) &&
            forall j: nat | FileAt(cache.entries, name, j) ::
              KeptFileServed(served, cache, j, timeout, r, name, w, moment)
  {
    ReadsAs(r);
    TakenIsAccepted(r);
    FileNameIs(name, Render(r.form, r.host, r.port, r.path));
    Searches(cache.entries, r.host, name);
    var j := FirstFile(cache.entries, name);
    if j < |cache.entries| {
      KeptFile(r, name, j, cache, timeout, w, moment);
    } else {
      NewFile(r, name, cache.entries[i].ip, cache, w, moment);
    }
    hide TextOf, IsTyped, Accepted, Taken, Mangle, Render, IsFileFor, UriOf, RequestHost, FirstHost, FirstFile, NoFile,
         FileAt, HostAt, NewFileServed, KeptFileServed, ServeNewFile, ServeKnownFile;
  }
}
