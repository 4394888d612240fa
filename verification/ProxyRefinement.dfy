/** The caching proxy against its uncached twin, over whole sequential runs. */
module ProxyRefinement {
  import opened CStrings
  import opened HostList
  import opened Url
  import opened UncachedProxy
  import opened CachingProxy

  datatype Event = Event(request: string, moment: Moment)

  // What a proxy is started with.
  datatype Config = Config(names: seq<string>, filename: string, started: Time, timeout: int)

  /** The resolver is a fixed function, and an address resolves to itself. */
  ghost predicate GoodWorld(w: World) {
    forall host, ip :: w.resolve(host) == Some(ip) ==> w.resolve(ip) == Some(ip) && NUL !in ip
  }

  /** Strings have no NUL, and the name of the blacklist file could not be a cache file name. */
  predicate GoodConfig(config: Config) {
    NUL !in config.filename && HasSpecial(config.filename) && forall n | n in config.names :: NUL !in n
  }

  function Initial(config: Config): seq<Entry> {
    InitialEntries(config.names, config.filename, config.started)
  }

  // ----- runs -----

  function StepServe(cache: Cache, config: Config, event: Event, w: World): Served {
    Serve(cache, config.timeout, event.request, w, event.moment)
  }

  function After(cache: Cache, config: Config, events: seq<Event>, w: World): Cache
    decreases |events|
  {
    if events == [] then cache
    else After(StepServe(cache, config, events[0], w).cache, config, events[1..], w)
  }

  /** The events that fetched something from an origin. */
  function Fetches(cache: Cache, config: Config, events: seq<Event>, w: World): seq<Event>
    decreases |events|
  {
    if events == [] then []
    else
      var served := StepServe(cache, config, events[0], w);
      (if served.connection.Some? then [events[0]] else []) + Fetches(served.cache, config, events[1..], w)
  }

  // ----- characters -----

  lemma {:induction false} TokenChars(s: string)
    ensures forall t, c | t in Tokens(WhiteSpace, s) && c in t :: c in s
    decreases |s|
  {
    if s != "" {
      if IsSeparator(WhiteSpace, s[0]) {
        TokenChars(s[1..]);
      } else {
        var n := WordLength(WhiteSpace, s);
        TokenChars(s[n..]);
        assert s == s[..n] + s[n..];
      }
    }
  }

  lemma StrippedChars(s: string, prefix: string)
    ensures forall c | c in StripPrefix(s, prefix) :: c in s
  {
  }

  lemma TargetChars(uri: string)
    ensures forall c | c in Target(uri).0 :: c in uri
  {
    var a := StripPrefix(uri, "/");
    var b := StripPrefix(a, "http://");
    StrippedChars(uri, "/");
    StrippedChars(a, "http://");
    StrippedChars(b, "https://");
  }

  lemma UriHasNoNul(request: string)
    requires NUL !in request
    ensures NUL !in UriOf(request)
  {
    TokenChars(request);
    hide Tokens;
    var words := Tokens(WhiteSpace, request);
    if 1 < |words| {
      assert words[1] in words;
    }
  }

  lemma MangleKeepsNul(uri: string)
    requires NUL !in uri
    ensures NUL !in Mangle(uri)
  {
    assert forall i | 0 <= i < |uri| :: Mangle(uri)[i] == MangleChar(uri[i]) && uri[i] in uri;
  }

  lemma RequestHasNoNul(request: string)
    requires NUL !in request
    ensures NUL !in RequestHost(request) && NUL !in Mangle(UriOf(request))
  {
    UriHasNoNul(request);
    hide UriOf, Mangle, Target;
    TargetChars(UriOf(request));
    MangleKeepsNul(UriOf(request));
  }

  // ----- the invariant -----

  /** The fetch that a node's file comes from. */
  predicate ComesFrom(e: Entry, files: map<string, string>, event: Event, w: World) {
    Accepted(event.request) && Mangle(UriOf(event.request)) == e.filename &&
    RequestHost(event.request) == e.hostname && event.moment.stamped == e.stamp &&
    e.filename in files &&
    files[e.filename] == w.origin(e.ip, RequestPort(event.request), event.request, event.moment.fetched)
  }

  predicate NodeSound(e: Entry, files: map<string, string>, config: Config, log: seq<Event>, w: World) {
    !e.blacklisted && e.hostname !in config.names && e.ip !in config.names &&
    w.resolve(e.hostname) == Some(e.ip) && exists event | event in log :: ComesFrom(e, files, event, w)
  }

  predicate BlacklistFirst(entries: seq<Entry>, config: Config) {
    |Initial(config)| <= |entries| && entries[..|Initial(config)|] == Initial(config)
  }

  /** The blacklist is a fixed prefix; every later node holds what its origin answered when the
      file was fetched; no two of them share a file. */
  predicate Sound(cache: Cache, config: Config, log: seq<Event>, w: World) {
    var n := |Initial(config)|;
    BlacklistFirst(cache.entries, config) &&
    (forall i | n <= i < |cache.entries| :: NodeSound(cache.entries[i], cache.files, config, log, w)) &&
    forall i, j | n <= i < j < |cache.entries| :: cache.entries[i].filename != cache.entries[j].filename
  }

  lemma InitialShape(config: Config, i: nat)
    requires i < |Initial(config)|
    ensures |Initial(config)| == 1 + |config.names|
    ensures Initial(config)[i] ==
            if i == 0 then Entry(UNSET, UNSET, UNSET, Time(0, 0), false)
            else Entry(config.names[i - 1], config.names[i - 1], config.filename, config.started, true)
  {
  }

  lemma PrefixShape(entries: seq<Entry>, config: Config, i: nat)
    requires BlacklistFirst(entries, config) && i < |Initial(config)|
    ensures |Initial(config)| == 1 + |config.names|
    ensures entries[i] ==
            if i == 0 then Entry(UNSET, UNSET, UNSET, Time(0, 0), false)
            else Entry(config.names[i - 1], config.names[i - 1], config.filename, config.started, true)
  {
    InitialShape(config, i);
    assert entries[i] == entries[..|Initial(config)|][i];
  }

  /** A search by host: a blacklisted name or address always meets its blacklist node first, and
      anything else is found only behind the blacklist, with its true address. */
  lemma HostSearch(cache: Cache, config: Config, log: seq<Event>, w: World, key: string)
    requires Sound(cache, config, log, w) && NUL !in key && GoodWorld(w)
    ensures var i := FirstHost(cache.entries, key);
            (key in config.names ==> i < |cache.entries| && cache.entries[i].blacklisted) &&
            (key !in config.names && i < |cache.entries| ==>
               |Initial(config)| <= i && !cache.entries[i].blacklisted &&
               w.resolve(key) == Some(cache.entries[i].ip) && cache.entries[i].ip !in config.names)
  {
    var i, n := FirstHost(cache.entries, key), |Initial(config)|;
    var entries := cache.entries;
    PrefixShape(entries, config, 0);
    if key in config.names {
      var j :| 0 <= j < |config.names| && config.names[j] == key;
      PrefixShape(entries, config, j + 1);
      PrefixShape(entries, config, i);
    } else if i < |entries| {
      if i < n {
        PrefixShape(entries, config, i);
      } else {
        assert NodeSound(entries[i], cache.files, config, log, w);
      }
    }
  }

  /** A search by file never returns a blacklist node. */
  lemma FileSearch(cache: Cache, config: Config, log: seq<Event>, w: World, uri: string)
    requires Sound(cache, config, log, w) && NUL !in Mangle(uri) && HasSpecial(config.filename)
    ensures var j := FirstFile(cache.entries, Mangle(uri));
            j < |cache.entries| ==> |Initial(config)| <= j
  {
    var j := FirstFile(cache.entries, Mangle(uri));
    MangledHasNoSpecial(uri);
    if j < |Initial(config)| {
      PrefixShape(cache.entries, config, j);
    }
  }

  // ----- one request -----

  /** Requests so far with the same file name have the same host. */
  predicate NoCollision(log: seq<Event>, request: string) {
    forall event | event in log :: Mangle(UriOf(event.request)) == Mangle(UriOf(request)) ==>
                                   RequestHost(event.request) == RequestHost(request)
  }

  /** What the reply's kind depends on: not on what is cached. */
  function Decision(request: string, config: Config, w: World, canOpen: bool): Reply {
    if !Accepted(request) then ServerError
    else if RequestHost(request) in config.names then Forbidden
    else match w.resolve(RequestHost(request)) {
      case None => NotFound
      case Some(ip) => if ip in config.names then Forbidden else if canOpen then Body("") else ServerError
    }
  }

  predicate SameKind(a: Reply, b: Reply) {
    a.Body? == b.Body? && (!a.Body? ==> a == b)
  }

  /** A body is explained by a fetch for the same file and host: it is what the uncached proxy
      answered to that request then, and the copy was stamped within the timeout. */
  predicate Explains(event: Event, request: string, body: string, w: World) {
    Mangle(UriOf(event.request)) == Mangle(UriOf(request)) && RequestHost(event.request) == RequestHost(request) &&
    Uncached(event.request, w, event.moment.fetched) == Body(body)
  }

  function Logged(log: seq<Event>, event: Event, served: Served): seq<Event> {
    log + (if served.connection.Some? then [event] else [])
  }

  ghost predicate ServedWell(cache: Cache, config: Config, log: seq<Event>, w: World, event: Event) {
    var served := StepServe(cache, config, event, w);
    Sound(served.cache, config, Logged(log, event, served), w) &&
    SameKind(served.reply, Decision(event.request, config, w, event.moment.canOpen)) &&
    (served.reply.Body? ==>
       exists f | f in Logged(log, event, served) ::
         Explains(f, event.request, served.reply.data, w) &&
         (f == event || Fresh(f.moment.stamped, event.moment.checked, config.timeout))) &&
    (served.connection.Some? ==> served.connection.value.ip !in config.names)
  }

  lemma NodeKept(e: Entry, files: map<string, string>, files': map<string, string>, config: Config,
                 log: seq<Event>, more: seq<Event>, w: World)
    requires NodeSound(e, files, config, log, w)
    requires e.filename in files' && (e.filename in files ==> files'[e.filename] == files[e.filename])
    ensures NodeSound(e, files', config, log + more, w)
  {
    var event :| event in log && ComesFrom(e, files, event, w);
    assert event in log + more && ComesFrom(e, files', event, w);
  }

  /** A fetch that stores into a file and puts its node at position i, a stale one's or the end. */
  lemma FetchKeeps(cache: Cache, config: Config, log: seq<Event>, w: World, event: Event, i: nat, node: Entry,
                   after: Cache)
    requires Sound(cache, config, log, w) && |Initial(config)| <= i <= |cache.entries|
    requires after.entries == if i < |cache.entries| then cache.entries[i := node] else cache.entries + [node]
    requires var body := w.origin(node.ip, RequestPort(event.request), event.request, event.moment.fetched);
             after.files == cache.files[node.filename := body]
    requires forall j | |Initial(config)| <= j < |cache.entries| && j != i :: cache.entries[j].filename != node.filename
    requires node.filename == Mangle(UriOf(event.request)) && node.hostname == RequestHost(event.request)
    requires node.stamp == event.moment.stamped && Accepted(event.request) && !node.blacklisted
    requires node.hostname !in config.names && node.ip !in config.names && w.resolve(node.hostname) == Some(node.ip)
    ensures Sound(after, config, log + [event], w)
  {
    hide Mangle, UriOf, RequestHost, RequestPort, InitialEntries, Accepted;
    var n := |Initial(config)|;
    assert after.entries[..n] == cache.entries[..n];
    forall j | n <= j < |after.entries|
      ensures NodeSound(after.entries[j], after.files, config, log + [event], w)
    {
      if j == i {
        assert event in log + [event] && ComesFrom(node, after.files, event, w);
      } else {
        var e := cache.entries[j];
        NodeHasFile(e, cache.files, config, log, w);
        NodeKept(e, cache.files, after.files, config, log, [event], w);
      }
    }
  }

  lemma NodeHasFile(e: Entry, files: map<string, string>, config: Config, log: seq<Event>, w: World)
    requires NodeSound(e, files, config, log, w)
    ensures e.filename in files
  {
  }

  // ----- the branches -----

  /** A first copy: the file name is new, so it gets a node of its own. */
  lemma NewFileWell(cache: Cache, config: Config, log: seq<Event>, w: World, event: Event, ip: string)
    requires Sound(cache, config, log, w) && Accepted(event.request)
    requires RequestHost(event.request) !in config.names && ip !in config.names
    requires w.resolve(RequestHost(event.request)) == Some(ip)
    requires forall j | |Initial(config)| <= j < |cache.entries| ::
             cache.entries[j].filename != Mangle(UriOf(event.request))
    requires StepServe(cache, config, event, w) == ServeNewFile(cache, ip, event.request, w, event.moment)
    ensures ServedWell(cache, config, log, w, event)
  {
    hide Mangle, UriOf, RequestPort, InitialEntries, Sound, Serve, RequestHost, Accepted;
    var served := StepServe(cache, config, event, w);
    if event.moment.canOpen {
      var node := Entry(RequestHost(event.request), ip, Mangle(UriOf(event.request)), event.moment.stamped, false);
      InitialFits(cache, config, log, w);
      FetchKeeps(cache, config, log, w, event, |cache.entries|, node, served.cache);
      AcceptedIsGet(event.request);
      assert event in Logged(log, event, served) && Explains(event, event.request, served.reply.data, w);
    } else {
      assert Logged(log, event, served) == log;
    }
  }

  lemma AcceptedIsGet(request: string)
    requires Accepted(request)
    ensures IsGet(request)
  {
  }

  lemma InitialFits(cache: Cache, config: Config, log: seq<Event>, w: World)
    requires Sound(cache, config, log, w)
    ensures |Initial(config)| <= |cache.entries|
  {
  }

  /** The node that holds the requested file holds it for the requested host. */
  lemma NodeOfRequest(cache: Cache, config: Config, log: seq<Event>, w: World, request: string, j: nat)
    returns (f: Event)
    requires Sound(cache, config, log, w) && |Initial(config)| <= j < |cache.entries|
    requires cache.entries[j].filename == Mangle(UriOf(request)) && NoCollision(log, request)
    ensures f in log && ComesFrom(cache.entries[j], cache.files, f, w)
    ensures var e := cache.entries[j];
            e.hostname == RequestHost(request) && e.hostname !in config.names && e.ip !in config.names &&
                !e.blacklisted &&
            w.resolve(RequestHost(request)) == Some(e.ip) && Explains(f, request, cache.files[e.filename], w) &&
            f.moment.stamped == e.stamp
  {
    hide Mangle, UriOf, RequestPort, InitialEntries, RequestHost, Accepted;
    assert NodeSound(cache.entries[j], cache.files, config, log, w);
    f :| f in log && ComesFrom(cache.entries[j], cache.files, f, w);
    AcceptedIsGet(f.request);
  }

  /** The requested file is cached: the copy, or a refreshed copy. */
  lemma KnownFileWell(cache: Cache, config: Config, log: seq<Event>, w: World, event: Event, j: nat)
    requires Sound(cache, config, log, w) && Accepted(event.request) && NoCollision(log, event.request)
    requires |Initial(config)| <= j < |cache.entries|
    requires cache.entries[j].filename == Mangle(UriOf(event.request))
    requires StepServe(cache, config, event, w)
             == ServeKnownFile(cache, j, config.timeout, event.request, w, event.moment)
    ensures ServedWell(cache, config, log, w, event)
  {
    hide Mangle, UriOf, RequestPort, InitialEntries, Serve, RequestHost, Accepted, NodeSound, BlacklistFirst,
        NoCollision, Fresh;
    var served, e := StepServe(cache, config, event, w), cache.entries[j];
    var f := NodeOfRequest(cache, config, log, w, event.request, j);
    if Fresh(e.stamp, event.moment.checked, config.timeout) || !event.moment.canOpen {
      assert Logged(log, event, served) == log;
    } else {
      FetchKeeps(cache, config, log, w, event, j, e.(stamp := event.moment.stamped), served.cache);
      AcceptedIsGet(event.request);
      assert event in Logged(log, event, served) && Explains(event, event.request, served.reply.data, w);
    }
  }

  /** Every request keeps the invariant, gets a reply of the kind that the request, the blacklist
      and the resolver determine, and a body explained by a fetch. */
  lemma ServeWell(cache: Cache, config: Config, log: seq<Event>, w: World, event: Event)
    requires Sound(cache, config, log, w) && GoodWorld(w) && GoodConfig(config)
    requires NUL !in event.request && NoCollision(log, event.request)
    ensures ServedWell(cache, config, log, w, event)
  {
    hide Sound, Mangle, UriOf, RequestPort, RequestHost, InitialEntries, Accepted, ServeNewFile, ServeKnownFile,
        FirstHost, FirstFile;
    var request := event.request;
    var served := StepServe(cache, config, event, w);
    RequestHasNoNul(request);
    if !Accepted(request) {
      Unchanged(cache, config, log, w, event);
    } else {
      var host := RequestHost(request);
      var i := FirstHost(cache.entries, host);
      HostSearch(cache, config, log, w, host);
      FileSearch(cache, config, log, w, UriOf(request));
      if host in config.names {
        Unchanged(cache, config, log, w, event);
      } else if i < |cache.entries| {
        var j := FirstFile(cache.entries, Mangle(UriOf(request)));
        if j < |cache.entries| {
          KnownFileWell(cache, config, log, w, event, j);
        } else {
          NewFileWell(cache, config, log, w, event, cache.entries[i].ip);
        }
      } else if w.resolve(host).None? {
        Unchanged(cache, config, log, w, event);
      } else {
        UnknownHostWell(cache, config, log, w, event, w.resolve(host).value);
      }
    }
  }

  /** A request that only gets an error or a refusal. */
  lemma Unchanged(cache: Cache, config: Config, log: seq<Event>, w: World, event: Event)
    requires Sound(cache, config, log, w)
    requires var served := StepServe(cache, config, event, w);
             served.cache == cache && !served.reply.Body? && served.connection.None? &&
             served.reply == Decision(event.request, config, w, event.moment.canOpen)
    ensures ServedWell(cache, config, log, w, event)
  {
    hide Sound, Serve, Decision;
    assert Logged(log, event, StepServe(cache, config, event, w)) == log;
  }

  /** A host that is not in the list: no node can have its file. */
  lemma UnknownHostWell(cache: Cache, config: Config, log: seq<Event>, w: World, event: Event, ip: string)
    requires Sound(cache, config, log, w) && GoodWorld(w) && GoodConfig(config)
    requires NUL !in event.request && NoCollision(log, event.request) && Accepted(event.request)
    requires RequestHost(event.request) !in config.names && w.resolve(RequestHost(event.request)) == Some(ip)
    requires FirstHost(cache.entries, RequestHost(event.request)) == |cache.entries|
    ensures ServedWell(cache, config, log, w, event)
  {
    hide Sound, Mangle, UriOf, RequestPort, RequestHost, InitialEntries, Accepted, ServeNewFile, FirstHost, FirstFile;
    HostSearch(cache, config, log, w, ip);
    if ip in config.names {
      Unchanged(cache, config, log, w, event);
    } else {
      forall j | |Initial(config)| <= j < |cache.entries|
        ensures cache.entries[j].filename != Mangle(UriOf(event.request))
      {
        if cache.entries[j].filename == Mangle(UriOf(event.request)) {
          var f := NodeOfRequest(cache, config, log, w, event.request, j);
        }
      }
      NewFileWell(cache, config, log, w, event, ip);
    }
  }

  // ----- whole runs -----

  predicate OneHostPerName(events: seq<Event>) {
    forall a, b | a in events && b in events ::
      Mangle(UriOf(a.request)) == Mangle(UriOf(b.request)) ==> RequestHost(a.request) == RequestHost(b.request)
  }

  predicate NoNuls(events: seq<Event>) {
    forall e | e in events :: NUL !in e.request
  }

  lemma {:induction false} RunSound(cache: Cache, config: Config, log: seq<Event>, events: seq<Event>, w: World)
    requires Sound(cache, config, log, w) && GoodWorld(w) && GoodConfig(config)
    requires OneHostPerName(log + events) && NoNuls(events)
    ensures Sound(After(cache, config, events, w), config, log + Fetches(cache, config, events, w), w)
    ensures forall e | e in Fetches(cache, config, events, w) :: e in events
    decreases |events|
  {
    hide Sound, StepServe, GoodWorld, GoodConfig, OneHostPerName, NoCollision, Decision, Explains;
    if events == [] {
      assert log + Fetches(cache, config, events, w) == log;
    } else {
      var event, later := events[0], events[1..];
      assert events == [event] + later && event in log + events;
      HostsAgree(log, events, event);
      ServeWell(cache, config, log, w, event);
      var served := StepServe(cache, config, event, w);
      var log' := Logged(log, event, served);
      OneHostKept(log, events, event, later, served);
      assert Sound(served.cache, config, log', w);
      hide ServedWell;
      RunSound(served.cache, config, log', later, w);
      LoggedThen(log, event, served, Fetches(served.cache, config, later, w));
    }
  }

  lemma LoggedThen(log: seq<Event>, event: Event, served: Served, later: seq<Event>)
    ensures Logged(log, event, served) + later == log + ((if served.connection.Some? then [event] else []) + later)
  {
  }

  lemma HostsAgree(log: seq<Event>, events: seq<Event>, event: Event)
    requires OneHostPerName(log + events) && event in events
    ensures NoCollision(log, event.request)
  {
    hide Mangle, RequestHost;
    forall e | e in log
      ensures Mangle(UriOf(e.request)) == Mangle(UriOf(event.request)) ==>
              RequestHost(e.request) == RequestHost(event.request)
    {
      assert e in log + events && event in log + events;
    }
  }

  lemma OneHostKept(log: seq<Event>, events: seq<Event>, event: Event, later: seq<Event>, served: Served)
    requires OneHostPerName(log + events) && events == [event] + later
    ensures OneHostPerName(Logged(log, event, served) + later)
  {
    hide Mangle, RequestHost;
    assert forall e | e in Logged(log, event, served) + later :: e in log + events;
  }

  lemma InitiallySound(config: Config, disk: map<string, string>, w: World)
    ensures Sound(Cache(Initial(config), disk), config, [], w)
  {
    assert Initial(config)[..|Initial(config)|] == Initial(config);
  }

  /** The refinement. In every sequential run in which equal file names mean equal hosts, every
      request is answered as the uncached proxy with a blacklist would: the kind of the reply
      does not depend on what is cached; no connection goes to a blacklisted address; and every
      body is what the uncached proxy answered, to a request for the same file and host, at the
      time of a fetch of this run, this request's own or one stamped within the timeout. */
  lemma CacheRefines(config: Config, disk: map<string, string>, events: seq<Event>, event: Event, w: World)
    requires GoodWorld(w) && GoodConfig(config)
    requires OneHostPerName(events + [event]) && NoNuls(events + [event])
    ensures var start := Cache(Initial(config), disk);
            ServedWell(After(start, config, events, w), config, Fetches(start, config, events, w), w, event)
  {
    hide Sound, ServedWell, GoodWorld, GoodConfig, OneHostPerName;
    var start := Cache(Initial(config), disk);
    InitiallySound(config, disk, w);
    assert OneHostPerName([] + events) && NoNuls(events) by { PartOfRun(events, event); }
    RunSound(start, config, [], events, w);
    var log := Fetches(start, config, events, w);
    assert [] + log == log;
    LogAgrees(events, event, log);
    ServeWell(After(start, config, events, w), config, log, w, event);
  }

  lemma PartOfRun(events: seq<Event>, event: Event)
    requires OneHostPerName(events + [event]) && NoNuls(events + [event])
    ensures OneHostPerName([] + events) && NoNuls(events)
  {
    hide Mangle, RequestHost;
    assert forall e | e in events :: e in events + [event];
    assert [] + events == events;
  }

  lemma LogAgrees(events: seq<Event>, event: Event, log: seq<Event>)
    requires OneHostPerName(events + [event]) && forall e | e in log :: e in events
    ensures NoCollision(log, event.request)
  {
    hide Mangle, RequestHost;
    assert event in events + [event];
    assert forall e | e in log :: e in events + [event];
  }

  /** What is cached never decides between a body, a refusal and an error. */
  lemma ReplyKindIsFixed(config: Config, disk: map<string, string>, events: seq<Event>, event: Event, w: World)
    requires GoodWorld(w) && GoodConfig(config)
    requires OneHostPerName(events + [event]) && NoNuls(events + [event])
    ensures SameKind(StepServe(After(Cache(Initial(config), disk), config, events, w), config, event, w).reply,
                     Decision(event.request, config, w, event.moment.canOpen))
  {
    hide GoodWorld, GoodConfig, OneHostPerName, Mangle, RequestHost, UriOf, Uncached, Sound, Decision, After,
        Initial, Serve;
    CacheRefines(config, disk, events, event, w);
  }

  /** No request of a run makes the proxy connect to a blacklisted address. */
  lemma NeverConnectsToBlacklisted(config: Config, disk: map<string, string>, events: seq<Event>, event: Event,
                                   w: World)
    requires GoodWorld(w) && GoodConfig(config)
    requires OneHostPerName(events + [event]) && NoNuls(events + [event])
    ensures var c := StepServe(After(Cache(Initial(config), disk), config, events, w), config, event, w).connection;
            c.Some? ==> c.value.ip !in config.names
  {
    hide GoodWorld, GoodConfig, OneHostPerName, Mangle, RequestHost, UriOf, Uncached, Sound, Decision, After,
        Initial, Serve;
    CacheRefines(config, disk, events, event, w);
  }

  /** Requests with equal file names are for one host, and its origin answers them alike: they
      are for one URI, and differ at most in header text that the origin does not look at. */
  ghost predicate AnsweredAlike(events: seq<Event>, w: World) {
    OneHostPerName(events) &&
    forall a, b, t: Time | a in events && b in events && Mangle(UriOf(a.request)) == Mangle(UriOf(b.request)) &&
                           IsGet(a.request) && IsGet(b.request) ::
                             Uncached(a.request, w, t) == Uncached(b.request, w, t)
  }

  /** Bounded staleness. When requests with equal file names are answered alike, a body is what the
      uncached proxy would have answered to this very request at some time s of the run, and s is at
      most the timeout plus the duration of that fetch ago: the copy is stamped when the fetch is
      over. So the bound is the timeout itself when fetches take no whole second. */
  lemma BoundedStaleness(config: Config, disk: map<string, string>, events: seq<Event>, event: Event, w: World)
    requires GoodWorld(w) && GoodConfig(config)
    requires AnsweredAlike(events + [event], w) && NoNuls(events + [event])
    ensures var start := Cache(Initial(config), disk);
            var served := StepServe(After(start, config, events, w), config, event, w);
            served.reply.Body? ==>
              exists f | f in events + [event] ::
                served.reply == Uncached(event.request, w, f.moment.fetched) &&
                (f == event ||
                 event.moment.checked.sec - f.moment.fetched.sec
                   <= config.timeout + (f.moment.stamped.sec - f.moment.fetched.sec))
  {
    hide GoodWorld, GoodConfig, OneHostPerName, Mangle, RequestHost, UriOf, Sound, Decision, After, Initial, Serve,
        Accepted, IsGet;
    CacheRefines(config, disk, events, event, w);
    var start := Cache(Initial(config), disk);
    var log := Fetches(start, config, events, w);
    var served := StepServe(After(start, config, events, w), config, event, w);
    if served.reply.Body? {
      BodyMeansAccepted(event, config, w);
      FetchesAreEvents(start, config, events, w);
      var f :| f in Logged(log, event, served) && Explains(f, event.request, served.reply.data, w) &&
               (f == event || Fresh(f.moment.stamped, event.moment.checked, config.timeout));
      assert f in events + [event] && event in events + [event];
      assert IsGet(f.request) && IsGet(event.request)
        by { BodyMeansGet(f.request, w, f.moment.fetched); AcceptedIsGet(event.request); }
      assert Uncached(f.request, w, f.moment.fetched) == Uncached(event.request, w, f.moment.fetched);
    }
  }

  lemma BodyMeansAccepted(event: Event, config: Config, w: World)
    ensures Decision(event.request, config, w, event.moment.canOpen).Body? ==> Accepted(event.request)
  {
  }

  lemma BodyMeansGet(request: string, w: World, now: Time)
    ensures Uncached(request, w, now).Body? ==> IsGet(request)
  {
  }

  lemma {:induction false} FetchesAreEvents(cache: Cache, config: Config, events: seq<Event>, w: World)
    ensures forall e | e in Fetches(cache, config, events, w) :: e in events
    decreases |events|
  {
    if events != [] {
      FetchesAreEvents(StepServe(cache, config, events[0], w).cache, config, events[1..], w);
    }
  }

  /** One node per resource: after every such run no two nodes behind the blacklist share a file,
      and a search by file never returns a blacklist node. */
  lemma OneNodePerResource(config: Config, disk: map<string, string>, events: seq<Event>, w: World, uri: string)
    requires GoodWorld(w) && GoodConfig(config) && OneHostPerName(events) && NoNuls(events)
    requires NUL !in Mangle(uri)
    ensures var entries, n := After(Cache(Initial(config), disk), config, events, w).entries, 1 + |config.names|;
            n <= |entries| &&
            (forall i, j | n <= i < j < |entries| :: entries[i].filename != entries[j].filename) &&
            (forall i | n <= i < |entries| :: !entries[i].blacklisted) &&
            (FirstFile(entries, Mangle(uri)) < |entries| ==> n <= FirstFile(entries, Mangle(uri)))
  {
    hide GoodWorld, Mangle, FirstFile, OneHostPerName, After;
    var start := Cache(Initial(config), disk);
    InitiallySound(config, disk, w);
    InitialShape(config, 0);
    assert [] + events == events;
    RunSound(start, config, [], events, w);
    FileSearch(After(start, config, events, w), config, [] + Fetches(start, config, events, w), w, uri);
  }
}
