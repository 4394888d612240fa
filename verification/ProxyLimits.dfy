/** Where the caching proxy's promises stop: the assumptions of the refinement are needed, for
    whole families of configurations and requests. */
module ProxyLimits {
  import opened CStrings
  import opened HostList
  import opened Url
  import opened UncachedProxy
  import opened CachingProxy
  import opened ProxyRefinement

  /** A host that the list has never seen, with an address that is not blacklisted either. */
  ghost predicate NewHost(entries: seq<Entry>, request: string, ip: string, w: World) {
    Accepted(request) && w.resolve(RequestHost(request)) == Some(ip) &&
    FirstHost(entries, RequestHost(request)) == |entries| &&
    (FirstHost(entries, ip) < |entries| ==> !entries[FirstHost(entries, ip)].blacklisted)
  }

  function NodeFor(request: string, ip: string, moment: Moment): Entry {
    Entry(RequestHost(request), ip, Mangle(UriOf(request)), moment.stamped, false)
  }

  /** The first request for such a host fetches, stores and appends a node. */
  lemma FirstRequest(cache: Cache, config: Config, event: Event, ip: string, w: World)
    requires NewHost(cache.entries, event.request, ip, w) && event.moment.canOpen
    ensures var after := StepServe(cache, config, event, w).cache;
            var node := NodeFor(event.request, ip, event.moment);
            after.entries == cache.entries + [node] &&
            after.files ==
            cache.files[node.filename := w.origin(ip, RequestPort(event.request), event.request, event.moment.fetched)]
    ensures var after := StepServe(cache, config, event, w).cache;
            FirstHost(after.entries, RequestHost(event.request)) == |cache.entries|
  {
    hide Mangle, UriOf, RequestPort, RequestHost;
    var node := NodeFor(event.request, ip, event.moment);
    LookupStable(cache.entries, [node], RequestHost(event.request));
  }

  // ----- slow fetches -----

  /** A copy whose fetch took d > 0 seconds is served unchanged when it is timeout + d seconds old.
      If the origin changed its answer after the fetch, the body is then none of the answers of
      the last `timeout` seconds. */
  lemma SlowFetch(cache: Cache, config: Config, first: Event, second: Event, ip: string, d: nat, w: World)
    requires NewHost(cache.entries, first.request, ip, w) && first.moment.canOpen && second.moment.canOpen
    requires FirstFile(cache.entries, Mangle(UriOf(first.request))) == |cache.entries|
    requires second.request == first.request
    requires d > 0 && first.moment.stamped.sec == first.moment.fetched.sec + d
    requires second.moment.checked.sec == first.moment.stamped.sec + config.timeout
    requires forall s: Time | s.sec > first.moment.fetched.sec ::
               Uncached(first.request, w, s) != Uncached(first.request, w, first.moment.fetched)
    ensures var served := StepServe(StepServe(cache, config, first, w).cache, config, second, w);
            served.reply == Uncached(first.request, w, first.moment.fetched) && served.connection.None? &&
            forall s: Time | second.moment.checked.sec - s.sec <= config.timeout ::
                served.reply != Uncached(second.request, w, s)
  {
    hide Mangle, UriOf, RequestPort, RequestHost;
    FirstRequest(cache, config, first, ip, w);
    var node := NodeFor(first.request, ip, first.moment);
    LookupStable(cache.entries, [node], node.filename);
  }

  /** The answer was given at most the timeout before the request. */
  ghost predicate WithinTimeout(config: Config, disk: map<string, string>, events: seq<Event>, event: Event, w: World) {
    var reply := StepServe(After(Cache(Initial(config), disk), config, events, w), config, event, w).reply;
    reply.Body? ==> exists s: Time ::
      event.moment.checked.sec - s.sec <= config.timeout && reply == Uncached(event.request, w, s)
  }

  predicate FetchTimes(events: seq<Event>, d: nat) {
    forall e | e in events ::
      e.moment.checked.sec <= e.moment.fetched.sec && 0 <= e.moment.stamped.sec - e.moment.fetched.sec <= d
  }

  /** A run in which requests with equal file names are answered alike, and fetches take up to d
      whole seconds. */
  ghost predicate OrderlyRun(events: seq<Event>, w: World, d: nat) {
    GoodWorld(w) && AnsweredAlike(events, w) && NoNuls(events) && FetchTimes(events, d)
  }

  /** A world in which every host has an address, and the answer changes after time 0. */
  function Changing(): World {
    World(host => if NUL in host then None else Some(host),
          (ip, port, request, t: Time) => if t.sec <= 0 then "old" else "new")
  }

  function AtTime(request: string, checked: int, fetched: int, stamped: int): Event {
    Event(request, Moment(Time(checked, 0), Time(fetched, 0), Time(stamped, 0), true))
  }

  /** The documented bound, the timeout alone, holds in all such runs if and only if fetches take no
      whole second. */
  lemma TimeoutBoundIff(config: Config, disk: map<string, string>, request: string, d: nat)
    requires GoodConfig(config) && config.timeout >= 0
    requires Accepted(request) && NUL !in request && RequestHost(request) !in config.names
    ensures (forall events, event, w | OrderlyRun(events + [event], w, d) ::
               WithinTimeout(config, disk, events, event, w))
            <==> d == 0
  {
    if d == 0 {
      forall events, event, w | OrderlyRun(events + [event], w, d)
        ensures WithinTimeout(config, disk, events, event, w)
      {
        QuickFetchesBound(config, disk, events, event, w);
      }
    } else {
      var first := AtTime(request, 0, 0, d);
      var second := AtTime(request, d + config.timeout, d + config.timeout, d + config.timeout);
      SlowRunIsOrderly(request, first, second, d);
      SlowRun(config, disk, request, first, second, d);
      assert !WithinTimeout(config, disk, [first], second, Changing());
    }
  }

  lemma QuickFetchesBound(config: Config, disk: map<string, string>, events: seq<Event>, event: Event, w: World)
    requires GoodConfig(config) && config.timeout >= 0 && OrderlyRun(events + [event], w, 0)
    ensures WithinTimeout(config, disk, events, event, w)
  {
    hide After, Initial, StepServe, AnsweredAlike, NoNuls, GoodWorld, GoodConfig, Uncached;
    BoundedStaleness(config, disk, events, event, w);
    if StepServe(After(Cache(Initial(config), disk), config, events, w), config, event, w).reply.Body? {
      var f :| f in events + [event] &&
        StepServe(After(Cache(Initial(config), disk), config, events, w), config, event, w).reply
        == Uncached(event.request, w, f.moment.fetched) &&
        (f == event ||
         event.moment.checked.sec - f.moment.fetched.sec
           <= config.timeout + (f.moment.stamped.sec - f.moment.fetched.sec));
      assert event.moment.checked.sec - f.moment.fetched.sec <= config.timeout;
    }
  }

  lemma SlowRunIsOrderly(request: string, first: Event, second: Event, d: nat)
    requires NUL !in request && first.request == second.request == request && FetchTimes([first, second], d)
    ensures OrderlyRun([first] + [second], Changing(), d)
  {
    hide Mangle, UriOf, RequestHost, Uncached, IsGet;
    assert [first] + [second] == [first, second];
    assert forall e | e in [first, second] :: e == first || e == second;
  }

  lemma SlowRun(config: Config, disk: map<string, string>, request: string, first: Event, second: Event, d: nat)
    requires GoodConfig(config) && Accepted(request) && NUL !in request && RequestHost(request) !in config.names &&
             d > 0
    requires first == AtTime(request, 0, 0, d)
    requires second == AtTime(request, d + config.timeout, d + config.timeout, d + config.timeout)
    ensures !WithinTimeout(config, disk, [first], second, Changing())
  {
    hide Mangle, UriOf, RequestPort, RequestHost, Initial, Serve;
    var start := Cache(Initial(config), disk);
    var w := Changing();
    RequestHasNoNul(request);
    NewAtStart(config, disk, request, w);
    AcceptedIsGet(request);
    SlowFetch(start, config, first, second, RequestHost(request), d, w);
    AfterOne(start, config, first, w);
  }

  lemma AfterOne(cache: Cache, config: Config, event: Event, w: World)
    ensures After(cache, config, [event], w) == StepServe(cache, config, event, w).cache
  {
    hide StepServe;
    assert [event][1..] == [];
  }

  /** Where every host is its own address, a host that is not blacklisted is new to the proxy that
      has just started, and so is its file. */
  lemma NewAtStart(config: Config, disk: map<string, string>, request: string, w: World)
    requires GoodConfig(config) && Accepted(request) && NUL !in RequestHost(request) && NUL !in Mangle(UriOf(request))
    requires RequestHost(request) !in config.names && w.resolve(RequestHost(request)) == Some(RequestHost(request))
    ensures NewHost(Initial(config), request, RequestHost(request), w)
    ensures FirstHost(Initial(config), RequestHost(request)) == |Initial(config)|
    ensures FirstFile(Initial(config), Mangle(UriOf(request))) == |Initial(config)|
  {
    hide Mangle, UriOf, RequestHost, InitialEntries;
    var i := FirstHost(Initial(config), RequestHost(request));
    if i < |Initial(config)| {
      InitialShape(config, i);
    }
    MangledHasNoSpecial(UriOf(request));
    NoInitialFile(config, Mangle(UriOf(request)));
  }

  // ----- colliding file names -----

  /** Two hosts whose URIs differ only in '.', ':' and '/' share a file: two nodes with one file
      name, and a fresh hit for the first host sends the second host's answer. */
  lemma CollidingNames(cache: Cache, config: Config, first: Event, second: Event, third: Event,
                       ip1: string, ip2: string, w: World)
    requires NewHost(cache.entries, first.request, ip1, w) && NewHost(cache.entries, second.request, ip2, w)
    requires Mangle(UriOf(first.request)) == Mangle(UriOf(second.request))
    requires RequestHost(second.request) != RequestHost(first.request) && RequestHost(second.request) != ip1
    requires FirstFile(cache.entries, Mangle(UriOf(first.request))) == |cache.entries|
    requires FirstHost(cache.entries, ip2) == |cache.entries|
    requires first.moment.canOpen && second.moment.canOpen && third.moment.canOpen
    requires third.request == first.request && Fresh(first.moment.stamped, third.moment.checked, config.timeout)
    ensures var once := StepServe(cache, config, first, w).cache;
            var twice := StepServe(once, config, second, w).cache;
            var n := |cache.entries|;
            |twice.entries| == n + 2 && twice.entries[n].filename == twice.entries[n + 1].filename &&
            StepServe(twice, config, third, w).reply == Uncached(second.request, w, second.moment.fetched)
  {
    hide Mangle, UriOf, RequestPort, RequestHost, Serve, FirstHost, FirstFile, Accepted, Fresh;
    var one, two := NodeFor(first.request, ip1, first.moment), NodeFor(second.request, ip2, second.moment);
    FirstRequest(cache, config, first, ip1, w);
    var once := StepServe(cache, config, first, w).cache;
    StillNew(cache.entries, one, second.request, ip2, w);
    FirstRequest(once, config, second, ip2, w);
    var twice := StepServe(once, config, second, w).cache;
    LookupStable(once.entries, [two], RequestHost(first.request));
    FoundAtEnd(cache.entries, one, one.filename);
    LookupStable(once.entries, [two], one.filename);
    AcceptedIsGet(second.request);
    FreshHit(twice, config, third, |cache.entries|, |cache.entries|, w);
  }

  // The three requests of a collision: for one resource, for another, and for the first again.
  datatype Three = Three(first: Event, second: Event, third: Event)

  /** The third request's answer is an answer to the first request, of whatever time. */
  ghost predicate RightHost(config: Config, disk: map<string, string>, three: Three, w: World) {
    var cache := After(Cache(Initial(config), disk), config, [three.first, three.second], w);
    var reply := StepServe(cache, config, three.third, w).reply;
    reply.Body? ==> exists t: Time :: reply == Uncached(three.first.request, w, t)
  }

  /** A world in which every host has an address, and answers with it. */
  function Distinct(): World {
    World(host => if NUL in host then None else Some(host), (ip, port, request, t: Time) => ip)
  }

  /** Two requests for different hosts, neither blacklisted, may follow each other safely in every
      world and at any times if and only if their URIs do not become the same file name. */
  lemma CollisionIff(config: Config, disk: map<string, string>, r1: string, r2: string)
    requires GoodConfig(config) && config.timeout >= 0
    requires Accepted(r1) && Accepted(r2) && NUL !in r1 && NUL !in r2
    requires RequestHost(r1) != RequestHost(r2) && RequestHost(r1) !in config.names && RequestHost(r2) !in config.names
    ensures (forall three: Three, w | three.first.request == three.third.request == r1 && three.second.request == r2 &&
                                      GoodWorld(w) ::
               RightHost(config, disk, three, w))
            <==> Mangle(UriOf(r1)) != Mangle(UriOf(r2))
  {
    hide RightHost, Mangle, UriOf, RequestHost, Accepted;
    if Mangle(UriOf(r1)) != Mangle(UriOf(r2)) {
      forall three: Three, w | three.first.request == three.third.request == r1 && three.second.request == r2 &&
          GoodWorld(w)
        ensures RightHost(config, disk, three, w)
      {
        DifferentNames(config, disk, three, w);
      }
    } else {
      var three := Three(AtTime(r1, 0, 0, 0), AtTime(r2, 0, 0, 0), AtTime(r1, 0, 0, 0));
      WrongHost(config, disk, three);
      DistinctIsGood();
    }
  }

  lemma DistinctIsGood()
    ensures GoodWorld(Distinct())
  {
  }

  lemma DifferentNames(config: Config, disk: map<string, string>, three: Three, w: World)
    requires GoodConfig(config) && GoodWorld(w) && three.third.request == three.first.request
    requires NUL !in three.first.request && NUL !in three.second.request
    requires Mangle(UriOf(three.first.request)) != Mangle(UriOf(three.second.request))
    ensures RightHost(config, disk, three, w)
  {
    hide Mangle, UriOf, RequestHost, Sound, Decision, After, Initial, Serve, Uncached, GoodConfig, GoodWorld;
    var events, event := [three.first, three.second], three.third;
    assert forall e | e in events + [event] :: e == three.first || e == three.second || e == three.third;
    CacheRefines(config, disk, events, event, w);
    var start := Cache(Initial(config), disk);
    var log := Fetches(start, config, events, w);
    var served := StepServe(After(start, config, events, w), config, event, w);
    if served.reply.Body? {
      FetchesAreEvents(start, config, events, w);
      var f :| f in Logged(log, event, served) && Explains(f, event.request, served.reply.data, w);
      assert f in events + [event];
      assert f.request == three.first.request;
      assert served.reply == Uncached(three.first.request, w, f.moment.fetched);
    }
  }

  lemma WrongHost(config: Config, disk: map<string, string>, three: Three)
    requires GoodConfig(config) && config.timeout >= 0
    requires var r1, r2 := three.first.request, three.second.request;
             three.third.request == r1 && Accepted(r1) && Accepted(r2) && NUL !in r1 && NUL !in r2 &&
             RequestHost(r1) != RequestHost(r2) && RequestHost(r1) !in config.names &&
             RequestHost(r2) !in config.names &&
             Mangle(UriOf(r1)) == Mangle(UriOf(r2))
    requires three.first == AtTime(three.first.request, 0, 0, 0) &&
             three.second == AtTime(three.second.request, 0, 0, 0)
    requires three.third == AtTime(three.first.request, 0, 0, 0)
    ensures !RightHost(config, disk, three, Distinct())
  {
    hide Mangle, UriOf, RequestPort, RequestHost, Initial, Serve, FirstHost, FirstFile;
    var r1, r2, w := three.first.request, three.second.request, Distinct();
    RequestHasNoNul(r1);
    RequestHasNoNul(r2);
    var start := Cache(Initial(config), disk);
    NewAtStart(config, disk, r1, w);
    NewAtStart(config, disk, r2, w);
    CollidingNames(start, config, three.first, three.second, three.third, RequestHost(r1), RequestHost(r2), w);
    AfterTwo(start, config, three.first, three.second, w);
    AcceptedIsGet(r1);
    AcceptedIsGet(r2);
  }

  lemma AfterTwo(cache: Cache, config: Config, first: Event, second: Event, w: World)
    ensures After(cache, config, [first, second], w)
            == StepServe(StepServe(cache, config, first, w).cache, config, second, w).cache
  {
    hide StepServe;
    assert [first, second][1..] == [second];
    AfterOne(StepServe(cache, config, first, w).cache, config, second, w);
  }

  /** Such requests exist, for any two labels a and b: "a.b/" and "a/b/" are stored as "a_b_". */
  lemma CollidingRequests(a: string, b: string)
    requires IsWord(a) && IsWord(b) && IsHost(a) && IsHost(a + "." + b)
    ensures var r1, r2 := GetOf(a + "." + b + "/"), GetOf(a + "/" + b + "/");
            Accepted(r1) && Accepted(r2) && NUL !in r1 && NUL !in r2 &&
            RequestHost(r1) == a + "." + b && RequestHost(r2) == a && Mangle(UriOf(r1)) == Mangle(UriOf(r2))
  {
    var u1, u2 := a + "." + b + "/", a + "/" + b + "/";
    SameMangled(a, b);
    hide *;
    WordsOf(a, b);
    GetOfIs(u1);
    GetOfIs(u2);
    BareTarget(u1, a + "." + b, "/");
    BareTarget(u2, a, "/" + b + "/");
    HostIs(GetOf(u1), u1);
    HostIs(GetOf(u2), u2);
  }

  lemma WordsOf(a: string, b: string)
    requires IsWord(a) && IsWord(b)
    ensures var u1, u2 := a + "." + b + "/", a + "/" + b + "/";
            IsWord(u1) && IsWord(u2) && IsPath("/") && IsPath("/" + b + "/") &&
            u1 == a + "." + b + "/" && u2 == a + ("/" + b + "/")
  {
    var u1, u2 := a + "." + b + "/", a + "/" + b + "/";
    assert forall c | c in u1 || c in u2 :: c in a || c in b || c == '.' || c == '/';
    assert u2 == a + ("/" + b + "/");
  }

  lemma BareTarget(uri: string, host: string, path: string)
    requires IsHost(host) && IsPath(path) && uri == host + path
    ensures Target(uri).0 == host
  {
    hide Target, IsHost, IsPath;
    UrlRoundTrip(Bare, host, Default, path);
    assert Render(Bare, host, Default, path) == uri;
  }

  lemma HostIs(request: string, uri: string)
    requires UriOf(request) == uri
    ensures RequestHost(request) == Target(uri).0
  {
  }

  lemma SameMangled(a: string, b: string)
    ensures Mangle(a + "." + b + "/") == Mangle(a + "/" + b + "/")
  {
    var u1, u2 := a + "." + b + "/", a + "/" + b + "/";
    assert forall i | 0 <= i < |u1| && i != |a| :: u1[i] == u2[i];
  }

  function GetOf(uri: string): string {
    Line(["GET", uri, "HTTP/1.0"])
  }

  lemma GetOfIs(uri: string)
    requires IsWord(uri)
    ensures var request := GetOf(uri);
            Accepted(request) && UriOf(request) == uri && NUL !in request
  {
    var words := ["GET", uri, "HTTP/1.0"];
    assert AreWords(words);
    TokensOfLine(WhiteSpace, words);
    LineHasNoNul(words);
    assert "HTTP/1.0"[0] == 'H' && "undefined"[0] == 'u';
  }

  lemma FoundAtEnd(entries: seq<Entry>, node: Entry, filename: string)
    requires FirstFile(entries, filename) == |entries| && node.filename == filename
    ensures FirstFile(entries + [node], filename) == |entries|
  {
    LookupStable(entries, [node], filename);
  }

  /** A host and an address that are still not in the list when one other node has been added. */
  lemma StillNew(entries: seq<Entry>, node: Entry, request: string, ip: string, w: World)
    requires NewHost(entries, request, ip, w) && FirstHost(entries, ip) == |entries|
    requires !HostMatches(node, RequestHost(request)) && !node.blacklisted
    ensures NewHost(entries + [node], request, ip, w)
  {
    LookupStable(entries, [node], RequestHost(request));
    NotBlacklistedAfter(entries, node, ip);
  }

  lemma NotBlacklistedAfter(entries: seq<Entry>, node: Entry, key: string)
    requires !node.blacklisted && FirstHost(entries, key) == |entries|
    ensures var all := entries + [node];
            FirstHost(all, key) < |all| ==> !all[FirstHost(all, key)].blacklisted
  {
    LookupStable(entries, [node], key);
  }

  lemma FreshHit(cache: Cache, config: Config, event: Event, i: nat, j: nat, w: World)
    requires Accepted(event.request) && event.moment.canOpen
    requires i == FirstHost(cache.entries, RequestHost(event.request)) < |cache.entries| &&
             !cache.entries[i].blacklisted
    requires j == FirstFile(cache.entries, Mangle(UriOf(event.request))) < |cache.entries|
    requires Fresh(cache.entries[j].stamp, event.moment.checked, config.timeout)
    requires cache.entries[j].filename in cache.files
    ensures StepServe(cache, config, event, w).reply == Body(cache.files[cache.entries[j].filename])
  {
  }

  // ----- the name of the blacklist file -----

  /** When a URI becomes the blacklist file's name, a request for it leads, once its first copy is
      there, to a blacklist node: after the timeout the proxy connects to the first blacklisted
      name. */
  lemma BlacklistNodeReached(config: Config, disk: map<string, string>, first: Event, second: Event, ip: string,
                             w: World)
    requires config.names != [] && config.filename != UNSET
    requires Mangle(UriOf(first.request)) == config.filename && second.request == first.request
    requires NewHost(Initial(config), first.request, ip, w)
    requires first.moment.canOpen && second.moment.canOpen
    requires !Fresh(config.started, second.moment.checked, config.timeout)
    ensures var once := StepServe(Cache(Initial(config), disk), config, first, w).cache;
            var served := StepServe(once, config, second, w);
            served.connection == Some(Connection(config.names[0], RequestPort(second.request)))
  {
    hide RequestPort, RequestHost, UriOf, BlacklistEntries, Mangle;
    var cache := Cache(Initial(config), disk);
    var node := NodeFor(first.request, ip, first.moment);
    FirstRequest(cache, config, first, ip, w);
    InitialShape(config, 0);
    InitialShape(config, 1);
    FileAtOne(Initial(config), config.filename);
    LookupStable(Initial(config), [node], config.filename);
    StaleHit(StepServe(cache, config, first, w).cache, config, second, |Initial(config)|, 1, w);
  }

  lemma UnchangedByMangle(name: string)
    requires !HasSpecial(name)
    ensures Mangle(name) == name
  {
    assert forall i | 0 <= i < |name| :: name[i] in name;
  }

  lemma FileAtOne(entries: seq<Entry>, filename: string)
    requires |entries| >= 2 && entries[0].filename != filename && entries[1].filename == filename
    ensures FirstFile(entries, filename) == 1
  {
  }

  lemma StaleHit(cache: Cache, config: Config, event: Event, i: nat, j: nat, w: World)
    requires Accepted(event.request) && event.moment.canOpen
    requires i == FirstHost(cache.entries, RequestHost(event.request)) < |cache.entries| &&
             !cache.entries[i].blacklisted
    requires j == FirstFile(cache.entries, Mangle(UriOf(event.request))) < |cache.entries|
    requires !Fresh(cache.entries[j].stamp, event.moment.checked, config.timeout)
    ensures StepServe(cache, config, event, w).connection
            == Some(Connection(cache.entries[j].ip, RequestPort(event.request)))
  {
  }

  /** So a search by file name keeps off the blacklist nodes for every URI if and only if the
      blacklist file's name has one of the characters (or nothing is blacklisted). */
  lemma BlacklistFileIff(config: Config)
    requires NUL !in config.filename
    ensures (forall uri :: NUL !in Mangle(uri) ==> FirstFile(Initial(config), Mangle(uri)) == |Initial(config)|)
            <==> HasSpecial(config.filename) || config.names == []
  {
    hide Mangle, BlacklistEntries, FirstFile;
    if HasSpecial(config.filename) || config.names == [] {
      forall uri | NUL !in Mangle(uri)
        ensures FirstFile(Initial(config), Mangle(uri)) == |Initial(config)|
      {
        MangledHasNoSpecial(uri);
        NoInitialFile(config, Mangle(uri));
      }
    } else {
      UnchangedByMangle(config.filename);
      InitialShape(config, 0);
      InitialShape(config, 1);
      FileAtOne(Initial(config), config.filename);
    }
  }

  lemma NoInitialFile(config: Config, name: string)
    requires NUL !in name && (config.names == [] || name != config.filename)
    ensures FirstFile(Initial(config), name) == |Initial(config)|
  {
    var j := FirstFile(Initial(config), name);
    InitialShape(config, 0);
    if j < |Initial(config)| {
      InitialShape(config, j);
    }
  }

  // ----- whole runs and the blacklist file -----

  /** No connection of the last request goes to a blacklisted address. */
  ghost predicate KeepsOffBlacklist(config: Config, disk: map<string, string>, events: seq<Event>, event: Event,
                                    w: World) {
    var connection := StepServe(After(Cache(Initial(config), disk), config, events, w), config, event, w).connection;
    connection.Some? ==> connection.value.ip !in config.names
  }

  /** A request for a host that is not blacklisted whose file would be the blacklist's. */
  predicate TakesBlacklistName(config: Config, request: string) {
    NUL !in request && Accepted(request) && RequestHost(request) !in config.names &&
    Mangle(UriOf(request)) == config.filename
  }

  /** In all runs and all worlds, whatever requests collide, no connection goes to a blacklisted
      address if and only if no such request takes the blacklist's file name (or nothing is
      blacklisted). */
  lemma BlacklistRunIff(config: Config, disk: map<string, string>)
    requires NUL !in config.filename
    ensures (forall events, event, w | GoodWorld(w) && NoNuls(events + [event]) ::
               KeepsOffBlacklist(config, disk, events, event, w))
            <==> config.names == [] || forall request: string :: !TakesBlacklistName(config, request)
  {
    hide KeepsOffBlacklist, TakesBlacklistName, GoodWorld;
    if config.names == [] || forall request: string :: !TakesBlacklistName(config, request) {
      forall events, event, w | GoodWorld(w) && NoNuls(events + [event])
        ensures KeepsOffBlacklist(config, disk, events, event, w)
      {
        RunKeepsApart(config, disk, events, event, w);
      }
    } else {
      var request: string :| TakesBlacklistName(config, request);
      var late := config.started.sec + config.timeout + 1;
      var first, second := AtTime(request, 0, 0, 0), AtTime(request, late, late, late);
      BlacklistConnection(config, disk, request, first, second);
      assert NoNuls([first] + [second]) by { NoNulInTwo(config, first, second); }
      GoodChanging();
      assert !KeepsOffBlacklist(config, disk, [first], second, Changing());
    }
  }

  lemma GoodChanging()
    ensures GoodWorld(Changing())
  {
  }

  lemma NoNulInTwo(config: Config, first: Event, second: Event)
    requires TakesBlacklistName(config, first.request) && second.request == first.request
    ensures NoNuls([first] + [second])
  {
    hide Mangle, UriOf, RequestHost, Accepted;
  }

  lemma BlacklistConnection(config: Config, disk: map<string, string>, request: string, first: Event, second: Event)
    requires NUL !in config.filename && config.names != [] && TakesBlacklistName(config, request)
    requires var late := config.started.sec + config.timeout + 1;
             first == AtTime(request, 0, 0, 0) && second == AtTime(request, late, late, late)
    ensures !KeepsOffBlacklist(config, disk, [first], second, Changing())
  {
    hide Mangle, UriOf, RequestPort, RequestHost, Initial, Serve, FirstHost, Accepted;
    var w := Changing();
    RequestHasNoNul(request);
    NotThereAtStart(config, RequestHost(request));
    BlacklistNodeReached(config, disk, first, second, RequestHost(request), w);
    AfterOne(Cache(Initial(config), disk), config, first, w);
  }

  lemma NotThereAtStart(config: Config, host: string)
    requires NUL !in host && host !in config.names
    ensures FirstHost(Initial(config), host) == |Initial(config)|
  {
    var i := FirstHost(Initial(config), host);
    if i < |Initial(config)| {
      InitialShape(config, i);
    }
  }

  /** The blacklist in front, and behind it only nodes with other addresses. */
  predicate KeptApart(entries: seq<Entry>, config: Config) {
    BlacklistFirst(entries, config) &&
    forall i | |Initial(config)| <= i < |entries| :: !entries[i].blacklisted && entries[i].ip !in config.names
  }

  /** A search by host ends in the blacklist, or behind it at a node with another address. */
  lemma SearchApart(entries: seq<Entry>, config: Config, key: string)
    requires KeptApart(entries, config) && NUL !in key
    ensures var i := FirstHost(entries, key);
            (key in config.names ==> i < |entries| && entries[i].blacklisted) &&
            (i < |entries| && !entries[i].blacklisted ==> |Initial(config)| <= i && entries[i].ip !in config.names)
  {
    var i := FirstHost(entries, key);
    if key in config.names {
      var j :| 0 <= j < |config.names| && config.names[j] == key;
      PrefixShape(entries, config, j + 1);
      assert i <= j + 1;
    }
    if i < |Initial(config)| {
      PrefixShape(entries, config, i);
    }
  }

  /** A name that is not the blacklist file's is found behind the blacklist. */
  lemma FileApart(entries: seq<Entry>, config: Config, name: string)
    requires KeptApart(entries, config) && NUL !in name && (config.names == [] || name != config.filename)
    ensures FirstFile(entries, name) < |entries| ==> |Initial(config)| <= FirstFile(entries, name)
  {
    var j := FirstFile(entries, name);
    if j < |Initial(config)| {
      PrefixShape(entries, config, 0);
      PrefixShape(entries, config, j);
    }
  }

  predicate ServedApart(served: Served, config: Config) {
    KeptApart(served.cache.entries, config) &&
    (served.connection.Some? ==> served.connection.value.ip !in config.names)
  }

  lemma NewFileApart(cache: Cache, config: Config, ip: string, event: Event, w: World)
    requires KeptApart(cache.entries, config) && ip !in config.names
    ensures ServedApart(ServeNewFile(cache, ip, event.request, w, event.moment), config)
  {
    hide Mangle, UriOf, RequestHost, RequestPort, InitialEntries;
    var served := ServeNewFile(cache, ip, event.request, w, event.moment);
    var n := |Initial(config)|;
    assert cache.entries <= served.cache.entries;
    assert served.cache.entries[..n] == cache.entries[..n];
  }

  lemma KnownFileApart(cache: Cache, config: Config, j: nat, event: Event, w: World)
    requires KeptApart(cache.entries, config) && |Initial(config)| <= j < |cache.entries|
    ensures ServedApart(ServeKnownFile(cache, j, config.timeout, event.request, w, event.moment), config)
  {
    hide RequestPort, InitialEntries;
    var served := ServeKnownFile(cache, j, config.timeout, event.request, w, event.moment);
    var n := |Initial(config)|;
    assert served.cache.entries[..n] == cache.entries[..n];
  }

  lemma RequestKeepsApart(cache: Cache, config: Config, event: Event, w: World)
    requires KeptApart(cache.entries, config) && NUL !in config.filename && GoodWorld(w) && NUL !in event.request
    requires config.names == [] || !TakesBlacklistName(config, event.request)
    ensures ServedApart(StepServe(cache, config, event, w), config)
  {
    hide KeptApart, Mangle, UriOf, RequestHost, RequestPort, InitialEntries, Accepted, ServeNewFile, ServeKnownFile,
        FirstHost, FirstFile;
    if Accepted(event.request) {
      var host, name := RequestHost(event.request), Mangle(UriOf(event.request));
      RequestHasNoNul(event.request);
      SearchApart(cache.entries, config, host);
      var i := FirstHost(cache.entries, host);
      if i < |cache.entries| && !cache.entries[i].blacklisted {
        var j := FirstFile(cache.entries, name);
        if j < |cache.entries| {
          FileApart(cache.entries, config, name);
          KnownFileApart(cache, config, j, event, w);
        } else {
          NewFileApart(cache, config, cache.entries[i].ip, event, w);
        }
      } else if i == |cache.entries| && w.resolve(host).Some? {
        var ip := w.resolve(host).value;
        SearchApart(cache.entries, config, ip);
        if ip !in config.names {
          NewFileApart(cache, config, ip, event, w);
        }
      }
    }
  }

  lemma {:induction false} StaysApart(cache: Cache, config: Config, events: seq<Event>, w: World)
    requires KeptApart(cache.entries, config) && NUL !in config.filename && GoodWorld(w) && NoNuls(events)
    requires config.names == [] || forall request: string :: !TakesBlacklistName(config, request)
    ensures KeptApart(After(cache, config, events, w).entries, config)
    decreases |events|
  {
    hide KeptApart, TakesBlacklistName, GoodWorld, StepServe;
    if events != [] {
      assert events[0] in events;
      RequestKeepsApart(cache, config, events[0], w);
      StaysApart(StepServe(cache, config, events[0], w).cache, config, events[1..], w);
    }
  }

  lemma RunKeepsApart(config: Config, disk: map<string, string>, events: seq<Event>, event: Event, w: World)
    requires NUL !in config.filename && GoodWorld(w) && NoNuls(events + [event])
    requires config.names == [] || forall request: string :: !TakesBlacklistName(config, request)
    ensures KeepsOffBlacklist(config, disk, events, event, w)
  {
    var start := Cache(Initial(config), disk);
    assert KeptApart(start.entries, config) by { InitiallySound(config, disk, w); }
    hide KeptApart, TakesBlacklistName, GoodWorld, StepServe, Initial, After;
    assert forall e | e in events :: e in events + [event];
    assert event in events + [event];
    StaysApart(start, config, events, w);
    RequestKeepsApart(After(start, config, events, w), config, event, w);
  }

  /** Such a request exists when the blacklist's file name is a word with none of the three
      characters that is not itself blacklisted: a request for a host of that name. */
  lemma BlacklistNameTaken(config: Config)
    requires IsWord(config.filename) && !HasSpecial(config.filename) && config.filename !in config.names
    ensures TakesBlacklistName(config, GetOf(config.filename))
  {
    var uri := config.filename;
    UnchangedByMangle(uri);
    GetOfIs(uri);
    assert uri == uri + "";
    BareTarget(uri, uri, "");
    hide Mangle, Target, UriOf, Accepted;
    HostIs(GetOf(uri), uri);
  }
}
