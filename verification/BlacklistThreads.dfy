/** The blacklist under every interleaving of any number of request threads.

    Each step is one call that the semaphore makes atomic, or one thread's own move: search_hosts,
    search_host_files, the resolver, connecting, add_host, the new time stamp. Nodes are read
    without the semaphore, but what is read of them never changes. Cached files are not
    protected, so nothing is claimed about bodies here. */
module BlacklistThreads {
  import opened CStrings
  import opened HostList
  import opened Url
  import opened UncachedProxy
  import opened CachingProxy
  import opened ProxyRefinement

  datatype Thread =
    | Ready(request: string)
      // search_hosts found node i for the host
    | HostFound(request: string, i: nat)
      // search_host_files found node j for the file
    | FileFound(request: string, j: nat)
      // the file has no node; search_hosts is called again and its result used
    | FileMissing(request: string)
    | HostUnknown(request: string)
    | Resolved(request: string, ip: string)
      // connected; the node to stamp, or the node to add, comes next
    | Refreshing(request: string, j: nat)
    | Adding(request: string, ip: string)
    | Done(request: string, reply: Reply, connected: bool)

  datatype State = State(entries: seq<Entry>, threads: map<nat, Thread>, connections: seq<string>)

  /** What the outside decides in a step: the clock, the resolver, fopen. */
  datatype Choice = Choice(now: Time, resolved: Option<string>, canOpen: bool)

  datatype Action = Accept(thread: nat, request: string) | Move(thread: nat, choice: Choice)

  function Put(s: State, t: nat, thread: Thread): State {
    s.(threads := s.threads[t := thread])
  }

  function Connect(s: State, t: nat, ip: string, thread: Thread): State {
    Put(s, t, thread).(connections := s.connections + [ip])
  }

  function StepThread(s: State, config: Config, t: nat, thread: Thread, choice: Choice): State {
    match thread
    case Ready(request) =>
      if !Accepted(request) then Put(s, t, Done(request, ServerError, false))
      else
        var i := FirstHost(s.entries, RequestHost(request));
        Put(s, t, if i < |s.entries| then HostFound(request, i) else HostUnknown(request))
    case HostFound(request, i) =>
      if i >= |s.entries| then s
      else if s.entries[i].blacklisted then Put(s, t, Done(request, Forbidden, false))
      else
        var j := FirstFile(s.entries, Mangle(UriOf(request)));
        Put(s, t, if j < |s.entries| then FileFound(request, j) else FileMissing(request))
    case FileFound(request, j) =>
      if j >= |s.entries| then s
      else if !choice.canOpen then Put(s, t, Done(request, ServerError, false))
      else if Fresh(s.entries[j].stamp, choice.now, config.timeout) then Put(s, t, Done(request, Body(""), false))
      else Connect(s, t, s.entries[j].ip, Refreshing(request, j))
    case FileMissing(request) =>
      var i := FirstHost(s.entries, RequestHost(request));
      if i >= |s.entries| then s
      else if !choice.canOpen then Put(s, t, Done(request, ServerError, false))
      else Connect(s, t, s.entries[i].ip, Adding(request, s.entries[i].ip))
    case HostUnknown(request) =>
      Put(s, t, match choice.resolved
                case None => Done(request, NotFound, false)
                case Some(ip) => Resolved(request, ip))
    case Resolved(request, ip) =>
      var k := FirstHost(s.entries, ip);
      if k < |s.entries| && s.entries[k].blacklisted then Put(s, t, Done(request, Forbidden, false))
      else if !choice.canOpen then Put(s, t, Done(request, ServerError, false))
      else Connect(s, t, ip, Adding(request, ip))
    case Refreshing(request, j) =>
      if j >= |s.entries| then s
      else Put(s.(entries := s.entries[j := s.entries[j].(stamp := choice.now)]), t, Done(request, Body(""), true))
    case Adding(request, ip) =>
      var node := Entry(RequestHost(request), ip, Mangle(UriOf(request)), choice.now, false);
      Put(s.(entries := s.entries + [node]), t, Done(request, Body(""), true))
    case Done(_, _, _) => s
  }

  function Step(s: State, config: Config, a: Action): State {
    match a
    case Accept(t, request) => if t in s.threads || NUL in request then s else Put(s, t, Ready(request))
    case Move(t, choice) => if t in s.threads then StepThread(s, config, t, s.threads[t], choice) else s
  }

  function Exec(s: State, config: Config, actions: seq<Action>): State
    decreases |actions|
  {
    if actions == [] then s else Exec(Step(s, config, actions[0]), config, actions[1..])
  }

  /** main has run create_blacklist before it accepts the first connection. */
  function Start(config: Config): State {
    State(Initial(config), map[], [])
  }

  // ----- the invariant -----

  /** Behind the blacklist prefix no node carries a blacklisted name or address. */
  predicate ListSafe(entries: seq<Entry>, config: Config) {
    BlacklistFirst(entries, config) &&
    forall i | |Initial(config)| <= i < |entries| ::
      !entries[i].blacklisted && entries[i].hostname !in config.names && entries[i].ip !in config.names
  }

  predicate Permitted(request: string, config: Config) {
    RequestHost(request) !in config.names
  }

  /** What each thread has made sure of so far; what it found stays found. */
  predicate ThreadSafe(entries: seq<Entry>, config: Config, thread: Thread) {
    NUL !in thread.request &&
    match thread
    case Ready(request) => true
    case HostFound(request, i) => i < |entries| && i == FirstHost(entries, RequestHost(request))
    case FileFound(request, j) => Permitted(request, config) && |Initial(config)| <= j < |entries|
    case FileMissing(request) => Permitted(request, config) && FirstHost(entries, RequestHost(request)) < |entries|
    case HostUnknown(request) => Permitted(request, config)
    case Resolved(request, ip) => Permitted(request, config)
    case Refreshing(request, j) => Permitted(request, config) && |Initial(config)| <= j < |entries|
    case Adding(request, ip) => Permitted(request, config) && ip !in config.names
    case Done(request, reply, connected) =>
      Permitted(request, config) || !Accepted(request) || (reply == Forbidden && !connected)
  }

  predicate Safe(s: State, config: Config) {
    ListSafe(s.entries, config) &&
    (forall t | t in s.threads :: ThreadSafe(s.entries, config, s.threads[t])) &&
    forall ip | ip in s.connections :: ip !in config.names
  }

  /** A key that is blacklisted meets its blacklist node first; any other is not found in the
      prefix, unless it is unset. */
  lemma SearchSafe(entries: seq<Entry>, config: Config, key: string)
    requires ListSafe(entries, config) && forall n | n in config.names :: NUL !in n
    ensures var i := FirstHost(entries, key);
            (key in config.names ==> i < |entries| && entries[i].blacklisted) &&
            (key !in config.names && i < |entries| ==> !entries[i].blacklisted && entries[i].ip !in config.names)
  {
    var i, n := FirstHost(entries, key), |Initial(config)|;
    PrefixShape(entries, config, 0);
    if key in config.names {
      var j :| 0 <= j < |config.names| && config.names[j] == key;
      PrefixShape(entries, config, j + 1);
      PrefixShape(entries, config, i);
    } else if i < n {
      PrefixShape(entries, config, i);
    }
  }

  lemma FileSearchSafe(entries: seq<Entry>, config: Config, uri: string)
    requires ListSafe(entries, config) && GoodConfig(config) && NUL !in Mangle(uri)
    ensures var j := FirstFile(entries, Mangle(uri)); j < |entries| ==> |Initial(config)| <= j
  {
    var j := FirstFile(entries, Mangle(uri));
    MangledHasNoSpecial(uri);
    if j < |Initial(config)| {
      PrefixShape(entries, config, j);
    }
  }

  /** A longer list: nothing that a thread holds becomes wrong. */
  lemma ThreadKept(entries: seq<Entry>, node: Entry, config: Config, thread: Thread)
    requires ThreadSafe(entries, config, thread)
    ensures ThreadSafe(entries + [node], config, thread)
  {
    LookupStable(entries, [node], RequestHost(thread.request));
  }

  /** A new time stamp changes no search. */
  lemma StampKept(entries: seq<Entry>, j: nat, now: Time, key: string)
    requires j < |entries|
    ensures FirstHost(entries[j := entries[j].(stamp := now)], key) == FirstHost(entries, key)
  {
    var after := entries[j := entries[j].(stamp := now)];
    assert forall i | 0 <= i < |entries| :: HostMatches(after[i], key) <==> HostMatches(entries[i], key);
  }

  lemma ListGrows(entries: seq<Entry>, node: Entry, config: Config)
    requires ListSafe(entries, config) && !node.blacklisted && node.hostname !in config.names &&
             node.ip !in config.names
    ensures ListSafe(entries + [node], config)
  {
    assert (entries + [node])[..|Initial(config)|] == entries[..|Initial(config)|];
  }

  lemma ListStamped(entries: seq<Entry>, j: nat, now: Time, config: Config)
    requires ListSafe(entries, config) && |Initial(config)| <= j < |entries|
    ensures ListSafe(entries[j := entries[j].(stamp := now)], config)
  {
    assert entries[j := entries[j].(stamp := now)][..|Initial(config)|] == entries[..|Initial(config)|];
  }

  /** A thread that moves and leaves the list as it is. */
  lemma MoveKeeps(s: State, s': State, config: Config, t: nat, thread: Thread)
    requires Safe(s, config) && s'.entries == s.entries && s'.threads == s.threads[t := thread]
    requires ThreadSafe(s.entries, config, thread)
    requires s'.connections == s.connections ||
             (exists ip :: ip !in config.names && s'.connections == s.connections + [ip])
    ensures Safe(s', config)
  {
    hide ThreadSafe, ListSafe;
  }

  lemma AddKeeps(s: State, config: Config, t: nat, choice: Choice)
    requires Safe(s, config) && t in s.threads && s.threads[t].Adding?
    ensures Safe(StepThread(s, config, t, s.threads[t], choice), config)
  {
    hide ListSafe, Mangle, UriOf, RequestHost, FirstHost, Initial;
    var thread := s.threads[t];
    assert ThreadSafe(s.entries, config, thread);
    var node := Entry(RequestHost(thread.request), thread.ip, Mangle(UriOf(thread.request)), choice.now, false);
    ListGrows(s.entries, node, config);
    var s' := StepThread(s, config, t, thread, choice);
    forall d | d in s'.threads
      ensures ThreadSafe(s'.entries, config, s'.threads[d])
    {
      if d != t {
        ThreadKept(s.entries, node, config, s.threads[d]);
      }
    }
  }

  lemma RefreshKeeps(s: State, config: Config, t: nat, choice: Choice)
    requires Safe(s, config) && t in s.threads && s.threads[t].Refreshing?
    ensures Safe(StepThread(s, config, t, s.threads[t], choice), config)
  {
    hide ListSafe, Mangle, UriOf, RequestHost, FirstHost, Initial;
    var thread := s.threads[t];
    assert ThreadSafe(s.entries, config, thread);
    ListStamped(s.entries, thread.j, choice.now, config);
    var s' := StepThread(s, config, t, thread, choice);
    forall d | d in s'.threads
      ensures ThreadSafe(s'.entries, config, s'.threads[d])
    {
      if d != t {
        assert ThreadSafe(s.entries, config, s.threads[d]);
        StampKept(s.entries, thread.j, choice.now, RequestHost(s.threads[d].request));
      }
    }
  }

  lemma StepKeeps(s: State, config: Config, a: Action)
    requires Safe(s, config) && GoodConfig(config)
    ensures Safe(Step(s, config, a), config)
  {
    hide Safe, ListSafe, Mangle, UriOf, RequestHost, FirstHost, FirstFile, Initial, Accepted, Fresh;
    SafeParts(s, config);
    var s' := Step(s, config, a);
    match a {
      case Accept(t, request) =>
        if s' != s {
          MoveKeeps(s, s', config, t, Ready(request));
        }
      case Move(t, choice) =>
        if t in s.threads {
          var thread := s.threads[t];
          assert ThreadSafe(s.entries, config, thread);
          if thread.Adding? {
            AddKeeps(s, config, t, choice);
          } else if thread.Refreshing? {
            RefreshKeeps(s, config, t, choice);
          } else if s' != s {
            PlainMoveKeeps(s, config, t, choice);
          }
        }
    }
  }

  /** The moves that neither add a node nor stamp one. */
  lemma PlainMoveKeeps(s: State, config: Config, t: nat, choice: Choice)
    requires Safe(s, config) && GoodConfig(config) && t in s.threads && Step(s, config, Move(t, choice)) != s
    requires !s.threads[t].Adding? && !s.threads[t].Refreshing?
    ensures Safe(Step(s, config, Move(t, choice)), config)
  {
    hide Safe, ListSafe, Mangle, UriOf, RequestHost, FirstHost, FirstFile, Initial, Accepted, Fresh;
    SafeParts(s, config);
    var thread, s' := s.threads[t], Step(s, config, Move(t, choice));
    assert ThreadSafe(s.entries, config, thread);
    SearchSafe(s.entries, config, RequestHost(thread.request));
    if thread.Resolved? {
      SearchSafe(s.entries, config, thread.ip);
    }
    RequestHasNoNul(thread.request);
    FileSearchSafe(s.entries, config, UriOf(thread.request));
    if thread.FileFound? {
      NodePermitted(s.entries, config, thread.j);
    }
    MoveKeeps(s, s', config, t, s'.threads[t]);
  }

  lemma SafeParts(s: State, config: Config)
    requires Safe(s, config)
    ensures ListSafe(s.entries, config) && forall t | t in s.threads :: ThreadSafe(s.entries, config, s.threads[t])
  {
  }

  lemma NodePermitted(entries: seq<Entry>, config: Config, j: nat)
    requires ListSafe(entries, config) && |Initial(config)| <= j < |entries|
    ensures entries[j].ip !in config.names
  {
  }

  lemma {:induction false} RunKeeps(s: State, config: Config, actions: seq<Action>)
    requires Safe(s, config) && GoodConfig(config)
    ensures Safe(Exec(s, config, actions), config)
    decreases |actions|
  {
    hide Safe, Step, GoodConfig;
    if actions != [] {
      StepKeeps(s, config, actions[0]);
      RunKeeps(Step(s, config, actions[0]), config, actions[1..]);
    }
  }

  // ----- the result -----

  /** Blacklist safety. However the threads interleave: no thread ever connects to a blacklisted
      address; a request for a blacklisted host is answered 403 and has made no connection; and
      a thread that looks a host up again finds it. */
  lemma BlacklistSafety(config: Config, actions: seq<Action>)
    requires GoodConfig(config)
    ensures var s := Exec(Start(config), config, actions);
            (forall ip | ip in s.connections :: ip !in config.names) &&
            (forall t | t in s.threads && Accepted(s.threads[t].request) &&
                        RequestHost(s.threads[t].request) in config.names ::
               s.threads[t].Ready? || s.threads[t].HostFound? ||
               s.threads[t] == Done(s.threads[t].request, Forbidden, false)) &&
            (forall t | t in s.threads && s.threads[t].FileMissing? ::
               FirstHost(s.entries, RequestHost(s.threads[t].request)) < |s.entries|)
  {
    hide Exec, Accepted, RequestHost;
    assert Initial(config)[..|Initial(config)|] == Initial(config);
    RunKeeps(Start(config), config, actions);
    var s := Exec(Start(config), config, actions);
    assert forall t | t in s.threads :: ThreadSafe(s.entries, config, s.threads[t]);
  }

  // ----- one thread alone is one sequential request -----

  /** n moves of one thread in a row. */
  function Moves(s: State, config: Config, t: nat, choice: Choice, n: nat): State
    decreases n
  {
    if n == 0 then s else Moves(Step(s, config, Move(t, choice)), config, t, choice, n - 1)
  }

  /** A thread that is not interrupted: the freshness check at one time, the stamp at another. */
  function RunAlone(s: State, config: Config, t: nat, event: Event, w: World): State {
    var before := Choice(event.moment.checked, w.resolve(RequestHost(event.request)), event.moment.canOpen);
    var s1 := Step(s, config, Accept(t, event.request));
    Step(Moves(s1, config, t, before, 3), config, Move(t, before.(now := event.moment.stamped)))
  }

  /** The state and what the sequential proxy did agree. */
  predicate Matches(s: State, s': State, t: nat, served: Served) {
    s'.entries == served.cache.entries && t in s'.threads && s'.threads[t].Done? &&
    SameKind(s'.threads[t].reply, served.reply) && s'.threads[t].connected == served.connection.Some? &&
    s'.connections == s.connections + (if served.connection.Some? then [served.connection.value.ip] else [])
  }

  lemma DoneStays(s: State, config: Config, t: nat, choice: Choice, n: nat)
    requires t in s.threads && s.threads[t].Done?
    ensures Moves(s, config, t, choice, n) == s && Step(s, config, Move(t, choice)) == s
  {
  }

  lemma TwoMoves(s: State, config: Config, t: nat, choice: Choice)
    ensures Moves(s, config, t, choice, 2) == Step(Step(s, config, Move(t, choice)), config, Move(t, choice))
    ensures Moves(s, config, t, choice, 1) == Step(s, config, Move(t, choice))
  {
    hide Step;
    var s1 := Step(s, config, Move(t, choice));
    assert Moves(s, config, t, choice, 2) == Moves(s1, config, t, choice, 1);
  }

  /** From a host that was found. */
  lemma KnownAlone(s: State, s1: State, config: Config, t: nat, event: Event, w: World, files: map<string, string>,
                   before: Choice, i: nat)
    requires i == FirstHost(s.entries, RequestHost(event.request)) < |s.entries|
    requires s1.entries == s.entries && s1.connections == s.connections
    requires t in s1.threads && s1.threads[t] == HostFound(event.request, i)
    requires before.now == event.moment.checked && before.canOpen == event.moment.canOpen
    requires forall e | e in s.entries && e.filename == Mangle(UriOf(event.request)) :: e.filename in files
    ensures Matches(s, Step(Moves(s1, config, t, before, 2), config, Move(t, before.(now := event.moment.stamped))), t,
                    ServeKnownHost(Cache(s.entries, files), i, config.timeout, event.request, w, event.moment))
  {
    hide FirstHost, FirstFile, Mangle, UriOf, RequestHost, RequestPort, Fresh, Moves;
    TwoMoves(s1, config, t, before);
    var s2 := Step(s1, config, Move(t, before));
    var s3 := Step(s2, config, Move(t, before));
    var j := FirstFile(s.entries, Mangle(UriOf(event.request)));
    if s.entries[i].blacklisted {
      assert s2.threads[t] == Done(event.request, Forbidden, false);
    } else if j < |s.entries| {
      assert s2.threads[t] == FileFound(event.request, j) && s.entries[j] in s.entries;
    } else {
      assert s2.threads[t] == FileMissing(event.request);
    }
  }

  /** From a host that was not found. */
  lemma UnknownAlone(s: State, s1: State, config: Config, t: nat, event: Event, w: World, files: map<string, string>,
                     before: Choice)
    requires s1.entries == s.entries && s1.connections == s.connections
    requires t in s1.threads && s1.threads[t] == HostUnknown(event.request)
    requires before == Choice(event.moment.checked, w.resolve(RequestHost(event.request)), event.moment.canOpen)
    ensures Matches(s, Step(Moves(s1, config, t, before, 2), config, Move(t, before.(now := event.moment.stamped))), t,
                    ServeUnknownHost(Cache(s.entries, files), event.request, w, event.moment))
  {
    hide FirstHost, FirstFile, Mangle, UriOf, RequestHost, RequestPort, Fresh, Moves;
    TwoMoves(s1, config, t, before);
    var s2 := Step(s1, config, Move(t, before));
    if w.resolve(RequestHost(event.request)).Some? {
      assert s2.threads[t] == Resolved(event.request, w.resolve(RequestHost(event.request)).value);
    }
  }

  /** Alone, a thread does to the list what the sequential proxy does, gives the same kind of reply
      and makes the same connection; the cached file it needs is on the disk. */
  lemma AloneIsServe(s: State, config: Config, t: nat, event: Event, w: World, files: map<string, string>)
    requires t !in s.threads && NUL !in event.request
    requires forall e | e in s.entries && e.filename == Mangle(UriOf(event.request)) :: e.filename in files
    ensures Matches(s, RunAlone(s, config, t, event, w), t, StepServe(Cache(s.entries, files), config, event, w))
  {
    hide FirstHost, FirstFile, Mangle, UriOf, RequestHost, RequestPort, Accepted, Fresh, Matches, ServeKnownHost,
        ServeUnknownHost;
    var before := Choice(event.moment.checked, w.resolve(RequestHost(event.request)), event.moment.canOpen);
    var s0 := Step(s, config, Accept(t, event.request));
    var s1 := Step(s0, config, Move(t, before));
    var last := Step(Moves(s1, config, t, before, 2), config, Move(t, before.(now := event.moment.stamped)));
    assert RunAlone(s, config, t, event, w) == last;
    var i := FirstHost(s.entries, RequestHost(event.request));
    if !Accepted(event.request) {
      DoneStays(s1, config, t, before, 2);
      DoneStays(s1, config, t, before.(now := event.moment.stamped), 0);
      RefusedMatches(s, s1, config, t, event, w, files);
    } else if i < |s.entries| {
      KnownAlone(s, s1, config, t, event, w, files, before, i);
    } else {
      UnknownAlone(s, s1, config, t, event, w, files, before);
    }
  }

  lemma RefusedMatches(s: State, s1: State, config: Config, t: nat, event: Event, w: World, files: map<string, string>)
    requires !Accepted(event.request) && s1.entries == s.entries && s1.connections == s.connections
    requires t in s1.threads && s1.threads[t] == Done(event.request, ServerError, false)
    ensures Matches(s, s1, t, StepServe(Cache(s.entries, files), config, event, w))
  {
  }
}
