/** The proxy with cache and blacklist: its decision tree over the host list and the cached files. */
module CachingProxy {
  import opened HostList
  import opened Url
  import opened UncachedProxy
  import BlacklistFile
  import Transfer

  // The list and the disk.
  datatype Cache = Cache(entries: seq<Entry>, files: map<string, string>)

  /** What the outside does during one request: the time of the freshness check, the time a fetch
      is answered, the time its entry is stamped, and whether fopen works. */
  datatype Moment = Moment(checked: Time, fetched: Time, stamped: Time, canOpen: bool)

  datatype Connection = Connection(ip: string, port: int)

  // The outcome of a request: the new cache, the reply, and the connection made, if any.
  datatype Served = Served(cache: Cache, reply: Reply, connection: Option<Connection>)

  predicate Accepted(request: string) {
    IsGet(request) && !("undefined" <= VersionOf(request))
  }

  predicate Fresh(stamp: Time, now: Time, timeout: int) {
    now.sec - stamp.sec <= timeout
  }

  const MICROSECONDS: int := 1_000_000

  predicate IsClockTime(t: Time) {
    0 <= t.usec < MICROSECONDS
  }

  /** The true age of a copy, in microseconds. */
  function Age(stamp: Time, now: Time): int {
    (now.sec - stamp.sec) * MICROSECONDS + (now.usec - stamp.usec)
  }

  /** What comparing whole seconds means for the true age: a copy of some age counts as fresh at
      all times of the clock if and only if it is no older than the timeout, and at some times if
      and only if it is less than a second older. */
  lemma AgeDecides(age: int, timeout: int)
    ensures (forall stamp, now | IsClockTime(stamp) && IsClockTime(now) && Age(stamp, now) == age ::
               Fresh(stamp, now, timeout))
            <==> age <= timeout * 1_000_000
    ensures (exists stamp, now ::
               IsClockTime(stamp) && IsClockTime(now) && Age(stamp, now) == age && Fresh(stamp, now, timeout))
            <==> age < (timeout + 1) * 1_000_000
  {
    var seconds, rest := age / MICROSECONDS, age % MICROSECONDS;
    if age > timeout * MICROSECONDS {
      var stamp, now := if rest == 0 then Time(0, 0) else Time(0, MICROSECONDS - rest),
                        if rest == 0 then Time(seconds, 0) else Time(seconds + 1, 0);
      assert IsClockTime(stamp) && IsClockTime(now) && Age(stamp, now) == age && !Fresh(stamp, now, timeout);
    }
    if age < (timeout + 1) * MICROSECONDS {
      assert IsClockTime(Time(0, 0)) && IsClockTime(Time(seconds, rest)) && Age(Time(0, 0), Time(seconds, rest)) == age;
      assert Fresh(Time(0, 0), Time(seconds, rest), timeout);
    }
  }

  // ----- the decision tree, on values -----

  /** The answer of the server at an address is stored under a file name and sent on. */
  function Fetched(cache: Cache, entries: seq<Entry>, filename: string, ip: string, request: string,
                   w: World, moment: Moment): Served
  {
    var body := w.origin(ip, RequestPort(request), request, moment.fetched);
    Served(Cache(entries, cache.files[filename := body]), Body(body), Some(Connection(ip, RequestPort(request))))
  }

  function ServeKnownFile(cache: Cache, j: nat, timeout: int, request: string, w: World, moment: Moment): Served
    requires j < |cache.entries|
  {
    var node := cache.entries[j];
    if Fresh(node.stamp, moment.checked, timeout) then
      if moment.canOpen && node.filename in cache.files then Served(cache, Body(cache.files[node.filename]), None)
      else Served(cache, ServerError, None)
    else if moment.canOpen then
      Fetched(cache, cache.entries[j := node.(stamp := moment.stamped)], node.filename, node.ip, request, w, moment)
    else Served(cache, ServerError, None)
  }

  /** A first copy for this file name, from an address already known or just resolved. */
  function ServeNewFile(cache: Cache, ip: string, request: string, w: World, moment: Moment): Served {
    var filename := Mangle(UriOf(request));
    if moment.canOpen then
      Fetched(cache, cache.entries + [Entry(RequestHost(request), ip, filename, moment.stamped, false)],
              filename, ip, request, w, moment)
    else Served(cache, ServerError, None)
  }

  /** The host is in the list, at position i. */
  function ServeKnownHost(cache: Cache, i: nat, timeout: int, request: string, w: World, moment: Moment): Served
    requires i < |cache.entries|
  {
    if cache.entries[i].blacklisted then Served(cache, Forbidden, None)
    else
      var j := FirstFile(cache.entries, Mangle(UriOf(request)));
      if j < |cache.entries| then ServeKnownFile(cache, j, timeout, request, w, moment)
      else ServeNewFile(cache, cache.entries[i].ip, request, w, moment)
  }

  /** The host is not in the list; its address may be, as a blacklisted one. */
  function ServeUnknownHost(cache: Cache, request: string, w: World, moment: Moment): Served {
    match w.resolve(RequestHost(request)) {
      case None => Served(cache, NotFound, None)
      case Some(ip) =>
        var k := FirstHost(cache.entries, ip);
        if k < |cache.entries| && cache.entries[k].blacklisted then Served(cache, Forbidden, None)
        else ServeNewFile(cache, ip, request, w, moment)
    }
  }

  function Serve(cache: Cache, timeout: int, request: string, w: World, moment: Moment): Served {
    if !Accepted(request) then Served(cache, ServerError, None)
    else
      var i := FirstHost(cache.entries, RequestHost(request));
      if i < |cache.entries| then ServeKnownHost(cache, i, timeout, request, w, moment)
      else ServeUnknownHost(cache, request, w, moment)
  }

  // ----- the program -----

  /** timestamp_difference: 0 when the copy is within the timeout, see AgeDecides for what that means in true time. */
  method TimestampDifference(stamp: Time, difference: int, now: Time) returns (late: int)
    ensures late == 0 <==> Fresh(stamp, now, difference)
  {
    if now.sec - stamp.sec <= difference {
      late := 0;
    } else {
      late := 1;
    }
  }

  /** The fetch loop: every piece read goes both to the file and to the client. */
  method StoreAndForward(answer: string) returns (stored: string, sent: string)
    ensures stored == answer && sent == answer
  {
    stored, sent := "", "";
    var rest := answer;
    var n := Transfer.MAXBUF;
    while n != 0
      invariant stored + rest == answer && sent == stored
      invariant n == 0 ==> rest == ""
      decreases |rest|, n
    {
      n := ReadSome(rest);
      var buf := rest[..n];
      stored := stored + buf;
      sent := sent + buf;
      rest := rest[n..];
    }
  }

  /** The chunk loop that sends a cached file: full buffers while more than one is left, then the
      rest, which may be empty. */
  method SendCached(file: string) returns (sent: string)
    ensures sent == file
  {
    sent := "";
    var bytesLeft, position := |file|, 0;
    while bytesLeft > Transfer.MAXBUF
      invariant 0 <= position && position + bytesLeft == |file| && 0 <= bytesLeft
      invariant sent == file[..position]
      decreases bytesLeft
    {
      sent := sent + file[position..position + Transfer.MAXBUF];
      position := position + Transfer.MAXBUF;
      bytesLeft := bytesLeft - Transfer.MAXBUF;
    }
    sent := sent + file[position..position + bytesLeft];
  }

  /** The file name is a copy of the URI, changed in place. */
  method MangledName(uri: string) returns (filename: string)
    ensures filename == Mangle(uri)
  {
    var chars := new char[|uri|](i requires 0 <= i < |uri| => uri[i]);
    assert chars[..] == uri;
    MangleInPlace(chars);
    filename := chars[..];
  }

  class CachingProxy {
    var hosts: HostList
    var files: map<string, string>
    const timeout: int

    ghost predicate Valid()
      reads this, hosts, hosts.spine
    {
      hosts.Valid()
    }

    ghost function State(): Cache
      reads this, hosts, hosts.spine
    {
      Cache(hosts.Entries(), files)
    }

    /** main: an empty list, then the blacklist. */
    constructor (timeout: int, disk: map<string, string>, blacklist: string, filename: string, now: Time)
      ensures Valid() && fresh(hosts) && fresh(hosts.spine)
      ensures this.timeout == timeout && files == disk
      ensures State().entries == InitialEntries(BlacklistFile.Hosts(blacklist), filename, now)
    {
      hide HostList.Valid, HostList.Entries, BlacklistEntries, BlacklistFile.Hosts;
      this.timeout := timeout;
      files := disk;
      var list := new HostList();
      CreateBlacklist(list, blacklist, filename, now);
      hosts := list;
    }

    /** Store the server's answer under a file name and send it on. */
    method FetchInto(filename: string, ip: string, port: int, request: string, w: World, moment: Moment)
      returns (reply: Reply, connection: Option<Connection>)
      modifies this`files
      ensures files == old(files)[filename := w.origin(ip, port, request, moment.fetched)]
      ensures reply == Body(w.origin(ip, port, request, moment.fetched)) && connection == Some(Connection(ip, port))
    {
      var stored, sent := StoreAndForward(w.origin(ip, port, request, moment.fetched));
      files := files[filename := stored];
      reply, connection := Body(sent), Some(Connection(ip, port));
    }

    method ProxyGet(request: string, w: World, moment: Moment) returns (reply: Reply, connection: Option<Connection>)
      requires Valid()
      modifies this`files, hosts`spine, hosts.spine
      ensures Valid() && hosts == old(hosts)
      ensures Served(State(), reply, connection) == Serve(old(State()), timeout, request, w, moment)
    {
      hide ServeKnownHost, ServeUnknownHost, UriOf, VersionOf, IsGet, Target, FirstHost, HostList.Valid,
           HostList.Entries;
      if !IsGet(request) || "undefined" <= VersionOf(request) {
        return ServerError, None;
      }
      var host, port := ParseTarget(UriOf(request));
      var filename := MangledName(UriOf(request));
      var current := hosts.SearchHosts(host);
      if current != null {
        reply, connection := KnownHost(current, host, port, filename, request, w, moment);
      } else {
        reply, connection := UnknownHost(host, port, filename, request, w, moment);
      }
    }

    method KnownHost(current: Node, host: string, port: int, filename: string, request: string, w: World,
                     moment: Moment)
      returns (reply: Reply, connection: Option<Connection>)
      requires Valid() && host == RequestHost(request) && port == RequestPort(request)
      requires filename == Mangle(UriOf(request))
      requires var i := FirstHost(hosts.Entries(), host); i < |hosts.spine| && hosts.spine[i] == current
      modifies this`files, hosts`spine, hosts.spine
      ensures Valid() && hosts == old(hosts)
      ensures Served(State(), reply, connection) ==
              ServeKnownHost(old(State()), FirstHost(old(State()).entries, host), timeout, request, w, moment)
    {
      hide ServeKnownFile, ServeNewFile, RequestHost, RequestPort, FirstHost, FirstFile, Mangle, UriOf,
          HostList.Valid, HostList.Entries;
      connection := None;
      if !current.blacklisted {
        var node := hosts.SearchHostFiles(filename);
        if node != null {
          reply, connection := ServeNode(node, request, port, w, moment);
        } else {
          var again := hosts.SearchHosts(host);
          reply, connection := AddAndFetch(host, again.ip, port, filename, request, w, moment);
        }
      } else {
        reply := Forbidden;
      }
    }

    method UnknownHost(host: string, port: int, filename: string, request: string, w: World, moment: Moment)
      returns (reply: Reply, connection: Option<Connection>)
      requires Valid() && host == RequestHost(request) && port == RequestPort(request)
      requires filename == Mangle(UriOf(request))
      modifies this`files, hosts`spine, hosts.spine
      ensures Valid() && hosts == old(hosts)
      ensures Served(State(), reply, connection) == ServeUnknownHost(old(State()), request, w, moment)
    {
      hide ServeNewFile, RequestHost, RequestPort, FirstHost, Mangle, UriOf, HostList.Valid, HostList.Entries;
      connection := None;
      var entry := w.resolve(host);
      match entry {
        case Some(ip) =>
          var current := hosts.SearchHosts(ip);
          if current != null && current.blacklisted {
            reply := Forbidden;
          } else {
            reply, connection := AddAndFetch(host, ip, port, filename, request, w, moment);
          }
        case None =>
          reply := NotFound;
      }
    }

    /** The request itself is cached: send the copy, or refresh it in place. */
    method ServeNode(node: Node, request: string, port: int, w: World, moment: Moment)
      returns (reply: Reply, connection: Option<Connection>)
      requires Valid() && port == RequestPort(request)
      requires var j := FirstFile(hosts.Entries(), Mangle(UriOf(request))); j < |hosts.spine| && hosts.spine[j] == node
      modifies this`files, hosts.spine
      ensures Valid() && hosts == old(hosts) && hosts.spine == old(hosts.spine)
      ensures Served(State(), reply, connection) ==
              ServeKnownFile(old(State()), FirstFile(old(State()).entries, Mangle(UriOf(request))), timeout, request,
                             w, moment)
    {
      hide HostList.Valid, HostList.Entries, RequestPort, Mangle, UriOf, FirstFile;
      ghost var j := FirstFile(hosts.Entries(), Mangle(UriOf(request)));
      connection := None;
      var late := TimestampDifference(node.stamp, timeout, moment.checked);
      if late == 0 {
        if moment.canOpen && node.filename in files {
          var sent := SendCached(files[node.filename]);
          reply := Body(sent);
        } else {
          reply := ServerError;
        }
      } else {
        if moment.canOpen {
          reply, connection := FetchInto(node.filename, node.ip, port, request, w, moment);
          hosts.Touch(node, j, moment.stamped);
        } else {
          reply := ServerError;
        }
      }
    }

    /** A first copy, and its new node. */
    method AddAndFetch(host: string, ip: string, port: int, filename: string, request: string, w: World, moment: Moment)
      returns (reply: Reply, connection: Option<Connection>)
      requires Valid() && host == RequestHost(request) && port == RequestPort(request)
      requires filename == Mangle(UriOf(request))
      modifies this`files, hosts`spine, hosts.spine
      ensures Valid() && hosts == old(hosts)
      ensures Served(State(), reply, connection) == ServeNewFile(old(State()), ip, request, w, moment)
    {
      hide HostList.Valid, HostList.Entries, RequestPort, RequestHost, Mangle, UriOf;
      connection := None;
      if moment.canOpen {
        reply, connection := FetchInto(filename, ip, port, request, w, moment);
        hosts.AddHost(host, ip, filename, false, moment.stamped);
      } else {
        reply := ServerError;
      }
    }
  }

  /** create_blacklist: a node for every line, host name and address alike. */
  method CreateBlacklist(hosts: HostList, content: string, filename: string, now: Time)
    requires hosts.Valid()
    modifies hosts`spine, hosts.spine
    ensures hosts.Valid() && hosts.head == old(hosts.head)
    ensures |old(hosts.spine)| <= |hosts.spine| && hosts.spine[..|old(hosts.spine)|] == old(hosts.spine)
    ensures forall i | |old(hosts.spine)| <= i < |hosts.spine| :: fresh(hosts.spine[i])
    ensures hosts.Entries() == old(hosts.Entries()) + BlacklistEntries(BlacklistFile.Hosts(content), filename, now)
  {
    hide HostList.Valid, HostList.Entries, BlacklistEntries, BlacklistFile.Hosts;
    assert BlacklistEntries(BlacklistFile.Hosts(""), filename, now) == [] by {
      NoBlacklist(filename, now);
    }
    var rest := content;
    ghost var entries, all := hosts.Entries(), BlacklistEntries(BlacklistFile.Hosts(content), filename, now);
    assert entries + all == hosts.Entries() + BlacklistEntries(BlacklistFile.Hosts(rest), filename, now);
    while rest != ""
      invariant hosts.Valid() && hosts.head == old(hosts.head)
      invariant |old(hosts.spine)| <= |hosts.spine| && hosts.spine[..|old(hosts.spine)|] == old(hosts.spine)
      invariant forall i | |old(hosts.spine)| <= i < |hosts.spine| :: fresh(hosts.spine[i])
      invariant hosts.Entries() + BlacklistEntries(BlacklistFile.Hosts(rest), filename, now) == entries + all
      decreases |rest|
    {
      var n := BlacklistFile.LineLength(rest);
      BlacklistStep(rest, filename, now);
      ghost var before, later := hosts.Entries(), BlacklistEntries(BlacklistFile.Hosts(rest[n..]), filename, now);
      hosts.AddHost(rest[..n - 1], rest[..n - 1], filename, true, now);
      AppendOne(before, Entry(rest[..n - 1], rest[..n - 1], filename, now, true), later);
      rest := rest[n..];
    }
  }

  lemma AppendOne(before: seq<Entry>, entry: Entry, later: seq<Entry>)
    ensures before + [entry] + later == before + ([entry] + later)
  {
  }

  lemma NoBlacklist(filename: string, now: Time)
    ensures BlacklistEntries(BlacklistFile.Hosts(""), filename, now) == []
  {
  }

  lemma BlacklistStep(content: string, filename: string, now: Time)
    requires content != ""
    ensures var n := BlacklistFile.LineLength(content);
            BlacklistEntries(BlacklistFile.Hosts(content), filename, now) ==
            [Entry(content[..n - 1], content[..n - 1], filename, now, true)]
            + BlacklistEntries(BlacklistFile.Hosts(content[n..]), filename, now)
  {
    var n := BlacklistFile.LineLength(content);
    assert BlacklistFile.Hosts(content)[1..] == BlacklistFile.Hosts(content[n..]);
  }

  function BlacklistEntries(names: seq<string>, filename: string, now: Time): (entries: seq<Entry>)
    ensures |entries| == |names|
    ensures forall i | 0 <= i < |names| :: entries[i] == Entry(names[i], names[i], filename, now, true)
  {
    if names == [] then []
    else [Entry(names[0], names[0], filename, now, true)] + BlacklistEntries(names[1..], filename, now)
  }

  /** The list when the first request comes: the head, and a node per blacklisted name. */
  function InitialEntries(names: seq<string>, filename: string, now: Time): seq<Entry> {
    [Entry(UNSET, UNSET, UNSET, Time(0, 0), false)] + BlacklistEntries(names, filename, now)
  }
}
