/** The commands one after the other: what a user sees who puts a file, lists it and gets it. Each
    command's server threads are taken to have ended before the next command begins. */
module Commands {
  import opened CStrings
  import opened Codec
  import opened DfsServer
  import opened Layout
  import opened DfsClient
  import opened DfsGet
  import opened DfsTheorems
  import opened Listing
  import opened PutThenGet
  import opened ListGetAgreement
  import Md5Mod
  import Transfer
  import A = Availability

  predicate DifferentServers(servers: seq<Server>) {
    |servers| == SERVERS && forall i, j | 0 <= i < j < |servers| :: servers[i] != servers[j]
  }

  predicate AllAccept(servers: seq<Server>, login: Account) {
    forall s | s in servers :: login in s.accounts
  }

  lemma AcceptedByAll(servers: seq<Server>, login: Account)
    requires AllAccept(servers, login)
    ensures forall i | 0 <= i < |servers| :: login in servers[i].accounts && AcceptedBy(login, servers)[i]
  {
    assert forall i | 0 <= i < |servers| :: servers[i] in servers;
  }

  /** Put a file, under a new name or over parts that it replaces, and get it back, with any servers
      down at either: the get
      writes the file if every part was dealt to a server reached by both, and reports it
      incomplete otherwise. */
  method PutAndGet(login: Account, key: DirKey, name: string, file: string, digest: Md5Mod.Digest, servers: seq<Server>,
                   putUp: seq<bool>, putScans: seq<seq<string>>,
                   getUp: seq<bool>, getScans: seq<seq<string>>, scans: seq<seq<seq<string>>>)
    returns (outcome: Outcome)
    requires DifferentServers(servers) && AllAccept(servers, login)
    requires |putUp| == |putScans| == |getUp| == |getScans| == |scans| == SERVERS
    requires LoginFits(login) && CommandFits("put", name, key) && CommandFits("get", name, key) &&
             key.user == login.user
    requires |file| < INT_LIMIT
    requires forall i | 0 <= i < SERVERS ::
               Overwritten(servers[i].tree, key, name, Md5Mod.Rotation(digest), putUp, i) && |scans[i]| == 2
    requires forall i | 0 <= i < SERVERS && putUp[i] ::
               Home(key.user) in EnsureHome(servers[i].tree, key.user, putScans[i])
    requires forall i | 0 <= i < SERVERS && getUp[i] ::
               ServerReady(AfterPut(servers[i].tree, key, name, file, Md5Mod.Rotation(digest), putUp, i, putScans[i]),
                           key, name, getScans[i], scans[i])
    modifies servers
    ensures outcome == if Covered(Md5Mod.Rotation(digest), putUp, getUp) then Written(file) else Incomplete
  {
    hide Overwritten, ServerReady, PutTree, EnsureHome, CommandFits, ListFits, Fits, LoginFits, Gather, Covered,
         SessionTree, AllAccept, VisitOf, PossibleVisits, Result, FirstPart;
    ghost var before, m, accepts := Trees(servers), Md5Mod.Rotation(digest), AcceptedBy(login, servers);
    AcceptedByAll(servers, login);
    var exited := Put(login, key, name, file, digest, servers, putUp, putScans);
    ghost var after := Trees(servers);
    assert forall i | 0 <= i < SERVERS :: after[i] == AfterPut(before[i], key, name, file, m, putUp, i, putScans[i]);
    outcome := Get(login, key, name, servers, getUp, getScans, scans);
    ghost var visits := Visits(after, accepts, key, getScans, getUp, scans);
    ReadyServers(after, accepts, key, name, getScans, getUp, scans);
    ExactAvailability(before, key, name, file, m, putUp, getUp, putScans, getScans,
                      Places(after, key, getScans, getUp), visits);
  }

  lemma ReadyServers(trees: seq<Tree>, accepts: seq<bool>, key: DirKey, name: string, homeScans: seq<seq<string>>,
                     up: seq<bool>, scans: seq<seq<seq<string>>>)
    requires |trees| == |accepts| == |homeScans| == |up| == |scans|
    requires forall i | 0 <= i < |trees| :: accepts[i]
    requires forall i | 0 <= i < |trees| && up[i] :: ServerReady(trees[i], key, name, homeScans[i], scans[i])
    ensures forall i | 0 <= i < |trees| && up[i] ::
              key in SessionTree(trees[i], key, homeScans[i]) &&
              Harmless(Subdirs(SessionTree(trees[i], key, homeScans[i]), key), name)
    ensures var places := Places(trees, key, homeScans, up);
            PlacesOk(places, name) && PossibleVisits(places, Visits(trees, accepts, key, homeScans, up, scans))
  {
    VisitsArePossible(trees, accepts, key, name, homeScans, up, scans);
  }

  // ----- list and get -----

  function HeldIn(t: Tree, key: DirKey, name: string): set<nat> {
    if key in t then Held(t[key], name) else {}
  }

  /** A session on a tree that another session has just left finds the same directory. */
  lemma SameDirectory(t: Tree, key: DirKey, first: seq<string>, second: seq<string>)
    requires key in SessionTree(t, key, first)
    ensures var t1 := SessionTree(t, key, first);
            var t2 := SessionTree(t1, key, second);
            key in t2 && t2[key] == t1[key] && Subdirs(t2, key) == Subdirs(t1, key)
  {
  }

  /** Each of these is an order in which the session's directory may be read. */
  ghost predicate InSomeOrder(t: Tree, key: DirKey, homeScan: seq<string>, orders: seq<seq<string>>) {
    var t1 := SessionTree(t, key, homeScan);
    key in t1 && forall s | s in orders :: IsScan(s, t1[key], Subdirs(t1, key))
  }

  lemma ListedPlace(t: Tree, key: DirKey, homeScan: seq<string>, up: bool, scans: seq<seq<string>>)
    requires up ==> ServerListable(t, key, homeScan, scans) && InSomeOrder(t, key, homeScan, scans)
    ensures up ==> key in SessionTree(t, key, homeScan)
    ensures var place := PlaceAt(t, key, homeScan, up);
            DotFree(place) && PossibleVisit(place, VisitOf(t, true, key, homeScan, up, scans))
  {
    hide SessionTree, IsScan;
  }

  /** A server's directory is ready for list, and then for get. */
  ghost predicate SeenByBoth(t: Tree, key: DirKey, name: string, listScan: seq<string>, orders: seq<seq<string>>,
                             getScan: seq<string>, scans: seq<seq<string>>)
  {
    var t1 := SessionTree(t, key, listScan);
    ServerListable(t, key, listScan, orders) && InSomeOrder(t, key, listScan, orders) &&
    ServerReady(t1, key, name, getScan, scans)
  }

  /** List and then get with the same servers up: a get that succeeds is of a file that list showed
      complete, and when no server holds more than two parts of it, also conversely. */
  method ListAndGet(login: Account, key: DirKey, name: string, servers: seq<Server>, up: seq<bool>,
                    listScans: seq<seq<string>>, orders: seq<seq<seq<string>>>,
                    getScans: seq<seq<string>>, scans: seq<seq<seq<string>>>)
    returns (table: seq<FileInfo>, outcome: Outcome)
    requires DifferentServers(servers) && AllAccept(servers, login)
    requires |up| == |listScans| == |orders| == |getScans| == |scans| == SERVERS
    requires LoginFits(login) && ListFits(key) && CommandFits("get", name, key) &&
             key.user == login.user
    requires forall i | 0 <= i < SERVERS :: |orders[i]| == 2 && |scans[i]| == 2
    requires forall i | 0 <= i < SERVERS && up[i] ::
               SeenByBoth(servers[i].tree, key, name, listScans[i], orders[i], getScans[i], scans[i])
    modifies servers
    ensures IsTable(table) && (outcome.Written? ==> ListedComplete(table, name))
    ensures (forall i | 0 <= i < SERVERS && up[i] ::
               |HeldIn(SessionTree(old(servers[i].tree), key, listScans[i]), key, name)| <= 2) ==>
              (ListedComplete(table, name) ==> outcome.Written?)
  {
    hide ServerReady, ServerListable, CommandFits, ListFits, Fits, LoginFits, Gather, SessionTree, AllAccept, VisitOf,
         PossibleVisits, IsScan, ListAll, IsTable, DotFree, Held, PlacesOk, ListedComplete;
    ghost var before, accepts := Trees(servers), AcceptedBy(login, servers);
    AcceptedByAll(servers, login);
    ghost var listing := Visits(before, accepts, key, listScans, up, orders);
    ListingPlaces(before, accepts, key, listScans, up, orders);
    ghost var places := Places(before, key, listScans, up);
    var exited;
    table, exited := List(login, key, servers, up, listScans, orders);
    ListedCompleteIff(places, listing, name);
    ghost var after := Trees(servers);
    outcome := Get(login, key, name, servers, up, getScans, scans);
    ghost var fetching := Visits(after, accepts, key, getScans, up, scans);
    ReadyServers(after, accepts, key, name, getScans, up, scans);
    SamePlaces(before, after, key, listScans, getScans, up);
    GetAgreesWithList(places, listing, fetching, name);
    NotRefused(places, fetching, name);
    SmallPlaces(before, key, name, listScans, up);
  }

  lemma ListingPlaces(trees: seq<Tree>, accepts: seq<bool>, key: DirKey, homeScans: seq<seq<string>>, up: seq<bool>,
                      orders: seq<seq<seq<string>>>)
    requires |trees| == |accepts| == |homeScans| == |up| == |orders|
    requires forall i | 0 <= i < |trees| :: accepts[i]
    requires forall i | 0 <= i < |trees| && up[i] ::
               ServerListable(trees[i], key, homeScans[i], orders[i]) &&
               InSomeOrder(trees[i], key, homeScans[i], orders[i])
    ensures forall i | 0 <= i < |trees| && up[i] :: key in SessionTree(trees[i], key, homeScans[i])
    ensures var places := Places(trees, key, homeScans, up);
            (forall p | p in places :: DotFree(p)) &&
            PossibleVisits(places, Visits(trees, accepts, key, homeScans, up, orders))
  {
    hide ServerListable, SessionTree, VisitOf, DotFree, PossibleVisit, IsScan;
    forall i | 0 <= i < |trees|
      ensures up[i] ==> key in SessionTree(trees[i], key, homeScans[i])
      ensures var place := PlaceAt(trees[i], key, homeScans[i], up[i]);
              DotFree(place) && PossibleVisit(place, VisitOf(trees[i], true, key, homeScans[i], up[i], orders[i]))
    {
      ListedPlace(trees[i], key, homeScans[i], up[i], orders[i]);
    }
  }

  lemma SamePlaces(before: seq<Tree>, after: seq<Tree>, key: DirKey, listScans: seq<seq<string>>,
                   getScans: seq<seq<string>>, up: seq<bool>)
    requires |before| == |after| == |listScans| == |getScans| == |up|
    requires forall i | 0 <= i < |before| && up[i] ::
               key in SessionTree(before[i], key, listScans[i]) && after[i] == SessionTree(before[i], key, listScans[i])
    ensures forall i | 0 <= i < |before| && up[i] :: key in SessionTree(after[i], key, getScans[i])
    ensures Places(after, key, getScans, up) == Places(before, key, listScans, up)
  {
    hide SessionTree;
    forall i | 0 <= i < |before|
      ensures up[i] ==> key in SessionTree(after[i], key, getScans[i])
      ensures PlaceAt(after[i], key, getScans[i], up[i]) == PlaceAt(before[i], key, listScans[i], up[i])
    {
      if up[i] {
        SameDirectory(before[i], key, listScans[i], getScans[i]);
      }
    }
  }

  lemma NotRefused(places: seq<Place>, visits: seq<Visit>, name: string)
    requires PlacesOk(places, name) && PossibleVisits(places, visits)
    ensures var (got, exited) := Gather(visits, name, map[]);
            !exited && (Result(got, exited).Written? <==> IsComplete(got))
  {
    hide PlacesOk, PossibleVisits, Gather;
    var none: Got := map[];
    var takes := GatherIsRun(places, visits, name, none);
  }

  lemma SmallPlaces(trees: seq<Tree>, key: DirKey, name: string, homeScans: seq<seq<string>>, up: seq<bool>)
    requires |trees| == |homeScans| == |up|
    requires forall i | 0 <= i < |trees| && up[i] :: key in SessionTree(trees[i], key, homeScans[i])
    ensures (forall i | 0 <= i < |trees| && up[i] ::
               |HeldIn(SessionTree(trees[i], key, homeScans[i]), key, name)| <= 2) ==>
              forall p | p in Places(trees, key, homeScans, up) :: |HeldAt(p, name)| <= 2
  {
    hide SessionTree, Held;
  }

  // ----- a file that is listed and cannot be had -----

  const LAST_TWO: seq<bool> := [false, false, true, true]
  const ONLY_SERVER_TWO: seq<bool> := [false, false, true, false]

  /** Server 2's tree after a put to everybody and a put that found servers 0 and 1 down. */
  function FilledTree(t: Tree, key: DirKey, name: string, file: string, m: nat, first: seq<string>,
                      second: seq<string>): Tree {
    PutTree(PutTree(t, key, name, file, FirstPart(m, EVERYBODY, 2), first), key, name, file, FirstPart(m, LAST_TWO, 2),
            second)
  }

  lemma FilledWithAll(t: Tree, key: DirKey, name: string, file: string, m: nat, first: seq<string>, second: seq<string>,
                      later: seq<string>)
    requires FreshName(t, key, name) && Home(key.user) in EnsureHome(t, key.user, first)
    ensures var t2 := SessionTree(FilledTree(t, key, name, file, m, first, second), key, later);
            key in t2 && Held(t2[key], name) == A.ALL
  {
    hide StoreAll, PiecesFor, WellNamed;
    var p, q := FirstPart(m, EVERYBODY, 2), FirstPart(m, LAST_TWO, 2);
    var t1 := PutTree(t, key, name, file, p, first);
    var dir := SessionTree(t, key, first)[key];
    SessionTreeKeeps(t, key, first);
    assert Held(map[], name) == {};
    SessionAfterPut(t, key, name, file, p, first, second);
    assert Home(key.user) in t1;
    SessionAfterPut(t1, key, name, file, q, second, later);
    TwoPutsFillServerTwo(dir, name, file, m);
  }

  /** Two puts of a file, one that reaches every server and one that finds servers 0 and 1 down. */
  method PutTwice(login: Account, key: DirKey, name: string, file: string, digest: Md5Mod.Digest, servers: seq<Server>,
                  first: seq<seq<string>>, second: seq<seq<string>>)
    requires DifferentServers(servers) && AllAccept(servers, login) && |first| == |second| == SERVERS
    requires LoginFits(login) && key.user == login.user && CommandFits("put", name, key) && |file| < INT_LIMIT
    modifies servers
    ensures servers[2].tree
            == FilledTree(old(servers[2].tree), key, name, file, Md5Mod.Rotation(digest), first[2], second[2])
  {
    hide CommandFits, ListFits, Fits, LoginFits, AllAccept, PutTree, FirstPart;
    AcceptedByAll(servers, login);
    var exited := Put(login, key, name, file, digest, servers, EVERYBODY, first);
    exited := Put(login, key, name, file, digest, servers, LAST_TWO, second);
  }

  /** List and get while only server 2 is up, which holds all four parts. */
  method ListAndGetFromTwo(login: Account, key: DirKey, name: string, servers: seq<Server>,
                           listScans: seq<seq<string>>, orders: seq<seq<seq<string>>>,
                           getScans: seq<seq<string>>, scans: seq<seq<seq<string>>>)
    returns (table: seq<FileInfo>, outcome: Outcome)
    requires DifferentServers(servers) && AllAccept(servers, login)
    requires |listScans| == |orders| == |getScans| == |scans| == SERVERS
    requires LoginFits(login) && key.user == login.user && ListFits(key) &&
             CommandFits("get", name, key)
    requires forall i | 0 <= i < SERVERS :: |orders[i]| == 2 && |scans[i]| == 2
    requires SeenByBoth(servers[2].tree, key, name, listScans[2], orders[2], getScans[2], scans[2])
    requires Held(SessionTree(servers[2].tree, key, listScans[2])[key], name) == A.ALL
    modifies servers
    ensures IsTable(table) && ListedComplete(table, name) && outcome == Incomplete
  {
    hide ServerReady, ServerListable, CommandFits, ListFits, Fits, LoginFits, Gather, SessionTree, AllAccept, VisitOf,
         IsScan, ListAll, IsTable, DotFree, Held, PlacesOk, ListedComplete, IsComplete, PossibleVisits;
    var up := ONLY_SERVER_TWO;
    ghost var before, accepts := Trees(servers), AcceptedBy(login, servers);
    AcceptedByAll(servers, login);
    ListingPlaces(before, accepts, key, listScans, up, orders);
    ghost var listing := Visits(before, accepts, key, listScans, up, orders);
    ghost var places := Places(before, key, listScans, up);
    var exited;
    table, exited := List(login, key, servers, up, listScans, orders);
    ListedCompleteIff(places, listing, name);
    ghost var after := Trees(servers);
    ReadyServers(after, accepts, key, name, getScans, up, scans);
    ghost var fetching := Visits(after, accepts, key, getScans, up, scans);
    SamePlaces(before, after, key, listScans, getScans, up);
    outcome := Get(login, key, name, servers, up, getScans, scans);
    OnlyServerTwo(places, before, key, name, listScans);
    ListedButNotFetched(places[2], listing, fetching, name);
    NotRefused(places, fetching, name);
  }

  /** Put a file with every server up, put it again with servers 0 and 1 down, and let then only
      server 2 be up: list shows the file complete, and get cannot have it. */
  method PutTwiceListAndGet(login: Account, key: DirKey, name: string, file: string, digest: Md5Mod.Digest,
                            servers: seq<Server>,
                            first: seq<seq<string>>, second: seq<seq<string>>,
                            listScans: seq<seq<string>>, orders: seq<seq<seq<string>>>,
                            getScans: seq<seq<string>>, scans: seq<seq<seq<string>>>)
    returns (table: seq<FileInfo>, outcome: Outcome)
    requires DifferentServers(servers) && AllAccept(servers, login)
    requires |first| == |second| == |listScans| == |orders| == |getScans| == |scans| == SERVERS
    requires LoginFits(login) && key.user == login.user && ListFits(key)
    requires CommandFits("put", name, key) && CommandFits("get", name, key) && |file| < INT_LIMIT
    requires forall i | 0 <= i < SERVERS :: |orders[i]| == 2 && |scans[i]| == 2
    requires FreshName(servers[2].tree, key, name) && Home(key.user) in EnsureHome(servers[2].tree, key.user, first[2])
    requires SeenByBoth(FilledTree(servers[2].tree, key, name, file, Md5Mod.Rotation(digest), first[2], second[2]),
                        key, name, listScans[2], orders[2], getScans[2], scans[2])
    modifies servers
    ensures IsTable(table) && ListedComplete(table, name) && outcome == Incomplete
  {
    FilledWithAll(servers[2].tree, key, name, file, Md5Mod.Rotation(digest), first[2], second[2], listScans[2]);
    hide FreshName, SeenByBoth, EnsureHome, CommandFits, ListFits, Fits, LoginFits, AllAccept, SessionTree, IsTable,
         Held, ListedComplete, FilledTree;
    PutTwice(login, key, name, file, digest, servers, first, second);
    table, outcome := ListAndGetFromTwo(login, key, name, servers, listScans, orders, getScans, scans);
  }

  lemma OnlyServerTwo(places: seq<Place>, trees: seq<Tree>, key: DirKey, name: string, homeScans: seq<seq<string>>)
    requires |trees| == |homeScans| == 4 && key in SessionTree(trees[2], key, homeScans[2])
    requires places == Places(trees, key, homeScans, ONLY_SERVER_TWO)
    requires Held(SessionTree(trees[2], key, homeScans[2])[key], name) == A.ALL && PlacesOk(places, name)
    ensures places == [Unreachable, Unreachable, places[2], Unreachable]
    ensures places[2].Place? && PlaceOk(places[2], name) && HeldAt(places[2], name) == A.ALL
  {
    hide SessionTree, Held, PlaceOk;
    assert places[2] in places;
  }

  // ----- that there are such directories -----

  /** The four part files of a name. */
  function Entries(name: string): (entries: seq<string>)
    ensures |entries| == 4
  {
    [EntryName(name, Label(0)), EntryName(name, Label(1)), EntryName(name, Label(2)), EntryName(name, Label(3))]
  }

  /** An order in which a directory with just these files may be read. */
  function PartsScan(name: string): seq<string> {
    Entries(name) + [".", ".."]
  }

  // What the check for a home directory reads at an empty server, and when the user is its only one.
  const NOBODY: seq<string> := [".", ".."]

  function OnlyUser(user: string): seq<string> {
    [user, ".", ".."]
  }

  /** A server with nothing but the user's directory, and the directory of the command. */
  function OneDirectory(key: DirKey, dir: Directory): Tree {
    if key.Sub? then map[Home(key.user) := map[], key := dir] else map[key := dir]
  }

  /** A server that was empty meets what PutTwiceListAndGet asks of server 2, and thereby what
      ListAndGetFromTwo asks: a file that is listed and cannot be had needs no special history. */
  lemma EmptyServerWillDo(key: DirKey, name: string, file: string, m: nat)
    requires IsWord(key.user) && key.user[0] != '.' && CommandFits("put", name, key) && |file| < INT_LIMIT
    ensures var home, scans := OnlyUser(key.user), [PartsScan(name), PartsScan(name)];
            var filled := FilledTree(map[], key, name, file, m, NOBODY, home);
            IsHomeScan(NOBODY, map[]) && IsHomeScan(home, filled) &&
            FreshName(map[], key, name) && Home(key.user) in EnsureHome(map[], key.user, NOBODY) &&
            SeenByBoth(filled, key, name, home, scans, home, scans) &&
            Held(SessionTree(filled, key, home)[key], name) == A.ALL
  {
    var home, scan := OnlyUser(key.user), PartsScan(name);
    var dir := FilledFromNothing(key, name, file, m);
    AlreadyThere(key, dir);
    NameIsWord("put", name, key);
    ScanOfParts(dir, name);
    PartsAreListable(dir, key, name);
    SeenWhenThere(OneDirectory(key, dir), key, name, home, scan);
    hide *;
  }

  lemma SeenWhenThere(t: Tree, key: DirKey, name: string, home: seq<string>, scan: seq<string>)
    requires SessionTree(t, key, home) == t && key in t && Subdirs(t, key) == {}
    requires WellNamed(t[key]) && SmallFiles(t[key]) && IsScan(scan, t[key], {}) && Listable(t[key], {}, scan)
    ensures SeenByBoth(t, key, name, home, [scan, scan], home, [scan, scan])
  {
    hide SessionTree, WellNamed, SmallFiles, IsScan, Listable, Subdirs, LooksLikePart;
    assert forall s | s in [scan, scan] :: s == scan;
  }

  /** The parts of the name, all four, and nothing else. */
  ghost predicate AllParts(dir: Directory, name: string) {
    forall e :: e in dir <==> e in Entries(name)
  }

  lemma EntriesAre(name: string)
    ensures forall k: nat | k < 4 ::
              EntryName(name, Label(k)) == Entries(name)[k] && EntryName(name, Label(k)) in Entries(name)
    ensures forall e | e in Entries(name) :: |e| >= 3 && IsPartName(e)
    ensures forall i, j | 0 <= i < j < 4 :: Entries(name)[i] != Entries(name)[j]
  {
    forall i, j | 0 <= i < j < 4
      ensures Entries(name)[i] != Entries(name)[j]
    {
      EntryNameInjective(name, i, name, j);
    }
    forall i: nat | i < 4
      ensures |Entries(name)[i]| >= 3 && IsPartName(Entries(name)[i])
    {
      EntryNameShape(name, i);
    }
  }

  lemma FilledFromNothing(key: DirKey, name: string, file: string, m: nat) returns (dir: Directory)
    requires IsWord(key.user) && key.user[0] != '.' && |file| < INT_LIMIT
    ensures FilledTree(map[], key, name, file, m, NOBODY, OnlyUser(key.user)) == OneDirectory(key, dir)
    ensures AllParts(dir, name) && SmallFiles(dir) && Held(dir, name) == A.ALL
  {
    var p, q := FirstPart(m, EVERYBODY, 2), FirstPart(m, LAST_TWO, 2);
    var once := StoreAll(map[], name, PiecesFor(file, p));
    dir := StoreAll(once, name, PiecesFor(file, q));
    PutOnNothing(key, name, file, p);
    PutOnOne(key, once, name, file, q);
    TwoPutsFillServerTwo(map[], name, file, m);
    EntriesAre(name);
    hide Label, Part, StoreAll, PiecesFor, FirstPart, EntryName, Entries, Held;
    OnlyParts(map[], name, file, p);
    OnlyParts(once, name, file, q);
    AllHeld(dir, name);
  }

  lemma AllHeld(dir: Directory, name: string)
    requires Held(dir, name) == A.ALL
    ensures forall e | e in Entries(name) :: e in dir
  {
    assert 0 in Held(dir, name) && 1 in Held(dir, name) && 2 in Held(dir, name) && 3 in Held(dir, name);
  }

  lemma OnlyParts(dir: Directory, name: string, file: string, p: nat)
    requires p < 4 && |file| < INT_LIMIT && SmallFiles(dir) && forall e | e in dir :: e in Entries(name)
    ensures var after := StoreAll(dir, name, PiecesFor(file, p));
            SmallFiles(after) && forall e | e in after :: e in Entries(name)
  {
    hide EntryName, Label, StoreAll, PiecesFor, Entries;
    StorePair(dir, name, file, p);
    EntriesAre(name);
    assert Next(p) < 4 && |Part(file, p)| <= |file| && |Part(file, Next(p))| <= |file|;
  }

  lemma PutOnNothing(key: DirKey, name: string, file: string, p: nat)
    requires p < 4 && IsWord(key.user) && key.user[0] != '.'
    ensures !HasPrefixIn(key.user, NOBODY)
    ensures PutTree(map[], key, name, file, p, NOBODY) == OneDirectory(key, StoreAll(map[], name, PiecesFor(file, p)))
  {
    hide StoreAll, PiecesFor;
  }

  lemma PutOnOne(key: DirKey, dir: Directory, name: string, file: string, p: nat)
    requires p < 4
    ensures PutTree(OneDirectory(key, dir), key, name, file, p, OnlyUser(key.user))
         == OneDirectory(key, StoreAll(dir, name, PiecesFor(file, p)))
  {
    hide StoreAll, PiecesFor;
  }

  lemma AlreadyThere(key: DirKey, dir: Directory)
    requires IsWord(key.user) && key.user[0] != '.'
    ensures var t, home := OneDirectory(key, dir), OnlyUser(key.user);
            key in t && t[key] == dir && SessionTree(t, key, home) == t && Subdirs(t, key) == {} && IsHomeScan(home, t)
    ensures IsHomeScan(NOBODY, map[]) && Home(key.user) in EnsureHome(map[], key.user, NOBODY)
  {
  }

  lemma NameIsWord(verb: string, name: string, key: DirKey)
    requires Fits(Words(verb, name, key))
    ensures IsWord(name)
  {
    assert Words(verb, name, key)[1] == name;
  }

  lemma ScanOfParts(dir: Directory, name: string)
    requires AllParts(dir, name)
    ensures IsScan(PartsScan(name), dir, {}) && WellNamed(dir)
  {
    EntriesAre(name);
    hide Entries, IsPartName;
    var scan := PartsScan(name);
    forall i, j | 0 <= i < j < |scan|
      ensures scan[i] != scan[j]
    {
      if i < |Entries(name)| {
        assert scan[i] in Entries(name);
      }
    }
  }

  lemma PartsAreListable(dir: Directory, key: DirKey, name: string)
    requires AllParts(dir, name) && IsWord(name) && PathFits(name, key)
    ensures Listable(dir, {}, PartsScan(name))
  {
    EntriesAreWords(name, key);
    EntriesAre(name);
    hide *;
    assert forall e | e in Entries(name) :: e != "." && e != "..";
    ListingIsShort(Entries(name));
    ListableWhen(dir, name);
  }

  lemma ListableWhen(dir: Directory, name: string)
    requires AllParts(dir, name) && (forall e | e in Entries(name) :: IsWord(e))
    requires |Spaced(Visible(PartsScan(name)))| < Transfer.MAXBUF
    ensures Listable(dir, {}, PartsScan(name))
  {
    hide Entries, IsWord, Spaced, Visible, PartsScan;
  }

  lemma ListingIsShort(entries: seq<string>)
    requires |entries| == 4 && forall e | e in entries :: e != "." && e != ".." && |e| < FIELD
    ensures |Spaced(Visible(entries + [".", ".."]))| < Transfer.MAXBUF
  {
    VisibleEntries(entries, [".", ".."]);
    assert Visible([".", ".."]) == [] && entries + [] == entries;
    SpacedLength(entries);
  }

  lemma EntriesAreWords(name: string, key: DirKey)
    requires IsWord(name) && PathFits(name, key)
    ensures forall e | e in Entries(name) :: IsWord(e) && |e| < FIELD
  {
    forall k: nat | k < 4
      ensures IsWord(Entries(name)[k]) && |Entries(name)[k]| < FIELD
    {
    }
  }

  lemma {:induction false} VisibleEntries(entries: seq<string>, rest: seq<string>)
    requires forall e | e in entries :: e != "." && e != ".."
    ensures Visible(entries + rest) == entries + Visible(rest)
  {
    if entries == [] {
      assert entries + rest == rest;
    } else {
      assert (entries + rest)[1..] == entries[1..] + rest && entries[0] in entries;
      assert forall e | e in entries[1..] :: e in entries;
      VisibleEntries(entries[1..], rest);
    }
  }

  lemma {:induction false} SpacedLength(words: seq<string>)
    requires forall w | w in words :: |w| < FIELD
    ensures |Spaced(words)| <= |words| * FIELD
  {
    if words != [] {
      SpacedLength(words[1..]);
    }
  }
}
