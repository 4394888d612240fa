/** New versions of a file under one name, put with rotations and reaching servers of their own: a
    put replaces the parts that it deals and leaves all others behind. */
module NewVersions {
  import opened Codec
  import opened DfsServer
  import opened Layout
  import opened DfsClient
  import opened DfsGet
  import opened DfsTheorems
  import opened PutThenGet
  import opened StaleParts
  import A = Availability

  // A put: the file, its rotation, and the servers reached.
  datatype Version = Version(file: string, m: nat, up: seq<bool>)

  predicate ForServer(puts: seq<Version>, i: nat) {
    forall v | v in puts :: i < |v.up|
  }

  /** Server i's tree after the puts, as the put command leaves it each time. */
  function AfterVersions(t: Tree, key: DirKey, name: string, puts: seq<Version>, i: nat,
                         homeScans: seq<seq<string>>): Tree
    requires |puts| == |homeScans| && ForServer(puts, i)
    decreases |puts|
  {
    if puts == [] then t
    else
      var n := |puts| - 1;
      AfterPut(AfterVersions(t, key, name, puts[..n], i, homeScans[..n]), key, name, puts[n].file, puts[n].m,
               puts[n].up, i, homeScans[n])
  }

  predicate HomesThere(t: Tree, key: DirKey, name: string, puts: seq<Version>, i: nat, homeScans: seq<seq<string>>)
    requires |puts| == |homeScans| && ForServer(puts, i)
    decreases |puts|
  {
    puts == [] ||
    var n := |puts| - 1;
    HomesThere(t, key, name, puts[..n], i, homeScans[..n]) &&
    (puts[n].up[i] ==>
       Home(key.user) in EnsureHome(AfterVersions(t, key, name, puts[..n], i, homeScans[..n]), key.user, homeScans[n]))
  }

  /** The last put that dealt part k to server i, or -1. */
  function LastDealt(puts: seq<Version>, i: nat, k: nat): (j: int)
    requires ForServer(puts, i)
    ensures -1 <= j < |puts|
    decreases |puts|
  {
    if puts == [] then -1
    else
      var n := |puts| - 1;
      if Gets(puts[n].m, puts[n].up, i, k) then n else LastDealt(puts[..n], i, k)
  }

  function VersionOf(puts: seq<Version>, i: nat, k: nat): string
    requires ForServer(puts, i) && k < 4 && LastDealt(puts, i, k) >= 0
  {
    Part(puts[LastDealt(puts, i, k)].file, k)
  }

  function EverDealt(puts: seq<Version>, i: nat): set<nat>
    requires ForServer(puts, i)
  {
    set k: nat | k < 4 && LastDealt(puts, i, k) >= 0
  }

  /** The directory holds exactly the parts that were ever dealt to server i, each as it was dealt last. */
  predicate HoldsVersions(dir: Directory, name: string, puts: seq<Version>, i: nat)
    requires ForServer(puts, i)
  {
    WellNamed(dir) && Held(dir, name) == EverDealt(puts, i) &&
    forall k | k in EverDealt(puts, i) :: dir[EntryName(name, Label(k))] == VersionOf(puts, i, k)
  }

  predicate TreeHoldsVersions(t: Tree, key: DirKey, name: string, puts: seq<Version>, i: nat)
    requires ForServer(puts, i)
  {
    HoldsVersions(if key in t then t[key] else map[], name, puts, i)
  }

  lemma DealtByLast(puts: seq<Version>, put: Version, i: nat, k: nat)
    requires ForServer(puts, i) && i < |put.up|
    ensures ForServer(puts + [put], i)
    ensures LastDealt(puts + [put], i, k) == if Gets(put.m, put.up, i, k) then |puts| else LastDealt(puts, i, k)
  {
    assert (puts + [put])[..|puts|] == puts;
  }

  lemma StoreVersion(dir: Directory, name: string, puts: seq<Version>, put: Version, i: nat)
    requires ForServer(puts, i) && i < |put.up| && put.up[i] && HoldsVersions(dir, name, puts, i)
    ensures ForServer(puts + [put], i)
    ensures HoldsVersions(StoreAll(dir, name, PiecesFor(put.file, FirstPart(put.m, put.up, i))), name, puts + [put], i)
  {
    hide StoreAll, PiecesFor, Part, EntryName, Label, WellNamed, LastDealt;
    var p := FirstPart(put.m, put.up, i);
    var after, puts' := StoreAll(dir, name, PiecesFor(put.file, p)), puts + [put];
    StorePair(dir, name, put.file, p);
    StoreKeepsNames(dir, name, put.file, p);
    forall k: nat | k < 4
      ensures LastDealt(puts', i, k) == if k == p || k == Next(p) then |puts| else LastDealt(puts, i, k)
    {
      DealtByLast(puts, put, i, k);
    }
    assert EverDealt(puts', i) == EverDealt(puts, i) + {p, Next(p)};
    forall k | k in EverDealt(puts', i)
      ensures after[EntryName(name, Label(k))] == VersionOf(puts', i, k)
    {
      if k != p && k != Next(p) {
        EntryNameInjective(name, k, name, p);
        EntryNameInjective(name, k, name, Next(p));
        assert puts'[..|puts|] == puts;
      }
    }
  }

  lemma OnePut(t: Tree, key: DirKey, name: string, puts: seq<Version>, put: Version, i: nat, homeScan: seq<string>)
    requires ForServer(puts, i) && i < |put.up| && TreeHoldsVersions(t, key, name, puts, i)
    requires put.up[i] ==> Home(key.user) in EnsureHome(t, key.user, homeScan)
    ensures ForServer(puts + [put], i)
    ensures TreeHoldsVersions(AfterPut(t, key, name, put.file, put.m, put.up, i, homeScan), key, name, puts + [put], i)
  {
    hide StoreAll, PiecesFor, HoldsVersions, EnsureHome;
    if put.up[i] {
      SessionTreeKeeps(t, key, homeScan);
      var before := SessionTree(t, key, homeScan)[key];
      StoreVersion(before, name, puts, put, i);
    } else {
      NotReached(if key in t then t[key] else map[], name, puts, put, i);
    }
  }

  lemma NotReached(dir: Directory, name: string, puts: seq<Version>, put: Version, i: nat)
    requires ForServer(puts, i) && i < |put.up| && !put.up[i] && HoldsVersions(dir, name, puts, i)
    ensures ForServer(puts + [put], i) && HoldsVersions(dir, name, puts + [put], i)
  {
    var puts' := puts + [put];
    hide LastDealt, Part, EntryName, Label, WellNamed;
    forall k: nat
      ensures LastDealt(puts', i, k) == LastDealt(puts, i, k)
    {
      DealtByLast(puts, put, i, k);
    }
    assert forall j | 0 <= j < |puts| :: puts'[j] == puts[j];
    assert EverDealt(puts', i) == EverDealt(puts, i);
  }

  /** Puts of any files leave on a server every part ever dealt to it, as it was dealt last. */
  lemma {:induction false} PutsLeaveVersions(t: Tree, key: DirKey, name: string, puts: seq<Version>, i: nat,
                                             homeScans: seq<seq<string>>)
    requires |puts| == |homeScans| && ForServer(puts, i)
    requires FreshName(t, key, name) && HomesThere(t, key, name, puts, i, homeScans)
    ensures TreeHoldsVersions(AfterVersions(t, key, name, puts, i, homeScans), key, name, puts, i)
    decreases |puts|
  {
    if puts == [] {
      NothingDealt(t, key, name, puts, i);
    } else {
      var n := |puts| - 1;
      var first, put, scans := puts[..n], puts[n], homeScans[..n];
      assert first + [put] == puts;
      var t1 := AfterVersions(t, key, name, first, i, scans);
      assert AfterVersions(t, key, name, puts, i, homeScans)
          == AfterPut(t1, key, name, put.file, put.m, put.up, i, homeScans[n]);
      hide *;
      PutsLeaveVersions(t, key, name, first, i, scans);
      OnePut(t1, key, name, first, put, i, homeScans[n]);
    }
  }

  lemma NothingDealt(t: Tree, key: DirKey, name: string, puts: seq<Version>, i: nat)
    requires puts == [] && FreshName(t, key, name)
    ensures TreeHoldsVersions(t, key, name, puts, i)
  {
    var none: Directory := map[];
    assert Held(none, name) == {} && WellNamed(none);
    assert EverDealt(puts, i) == {};
  }

  // ----- a get after the puts -----

  predicate ForServers(puts: seq<Version>, n: nat) {
    forall v | v in puts :: |v.up| == n
  }

  /** What the servers that a get reaches hold. */
  function ReachableParts(puts: seq<Version>, getUp: seq<bool>): (held: seq<set<nat>>)
    requires ForServers(puts, |getUp|)
    ensures |held| == |getUp| && forall i | 0 <= i < |getUp| :: held[i] == if getUp[i] then EverDealt(puts, i) else {}
  {
    seq(|getUp|, i requires 0 <= i < |getUp| => if getUp[i] then EverDealt(puts, i) else {})
  }

  /** Part k of server i is left over from a put before, with other bytes than the last file's. */
  predicate LeftOver(puts: seq<Version>, getUp: seq<bool>, i: nat, k: nat)
    requires puts != [] && ForServers(puts, |getUp|) && i < |getUp|
  {
    getUp[i] && k in EverDealt(puts, i) && VersionOf(puts, i, k) != Part(puts[|puts| - 1].file, k)
  }

  /** Every left-over part is one that the servers before it cannot all miss. */
  ghost predicate LeftOversHidden(puts: seq<Version>, getUp: seq<bool>)
    requires puts != [] && ForServers(puts, |getUp|)
  {
    forall i, k: nat | 0 <= i < |getUp| && LeftOver(puts, getUp, i, k) :: A.Safe(ReachableParts(puts, getUp)[..i], k)
  }

  /** The servers, new to the name before the puts, as the get finds them. */
  ghost predicate PlacesAfterPuts(trees: seq<Tree>, key: DirKey, name: string, puts: seq<Version>, getUp: seq<bool>,
                                  putScans: seq<seq<seq<string>>>, getScans: seq<seq<string>>, places: seq<Place>)
    requires ForServers(puts, |getUp|)
  {
    |trees| == |getUp| == |putScans| == |getScans| == |places| &&
    forall i | 0 <= i < |trees| ::
      |putScans[i]| == |puts| && FreshName(trees[i], key, name) &&
      HomesThere(trees[i], key, name, puts, i, putScans[i]) &&
      var t := AfterVersions(trees[i], key, name, puts, i, putScans[i]);
      (getUp[i] ==> key in SessionTree(t, key, getScans[i]) &&
                    Harmless(Subdirs(SessionTree(t, key, getScans[i]), key), name)) &&
      places[i] == PlaceAt(t, key, getScans[i], getUp[i])
  }

  lemma PlaceHolds(t: Tree, key: DirKey, name: string, puts: seq<Version>, i: nat, getScan: seq<string>, up: bool)
    requires ForServer(puts, i) && TreeHoldsVersions(t, key, name, puts, i)
    requires up ==> key in SessionTree(t, key, getScan) && Harmless(Subdirs(SessionTree(t, key, getScan), key), name)
    ensures var place := PlaceAt(t, key, getScan, up);
            PlaceOk(place, name) && (place.Place? <==> up) && (up ==> HoldsVersions(place.dir, name, puts, i))
  {
    hide HoldsVersions, Harmless, SessionTree;
    SessionTreeKeeps(t, key, getScan);
    if up {
      assert PlaceAt(t, key, getScan, up).dir == if key in t then t[key] else map[];
      assert WellNamed(PlaceAt(t, key, getScan, up).dir)
        by { NamesOf(PlaceAt(t, key, getScan, up).dir, name, puts, i); }
    }
  }

  lemma NamesOf(dir: Directory, name: string, puts: seq<Version>, i: nat)
    requires ForServer(puts, i) && HoldsVersions(dir, name, puts, i)
    ensures WellNamed(dir)
  {
  }

  lemma PlacesHold(trees: seq<Tree>, key: DirKey, name: string, puts: seq<Version>, getUp: seq<bool>,
                   putScans: seq<seq<seq<string>>>, getScans: seq<seq<string>>, places: seq<Place>)
    requires ForServers(puts, |getUp|) && PlacesAfterPuts(trees, key, name, puts, getUp, putScans, getScans, places)
    ensures PlacesOk(places, name) && |places| == |getUp| && HeldSets(places, name) == ReachableParts(puts, getUp)
    ensures forall i | 0 <= i < |places| ::
              (places[i].Place? <==> getUp[i]) && (getUp[i] ==> HoldsVersions(places[i].dir, name, puts, i))
  {
    hide AfterVersions, SessionTree, Harmless, FreshName, HomesThere, HoldsVersions, EverDealt, PlaceOk, PlaceAt,
         TreeHoldsVersions;
    forall i | 0 <= i < |places|
      ensures PlaceOk(places[i], name) && (places[i].Place? <==> getUp[i])
      ensures getUp[i] ==> HoldsVersions(places[i].dir, name, puts, i)
      ensures HeldSets(places, name)[i] == ReachableParts(puts, getUp)[i]
    {
      PutsLeaveVersions(trees[i], key, name, puts, i, putScans[i]);
      PlaceHolds(AfterVersions(trees[i], key, name, puts, i, putScans[i]), key, name, puts, i, getScans[i], getUp[i]);
      HeldAsDealt(places[i], name, puts, getUp, i);
    }
  }

  lemma HeldAsDealt(place: Place, name: string, puts: seq<Version>, getUp: seq<bool>, i: nat)
    requires ForServers(puts, |getUp|) && i < |getUp| && (place.Place? <==> getUp[i])
    requires getUp[i] ==> HoldsVersions(place.dir, name, puts, i)
    ensures HeldAt(place, name) == ReachableParts(puts, getUp)[i]
  {
  }

  lemma HiddenIff(places: seq<Place>, name: string, puts: seq<Version>, getUp: seq<bool>)
    requires puts != [] && ForServers(puts, |getUp|) && |places| == |getUp|
    requires HeldSets(places, name) == ReachableParts(puts, getUp)
    requires forall i | 0 <= i < |places| ::
               (places[i].Place? <==> getUp[i]) && (getUp[i] ==> HoldsVersions(places[i].dir, name, puts, i))
    ensures NoneSent(places, name, puts[|puts| - 1].file) <==> LeftOversHidden(puts, getUp)
  {
    hide A.Safe, HoldsVersions, ReachableParts, Stale, LeftOver;
    var file := puts[|puts| - 1].file;
    forall i: nat, k: nat | i < |places|
      ensures Stale(places[i], name, file, k) <==> LeftOver(puts, getUp, i, k)
    {
      StaleIsLeftOver(places[i], name, puts, getUp, i, k);
    }
  }

  lemma StaleIsLeftOver(place: Place, name: string, puts: seq<Version>, getUp: seq<bool>, i: nat, k: nat)
    requires puts != [] && ForServers(puts, |getUp|) && i < |getUp| && (place.Place? <==> getUp[i])
    requires getUp[i] ==> HoldsVersions(place.dir, name, puts, i)
    ensures Stale(place, name, puts[|puts| - 1].file, k) <==> LeftOver(puts, getUp, i, k)
  {
    hide Part, EntryName, Label, LastDealt, WellNamed;
  }

  /** After any puts of any files under one name, with any servers down each time: every get collects
      exactly the last file's parts, whatever the order of the directories, if and only if the
      parts ever dealt to the servers that it reaches are robust and all left-over parts of older
      files are hidden behind servers that hold the part too. */
  lemma LatestVersionIff(trees: seq<Tree>, key: DirKey, name: string, puts: seq<Version>, getUp: seq<bool>,
                         putScans: seq<seq<seq<string>>>, getScans: seq<seq<string>>, places: seq<Place>)
    requires puts != [] && ForServers(puts, |getUp|)
    requires PlacesAfterPuts(trees, key, name, puts, getUp, putScans, getScans, places)
    ensures (forall visits | PossibleVisits(places, visits) ::
               IsComplete(Gather(visits, name, map[]).0) &&
               FaithfulGot(Gather(visits, name, map[]).0, puts[|puts| - 1].file))
            <==> A.Robust(ReachableParts(puts, getUp)) && LeftOversHidden(puts, getUp)
  {
    hide PlacesAfterPuts, PossibleVisits, Gather, IsComplete, FaithfulGot, A.Robust, LeftOversHidden, NoneSent,
         ReachableParts;
    PlacesHold(trees, key, name, puts, getUp, putScans, getScans, places);
    HiddenIff(places, name, puts, getUp);
    CollectsFileIff(places, name, puts[|puts| - 1].file);
  }

  ghost predicate GrowingParts(puts: seq<Version>)
    requires puts != []
  {
    forall v, k: nat | v in puts && k < 4 :: |Part(v.file, k)| <= |Part(puts[|puts| - 1].file, k)|
  }

  /** And the file that it writes is right in the same cases, when no part gets shorter. */
  lemma LatestFileIff(trees: seq<Tree>, key: DirKey, name: string, puts: seq<Version>, getUp: seq<bool>,
                      putScans: seq<seq<seq<string>>>, getScans: seq<seq<string>>, places: seq<Place>)
    requires puts != [] && ForServers(puts, |getUp|) && GrowingParts(puts)
    requires PlacesAfterPuts(trees, key, name, puts, getUp, putScans, getScans, places)
    ensures (forall visits | PossibleVisits(places, visits) ::
               Result(Gather(visits, name, map[]).0, Gather(visits, name, map[]).1)
               == Written(puts[|puts| - 1].file))
            <==> A.Robust(ReachableParts(puts, getUp)) && LeftOversHidden(puts, getUp)
  {
    hide PlacesAfterPuts, PossibleVisits, Gather, Result, A.Robust, LeftOversHidden, NoneSent, ReachableParts,
         HoldsVersions, Part, EverDealt;
    PlacesHold(trees, key, name, puts, getUp, putScans, getScans, places);
    HiddenIff(places, name, puts, getUp);
    forall p, k: nat | p in places && k < 4 && k in HeldAt(p, name)
      ensures |p.dir[EntryName(name, Label(k))]| <= |Part(puts[|puts| - 1].file, k)|
    {
      var i :| 0 <= i < |places| && places[i] == p;
      NotLonger(p, name, puts, i, k);
    }
    WritesFileIff(places, name, puts[|puts| - 1].file);
  }

  lemma NotLonger(place: Place, name: string, puts: seq<Version>, i: nat, k: nat)
    requires puts != [] && ForServer(puts, i) && GrowingParts(puts) && place.Place? && k < 4
    requires HoldsVersions(place.dir, name, puts, i) && k in HeldAt(place, name)
    ensures |place.dir[EntryName(name, Label(k))]| <= |Part(puts[|puts| - 1].file, k)|
  {
    hide Part, EntryName, Label, WellNamed, LastDealt;
    var v := puts[LastDealt(puts, i, k)];
    assert v in puts;
  }

  // ----- when nothing is left over -----

  /** While left-over parts are hidden, a get that does not give back the last file says so: it never
      writes anything else. */
  lemma NeverWrong(trees: seq<Tree>, key: DirKey, name: string, puts: seq<Version>, getUp: seq<bool>,
                   putScans: seq<seq<seq<string>>>, getScans: seq<seq<string>>, places: seq<Place>, visits: seq<Visit>)
    requires puts != [] && ForServers(puts, |getUp|) && LeftOversHidden(puts, getUp)
    requires PlacesAfterPuts(trees, key, name, puts, getUp, putScans, getScans, places) &&
             PossibleVisits(places, visits)
    ensures Result(Gather(visits, name, map[]).0, Gather(visits, name, map[]).1)
            in {Written(puts[|puts| - 1].file), Incomplete}
  {
    var file := puts[|puts| - 1].file;
    hide PlacesAfterPuts, PossibleVisits, Gather, LeftOversHidden, NoneSent, ReachableParts, HoldsVersions, CollectedAt,
         FaithfulGot;
    PlacesHold(trees, key, name, puts, getUp, putScans, getScans, places);
    HiddenIff(places, name, puts, getUp);
    OnlyTrueParts(places, visits, name, file, |places|);
    WholeWalk(places, visits, name);
    FaithfulResult(Gather(visits, name, map[]).0, file);
  }

  /** Puts of one file leave nothing over, whatever servers each of them reaches. So they make the file
      available under every order if and only if what they dealt is robust. */
  lemma AvailableAfterPuts(trees: seq<Tree>, key: DirKey, name: string, puts: seq<Version>, getUp: seq<bool>,
                           putScans: seq<seq<seq<string>>>, getScans: seq<seq<string>>, places: seq<Place>)
    requires puts != [] && ForServers(puts, |getUp|) && forall v | v in puts :: v.file == puts[|puts| - 1].file
    requires PlacesAfterPuts(trees, key, name, puts, getUp, putScans, getScans, places)
    ensures (forall visits | PossibleVisits(places, visits) ::
               Result(Gather(visits, name, map[]).0, Gather(visits, name, map[]).1)
               == Written(puts[|puts| - 1].file))
            <==> A.Robust(ReachableParts(puts, getUp))
    ensures LeftOversHidden(puts, getUp)
  {
    hide PlacesAfterPuts, PossibleVisits, Gather, Result, A.Robust, A.Safe, ReachableParts, Part, LastDealt;
    forall i: nat, k: nat | i < |getUp|
      ensures !LeftOver(puts, getUp, i, k)
    {
      if k in EverDealt(puts, i) {
        assert puts[LastDealt(puts, i, k)] in puts;
      }
    }
    hide LeftOver;
    LatestFileIff(trees, key, name, puts, getUp, putScans, getScans, places);
  }

  /** The last put wins: after puts of any files under one name, with equal rotations and reaching the
      same servers, a get gives back the last file exactly where it gives back a first one. */
  lemma LastPutWins(trees: seq<Tree>, key: DirKey, name: string, puts: seq<Version>, m: nat, up: seq<bool>,
                    getUp: seq<bool>, putScans: seq<seq<seq<string>>>, getScans: seq<seq<string>>,
                    places: seq<Place>, visits: seq<Visit>)
    requires puts != [] && |up| == |getUp| && forall v | v in puts :: v.m == m && v.up == up
    requires PlacesAfterPuts(trees, key, name, puts, getUp, putScans, getScans, places) &&
             PossibleVisits(places, visits)
    ensures var (got, exited) := Gather(visits, name, map[]);
            Result(got, exited) == if Covered(m, up, getUp) then Written(puts[|puts| - 1].file) else Incomplete
  {
    hide PlacesAfterPuts, PossibleVisits, Gather, HoldsVersions, PlaceOk, PlaceIs, ReachableParts, Covered, Result;
    PlacesHold(trees, key, name, puts, getUp, putScans, getScans, places);
    forall i | 0 <= i < |places|
      ensures PlaceIs(places[i], name, puts[|puts| - 1].file, m, up, getUp, i)
    {
      assert PlaceOk(places[i], name) by { assert places[i] in places; }
      LastPlace(places[i], name, puts, m, up, getUp, i);
    }
    AvailabilityOfPlaces(places, visits, name, puts[|puts| - 1].file, m, up, getUp);
  }

  lemma LastPlace(place: Place, name: string, puts: seq<Version>, m: nat, up: seq<bool>, getUp: seq<bool>, i: nat)
    requires puts != [] && |up| == |getUp| && i < |up| && forall v | v in puts :: v.m == m && v.up == up
    requires PlaceOk(place, name) && (place.Place? <==> getUp[i]) &&
             (getUp[i] ==> HoldsVersions(place.dir, name, puts, i))
    ensures PlaceIs(place, name, puts[|puts| - 1].file, m, up, getUp, i)
  {
    hide Part, EntryName, Label, WellNamed, FirstPart, Harmless;
    forall k: nat
      ensures LastDealt(puts, i, k) == if Gets(m, up, i, k) then |puts| - 1 else -1
    {
      DealtAlike(puts, m, up, i, k);
    }
    hide LastDealt;
    if up[i] {
      assert EverDealt(puts, i) == {FirstPart(m, up, i), Next(FirstPart(m, up, i))};
    } else {
      assert EverDealt(puts, i) == {};
    }
  }

  lemma {:induction false} DealtAlike(puts: seq<Version>, m: nat, up: seq<bool>, i: nat, k: nat)
    requires i < |up| && forall v | v in puts :: v.m == m && v.up == up
    ensures LastDealt(puts, i, k) == if Gets(m, up, i, k) then |puts| - 1 else -1
    decreases |puts|
  {
    hide Gets;
    if puts != [] {
      DealtAlike(puts[..|puts| - 1], m, up, i, k);
    }
  }

  // ----- a full put over a full put -----

  /** With every server up all the time, the new version of a file whose parts have all changed comes
      back under every order if and only if the two files have the same rotation. */
  lemma NewVersionIff(before: Version, after: Version)
    requires before.up == after.up == EVERYBODY
    requires forall k: nat | k < 4 :: Part(before.file, k) != Part(after.file, k)
    ensures ForServers([before, after], 4)
    ensures A.Robust(ReachableParts([before, after], EVERYBODY)) && LeftOversHidden([before, after], EVERYBODY)
            <==> before.m % 4 == after.m % 4
  {
    var puts := [before, after];
    hide Part, A.Robust, A.Safe;
    forall i: nat, k: nat | i < 4 && k < 4
      ensures ForServer(puts, i)
      ensures LastDealt(puts, i, k) == if Gets(after.m, EVERYBODY, i, k) then 1
                                       else if Gets(before.m, EVERYBODY, i, k) then 0 else -1
    {
      DealtTwice(before, after, i, k);
    }
    hide LastDealt, Gets;
    if before.m % 4 == after.m % 4 {
      forall i: nat, k: nat | i < 4
        ensures Gets(before.m, EVERYBODY, i, k) <==> Gets(after.m, EVERYBODY, i, k)
      {
        SameRotation(before.m, after.m, i, k);
      }
      AllPartsTwice(ReachableParts(puts, EVERYBODY), after.m);
    } else {
      var k := LeftAtFirst(before.m, after.m);
      assert LeftOver(puts, EVERYBODY, 0, k);
      NothingIsSafe(ReachableParts(puts, EVERYBODY)[..0], k);
    }
  }

  lemma DealtTwice(before: Version, after: Version, i: nat, k: nat)
    requires before.up == after.up == EVERYBODY && i < 4
    ensures ForServer([before, after], i)
    ensures LastDealt([before, after], i, k) == if Gets(after.m, EVERYBODY, i, k) then 1
                                                else if Gets(before.m, EVERYBODY, i, k) then 0 else -1
  {
    hide Gets;
    assert [before, after][..1] == [before] && [before][..0] == [];
    assert LastDealt([], i, k) == -1;
    assert LastDealt([before], i, k) == if Gets(before.m, EVERYBODY, i, k) then 0 else -1;
  }

  lemma SameRotation(m: nat, n: nat, i: nat, k: nat)
    requires m % 4 == n % 4 && i < 4
    ensures Gets(m, EVERYBODY, i, k) <==> Gets(n, EVERYBODY, i, k)
  {
    SumOfResidues(m, Rank(EVERYBODY, i));
    SumOfResidues(n, Rank(EVERYBODY, i));
  }

  /** The first server keeps a part of the first put when the second has another rotation. */
  lemma LeftAtFirst(m: nat, n: nat) returns (k: nat)
    requires m % 4 != n % 4
    ensures k < 4 && Gets(m, EVERYBODY, 0, k) && !Gets(n, EVERYBODY, 0, k)
  {
    var p, q := m % 4, n % 4;
    k := if p == Next(q) then Next(p) else p;
  }

  lemma NothingIsSafe(held: seq<set<nat>>, k: nat)
    requires held == []
    ensures !A.Safe(held, k)
  {
  }

  lemma AllPartsTwice(held: seq<set<nat>>, m: nat)
    requires |held| == 4 && forall i: nat, k: nat | i < 4 && k < 4 :: k in held[i] <==> Gets(m, EVERYBODY, i, k)
    ensures A.Robust(held)
  {
    hide Gets, Distance;
    forall k: nat | k < 4
      ensures A.Safe(held, k)
    {
      var d := Distance(m, k);
      FullPutHolders(m, d, k);
      FullPutHolders(m, Before(d), k);
      var i, j := if d == 0 then 0 else Before(d), if d == 0 then 3 else d;
      A.HolderIsEarlier(held, i, j);
      assert k in held[j] && k in A.Earlier(held, j);
    }
  }
}
