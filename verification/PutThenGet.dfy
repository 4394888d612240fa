/** One put followed by one get, with any servers down at either: exactly when the file comes
    back. */
module PutThenGet {
  import opened Codec
  import opened DfsServer
  import opened Layout
  import opened DfsClient
  import opened DfsGet
  import opened DfsTheorems
  import A = Availability

  // ----- what a put session changes -----

  lemma StoreTwo(dir: Directory, name: string, pieces: seq<Piece>)
    requires |pieces| == 2
    ensures StoreAll(dir, name, pieces) ==
            dir[EntryName(name, pieces[0].tag) := pieces[0].data][EntryName(name, pieces[1].tag) := pieces[1].data]
  {
    assert pieces[1..][1..] == [];
    assert StoreAll(dir[EntryName(name, pieces[0].tag) := pieces[0].data], name, pieces[1..])
        == StoreAll(dir[EntryName(name, pieces[0].tag) := pieces[0].data]
                       [EntryName(name, pieces[1].tag) := pieces[1].data], name, []);
  }

  /** Rotation p stores parts p and p + 1 of the name, and no other file changes. */
  lemma StorePair(dir: Directory, name: string, file: string, p: nat)
    requires p < 4
    ensures var q, after := Next(p), StoreAll(dir, name, PiecesFor(file, p));
            Held(after, name) == Held(dir, name) + {p, q} &&
            after[EntryName(name, Label(p))] == Part(file, p) && after[EntryName(name, Label(q))] == Part(file, q) &&
            (forall e | e in dir && e != EntryName(name, Label(p)) && e != EntryName(name, Label(q)) ::
               e in after && after[e] == dir[e]) &&
            forall e | e in after && e !in dir :: e == EntryName(name, Label(p)) || e == EntryName(name, Label(q))
  {
    hide EntryName, Label, Part;
    var q := Next(p);
    StoreTwo(dir, name, PiecesFor(file, p));
    forall k: nat, j: nat | k < 4 && j < 4
      ensures EntryName(name, Label(k)) == EntryName(name, Label(j)) <==> k == j
    {
      EntryNameInjective(name, k, name, j);
    }
  }

  lemma StoreKeepsNames(dir: Directory, name: string, file: string, p: nat)
    requires p < 4 && WellNamed(dir)
    ensures WellNamed(StoreAll(dir, name, PiecesFor(file, p)))
  {
    hide IsPartName, EntryName, Label, Part, Held, StoreAll, PiecesFor;
    StorePair(dir, name, file, p);
    EntryNameShape(name, p);
    EntryNameShape(name, Next(p));
  }

  /** A put for one name leaves the parts of every other name alone. */
  lemma OtherNamesUntouched(dir: Directory, name: string, file: string, p: nat, other: string, k: nat)
    requires p < 4 && k < 4 && other != name
    ensures var e, after := EntryName(other, Label(k)), StoreAll(dir, name, PiecesFor(file, p));
            (e in after <==> e in dir) && (e in dir ==> after[e] == dir[e])
  {
    hide EntryName, Label, Part, Held, StoreAll, PiecesFor;
    StorePair(dir, name, file, p);
    EntryNameInjective(other, k, name, p);
    EntryNameInjective(other, k, name, Next(p));
  }

  /** The directory that the next get session reads after a put session. */
  lemma SessionAfterPut(t: Tree, key: DirKey, name: string, file: string, p: nat, putScan: seq<string>,
                        getScan: seq<string>)
    requires p < 4 && Home(key.user) in EnsureHome(t, key.user, putScan)
    ensures var t1 := PutTree(t, key, name, file, p, putScan);
            key in SessionTree(t, key, putScan) && key in SessionTree(t1, key, getScan) &&
            SessionTree(t1, key, getScan)[key] ==
            StoreAll(SessionTree(t, key, putScan)[key], name, PiecesFor(file, p))
  {
    hide StoreAll, PiecesFor;
  }

  // ----- availability -----

  /** The name has not been used on this server, and its files are part files. */
  predicate FreshName(t: Tree, key: DirKey, name: string) {
    key in t ==> WellNamed(t[key]) && Held(t[key], name) == {}
  }

  /** Whatever parts of the name are on this server, the put replaces them. */
  predicate Overwritten(t: Tree, key: DirKey, name: string, m: nat, up: seq<bool>, i: nat)
    requires i < |up|
  {
    key in t ==> WellNamed(t[key]) && forall k | k in Held(t[key], name) :: Gets(m, up, i, k)
  }

  lemma FreshIsOverwritten(t: Tree, key: DirKey, name: string, m: nat, up: seq<bool>, i: nat)
    requires i < |up| && FreshName(t, key, name)
    ensures Overwritten(t, key, name, m, up, i)
  {
  }

  /** A server's tree after the put, as the put command leaves it. */
  function AfterPut(t: Tree, key: DirKey, name: string, file: string, m: nat, up: seq<bool>, i: nat,
                    homeScan: seq<string>): Tree
    requires i < |up|
  {
    if up[i] then PutTree(t, key, name, file, FirstPart(m, up, i), homeScan) else t
  }

  function PlaceAt(t: Tree, key: DirKey, homeScan: seq<string>, up: bool): Place
    requires up ==> key in SessionTree(t, key, homeScan)
  {
    if up then Place(SessionTree(t, key, homeScan)[key], Subdirs(SessionTree(t, key, homeScan), key)) else Unreachable
  }

  /** What get meets at a server that accepts the login is a possible visit of its place. */
  lemma VisitIsPossible(t: Tree, key: DirKey, name: string, homeScan: seq<string>, up: bool, scans: seq<seq<string>>)
    requires up ==> ServerReady(t, key, name, homeScan, scans)
    ensures up ==> key in SessionTree(t, key, homeScan)
    ensures var place := PlaceAt(t, key, homeScan, up);
            PlaceOk(place, name) && PossibleVisit(place, VisitOf(t, true, key, homeScan, up, scans))
  {
  }

  function Places(trees: seq<Tree>, key: DirKey, homeScans: seq<seq<string>>, up: seq<bool>): (places: seq<Place>)
    requires |trees| == |homeScans| == |up|
    requires forall i | 0 <= i < |trees| :: up[i] ==> key in SessionTree(trees[i], key, homeScans[i])
    ensures |places| == |trees|
    ensures forall i | 0 <= i < |trees| :: places[i] == PlaceAt(trees[i], key, homeScans[i], up[i])
  {
    seq(|trees|, i requires 0 <= i < |trees| => PlaceAt(trees[i], key, homeScans[i], up[i]))
  }

  /** So what the get command meets, when nobody refuses it, are possible visits of the servers' places. */
  lemma VisitsArePossible(trees: seq<Tree>, accepts: seq<bool>, key: DirKey, name: string, homeScans: seq<seq<string>>,
                          up: seq<bool>, scans: seq<seq<seq<string>>>)
    requires |trees| == |accepts| == |homeScans| == |up| == |scans|
    requires forall i | 0 <= i < |trees| :: accepts[i]
    requires forall i | 0 <= i < |trees| :: up[i] ==> ServerReady(trees[i], key, name, homeScans[i], scans[i])
    ensures forall i | 0 <= i < |trees| :: up[i] ==> key in SessionTree(trees[i], key, homeScans[i])
    ensures var places := Places(trees, key, homeScans, up);
            PlacesOk(places, name) && PossibleVisits(places, Visits(trees, accepts, key, homeScans, up, scans))
  {
    hide ServerReady, SessionTree, VisitOf, PlaceOk, PossibleVisit;
    forall i | 0 <= i < |trees|
      ensures up[i] ==> key in SessionTree(trees[i], key, homeScans[i])
      ensures var place := PlaceAt(trees[i], key, homeScans[i], up[i]);
              PlaceOk(place, name) && PossibleVisit(place, VisitOf(trees[i], true, key, homeScans[i], up[i], scans[i]))
    {
      VisitIsPossible(trees[i], key, name, homeScans[i], up[i], scans[i]);
    }
  }

  /** After the put, a server that the get reaches holds exactly the parts dealt to it, each with
      the right bytes. */
  lemma HoldsWhatItGot(t: Tree, key: DirKey, name: string, file: string, m: nat, up: seq<bool>, i: nat,
                       putScan: seq<string>, getScan: seq<string>)
    requires i < |up| && Overwritten(t, key, name, m, up, i)
    requires up[i] ==> Home(key.user) in EnsureHome(t, key.user, putScan)
    requires key in SessionTree(AfterPut(t, key, name, file, m, up, i, putScan), key, getScan)
    ensures var dir := SessionTree(AfterPut(t, key, name, file, m, up, i, putScan), key, getScan)[key];
            WellNamed(dir) && FaithfulDir(dir, name, file) && |Held(dir, name)| <= 2 &&
            forall k :: k in Held(dir, name) <==> k < 4 && Gets(m, up, i, k)
  {
    hide StoreAll, PiecesFor, Part, EntryName, Label, EnsureHome;
    if up[i] {
      var p := FirstPart(m, up, i);
      var before := SessionTree(t, key, putScan)[key];
      SessionTreeKeeps(t, key, putScan);
      assert Held(map[], name) == {};
      SessionAfterPut(t, key, name, file, p, putScan, getScan);
      StorePair(before, name, file, p);
      StoreKeepsNames(before, name, file, p);
      assert |{p, Next(p)}| <= 2;
    } else {
      SessionTreeKeeps(t, key, getScan);
      assert Held(map[], name) == {};
    }
  }

  /** Part k was dealt to a server that the get reaches. */
  predicate InReach(m: nat, putUp: seq<bool>, getUp: seq<bool>, k: nat)
    requires |putUp| == |getUp|
  {
    exists i :: 0 <= i < |putUp| && getUp[i] && Gets(m, putUp, i, k)
  }

  predicate Covered(m: nat, putUp: seq<bool>, getUp: seq<bool>)
    requires |putUp| == |getUp|
  {
    forall k: nat | k < 4 :: InReach(m, putUp, getUp, k)
  }

  /** Exact availability: after one put of a file under a name that is new, or that has only parts
      which the put overwrites, reaching the servers putUp,
      a get that reaches the servers getUp writes exactly that file if every part was dealt to a
      server in both, and reports an incomplete file otherwise. The get finds the trees that the
      put leaves when all its server threads have closed their files: see PutThreads, and
      DfsOverlap for a get that does not wait for them. */
  lemma ExactAvailability(trees: seq<Tree>, key: DirKey, name: string, file: string, m: nat,
                          putUp: seq<bool>, getUp: seq<bool>, putScans: seq<seq<string>>, getScans: seq<seq<string>>,
                          places: seq<Place>, visits: seq<Visit>)
    requires |trees| == |putUp| == |getUp| == |putScans| == |getScans| == |places|
    requires forall i | 0 <= i < |trees| :: Overwritten(trees[i], key, name, m, putUp, i)
    requires forall i | 0 <= i < |trees| :: putUp[i] ==> Home(key.user) in EnsureHome(trees[i], key.user, putScans[i])
    requires forall i | 0 <= i < |trees| ::
               var t := AfterPut(trees[i], key, name, file, m, putUp, i, putScans[i]);
               (getUp[i] ==> key in SessionTree(t, key, getScans[i]) &&
                             Harmless(Subdirs(SessionTree(t, key, getScans[i]), key), name)) &&
               places[i] == PlaceAt(t, key, getScans[i], getUp[i])
    requires PossibleVisits(places, visits)
    ensures var (got, exited) := Gather(visits, name, map[]);
            Result(got, exited) == if Covered(m, putUp, getUp) then Written(file) else Incomplete
  {
    hide AfterPut, SessionTree, WellNamed, Harmless, Held, FaithfulDir, Gather, PossibleVisit, EnsureHome, Overwritten,
        Gets;
    forall i | 0 <= i < |trees|
      ensures PlaceIs(places[i], name, file, m, putUp, getUp, i)
    {
      if getUp[i] {
        HoldsWhatItGot(trees[i], key, name, file, m, putUp, i, putScans[i], getScans[i]);
      }
    }
    AvailabilityOfPlaces(places, visits, name, file, m, putUp, getUp);
  }

  /** The i-th server as ExactAvailability finds it. */
  predicate PlaceIs(place: Place, name: string, file: string, m: nat, putUp: seq<bool>, getUp: seq<bool>, i: nat)
    requires i < |putUp| == |getUp|
  {
    PlaceOk(place, name) && (place.Place? ==> FaithfulDir(place.dir, name, file)) &&
    |HeldAt(place, name)| <= 2 && HeldAt(place, name) <= A.ALL &&
    forall k: nat | k < 4 :: k in HeldAt(place, name) <==> getUp[i] && Gets(m, putUp, i, k)
  }

  lemma AvailabilityOfPlaces(places: seq<Place>, visits: seq<Visit>, name: string, file: string, m: nat,
                             putUp: seq<bool>, getUp: seq<bool>)
    requires |places| == |putUp| == |getUp| && PossibleVisits(places, visits)
    requires forall i | 0 <= i < |places| :: PlaceIs(places[i], name, file, m, putUp, getUp, i)
    ensures var (got, exited) := Gather(visits, name, map[]);
            Result(got, exited) == if Covered(m, putUp, getUp) then Written(file) else Incomplete
  {
    hide WellNamed, Harmless, Held, FaithfulDir, Gather, Gets, HeldAt;
    var none: Got := map[];
    forall p | p in places
      ensures PlaceOk(p, name) && |HeldAt(p, name)| <= 2
    {
      var i :| 0 <= i < |places| && places[i] == p;
    }
    SmallHoldings(places, visits, name);
    VisitsFaithful(places, visits, name, file, m, putUp, getUp);
    GatherFaithful(visits, name, none, file);
    FaithfulResult(Gather(visits, name, none).0, file);
    UnionIsCovered(places, name, file, m, putUp, getUp);
  }

  lemma VisitsFaithful(places: seq<Place>, visits: seq<Visit>, name: string, file: string, m: nat,
                       putUp: seq<bool>, getUp: seq<bool>)
    requires |places| == |putUp| == |getUp| && PossibleVisits(places, visits)
    requires forall i | 0 <= i < |places| :: PlaceIs(places[i], name, file, m, putUp, getUp, i)
    ensures forall v | v in visits :: v.Up? ==> FaithfulDir(v.dir, name, file)
  {
    hide WellNamed, Harmless, Held, FaithfulDir, Gets;
    forall v | v in visits && v.Up?
      ensures FaithfulDir(v.dir, name, file)
    {
      var i :| 0 <= i < |visits| && visits[i] == v;
      assert PossibleVisit(places[i], visits[i]) && PlaceIs(places[i], name, file, m, putUp, getUp, i);
    }
  }

  lemma UnionIsCovered(places: seq<Place>, name: string, file: string, m: nat, putUp: seq<bool>, getUp: seq<bool>)
    requires |places| == |putUp| == |getUp|
    requires forall i | 0 <= i < |places| :: PlaceIs(places[i], name, file, m, putUp, getUp, i)
    ensures A.ALL <= A.Union(HeldSets(places, name)) <==> Covered(m, putUp, getUp)
  {
    hide PlaceOk, Held, FaithfulDir, Gets, HeldAt;
    var held := HeldSets(places, name);
    forall k: nat | k < 4
      ensures k in A.Union(held) <==> InReach(m, putUp, getUp, k)
    {
      A.InUnion(held, k);
      if i :| 0 <= i < |held| && k in held[i] {
        assert PlaceIs(places[i], name, file, m, putUp, getUp, i);
      }
      if i :| 0 <= i < |putUp| && getUp[i] && Gets(m, putUp, i, k) {
        assert PlaceIs(places[i], name, file, m, putUp, getUp, i);
        assert k in held[i];
      }
    }
    if A.ALL <= A.Union(held) {
      forall k: nat | k < 4
        ensures InReach(m, putUp, getUp, k)
      {
        assert k in A.ALL;
      }
    }
  }

  // ----- with all four servers -----

  const EVERYBODY: seq<bool> := [true, true, true, true]

  predicate NoAdjacentDown(up: seq<bool>)
    requires |up| == 4
  {
    (up[0] || up[1]) && (up[1] || up[2]) && (up[2] || up[3]) && (up[3] || up[0])
  }

  /** The servers before and behind, cyclically. */
  function Before(i: nat): nat { if i == 0 then 3 else i - 1 }

  lemma InReachOfFullPut(m: nat, getUp: seq<bool>, k: nat)
    requires |getUp| == 4 && k < 4
    ensures var d := Distance(m, k);
            InReach(m, EVERYBODY, getUp, k) <==> getUp[d] || getUp[Before(d)]
  {
    var d := Distance(m, k);
    hide Gets, Distance;
    forall i: nat | i < 4
      ensures Gets(m, EVERYBODY, i, k) <==> i == d || i == Before(d)
    {
      FullPutHolders(m, i, k);
    }
    assert Gets(m, EVERYBODY, d, k) && Gets(m, EVERYBODY, Before(d), k);
  }

  lemma PartAt(m: nat, d: nat) returns (k: nat)
    requires d < 4
    ensures k < 4 && Distance(m, k) == d
  {
    var a := m % 4;
    k := if a + d < 4 then a + d else a + d - 4;
  }

  /** After a put that reached every server, a get succeeds exactly when no two cyclically
      adjacent servers are down, whatever the rotation. */
  lemma FullPutAvailability(m: nat, getUp: seq<bool>)
    requires |getUp| == 4
    ensures Covered(m, EVERYBODY, getUp) <==> NoAdjacentDown(getUp)
  {
    hide InReach, Distance;
    if Covered(m, EVERYBODY, getUp) {
      forall i: nat | i < 4
        ensures getUp[i] || getUp[Before(i)]
      {
        var k := PartAt(m, i);
        assert InReach(m, EVERYBODY, getUp, k);
        InReachOfFullPut(m, getUp, k);
      }
      assert getUp[1] || getUp[Before(1)];
      assert getUp[2] || getUp[Before(2)];
      assert getUp[3] || getUp[Before(3)];
      assert getUp[0] || getUp[Before(0)];
    }
    if NoAdjacentDown(getUp) {
      forall k: nat | k < 4
        ensures InReach(m, EVERYBODY, getUp, k)
      {
        InReachOfFullPut(m, getUp, k);
      }
    }
  }

  /** So any single failure is survived. */
  lemma OneServerDown(m: nat, down: nat)
    requires down < 4
    ensures Covered(m, EVERYBODY, EVERYBODY[down := false])
  {
    FullPutAvailability(m, EVERYBODY[down := false]);
  }

  /** Any three servers are enough: a put that reached at least three, and a get that reaches
      those again, always give the file back. */
  lemma ThreeServersSuffice(m: nat, putUp: seq<bool>, getUp: seq<bool>)
    requires |putUp| == |getUp| && Rank(putUp, |putUp|) >= 3
    requires forall i | 0 <= i < |putUp| && putUp[i] :: getUp[i]
    ensures Covered(m, putUp, getUp)
  {
    forall k: nat | k < 4
      ensures InReach(m, putUp, getUp, k)
    {
      PlacedIff(m, putUp, k);
      var i :| 0 <= i < |putUp| && Gets(m, putUp, i, k);
      assert getUp[i];
    }
  }
}
