/** Directories in which parts of an older file have been left behind under the same name: exactly
    when a get still gives back the new file. */
module StaleParts {
  import opened Codec
  import opened DfsServer
  import opened Layout
  import opened DfsGet
  import opened DfsTheorems
  import A = Availability

  /** Part k is there, and it is not the file's. */
  predicate Stale(place: Place, name: string, file: string, k: nat) {
    k < 4 && k in HeldAt(place, name) && place.dir[EntryName(name, Label(k))] != Part(file, k)
  }

  /** No server can send a stale part: the servers before it cannot all miss that part. */
  ghost predicate NoneSent(places: seq<Place>, name: string, file: string) {
    forall i, k: nat | 0 <= i < |places| && Stale(places[i], name, file, k) :: A.Safe(HeldSets(places, name)[..i], k)
  }

  // ----- the walk of a get, server by server -----

  function Walk(visits: seq<Visit>, name: string, got: Got): Got
    decreases |visits|
  {
    if visits == [] then got else Walk(visits[1..], name, AfterVisit(visits[0], name, got))
  }

  lemma VisitAddsNew(place: Place, visit: Visit, name: string, got: Got)
    requires PlaceOk(place, name) && PossibleVisit(place, visit)
    ensures forall k | k in AfterVisit(visit, name, got) ::
              (k in got ==> AfterVisit(visit, name, got)[k] == got[k]) &&
              (k !in got ==> k < 4 && k in HeldAt(place, name) &&
                             AfterVisit(visit, name, got)[k] == place.dir[EntryName(name, Label(k))])
    ensures IsComplete(got) ==> AfterVisit(visit, name, got) == got
  {
    hide EntryName, WellNamed, Harmless, IsScan, Picks, AskParts, Received, Held;
    if place.Place? {
      ReceivedNew(place.dir, place.subs, name, got, visit.scans);
    }
  }

  lemma ReceivedNew(dir: Directory, subs: set<string>, name: string, got: Got, scans: seq<seq<string>>)
    requires WellNamed(dir) && Harmless(subs, name) && |scans| == 2 && forall s | s in scans :: IsScan(s, dir, subs)
    ensures var received := Received(dir, name, got, scans);
            (forall k | k in received ::
               k < 4 && k in Held(dir, name) && k !in got && received[k] == dir[EntryName(name, Label(k))]) &&
            (IsComplete(got) ==> got + received == got)
  {
    var received := Received(dir, name, got, scans);
    ReceivedFromFiles(dir, name, got, scans);
    hide *;
    ReceivedKeys(dir, subs, name, got, scans);
    forall k | k in received
      ensures k !in got
    {
      assert k in received.Keys;
    }
    NothingNew(got, received);
  }

  lemma NothingNew(got: Got, received: Got)
    requires forall k | k in received :: k < 4 && k !in got
    ensures IsComplete(got) ==> got + received == got
  {
  }

  lemma ReceivedFromFiles(dir: Directory, name: string, got: Got, scans: seq<seq<string>>)
    ensures var received := Received(dir, name, got, scans);
            forall k | k in received :: k < 4 && k in Held(dir, name) && received[k] == dir[EntryName(name, Label(k))]
  {
    hide EntryName, Picks, AskParts;
  }

  lemma {:induction false} GatherIsWalk(places: seq<Place>, visits: seq<Visit>, name: string, got: Got)
    requires PlacesOk(places, name) && PossibleVisits(places, visits)
    ensures Gather(visits, name, got).0 == Walk(visits, name, got) && !Gather(visits, name, got).1
    decreases |visits|
  {
    hide PlaceOk, PossibleVisit, AfterVisit, IsComplete;
    if visits != [] {
      HeadAndTail(places, visits, name);
      NotRefusing(places[0], visits[0]);
      VisitAddsNew(places[0], visits[0], name, got);
      assert visits == [visits[0]] + visits[1..];
      GatherUnfold(visits[0], visits[1..], name, got);
      GatherIsWalk(places[1..], visits[1..], name, AfterVisit(visits[0], name, got));
      if IsComplete(got) {
        StopsWhenComplete(visits[1..], name, got);
      }
    }
  }

  lemma StopsWhenComplete(visits: seq<Visit>, name: string, got: Got)
    requires IsComplete(got)
    ensures Gather(visits, name, got) == (got, false)
  {
  }

  lemma {:induction false} WalkThen(first: seq<Visit>, later: seq<Visit>, name: string, got: Got)
    ensures Walk(first + later, name, got) == Walk(later, name, Walk(first, name, got))
    decreases |first|
  {
    hide AfterVisit;
    if first == [] {
      assert first + later == later;
    } else {
      assert (first + later)[1..] == first[1..] + later;
      WalkThen(first[1..], later, name, AfterVisit(first[0], name, got));
    }
  }

  /** The client's collection when it comes to server i. */
  function CollectedAt(visits: seq<Visit>, name: string, i: nat): Got
    requires i <= |visits|
  {
    Walk(visits[..i], name, map[])
  }

  lemma CollectedNext(visits: seq<Visit>, name: string, i: nat)
    requires i < |visits|
    ensures CollectedAt(visits, name, i + 1) == AfterVisit(visits[i], name, CollectedAt(visits, name, i))
  {
    hide AfterVisit;
    assert visits[..i + 1] == visits[..i] + [visits[i]];
    WalkThen(visits[..i], [visits[i]], name, map[]);
    assert Walk([visits[i]], name, CollectedAt(visits, name, i))
           == AfterVisit(visits[i], name, CollectedAt(visits, name, i));
  }

  lemma FirstPlaces(places: seq<Place>, name: string, i: nat)
    requires PlacesOk(places, name) && i <= |places|
    ensures PlacesOk(places[..i], name) && HeldSets(places[..i], name) == HeldSets(places, name)[..i]
  {
    hide PlaceOk, HeldAt;
  }

  lemma FirstVisits(places: seq<Place>, visits: seq<Visit>, i: nat)
    requires PossibleVisits(places, visits) && i <= |places|
    ensures PossibleVisits(places[..i], visits[..i])
  {
    hide PossibleVisit;
  }

  /** What it has then is a run over the servers before i. */
  lemma RunBefore(places: seq<Place>, visits: seq<Visit>, name: string, i: nat) returns (takes: seq<set<nat>>)
    requires PlacesOk(places, name) && PossibleVisits(places, visits) && i <= |places| == |visits|
    ensures A.IsRun(HeldSets(places, name)[..i], {}, takes)
    ensures A.Gained({}, takes) == CollectedAt(visits, name, i).Keys
  {
    var none: Got := map[];
    assert none.Keys == {} && CollectedAt(visits, name, i) == Walk(visits[..i], name, none);
    hide *;
    FirstPlaces(places, name, i);
    FirstVisits(places, visits, i);
    takes := GatherIsRun(places[..i], visits[..i], name, none);
    GatherIsWalk(places[..i], visits[..i], name, none);
  }

  // ----- no stale part is ever sent -----

  lemma {:induction false} OnlyTrueParts(places: seq<Place>, visits: seq<Visit>, name: string, file: string, i: nat)
    requires PlacesOk(places, name) && PossibleVisits(places, visits) && i <= |places| && NoneSent(places, name, file)
    ensures FaithfulGot(CollectedAt(visits, name, i), file)
  {
    hide PlaceOk, PossibleVisit, NoneSent, CollectedAt, FaithfulGot, HeldAt;
    if i > 0 {
      OnlyTrueParts(places, visits, name, file, i - 1);
      CollectedNext(visits, name, i - 1);
      TrueStep(places, visits, name, file, i - 1);
    } else {
      NothingYet(visits, name, file);
    }
  }

  lemma NothingYet(visits: seq<Visit>, name: string, file: string)
    ensures FaithfulGot(CollectedAt(visits, name, 0), file)
  {
  }

  lemma TrueStep(places: seq<Place>, visits: seq<Visit>, name: string, file: string, i: nat)
    requires PlacesOk(places, name) && PossibleVisits(places, visits) && i < |places| && NoneSent(places, name, file)
    requires FaithfulGot(CollectedAt(visits, name, i), file)
    ensures FaithfulGot(AfterVisit(visits[i], name, CollectedAt(visits, name, i)), file)
  {
    var got := CollectedAt(visits, name, i);
    var got' := AfterVisit(visits[i], name, got);
    assert places[i] in places && PossibleVisit(places[i], visits[i]);
    VisitAddsNew(places[i], visits[i], name, got);
    HeldAreParts(places, name);
    var takes := RunBefore(places, visits, name, i);
    var held := HeldSets(places, name)[..i];
    assert A.Parts4(held);
    hide PlaceOk, PossibleVisit, CollectedAt, AfterVisit, HeldAt, Part, EntryName, A.Safe, A.IsRun, A.Gained;
    forall k | k in got'
      ensures k < 4 && got'[k] == Part(file, k)
    {
      if k !in got && Stale(places[i], name, file, k) {
        A.SafeIsGained(held, takes, k);
      }
    }
  }

  // ----- a stale part that can be sent -----

  lemma SomeVisits(places: seq<Place>, name: string, got: Got) returns (visits: seq<Visit>)
    requires PlacesOk(places, name)
    ensures PossibleVisits(places, visits)
  {
    var takes := A.SomeRun(HeldSets(places, name), got.Keys);
    visits := RunIsGather(places, name, got, takes);
  }

  lemma {:induction false} WalkKeeps(places: seq<Place>, visits: seq<Visit>, name: string, got: Got, k: nat)
    requires PlacesOk(places, name) && PossibleVisits(places, visits) && k in got
    ensures k in Walk(visits, name, got) && Walk(visits, name, got)[k] == got[k]
    decreases |visits|
  {
    hide PlaceOk, PossibleVisit, AfterVisit, HeldAt;
    if visits != [] {
      HeadAndTail(places, visits, name);
      VisitAddsNew(places[0], visits[0], name, got);
      KeysStay(places[0], visits[0], name, got, k);
      WalkKeeps(places[1..], visits[1..], name, AfterVisit(visits[0], name, got), k);
    }
  }

  lemma KeysStay(place: Place, visit: Visit, name: string, got: Got, k: nat)
    requires PossibleVisit(place, visit) && k in got
    ensures k in AfterVisit(visit, name, got)
  {
    hide Received;
  }

  /** Some orders of the directories make the servers before i miss part k, and server i send it. */
  lemma CanBeSent(places: seq<Place>, name: string, i: nat, k: nat) returns (visits: seq<Visit>)
    requires PlacesOk(places, name) && i < |places| && k < 4 && k in HeldAt(places[i], name)
    requires !A.Safe(HeldSets(places, name)[..i], k)
    ensures PossibleVisits(places, visits)
    ensures var got := Walk(visits, name, map[]);
            k in got && got[k] == places[i].dir[EntryName(name, Label(k))]
  {
    hide PlaceOk, PossibleVisit, AfterVisit, HeldAt, EntryName, Walk;
    var first := CanBeMissed(places, name, i, k);
    var got := Walk(first, name, map[]);
    assert places[i] in places && PlacesOk(places[i + 1..], name);
    var visit := SendsPart(places[i], name, got, k);
    var got' := AfterVisit(visit, name, got);
    var last := SomeVisits(places[i + 1..], name, got');
    WalkKeeps(places[i + 1..], last, name, got', k);
    visits := first + [visit] + last;
    assert PossibleVisits(places, visits);
    WalkOfThree(first, visit, last, name);
  }

  lemma CanBeMissed(places: seq<Place>, name: string, i: nat, k: nat) returns (first: seq<Visit>)
    requires PlacesOk(places, name) && i < |places| && k < 4 && !A.Safe(HeldSets(places, name)[..i], k)
    ensures PossibleVisits(places[..i], first) && k !in Walk(first, name, map[])
  {
    var none: Got := map[];
    assert none.Keys == {};
    hide *;
    FirstPlaces(places, name, i);
    var takes := A.UnsafeIsMissed(HeldSets(places[..i], name), k);
    first := RunIsGather(places[..i], name, none, takes);
    GatherIsWalk(places[..i], first, name, none);
    assert k !in Walk(first, name, none).Keys;
  }

  lemma WalkOfThree(first: seq<Visit>, visit: Visit, last: seq<Visit>, name: string)
    ensures Walk(first + [visit] + last, name, map[])
         == Walk(last, name, AfterVisit(visit, name, Walk(first, name, map[])))
  {
    hide AfterVisit;
    WalkThen(first + [visit], last, name, map[]);
    WalkThen(first, [visit], name, map[]);
    var got := Walk(first, name, map[]);
    assert Walk([visit], name, got) == Walk([], name, AfterVisit(visit, name, got));
  }

  lemma SendsPart(place: Place, name: string, got: Got, k: nat) returns (visit: Visit)
    requires PlaceOk(place, name) && k < 4 && k in HeldAt(place, name) && k !in got
    ensures PossibleVisit(place, visit)
    ensures k in AfterVisit(visit, name, got) &&
            AfterVisit(visit, name, got)[k] == place.dir[EntryName(name, Label(k))]
  {
    hide PlaceOk, PossibleVisit, AfterVisit, HeldAt, EntryName;
    var wanted := HeldAt(place, name) - got.Keys;
    A.SubsetSize({k}, wanted);
    assert |wanted - {k}| == |wanted| - 1;
    var others := A.Subset(wanted - {k}, A.Min(2, |wanted|) - 1);
    var take := others + {k};
    assert |take| == |others| + 1;
    visit := VisitTaking(place, name, got, take);
    assert k in AfterVisit(visit, name, got).Keys;
    VisitAddsNew(place, visit, name, got);
  }

  // ----- exactly -----

  /** A get collects all four parts of the file, and no stale one, whatever the order of the
      directories, if and only if the holdings are robust and no server can send a stale part. */
  lemma CollectsFileIff(places: seq<Place>, name: string, file: string)
    requires PlacesOk(places, name)
    ensures (forall visits | PossibleVisits(places, visits) ::
               IsComplete(Gather(visits, name, map[]).0) && FaithfulGot(Gather(visits, name, map[]).0, file))
            <==> A.Robust(HeldSets(places, name)) && NoneSent(places, name, file)
  {
    hide PlacesOk, PossibleVisits, A.Robust, NoneSent, Gather, FaithfulGot, IsComplete;
    GetSucceedsIff(places, name);
    if NoneSent(places, name, file) {
      forall visits | PossibleVisits(places, visits)
        ensures FaithfulGot(Gather(visits, name, map[]).0, file)
      {
        OnlyTrueParts(places, visits, name, file, |places|);
        WholeWalk(places, visits, name);
      }
    } else {
      var visits := StaleIsSent(places, name, file);
    }
  }

  lemma WholeWalk(places: seq<Place>, visits: seq<Visit>, name: string)
    requires PlacesOk(places, name) && PossibleVisits(places, visits)
    ensures Gather(visits, name, map[]).0 == CollectedAt(visits, name, |places|) && !Gather(visits, name, map[]).1
  {
    hide PlaceOk, PossibleVisit;
    GatherIsWalk(places, visits, name, map[]);
    assert visits[..|places|] == visits;
  }

  lemma StaleIsSent(places: seq<Place>, name: string, file: string) returns (visits: seq<Visit>)
    requires PlacesOk(places, name) && !NoneSent(places, name, file)
    ensures PossibleVisits(places, visits) && !FaithfulGot(Gather(visits, name, map[]).0, file)
  {
    var i, k: nat :| 0 <= i < |places| && Stale(places[i], name, file, k) && !A.Safe(HeldSets(places, name)[..i], k);
    hide PlaceOk, PossibleVisit, A.Safe, Gather, Walk, HeldAt, EntryName, Part;
    visits := CanBeSent(places, name, i, k);
    GatherIsWalk(places, visits, name, map[]);
  }

  /** No part that is there is longer than the file's. */
  ghost predicate NoLonger(places: seq<Place>, name: string, file: string) {
    forall p, k: nat | p in places && k < 4 && k in HeldAt(p, name) ::
      |p.dir[EntryName(name, Label(k))]| <= |Part(file, k)|
  }

  /** And the file that it writes is then right, and otherwise wrong under some order, when no old
      part is longer than the new one: among such parts only the true four join to the file. */
  lemma WritesFileIff(places: seq<Place>, name: string, file: string)
    requires PlacesOk(places, name) && NoLonger(places, name, file)
    ensures (forall visits | PossibleVisits(places, visits) ::
               Result(Gather(visits, name, map[]).0, Gather(visits, name, map[]).1) == Written(file))
            <==> A.Robust(HeldSets(places, name)) && NoneSent(places, name, file)
  {
    hide PlacesOk, PossibleVisits, A.Robust, NoneSent, NoLonger, Gather, FaithfulGot, IsComplete, Result;
    CollectsFileIff(places, name, file);
    forall visits | PossibleVisits(places, visits)
      ensures Result(Gather(visits, name, map[]).0, Gather(visits, name, map[]).1) == Written(file) <==>
              IsComplete(Gather(visits, name, map[]).0) && FaithfulGot(Gather(visits, name, map[]).0, file)
    {
      ShortParts(places, visits, name, file, |places|);
      WholeWalk(places, visits, name);
      ResultIsFile(Gather(visits, name, map[]).0, file);
    }
  }

  predicate ShortGot(got: Got, file: string) {
    forall k | k in got :: k < 4 && |got[k]| <= |Part(file, k)|
  }

  lemma {:induction false} ShortParts(places: seq<Place>, visits: seq<Visit>, name: string, file: string, i: nat)
    requires PlacesOk(places, name) && PossibleVisits(places, visits) && NoLonger(places, name, file) && i <= |places|
    ensures ShortGot(CollectedAt(visits, name, i), file)
  {
    if i > 0 {
      ShortParts(places, visits, name, file, i - 1);
      CollectedNext(visits, name, i - 1);
      assert places[i - 1] in places && PossibleVisit(places[i - 1], visits[i - 1]);
      VisitAddsNew(places[i - 1], visits[i - 1], name, CollectedAt(visits, name, i - 1));
      hide PlaceOk, PossibleVisit, CollectedAt, AfterVisit, HeldAt, EntryName, Part;
    }
  }

  lemma ResultIsFile(got: Got, file: string)
    requires ShortGot(got, file)
    ensures Result(got, false) == Written(file) <==> IsComplete(got) && FaithfulGot(got, file)
  {
    hide Part, Join;
    if IsComplete(got) {
      var parts := [got[0], got[1], got[2], got[3]];
      JoinExact(file, parts);
      assert parts == Parts(file) <==> forall k | 0 <= k < 4 :: parts[k] == Parts(file)[k];
    }
  }
}
