/** What put and get promise together: exactly when a file can be had back, and that it is the
    file that was put. */
module DfsTheorems {
  import opened Codec
  import opened DfsServer
  import opened Layout
  import opened DfsGet
  import A = Availability

  // A server as a get finds it: unreachable, or a directory with its files and subdirectories.
  datatype Place = Unreachable | Place(dir: Directory, subs: set<string>)

  predicate PlaceOk(place: Place, name: string) {
    place.Place? ==> WellNamed(place.dir) && Harmless(place.subs, name)
  }

  predicate PlacesOk(places: seq<Place>, name: string) {
    forall p | p in places :: PlaceOk(p, name)
  }

  function HeldAt(place: Place, name: string): set<nat> {
    if place.Place? then Held(place.dir, name) else {}
  }

  function HeldSets(places: seq<Place>, name: string): (held: seq<set<nat>>)
    ensures |held| == |places| && forall i | 0 <= i < |places| :: held[i] == HeldAt(places[i], name)
  {
    seq(|places|, i requires 0 <= i < |places| => HeldAt(places[i], name))
  }

  ghost predicate PossibleVisit(place: Place, visit: Visit) {
    match place
    case Unreachable => visit == Down
    case Place(dir, subs) =>
      visit.Up? && visit.dir == dir && |visit.scans| == 2 && forall s | s in visit.scans :: IsScan(s, dir, subs)
  }

  /** The visits that the directory orders of the servers allow. */
  ghost predicate PossibleVisits(places: seq<Place>, visits: seq<Visit>) {
    |visits| == |places| && forall i | 0 <= i < |places| :: PossibleVisit(places[i], visits[i])
  }

  // ----- a get is a run over held sets -----

  lemma HeldAreParts(places: seq<Place>, name: string)
    ensures A.Parts4(HeldSets(places, name))
  {
  }

  lemma {:induction false} UnionWithin(held: seq<set<nat>>)
    requires A.Parts4(held)
    ensures A.Union(held) <= A.ALL
  {
    if held != [] {
      assert held[0] in held;
      UnionWithin(held[1..]);
    }
  }

  lemma TailOfHeld(places: seq<Place>, name: string)
    requires places != []
    ensures HeldSets(places, name)[1..] == HeldSets(places[1..], name)
    ensures HeldSets(places, name)[0] == HeldAt(places[0], name)
  {
  }

  lemma Eligible(dir: Directory, name: string, got: Got)
    ensures IsRequest(AskParts(got)) && Held(dir, name) * Asked(AskParts(got)) == Held(dir, name) - got.Keys
  {
    AskPartsIsRequest(got);
  }

  /** One session gains the parts that the server picks. */
  lemma ReceivedKeys(dir: Directory, subs: set<string>, name: string, got: Got, scans: seq<seq<string>>)
    requires WellNamed(dir) && Harmless(subs, name) && |scans| == 2
    requires forall s | s in scans :: IsScan(s, dir, subs)
    ensures var keys := Received(dir, name, got, scans).Keys;
            keys == SetOf(Picks(name, AskParts(got), scans)) &&
            keys <= Held(dir, name) - got.Keys && |keys| == A.Min(2, |Held(dir, name) - got.Keys|)
  {
    Eligible(dir, name, got);
    Selection(dir, subs, name, AskParts(got), scans);
    var picks := Picks(name, AskParts(got), scans);
    assert forall k :: k in picks <==> k in SetOf(picks);
  }

  function AfterVisit(visit: Visit, name: string, got: Got): Got {
    if visit.Up? then got + Received(visit.dir, name, got, visit.scans) else got
  }

  lemma GatherUnfold(visit: Visit, later: seq<Visit>, name: string, got: Got)
    requires !visit.Refusing?
    ensures Gather([visit] + later, name, got) ==
            if IsComplete(got) then (got, false) else Gather(later, name, AfterVisit(visit, name, got))
  {
    assert ([visit] + later)[1..] == later;
  }

  lemma RunUnfold(held: seq<set<nat>>, got: set<nat>, take: set<nat>, later: seq<set<nat>>)
    requires held != []
    requires take <= held[0] - got && |take| == A.Min(2, |held[0] - got|)
    requires A.IsRun(held[1..], got + take, later)
    ensures A.IsRun(held, got, [take] + later)
    ensures A.Gained(got, [take] + later) == A.Gained(got + take, later)
  {
    assert ([take] + later)[1..] == later;
  }

  lemma VisitGains(place: Place, visit: Visit, name: string, got: Got)
    requires PlaceOk(place, name) && PossibleVisit(place, visit)
    ensures var take := AfterVisit(visit, name, got).Keys - got.Keys;
            AfterVisit(visit, name, got).Keys == got.Keys + take &&
            take <= HeldAt(place, name) - got.Keys && |take| == A.Min(2, |HeldAt(place, name) - got.Keys|)
  {
    hide IsScan, Received, Picks, SetOf, Held;
    if place.Place? {
      ReceivedKeys(place.dir, place.subs, name, got, visit.scans);
      var gain := Received(place.dir, name, got, visit.scans).Keys;
      assert AfterVisit(visit, name, got).Keys - got.Keys == gain;
    }
  }

  /** A complete collection stays as it is. */
  lemma CompleteRun(places: seq<Place>, name: string, got: Got, takes: seq<set<nat>>)
    requires IsComplete(got) && A.IsRun(HeldSets(places, name), got.Keys, takes)
    ensures A.Gained(got.Keys, takes) == got.Keys
  {
    A.GainedBounds(HeldSets(places, name), got.Keys, takes);
    HeldAreParts(places, name);
    UnionWithin(HeldSets(places, name));
  }

  /** Whatever orders the servers read their directories in, the get's walk is one of the runs,
      and no login is refused. */
  lemma {:induction false} GatherIsRun(places: seq<Place>, visits: seq<Visit>, name: string, got: Got)
    returns (takes: seq<set<nat>>)
    requires PlacesOk(places, name) && PossibleVisits(places, visits)
    ensures A.IsRun(HeldSets(places, name), got.Keys, takes)
    ensures var (final, exited) := Gather(visits, name, got);
            !exited && final.Keys == A.Gained(got.Keys, takes)
    decreases |places|
  {
    hide PlaceOk, PossibleVisit, HeldAt, AfterVisit, IsComplete;
    if places == [] {
      takes := [];
    } else if IsComplete(got) {
      takes := A.SomeRun(HeldSets(places, name), got.Keys);
      CompleteRun(places, name, got, takes);
    } else {
      HeadAndTail(places, visits, name);
      var later := GatherIsRun(places[1..], visits[1..], name, AfterVisit(visits[0], name, got));
      takes := RunOneMore(places, visits, name, got, later);
    }
  }

  /** One visit in front of a run. */
  lemma RunOneMore(places: seq<Place>, visits: seq<Visit>, name: string, got: Got, later: seq<set<nat>>)
    returns (takes: seq<set<nat>>)
    requires places != [] && visits != [] && PlaceOk(places[0], name) && PossibleVisit(places[0], visits[0]) &&
             !IsComplete(got)
    requires var got' := AfterVisit(visits[0], name, got);
             A.IsRun(HeldSets(places[1..], name), got'.Keys, later) &&
             var (final, exited) := Gather(visits[1..], name, got');
             !exited && final.Keys == A.Gained(got'.Keys, later)
    ensures A.IsRun(HeldSets(places, name), got.Keys, takes)
    ensures var (final, exited) := Gather(visits, name, got);
            !exited && final.Keys == A.Gained(got.Keys, takes)
  {
    NotRefusing(places[0], visits[0]);
    assert visits == [visits[0]] + visits[1..];
    GatherUnfold(visits[0], visits[1..], name, got);
    hide *;
    var got' := AfterVisit(visits[0], name, got);
    TailOfHeld(places, name);
    VisitGains(places[0], visits[0], name, got);
    RunUnfold(HeldSets(places, name), got.Keys, got'.Keys - got.Keys, later);
    takes := [got'.Keys - got.Keys] + later;
  }

  lemma HeadAndTail(places: seq<Place>, visits: seq<Visit>, name: string)
    requires PlacesOk(places, name) && PossibleVisits(places, visits) && places != []
    ensures visits != [] && PlaceOk(places[0], name) && PossibleVisit(places[0], visits[0])
    ensures PlacesOk(places[1..], name) && PossibleVisits(places[1..], visits[1..])
  {
    hide PlaceOk, PossibleVisit;
    assert places[0] in places;
  }

  lemma NotRefusing(place: Place, visit: Visit)
    requires PossibleVisit(place, visit)
    ensures !visit.Refusing?
  {
  }

  /** How many parts a get has been sent. */
  function Sent(visits: seq<Visit>, name: string, got: Got): nat
    decreases |visits|
  {
    if visits == [] || IsComplete(got) || visits[0].Refusing? then 0
    else
      (if visits[0].Up? then |Picks(name, AskParts(got), visits[0].scans)| else 0)
      + Sent(visits[1..], name, AfterVisit(visits[0], name, got))
  }

  /** Conservation: every part that is sent is a new one, so no part crosses the wire twice. */
  lemma {:induction false} EachPartOnce(places: seq<Place>, visits: seq<Visit>, name: string, got: Got)
    requires PlacesOk(places, name) && PossibleVisits(places, visits)
    ensures |Gather(visits, name, got).0| == |got| + Sent(visits, name, got)
    decreases |places|
  {
    hide PlaceOk, PossibleVisit, HeldAt, AfterVisit, IsComplete, AskParts, Picks;
    if places != [] && !IsComplete(got) {
      HeadAndTail(places, visits, name);
      NotRefusing(places[0], visits[0]);
      VisitAdds(places[0], visits[0], name, got);
      EachPartOnce(places[1..], visits[1..], name, AfterVisit(visits[0], name, got));
      GatherUnfold(visits[0], visits[1..], name, got);
      assert visits == [visits[0]] + visits[1..];
    }
  }

  lemma VisitAdds(place: Place, visit: Visit, name: string, got: Got)
    requires PlaceOk(place, name) && PossibleVisit(place, visit)
    ensures |AfterVisit(visit, name, got)| ==
            |got| + if visit.Up? then |Picks(name, AskParts(got), visit.scans)| else 0
  {
    hide IsScan, Held, WellNamed, Harmless, AskParts, Picks, Received;
    if place.Place? {
      ReceivedKeys(place.dir, place.subs, name, got, visit.scans);
      Eligible(place.dir, name, got);
      Selection(place.dir, place.subs, name, AskParts(got), visit.scans);
      var gain := Received(place.dir, name, got, visit.scans);
      assert (got + gain).Keys == got.Keys + gain.Keys && |got.Keys + gain.Keys| == |got.Keys| + |gain.Keys|;
      assert |got + gain| == |(got + gain).Keys| && |got| == |got.Keys|;
    }
  }

  lemma Listed(s: set<nat>) returns (list: seq<nat>)
    ensures SetOf(list) == s && |list| == |s|
  {
    if s == {} {
      list := [];
    } else {
      var x :| x in s;
      var rest := Listed(s - {x});
      list := [x] + rest;
      assert SetOf([x] + rest) == {x} + SetOf(rest);
    }
  }

  /** Every run is the walk of a get under some directory orders. */
  lemma {:induction false} RunIsGather(places: seq<Place>, name: string, got: Got, takes: seq<set<nat>>)
    returns (visits: seq<Visit>)
    requires PlacesOk(places, name) && A.IsRun(HeldSets(places, name), got.Keys, takes)
    ensures PossibleVisits(places, visits)
    ensures Gather(visits, name, got).0.Keys == A.Gained(got.Keys, takes)
    decreases |places|
  {
    hide PlaceOk, PossibleVisit, HeldAt, AfterVisit, IsComplete;
    if places == [] {
      visits := [];
    } else {
      TailOfHeld(places, name);
      assert places[0] in places;
      var visit := VisitTaking(places[0], name, got, takes[0]);
      var got' := AfterVisit(visit, name, got);
      var later := RunIsGather(places[1..], name, got', takes[1..]);
      visits := [visit] + later;
      NotRefusing(places[0], visit);
      GatherUnfold(visit, later, name, got);
      if IsComplete(got) {
        CompleteRun(places, name, got, takes);
      }
    }
  }

  lemma VisitTaking(place: Place, name: string, got: Got, take: set<nat>) returns (visit: Visit)
    requires PlaceOk(place, name)
    requires take <= HeldAt(place, name) - got.Keys && |take| == A.Min(2, |HeldAt(place, name) - got.Keys|)
    ensures PossibleVisit(place, visit) && !visit.Refusing?
    ensures AfterVisit(visit, name, got).Keys == got.Keys + take
  {
    hide Received, Held, WellNamed, Harmless, IsScan, AskParts, Asked, IsRequest, Picks, SetOf;
    if place.Place? {
      Eligible(place.dir, name, got);
      var wish := Listed(take);
      var scans := SomeOrderPicks(place.dir, place.subs, name, AskParts(got), wish, 2);
      ReceivedKeys(place.dir, place.subs, name, got, scans);
      visit := Up(place.dir, scans);
    } else {
      visit := Down;
    }
  }

  /** Exactly when a get succeeds in spite of every directory order: when each part is held by two
      reachable servers, or by one that has at most one other part no earlier server holds. */
  lemma GetSucceedsIff(places: seq<Place>, name: string)
    requires PlacesOk(places, name)
    ensures A.Robust(HeldSets(places, name)) <==>
            forall visits | PossibleVisits(places, visits) :: IsComplete(Gather(visits, name, map[]).0)
  {
    var held := HeldSets(places, name);
    var none: Got := map[];
    HeldAreParts(places, name);
    A.RobustIff(held);
    if A.Robust(held) {
      forall visits | PossibleVisits(places, visits)
        ensures IsComplete(Gather(visits, name, none).0)
      {
        var takes := GatherIsRun(places, visits, name, none);
        assert none.Keys == {};
        CompleteIff(Gather(visits, name, none).0);
      }
    } else {
      var takes :| A.IsRun(held, {}, takes) && !(A.ALL <= A.Gained({}, takes));
      assert none.Keys == {};
      var visits := RunIsGather(places, name, none, takes);
      CompleteIff(Gather(visits, name, none).0);
    }
  }

  lemma CompleteIff(got: Got)
    ensures IsComplete(got) <==> A.ALL <= got.Keys
  {
    if IsComplete(got) {
      forall k | k in A.ALL
        ensures k in got
      {
      }
    }
  }

  /** When no server holds more than two parts of the name, a get succeeds, under any order,
      exactly when every part is held by some reachable server. */
  lemma SmallHoldings(places: seq<Place>, visits: seq<Visit>, name: string)
    requires PlacesOk(places, name) && PossibleVisits(places, visits)
    requires forall p | p in places :: |HeldAt(p, name)| <= 2
    ensures var (got, exited) := Gather(visits, name, map[]);
            !exited && (IsComplete(got) <==> A.ALL <= A.Union(HeldSets(places, name)))
  {
    var none: Got := map[];
    assert none.Keys == {};
    var takes := GatherIsRun(places, visits, name, none);
    forall h | h in HeldSets(places, name)
      ensures |h| <= 2
    {
      var i :| 0 <= i < |places| && HeldSets(places, name)[i] == h;
      assert places[i] in places;
    }
    A.SmallHoldingsGainAll(HeldSets(places, name), {}, takes);
    CompleteIff(Gather(visits, name, none).0);
  }

  // ----- what is collected is what was put -----

  predicate FaithfulDir(dir: Directory, name: string, file: string) {
    forall k | k in Held(dir, name) :: dir[EntryName(name, Label(k))] == Part(file, k)
  }

  predicate FaithfulGot(got: Got, file: string) {
    forall k | k in got :: k < 4 && got[k] == Part(file, k)
  }

  lemma {:induction false} GatherFaithful(visits: seq<Visit>, name: string, got: Got, file: string)
    requires FaithfulGot(got, file)
    requires forall v | v in visits :: v.Up? ==> FaithfulDir(v.dir, name, file)
    ensures FaithfulGot(Gather(visits, name, got).0, file)
    decreases |visits|
  {
    if visits != [] && !IsComplete(got) && !visits[0].Refusing? {
      assert visits[0] in visits;
      GatherFaithful(visits[1..], name, AfterVisit(visits[0], name, got), file);
    }
  }

  lemma FaithfulResult(got: Got, file: string)
    requires FaithfulGot(got, file)
    ensures Result(got, false) == if IsComplete(got) then Written(file) else Incomplete
  {
    if IsComplete(got) {
      SplitJoin(file);
      assert [got[0], got[1], got[2], got[3]] == Parts(file);
    }
  }
}
