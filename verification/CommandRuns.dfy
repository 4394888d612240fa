/** Whole commands, step by step: whatever a put or a get command is said to do is done by a run in
    which the client and its servers take their steps without interference. */
module CommandRuns {
  import opened DfsServer
  import opened Layout
  import opened DfsClient
  import opened DfsGet
  import opened DfsTheorems
  import opened DfsRun
  import opened RunRefinesCommands
  import opened DfsSafety
  import opened PutThenGet
  import Mkdir

  // ----- a get -----

  /** A client between two servers, with what it has collected. */
  predicate OnItsWay(s: State, c: nat, key: DirKey, name: string, i: nat, got: Got) {
    c in s.clients && s.clients[c].Getting? && s.clients[c] == Getting(key, name, i, Away, got, s.clients[c].torn)
  }

  /** The place that the get finds at server i: a directory, if it is to be reached. */
  predicate Meets(s: State, key: DirKey, i: nat, homeScan: seq<string>, place: Place)
    requires i < |s.trees|
  {
    var t := SessionTree(s.trees[i], key, homeScan);
    place.Place? ==> key in t && place == Place(t[key], Subdirs(t, key))
  }

  /** Nothing but directories of server i, and this client's progress. */
  predicate OnlyAt(s: State, s': State, i: nat) {
    s'.writers == s.writers && s'.results == s.results && |s'.trees| == |s.trees| &&
    forall j | 0 <= j < |s.trees| && j != i :: s'.trees[j] == s.trees[j]
  }

  lemma SkipRefines(s: State, c: nat, key: DirKey, name: string, i: nat, got: Got, truth: Truth) returns (s': State)
    requires OnItsWay(s, c, key, name, i, got) && i < |s.trees| && !IsComplete(got)
    ensures Leads(s, [Skip(c)], s', truth) && OnlyAt(s, s', i) && OnItsWay(s', c, key, name, i + 1, got)
  {
    hide IsComplete, Leads;
    LeadsOne(s, Skip(c), truth);
    s' := StepSkip(s, c);
  }

  lemma SessionRefines(s: State, c: nat, key: DirKey, name: string, i: nat, got: Got, homeScan: seq<string>,
                       place: Place, scans: seq<seq<string>>, truth: Truth)
    returns (actions: seq<Action>, s': State)
    requires OnItsWay(s, c, key, name, i, got) && i < |s.trees| && !IsComplete(got)
    requires place.Place? && Meets(s, key, i, homeScan, place) && PlaceOk(place, name)
    requires PossibleVisit(place, Up(place.dir, scans))
    ensures NobodyPuts(actions) && Leads(s, actions, s', truth) && OnlyAt(s, s', i)
    ensures OnItsWay(s', c, key, name, i + 1, got + Received(place.dir, name, got, scans))
  {
    hide IsComplete, Leads, SessionTree, IsScan, Harmless, WellNamed, WholeSession, SessionActions, Received;
    var s1 := StepConnect(s, c, homeScan);
    assert scans[0] in scans && scans[1] in scans && scans == [scans[0], scans[1]];
    GetSessionRefines(s1, c, scans[0], scans[1]);
    s' := WholeSession(s1, c, scans[0], scans[1]);
    actions := [Connect(c, homeScan)] + SessionActions(s1, c, scans[0], scans[1]);
    LeadsOne(s, Connect(c, homeScan), truth);
    ExecSession(s1, c, scans[0], scans[1], truth);
    LeadsThen(s, [Connect(c, homeScan)], s1, SessionActions(s1, c, scans[0], scans[1]), s', truth);
    SessionActionsOnly(s1, c, scans[0], scans[1]);
    NobodyPutsBoth([Connect(c, homeScan)], SessionActions(s1, c, scans[0], scans[1]));
  }

  lemma {:induction false} WalkRefines(s: State, c: nat, key: DirKey, name: string, i: nat, got: Got,
                                       homeScans: seq<seq<string>>, places: seq<Place>, visits: seq<Visit>,
                                       truth: Truth)
    returns (actions: seq<Action>, s': State, i': nat)
    requires i <= |s.trees| == |homeScans| == |places| && OnItsWay(s, c, key, name, i, got)
    requires PlacesOk(places, name) && PossibleVisits(places, visits)
    requires forall j | i <= j < |places| :: Meets(s, key, j, homeScans[j], places[j])
    ensures NobodyPuts(actions) && Leads(s, actions, s', truth)
    ensures s'.writers == s.writers && s'.results == s.results && |s'.trees| == |s.trees|
    ensures var final := Gather(visits[i..], name, got).0;
            OnItsWay(s', c, key, name, i', final) && (IsComplete(final) || i' == |s.trees|)
    decreases |s.trees| - i
  {
    hide Leads, Meets, PlaceOk, PossibleVisit, IsComplete, OnItsWay, NobodyPuts, Received;
    if i == |s.trees| || IsComplete(got) {
      LeadsNowhere(s, truth);
      assert NobodyPuts([]) by { NobodyPutsNothing(); }
      actions, s', i' := [], s, i;
    } else {
      assert places[i] in places;
      NotRefusing(places[i], visits[i]);
      assert visits[i..] == [visits[i]] + visits[i + 1..];
      GatherUnfold(visits[i], visits[i + 1..], name, got);
      var first, s1 := VisitRefines(s, c, key, name, i, got, homeScans[i], places[i], visits[i], truth);
      MeetsStill(s, s1, key, i, homeScans, places);
      var later;
      later, s', i' := WalkRefines(s1, c, key, name, i + 1, AfterVisit(visits[i], name, got), homeScans, places,
                                   visits, truth);
      LeadsThen(s, first, s1, later, s', truth);
      NobodyPutsBoth(first, later);
      actions := first + later;
    }
  }

  lemma NobodyPutsNothing()
    ensures NobodyPuts([])
  {
  }

  lemma NobodyPutsBoth(first: seq<Action>, later: seq<Action>)
    requires NobodyPuts(first) && NobodyPuts(later)
    ensures NobodyPuts(first + later)
  {
  }

  lemma MeetsStill(s: State, s1: State, key: DirKey, i: nat, homeScans: seq<seq<string>>, places: seq<Place>)
    requires i < |s.trees| == |homeScans| == |places| && OnlyAt(s, s1, i)
    requires forall j | i <= j < |places| :: Meets(s, key, j, homeScans[j], places[j])
    ensures forall j | i + 1 <= j < |places| :: Meets(s1, key, j, homeScans[j], places[j])
  {
    hide SessionTree;
  }

  lemma VisitRefines(s: State, c: nat, key: DirKey, name: string, i: nat, got: Got, homeScan: seq<string>,
                     place: Place, visit: Visit, truth: Truth)
    returns (actions: seq<Action>, s': State)
    requires OnItsWay(s, c, key, name, i, got) && i < |s.trees| && !IsComplete(got)
    requires Meets(s, key, i, homeScan, place) && PlaceOk(place, name) && PossibleVisit(place, visit)
    ensures NobodyPuts(actions) && Leads(s, actions, s', truth) && OnlyAt(s, s', i)
    ensures OnItsWay(s', c, key, name, i + 1, AfterVisit(visit, name, got))
  {
    hide Leads, Meets, PlaceOk, IsComplete, OnItsWay, OnlyAt, IsScan;
    if place.Place? {
      actions, s' := SessionRefines(s, c, key, name, i, got, homeScan, place, visit.scans, truth);
    } else {
      s' := SkipRefines(s, c, key, name, i, got, truth);
      actions := [Skip(c)];
    }
  }

  /** Every get that the command can be is a run: for all visits that the directory orders of the
      servers allow, with any of them skipped, there are steps that end with the command's outcome. */
  lemma GetRefines(s: State, c: nat, key: DirKey, name: string, homeScans: seq<seq<string>>, places: seq<Place>,
                   visits: seq<Visit>, truth: Truth)
    returns (actions: seq<Action>, s': State, r: Finished)
    requires ClientOf(s, c).Idle? && |s.trees| == |homeScans| == |places|
    requires PlacesOk(places, name) && PossibleVisits(places, visits)
    requires forall i | 0 <= i < |places| :: Meets(s, key, i, homeScans[i], places[i])
    ensures NobodyPuts(actions) && Leads(s, actions, s', truth)
    ensures s'.writers == s.writers && s'.results == s.results + [r] && ClientOf(s', c).Idle?
    ensures var (got, exited) := Gather(visits, name, map[]);
            r.client == c && r.key == key && r.name == name && r.got == got && r.outcome == Result(got, exited)
  {
    hide Leads, Meets, PlaceOk, PossibleVisit, IsComplete, Result;
    var s1 := StepStart(s, StartGet(c, key, name));
    LeadsOne(s, StartGet(c, key, name), truth);
    MeetsFrom(s, s1, key, homeScans, places);
    hide Gather, NobodyPuts;
    var walk, s2, i := WalkRefines(s1, c, key, name, 0, map[], homeScans, places, visits, truth);
    assert visits[0..] == visits;
    s' := StepFinish(s2, c);
    LeadsOne(s2, Finish(c), truth);
    r := Finished(c, key, name, s2.clients[c].got, s2.clients[c].torn, Result(s2.clients[c].got, false));
    actions := [StartGet(c, key, name)] + (walk + [Finish(c)]);
    LeadsThen(s1, walk, s2, [Finish(c)], s', truth);
    LeadsThen(s, [StartGet(c, key, name)], s1, walk + [Finish(c)], s', truth);
    NobodyPutsAround(walk, c, key, name);
    var takes := GatherIsRun(places, visits, name, map[]);
  }

  lemma MeetsFrom(s: State, s1: State, key: DirKey, homeScans: seq<seq<string>>, places: seq<Place>)
    requires |s.trees| == |homeScans| == |places| && s1.trees == s.trees
    requires forall i | 0 <= i < |places| :: Meets(s, key, i, homeScans[i], places[i])
    ensures forall i | 0 <= i < |places| :: Meets(s1, key, i, homeScans[i], places[i])
  {
    hide SessionTree;
  }

  lemma NobodyPutsAround(walk: seq<Action>, c: nat, key: DirKey, name: string)
    requires NobodyPuts(walk)
    ensures NobodyPuts([StartGet(c, key, name)] + (walk + [Finish(c)]))
  {
  }

  // ----- a put -----

  /** The client has been to i servers, and their threads have done their work. */
  predicate PutSoFar(s: State, before: State, c: nat, key: DirKey, name: string, file: string, m: nat, up: seq<bool>,
                     homeScans: seq<seq<string>>, i: nat)
    requires i <= |up| == |homeScans| == |before.trees|
  {
    |s.trees| == |before.trees| && s.results == before.results &&
    ClientOf(s, c) == Putting(key, name, m, i, Rank(up, i)) &&
    (forall j | 0 <= j < i :: s.trees[j] == AfterPut(before.trees[j], key, name, file, m, up, j, homeScans[j])) &&
    (forall j | i <= j < |s.trees| :: s.trees[j] == before.trees[j]) &&
    before.writers <= s.writers && forall w | |before.writers| <= w < |s.writers| :: s.writers[w].phase.Closed?
  }

  /** At the next server the client leaves two parts, and the thread works at once. */
  lemma PutVisitRefines(s: State, before: State, c: nat, key: DirKey, name: string, m: nat, up: seq<bool>,
                        homeScans: seq<seq<string>>, i: nat, truth: Truth)
    returns (actions: seq<Action>, s': State)
    requires i < |up| == |homeScans| == |before.trees|
    requires PutSoFar(s, before, c, key, name, truth(key, name), m, up, homeScans, i)
    ensures Leads(s, actions, s', truth)
    ensures PutSoFar(s', before, c, key, name, truth(key, name), m, up, homeScans, i + 1)
  {
    hide Leads, PutTree, ThreadActions;
    if up[i] {
      var s1, w, file := StepConnect(s, c, []), |s.writers|, truth(key, name);
      var p := FirstPart(m, up, i);
      var work := ThreadActions(w, homeScans[i], |Part(file, p)|, |Part(file, Next(p))|);
      PutSessionRefines(s1, w, homeScans[i], truth);
      s' := SetPhase(s1.(trees := s1.trees[i := PutTree(s1.trees[i], key, name, file, p, homeScans[i])]), w, Closed);
      LeadsOne(s, Connect(c, []), truth);
      LeadsThen(s, [Connect(c, [])], s1, work, s', truth);
      actions := [Connect(c, [])] + work;
    } else {
      LeadsOne(s, Skip(c), truth);
      actions, s' := [Skip(c)], StepSkip(s, c);
    }
  }

  /** Every put that the command can be is a run, with any servers down. */
  lemma PutRefines(s: State, c: nat, key: DirKey, name: string, m: nat, up: seq<bool>, homeScans: seq<seq<string>>,
                   truth: Truth)
    returns (actions: seq<Action>, s': State)
    requires ClientOf(s, c).Idle? && |up| == |homeScans| == |s.trees|
    ensures Leads(s, actions, s', truth) && ClientOf(s', c).Idle? && s'.results == s.results
    ensures |s'.trees| == |s.trees| && forall i | 0 <= i < |s.trees| ::
              s'.trees[i] == AfterPut(s.trees[i], key, name, truth(key, name), m, up, i, homeScans[i])
    ensures s.writers <= s'.writers && forall w | |s.writers| <= w < |s'.writers| :: s'.writers[w].phase.Closed?
  {
    var start := StartPut(c, key, name, m);
    LeadsOne(s, start, truth);
    actions, s' := [start], StepStart(s, start);
    hide Leads, AfterPut;
    for i := 0 to |up|
      invariant Leads(s, actions, s', truth)
      invariant PutSoFar(s', s, c, key, name, truth(key, name), m, up, homeScans, i)
    {
      var more, s1 := PutVisitRefines(s', s, c, key, name, m, up, homeScans, i, truth);
      LeadsThen(s, actions, s', more, s1, truth);
      actions, s' := actions + more, s1;
    }
    LeadsOne(s', Finish(c), truth);
    LeadsThen(s, actions, s', [Finish(c)], StepFinish(s', c), truth);
    actions, s' := actions + [Finish(c)], StepFinish(s', c);
  }

  // ----- a list, and MKDIR -----

  /** What a list or a MKDIR session makes of a server's tree is done by steps that make directories. */
  lemma DirectoriesRefine(s: State, server: nat, key: DirKey, homeScan: seq<string>, truth: Truth)
    returns (actions: seq<Action>)
    requires server < |s.trees|
    ensures Leads(s, actions, s.(trees := s.trees[server := SessionTree(s.trees[server], key, homeScan)]), truth)
    ensures forall a | a in actions :: a.Mkdir? && a.server == server && a.key in {Home(key.user), key}
    ensures key.Sub? ==>
              SessionTree(s.trees[server], key, homeScan)
              == Mkdir.MkdirTree(s.trees[server], key.user, key.dir, homeScan)
  {
    var t := s.trees[server];
    var t1 := EnsureHome(t, key.user, homeScan);
    var s1 := s.(trees := s.trees[server := t1]);
    hide Leads;
    if HasPrefixIn(key.user, homeScan) {
      LeadsNowhere(s, truth);
      assert s1 == s;
      actions := [];
    } else {
      LeadsOne(s, DfsRun.Mkdir(server, Home(key.user)), truth);
      actions := [DfsRun.Mkdir(server, Home(key.user))];
    }
    if key.Sub? {
      LeadsOne(s1, DfsRun.Mkdir(server, key), truth);
      var s2 := s1.(trees := s1.trees[server := MakeDir(t1, key)]);
      LeadsThen(s, actions, s1, [DfsRun.Mkdir(server, key)], s2, truth);
      actions := actions + [DfsRun.Mkdir(server, key)];
      assert s1.trees[server := MakeDir(t1, key)] == s.trees[server := MakeDir(t1, key)];
    }
  }
}
