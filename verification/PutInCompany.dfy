/** A put while other clients get, list and make directories: what its threads leave in the put's
    directory, and that the file is then available. */
module PutInCompany {
  import opened Codec
  import opened DfsServer
  import opened Layout
  import opened DfsClient
  import opened DfsGet
  import opened DfsTheorems
  import opened DfsRun
  import opened PutThenGet
  import opened PutThreads

  /** The files of a directory that may not be there yet. */
  function FilesIn(t: Tree, key: DirKey): Directory {
    if key in t then t[key] else map[]
  }

  /** What a thread has made of the put's directory so far. */
  predicate FilesProgress(before: Directory, t: Tree, w: Writer, truth: Truth) {
    var e0, e1, d0, d1 := PutEntry(w, 0), PutEntry(w, 1), PutData(truth, w, 0), PutData(truth, w, 1);
    match w.phase
    case Arrived => FilesIn(t, w.key) == before
    case Between(part) => w.key in t && part < 2 && t[w.key] == if part == 0 then before else before[e0 := d0]
    case Writing(part, offset) =>
      w.key in t && part < 2 && offset <= |PutData(truth, w, part)| &&
      t[w.key] == if part == 0 then before[e0 := d0[..offset]] else before[e0 := d0][e1 := d1[..offset]]
    case Closed => w.key in t && t[w.key] == before[e0 := d0][e1 := d1]
  }

  // ----- the put's own threads -----

  lemma ArriveFiles(s: State, w: nat, homeScan: seq<string>, before: Directory, truth: Truth)
    requires w < |s.writers| && s.writers[w].server < |s.trees|
    requires var wr := s.writers[w]; FilesProgress(before, s.trees[wr.server], wr, truth)
    requires var wr := s.writers[w]; Home(wr.key.user) in s.trees[wr.server] || !HasPrefixIn(wr.key.user, homeScan)
    ensures var s', wr := StepArrive(s, w, homeScan), s.writers[w];
            FilesProgress(before, s'.trees[wr.server], s'.writers[w], truth)
  {
    hide PutEntry, PutData, HasPrefixIn;
    var wr := s.writers[w];
    if wr.phase.Arrived? {
      SessionTreeKeeps(s.trees[wr.server], wr.key, homeScan);
    }
  }

  lemma OpenFiles(s: State, w: nat, before: Directory, truth: Truth)
    requires w < |s.writers| && s.writers[w].server < |s.trees|
    requires var wr := s.writers[w]; FilesProgress(before, s.trees[wr.server], wr, truth)
    ensures var s', wr := StepOpen(s, w), s.writers[w];
            FilesProgress(before, s'.trees[wr.server], s'.writers[w], truth)
  {
    hide PutData, EntryName, Label;
    var wr := s.writers[w];
    if wr.phase.Between? {
      assert PutData(truth, wr, wr.phase.part)[..0] == "";
      SameFiles(wr, StepOpen(s, w).writers[w], truth);
    }
  }

  lemma StoreOver(dir: Directory, e: string, a: string, b: string)
    ensures dir[e := a][e := b] == dir[e := b]
  {
  }

  lemma WriteFiles(s: State, w: nat, count: nat, before: Directory, truth: Truth)
    requires w < |s.writers| && s.writers[w].server < |s.trees|
    requires var wr := s.writers[w]; FilesProgress(before, s.trees[wr.server], wr, truth)
    ensures var s', wr := StepWrite(s, w, count, truth), s.writers[w];
            FilesProgress(before, s'.trees[wr.server], s'.writers[w], truth)
  {
    hide PutData, EntryName, Label, Overwrite;
    var s', wr := StepWrite(s, w, count, truth), s.writers[w];
    if s' != s {
      var part, offset := wr.phase.part, wr.phase.offset;
      var entry, data := PutEntry(wr, part), PutData(truth, wr, part);
      var dir := if part == 0 then before else before[PutEntry(wr, 0) := PutData(truth, wr, 0)];
      assert s.trees[wr.server][wr.key] == dir[entry := data[..offset]];
      WritesOn(data, offset, count);
      StoreOver(dir, entry, data[..offset], data[..offset + count]);
      SameFiles(wr, s'.writers[w], truth);
    }
  }

  lemma CloseFiles(s: State, w: nat, before: Directory, truth: Truth)
    requires w < |s.writers| && s.writers[w].server < |s.trees|
    requires var wr := s.writers[w]; FilesProgress(before, s.trees[wr.server], wr, truth)
    ensures var s', wr := StepClose(s, w, truth), s.writers[w];
            FilesProgress(before, s'.trees[wr.server], s'.writers[w], truth)
  {
    hide PutData, EntryName, Label;
    var s', wr := StepClose(s, w, truth), s.writers[w];
    if s' != s {
      var data := PutData(truth, wr, wr.phase.part);
      assert data[..|data|] == data;
      SameFiles(wr, s'.writers[w], truth);
    }
  }

  lemma WorkFiles(s: State, a: Action, before: Directory, truth: Truth)
    requires IsWork(a) && WriterOf(a) < |s.writers| && s.writers[WriterOf(a)].server < |s.trees|
    requires var wr := s.writers[WriterOf(a)]; FilesProgress(before, s.trees[wr.server], wr, truth)
    requires var wr := s.writers[WriterOf(a)];
             a.Arrive? ==> Home(wr.key.user) in s.trees[wr.server] || !HasPrefixIn(wr.key.user, a.homeScan)
    ensures var w, s' := WriterOf(a), Step(s, a, truth);
            OwnWork(s, s', w) && FilesProgress(before, s'.trees[s.writers[w].server], s'.writers[w], truth)
  {
    hide FilesProgress, StepArrive, StepOpen, StepWrite, StepClose, HasPrefixIn;
    WorkIsOwn(s, a, truth);
    match a
    case Arrive(w, homeScan) => ArriveFiles(s, w, homeScan, before, truth);
    case Open(w) => OpenFiles(s, w, before, truth);
    case Write(w, count) => WriteFiles(s, w, count, before, truth);
    case Close(w) => CloseFiles(s, w, before, truth);
    case _ =>
  }

  /** Homes stay, whoever works. */
  lemma WorkKeepsHomes(s: State, a: Action, truth: Truth, i: nat, user: string)
    requires IsWork(a) && i < |s.trees| && Home(user) in s.trees[i]
    ensures i < |Step(s, a, truth).trees| && Home(user) in Step(s, a, truth).trees[i]
  {
    hide PutEntry, PutData, Overwrite;
  }

  // ----- everybody else -----

  /** A client's step, or MKDIR, that hands out no part of a put: it may only make directories. */
  lemma OthersGrow(s: State, a: Action, truth: Truth)
    requires !IsWork(a) && !a.StartPut? && (a.Connect? ==> !ClientOf(s, a.client).Putting?)
    ensures var s' := Step(s, a, truth);
            TreesGrow(s.trees, s'.trees) && s'.writers == s.writers
  {
    hide TreesGrow, SessionTree, CanFind, FirstMatch, SlotOf, AskParts, TornNow, Fread, IsComplete, Result, MakeDir;
    TreesSame(s.trees);
    if a.Connect? && AtNextServer(s, ClientOf(s, a.client)) {
      SessionTreeGrows(s.trees, ClientOf(s, a.client).server, ClientOf(s, a.client).key, a.homeScan);
    }
    if a.Mkdir? && a.server < |s.trees| {
      MakeDirGrows(s.trees, a.server, a.key);
    }
  }

  lemma GrowthKeepsFiles(before: seq<Tree>, after: seq<Tree>, i: nat, key: DirKey)
    requires TreesGrow(before, after) && i < |before|
    ensures FilesIn(after[i], key) == FilesIn(before[i], key) && (key in before[i] ==> key in after[i])
  {
  }

  lemma GrowthKeepsProgress(before: Directory, t: Tree, t': Tree, w: Writer, truth: Truth)
    requires FilesProgress(before, t, w, truth)
    requires FilesIn(t', w.key) == FilesIn(t, w.key) && (w.key in t ==> w.key in t')
    ensures FilesProgress(before, t', w, truth)
  {
    hide PutEntry, PutData;
  }

  // ----- the put in company -----

  /** Server i and its thread, if the put has reached it. */
  predicate FilesOk(job: PutJob, s: State, up: seq<bool>, truth: Truth, i: nat)
    requires i < |job.before| == |s.trees|
  {
    if i < |up| && up[i] then
      job.base + Rank(up, i) < |s.writers| &&
      var w := s.writers[job.base + Rank(up, i)];
      w.key == job.key && w.name == job.name && w.first == FirstPart(job.m, up, i) && w.server == i &&
      FilesProgress(FilesIn(job.before[i], job.key), s.trees[i], w, truth)
    else FilesIn(s.trees[i], job.key) == FilesIn(job.before[i], job.key)
  }

  /** The client is at the put, or has gone through all servers and does something else. */
  predicate ClientPutsOrHas(job: PutJob, client: Client, up: seq<bool>) {
    client == Putting(job.key, job.name, job.m, |up|, Rank(up, |up|)) || (!client.Putting? && |up| == |job.before|)
  }

  /** Nobody else puts, and the threads of earlier puts have ended. */
  predicate NoOtherPut(job: PutJob, s: State) {
    (forall c | c in s.clients && c != job.client :: !s.clients[c].Putting?) &&
    job.base <= |s.writers| && forall w | 0 <= w < job.base :: s.writers[w].phase.Closed?
  }

  predicate HomesStay(job: PutJob, s: State) {
    forall i | 0 <= i < |job.before| && i < |s.trees| && Home(job.key.user) in job.before[i] ::
      Home(job.key.user) in s.trees[i]
  }

  predicate GoesOn(job: PutJob, s: State, up: seq<bool>, truth: Truth) {
    |up| <= |job.before| == |s.trees| && |s.writers| == job.base + Rank(up, |up|) &&
    NoOtherPut(job, s) && HomesStay(job, s) && ClientPutsOrHas(job, ClientOf(s, job.client), up) &&
    forall i | 0 <= i < |s.trees| :: FilesOk(job, s, up, truth, i)
  }

  /** On every server the home is there, or what a thread reads there does not hide that it is missing. */
  predicate HomesKnown(job: PutJob, actions: seq<Action>) {
    forall i | 0 <= i < |job.before| :: Home(job.key.user) in job.before[i] || ClearArrivals(job.key.user, actions)
  }

  predicate NoNewPut(actions: seq<Action>) {
    forall a | a in actions :: !a.StartPut?
  }

  lemma OtherStep(job: PutJob, s: State, a: Action, up: seq<bool>, truth: Truth)
    requires GoesOn(job, s, up, truth)
    requires !IsWork(a) && !a.StartPut? && (a.Connect? ==> !ClientOf(s, a.client).Putting?)
    requires (a.Skip? || a.Finish?) && a.client == job.client ==> !ClientOf(s, a.client).Putting?
    ensures GoesOn(job, Step(s, a, truth), up, truth)
  {
    hide FilesOk, Step, NoOtherPut, ClientPutsOrHas;
    var s' := Step(s, a, truth);
    OthersGrow(s, a, truth);
    ClientsInCompany(job, s, a, up, truth);
    forall i | 0 <= i < |s'.trees|
      ensures FilesOk(job, s', up, truth, i)
    {
      GrownSite(job, s, s', up, truth, i);
    }
  }

  lemma ClientsInCompany(job: PutJob, s: State, a: Action, up: seq<bool>, truth: Truth)
    requires NoOtherPut(job, s) && ClientPutsOrHas(job, ClientOf(s, job.client), up)
    requires !IsWork(a) && !a.StartPut? && (a.Connect? ==> !ClientOf(s, a.client).Putting?)
    requires (a.Skip? || a.Finish?) && a.client == job.client ==> !ClientOf(s, a.client).Putting?
    requires Step(s, a, truth).writers == s.writers
    ensures var s' := Step(s, a, truth);
            NoOtherPut(job, s') && ClientPutsOrHas(job, ClientOf(s', job.client), up)
  {
    hide SessionTree, FirstMatch, SlotOf, AskParts, TornNow, Fread, IsComplete, Result, MakeDir, IsScan, Harmless,
         PartFile;
  }

  lemma GrownSite(job: PutJob, s: State, s': State, up: seq<bool>, truth: Truth, i: nat)
    requires i < |job.before| == |s.trees| == |s'.trees| && TreesGrow(s.trees, s'.trees) && s'.writers == s.writers
    requires FilesOk(job, s, up, truth, i)
    ensures FilesOk(job, s', up, truth, i)
  {
    hide FilesProgress, TreesGrow;
    GrowthKeepsFiles(s.trees, s'.trees, i, job.key);
    if i < |up| && up[i] {
      var w := job.base + Rank(up, i);
      assert w < |s.writers|;
      GrowthKeepsProgress(FilesIn(job.before[i], job.key), s.trees[i], s'.trees[i], s.writers[w], truth);
    }
  }

  /** The put's client turns to the next server, or is done. */
  lemma TurnStep(job: PutJob, s: State, a: Action, up: seq<bool>, truth: Truth) returns (up': seq<bool>)
    requires GoesOn(job, s, up, truth) && (a.Skip? || a.Connect? || a.Finish?) && a.client == job.client
    requires ClientOf(s, job.client).Putting?
    ensures GoesOn(job, Step(s, a, truth), up', truth)
  {
    hide FilesProgress, FilesOk, SessionTree, IsComplete;
    var s' := Step(s, a, truth);
    if AtNextServer(s, ClientOf(s, job.client)) && (a.Skip? || a.Connect?) {
      up' := up + [a.Connect?];
      RankOfPrefix(up, a.Connect?, |up|);
      forall i | 0 <= i < |s'.trees|
        ensures FilesOk(job, s', up', truth, i)
      {
        NextSite(job, s, s', up, a.Connect?, truth, i);
      }
    } else {
      up' := up;
      forall i | 0 <= i < |s'.trees|
        ensures FilesOk(job, s', up', truth, i)
      {
        SameSite(job, s, s', up, truth, i);
      }
    }
  }

  lemma SameSite(job: PutJob, s: State, s': State, up: seq<bool>, truth: Truth, i: nat)
    requires i < |job.before| == |s.trees| && s'.trees == s.trees && s'.writers == s.writers &&
             FilesOk(job, s, up, truth, i)
    ensures FilesOk(job, s', up, truth, i)
  {
  }

  lemma NextSite(job: PutJob, s: State, s': State, up: seq<bool>, more: bool, truth: Truth, i: nat)
    requires |up| < |job.before| == |s.trees| && i < |s.trees| && s'.trees == s.trees && FilesOk(job, s, up, truth, i)
    requires |s.writers| == job.base + Rank(up, |up|)
    requires var w := Writer(job.key, job.name, FirstPart(job.m, up, |up|), |up|, Arrived);
             s'.writers == if more then s.writers + [w] else s.writers
    ensures FilesOk(job, s', up + [more], truth, i)
  {
    hide Rank, FirstPart, FilesProgress, FilesIn;
    if i <= |up| {
      FirstPartOfPrefix(up, more, i, job.m);
      if i == |up| && more {
        JustArrived(FilesIn(job.before[i], job.key), s.trees[i], s'.writers[|s.writers|], truth);
      }
    }
  }

  lemma JustArrived(before: Directory, t: Tree, w: Writer, truth: Truth)
    requires w.phase.Arrived? && FilesIn(t, w.key) == before
    ensures FilesProgress(before, t, w, truth)
  {
  }

  lemma FirstPartOfPrefix(up: seq<bool>, more: bool, i: nat, m: nat)
    requires i <= |up|
    ensures Rank(up + [more], i) == Rank(up, i) && FirstPart(m, up + [more], i) == FirstPart(m, up, i)
  {
    RankOfPrefix(up, more, i);
  }

  lemma ThreadStep(job: PutJob, s: State, a: Action, up: seq<bool>, truth: Truth)
    requires GoesOn(job, s, up, truth) && IsWork(a)
    requires forall i | 0 <= i < |job.before| ::
               Home(job.key.user) in job.before[i] || (a.Arrive? ==> !HasPrefixIn(job.key.user, a.homeScan))
    ensures GoesOn(job, Step(s, a, truth), up, truth)
  {
    hide FilesProgress, Step, HasPrefixIn;
    var w, s' := WriterOf(a), Step(s, a, truth);
    if w < job.base || w >= |s.writers| {
      IdleThread(s, a, truth);
    } else {
      var i := RankOnto(up, |up|, w - job.base);
      assert FilesOk(job, s, up, truth, i);
      WorkFiles(s, a, FilesIn(job.before[i], job.key), truth);
      forall j | 0 <= j < |s'.trees|
        ensures FilesOk(job, s', up, truth, j)
      {
        assert FilesOk(job, s, up, truth, j);
        if j != i && j < |up| && up[j] {
          if i < j { RanksDiffer(up, i, j); } else { RanksDiffer(up, j, i); }
        }
      }
      forall j | 0 <= j < |job.before| && Home(job.key.user) in job.before[j]
        ensures Home(job.key.user) in s'.trees[j]
      {
        WorkKeepsHomes(s, a, truth, j, job.key.user);
      }
    }
  }

  lemma IdleThread(s: State, a: Action, truth: Truth)
    requires IsWork(a) && (|s.writers| <= WriterOf(a) || s.writers[WriterOf(a)].phase.Closed?)
    ensures Step(s, a, truth) == s
  {
  }

  lemma {:induction false} KeepsGoing(job: PutJob, s: State, actions: seq<Action>, up: seq<bool>, truth: Truth)
    returns (up': seq<bool>)
    requires GoesOn(job, s, up, truth) && NoNewPut(actions) && HomesKnown(job, actions)
    ensures GoesOn(job, Exec(s, actions, truth), up', truth)
    decreases |actions|
  {
    hide GoesOn, Step, IsWork, HasPrefixIn;
    if actions == [] {
      up' := up;
    } else {
      var a := actions[0];
      assert a in actions;
      var up1 := OneStep(job, s, a, up, truth);
      up' := KeepsGoing(job, Step(s, a, truth), actions[1..], up1, truth);
    }
  }

  lemma OneStep(job: PutJob, s: State, a: Action, up: seq<bool>, truth: Truth) returns (up': seq<bool>)
    requires GoesOn(job, s, up, truth) && !a.StartPut?
    requires forall i | 0 <= i < |job.before| ::
               Home(job.key.user) in job.before[i] || (a.Arrive? ==> !HasPrefixIn(job.key.user, a.homeScan))
    ensures GoesOn(job, Step(s, a, truth), up', truth)
  {
    PutterIsOurs(job, s, up, truth);
    hide GoesOn, Step, HasPrefixIn;
    up' := up;
    if IsWork(a) {
      ThreadStep(job, s, a, up, truth);
    } else if (a.Skip? || a.Connect? || a.Finish?) && a.client == job.client && ClientOf(s, job.client).Putting? {
      up' := TurnStep(job, s, a, up, truth);
    } else {
      OtherStep(job, s, a, up, truth);
    }
  }

  lemma PutterIsOurs(job: PutJob, s: State, up: seq<bool>, truth: Truth)
    requires GoesOn(job, s, up, truth)
    ensures forall c :: ClientOf(s, c).Putting? ==> c == job.client
  {
    hide FilesOk;
  }

  // ----- when the put is over -----

  /** The client has gone through all servers, and all threads of the put have closed their files. */
  predicate HasEnded(job: PutJob, s: State) {
    !ClientOf(s, job.client).Putting? && forall w | job.base <= w < |s.writers| :: s.writers[w].phase.Closed?
  }

  /** The servers that the put has reached. */
  function ReachSet(job: PutJob, s: State): (up: seq<bool>)
    ensures |up| == |s.trees| && forall i | 0 <= i < |up| :: up[i] <==> Reached(job, s, i)
  {
    seq(|s.trees|, i requires 0 <= i < |s.trees| => Reached(job, s, i))
  }

  lemma ReachSetIs(job: PutJob, s: State, up: seq<bool>, truth: Truth)
    requires GoesOn(job, s, up, truth) && |up| == |s.trees|
    ensures up == ReachSet(job, s)
  {
    hide FilesProgress;
    forall i | 0 <= i < |up|
      ensures up[i] <==> Reached(job, s, i)
    {
      assert FilesOk(job, s, up, truth, i);
      if w :| job.base <= w < |s.writers| && s.writers[w].server == i {
        var j := RankOnto(up, |up|, w - job.base);
        assert FilesOk(job, s, up, truth, j);
      }
    }
  }

  /** What the run is about: at its beginning the client has just started the put, and nobody else
      puts; then every client may do what it likes but start a put, servers come and go, and at the
      end the put is over. */
  ghost predicate PutRun(job: PutJob, s: State, actions: seq<Action>, truth: Truth) {
    ClientOf(s, job.client) == Putting(job.key, job.name, job.m, 0, 0) &&
    job.before == s.trees && job.base == |s.writers| && NoOtherPut(job, s) &&
    NoNewPut(actions) && HomesKnown(job, actions) && HasEnded(job, Exec(s, actions, truth))
  }

  /** In whatever order the client and the threads of a put take their steps, and whatever other
      clients do meanwhile: in the put's directory, every server that the put has reached has the
      pair of parts that its rank determines, whole, and every other file there is as it was. */
  lemma ThreadsLeaveFiles(job: PutJob, s: State, actions: seq<Action>, truth: Truth)
    requires PutRun(job, s, actions, truth)
    ensures var s' := Exec(s, actions, truth);
            var up, file := ReachSet(job, s'), truth(job.key, job.name);
            |s'.trees| == |s.trees| &&
            forall i | 0 <= i < |s.trees| ::
              FilesIn(s'.trees[i], job.key) ==
              if up[i] then StoreAll(FilesIn(s.trees[i], job.key), job.name, PiecesFor(file, FirstPart(job.m, up, i)))
              else FilesIn(s.trees[i], job.key)
  {
    hide Exec, StoreAll, PiecesFor, FilesProgress;
    var up := KeepsGoing(job, s, actions, [], truth);
    var s' := Exec(s, actions, truth);
    ReachSetIs(job, s', up, truth);
    forall i | 0 <= i < |s.trees| && up[i]
      ensures FilesIn(s'.trees[i], job.key) ==
              StoreAll(FilesIn(s.trees[i], job.key), job.name,
                       PiecesFor(truth(job.key, job.name), FirstPart(job.m, up, i)))
    {
      assert FilesOk(job, s', up, truth, i);
      RankGrows(up, i + 1, |up|);
      ClosedStores(FilesIn(s.trees[i], job.key), s'.trees[i], s'.writers[job.base + Rank(up, i)], truth);
    }
    forall i | 0 <= i < |s.trees| && !up[i]
      ensures FilesIn(s'.trees[i], job.key) == FilesIn(s.trees[i], job.key)
    {
      assert FilesOk(job, s', up, truth, i);
    }
  }

  lemma ClosedStores(before: Directory, t: Tree, w: Writer, truth: Truth)
    requires FilesProgress(before, t, w, truth) && w.phase.Closed?
    ensures FilesIn(t, w.key) == StoreAll(before, w.name, PiecesFor(truth(w.key, w.name), w.first))
  {
    hide EntryName, Label, Part, StoreAll;
    StoreTwo(before, w.name, PiecesFor(truth(w.key, w.name), w.first));
  }

  /** A directory after the put: it holds what the put dealt to its server, with the right bytes. */
  lemma HoldsDealt(before: Directory, name: string, file: string, m: nat, up: seq<bool>, i: nat)
    requires i < |up| && WellNamed(before) && forall k | k in Held(before, name) :: Gets(m, up, i, k)
    ensures var dir := if up[i] then StoreAll(before, name, PiecesFor(file, FirstPart(m, up, i))) else before;
            WellNamed(dir) && FaithfulDir(dir, name, file) && |Held(dir, name)| <= 2 &&
            forall k :: k in Held(dir, name) <==> k < 4 && Gets(m, up, i, k)
  {
    hide StoreAll, PiecesFor, Part, EntryName, Label, WellNamed;
    if up[i] {
      var p := FirstPart(m, up, i);
      StorePair(before, name, file, p);
      StoreKeepsNames(before, name, file, p);
      assert |{p, Next(p)}| <= 2;
    } else {
      assert Held(before, name) == {};
    }
  }

  /** A server's place for a get, from the files in its directory. */
  lemma PlaceOfFiles(t: Tree, before: Directory, key: DirKey, name: string, file: string, m: nat, up: seq<bool>,
                     getUp: seq<bool>, i: nat, getScan: seq<string>)
    requires i < |up| == |getUp|
    requires WellNamed(before) && forall k | k in Held(before, name) :: Gets(m, up, i, k)
    requires FilesIn(t, key) == if up[i] then StoreAll(before, name, PiecesFor(file, FirstPart(m, up, i))) else before
    requires getUp[i] ==>
             key in SessionTree(t, key, getScan) && Harmless(Subdirs(SessionTree(t, key, getScan), key), name)
    ensures PlaceIs(PlaceAt(t, key, getScan, getUp[i]), name, file, m, up, getUp, i)
  {
    HoldsDealt(before, name, file, m, up, i);
    hide StoreAll, PiecesFor, WellNamed, Harmless, SessionTree, FaithfulDir, Gets, FirstPart;
    SessionTreeKeeps(t, key, getScan);
  }

  /** Exact availability for every such run: after the put of a name that is new, or that has only
      parts which the put overwrites, a get writes the file if every part was dealt to a server that
      both have reached, and reports it incomplete otherwise. */
  lemma AvailableOnceOver(job: PutJob, s: State, actions: seq<Action>, truth: Truth, getUp: seq<bool>,
                          getScans: seq<seq<string>>, places: seq<Place>, visits: seq<Visit>)
    requires PutRun(job, s, actions, truth)
    requires var s' := Exec(s, actions, truth);
             |s.trees| == |getUp| == |getScans| == |places| == |s'.trees| &&
             forall i | 0 <= i < |s.trees| ::
               Overwritten(s.trees[i], job.key, job.name, job.m, ReachSet(job, s'), i) &&
               (getUp[i] ==> job.key in SessionTree(s'.trees[i], job.key, getScans[i]) &&
                             Harmless(Subdirs(SessionTree(s'.trees[i], job.key, getScans[i]), job.key), job.name)) &&
               places[i] == PlaceAt(s'.trees[i], job.key, getScans[i], getUp[i])
    requires PossibleVisits(places, visits)
    ensures var (got, exited) := Gather(visits, job.name, map[]);
            Result(got, exited) ==
            if Covered(job.m, ReachSet(job, Exec(s, actions, truth)), getUp) then Written(truth(job.key, job.name))
            else Incomplete
  {
    hide Exec, SessionTree, Harmless, PossibleVisits, Gather, Covered, PutRun, WellNamed, PlaceIs, Result, StoreAll,
         PiecesFor;
    var s', file := Exec(s, actions, truth), truth(job.key, job.name);
    var up := ReachSet(job, s');
    ThreadsLeaveFiles(job, s, actions, truth);
    forall i | 0 <= i < |places|
      ensures PlaceIs(places[i], job.name, file, job.m, up, getUp, i)
    {
      NoFilesYet(job.name);
      PlaceOfFiles(s'.trees[i], FilesIn(s.trees[i], job.key), job.key, job.name, file, job.m, up, getUp, i,
                   getScans[i]);
    }
    AvailabilityOfPlaces(places, visits, job.name, file, job.m, up, getUp);
  }

  lemma NoFilesYet(name: string)
    ensures WellNamed(map[]) && Held(map[], name) == {}
  {
  }
}
