/** The servers' threads of one put, in any order and interleaving with each other and with their
    client, leave the trees that the put command is said to leave, once all of them have closed
    their files. */
module PutThreads {
  import opened Codec
  import opened DfsServer
  import opened Layout
  import opened DfsClient
  import opened DfsGet
  import opened DfsRun
  import opened RunRefinesCommands
  import opened PutThenGet

  // ----- one thread -----

  function FirstStored(t: Tree, w: Writer, bytes: string): Tree
    requires w.key in t
  {
    t[w.key := t[w.key][PutEntry(w, 0) := bytes]]
  }

  function SecondStored(t: Tree, w: Writer, truth: Truth, bytes: string): Tree
    requires w.key in t
  {
    t[w.key := t[w.key][PutEntry(w, 0) := PutData(truth, w, 0)][PutEntry(w, 1) := bytes]]
  }

  /** What a thread has made of its server's tree so far, when nobody else changes it. */
  predicate Progress(before: Tree, now: Tree, w: Writer, truth: Truth, homeScan: seq<string>)
  {
    var t := SessionTree(before, w.key, homeScan);
    match w.phase
    case Arrived => now == before
    case Closed => now == PutTree(before, w.key, w.name, truth(w.key, w.name), w.first, homeScan)
    case Between(part) =>
      w.key in t && part < 2 && now == if part == 0 then t else FirstStored(t, w, PutData(truth, w, 0))
    case Writing(part, offset) =>
      w.key in t && part < 2 && offset <= |PutData(truth, w, part)| &&
      now == if part == 0 then FirstStored(t, w, PutData(truth, w, 0)[..offset])
             else SecondStored(t, w, truth, PutData(truth, w, 1)[..offset])
  }

  predicate IsWork(a: Action) {
    a.Arrive? || a.Open? || a.Write? || a.Close?
  }

  function WriterOf(a: Action): nat
    requires IsWork(a)
  {
    match a
    case Arrive(w, _) => w
    case Open(w) => w
    case Write(w, _) => w
    case Close(w) => w
    case _ => 0
  }

  lemma ArriveProgress(s: State, w: nat, homeScan: seq<string>, before: Tree, scan0: seq<string>, truth: Truth)
    returns (scan: seq<string>)
    requires w < |s.writers| && s.writers[w].server < |s.trees|
    requires Progress(before, s.trees[s.writers[w].server], s.writers[w], truth, scan0)
    ensures var s' := StepArrive(s, w, homeScan);
            Progress(before, s'.trees[s.writers[w].server], s'.writers[w], truth, scan)
    ensures scan == scan0 || scan == homeScan
  {
    hide SessionTree, EnsureHome, PutTree, PutEntry, PutData;
    scan := if s.writers[w].phase.Arrived? then homeScan else scan0;
    if s.writers[w].phase.Arrived? {
      PutTreeIs(before, s.writers[w], truth(s.writers[w].key, s.writers[w].name), homeScan);
    }
  }

  lemma OpenProgress(s: State, w: nat, before: Tree, scan: seq<string>, truth: Truth)
    requires w < |s.writers| && s.writers[w].server < |s.trees|
    requires Progress(before, s.trees[s.writers[w].server], s.writers[w], truth, scan)
    ensures var s' := StepOpen(s, w);
            Progress(before, s'.trees[s.writers[w].server], s'.writers[w], truth, scan)
  {
    hide SessionTree, PutTree, PutData, EntryName, Label;
    if s.writers[w].phase.Between? {
      var t := SessionTree(before, s.writers[w].key, scan);
      assert PutData(truth, s.writers[w], s.writers[w].phase.part)[..0] == "";
      if s.writers[w].phase.part == 0 {
        StoredFirst(t, s.writers[w]);
      } else {
        StoredSecond(t, s.writers[w], truth, "");
      }
      SameFiles(s.writers[w], StepOpen(s, w).writers[w], truth);
    }
  }

  lemma StoredFirst(t: Tree, w: Writer)
    requires w.key in t
    ensures FirstStored(t, w, "") == t[w.key := t[w.key][PutEntry(w, 0) := ""]]
  {
  }

  lemma StoredSecond(t: Tree, w: Writer, truth: Truth, bytes: string)
    requires w.key in t
    ensures var t1 := FirstStored(t, w, PutData(truth, w, 0));
            t1[w.key := t1[w.key][PutEntry(w, 1) := bytes]] == SecondStored(t, w, truth, bytes)
  {
    hide PutEntry, PutData;
  }

  lemma SameFiles(w: Writer, w': Writer, truth: Truth)
    requires w' == w.(phase := w'.phase)
    ensures forall part ::
              PutEntry(w', part) == PutEntry(w, part) && PutData(truth, w', part) == PutData(truth, w, part)
  {
  }

  lemma WriteProgress(s: State, w: nat, count: nat, before: Tree, scan: seq<string>, truth: Truth)
    requires w < |s.writers| && s.writers[w].server < |s.trees|
    requires Progress(before, s.trees[s.writers[w].server], s.writers[w], truth, scan)
    ensures var s' := StepWrite(s, w, count, truth);
            Progress(before, s'.trees[s.writers[w].server], s'.writers[w], truth, scan)
  {
    hide SessionTree, PutTree, PutData, EntryName, Label;
    var s' := StepWrite(s, w, count, truth);
    if s' != s {
      var wr, t := s.writers[w], SessionTree(before, s.writers[w].key, scan);
      var data, offset := PutData(truth, wr, wr.phase.part), wr.phase.offset;
      WritesOn(data, offset, count);
      SameFiles(wr, s'.writers[w], truth);
      if wr.phase.part == 0 {
        StoreOverFirst(t, wr, data[..offset], data[..offset + count]);
      } else {
        StoreOverSecond(t, wr, truth, data[..offset], data[..offset + count]);
      }
    }
  }

  lemma WritesOn(data: string, offset: nat, count: nat)
    requires offset + count <= |data|
    ensures Overwrite(data[..offset], offset, data[offset..offset + count]) == data[..offset + count]
  {
    assert data[..offset][..offset] + data[offset..offset + count] + "" == data[..offset + count];
  }

  lemma StoreOverFirst(t: Tree, w: Writer, a: string, b: string)
    requires w.key in t
    ensures var t1 := FirstStored(t, w, a);
            PutEntry(w, 0) in t1[w.key] && t1[w.key][PutEntry(w, 0)] == a &&
            t1[w.key := t1[w.key][PutEntry(w, 0) := b]] == FirstStored(t, w, b)
  {
    hide PutEntry;
    assert t[w.key][PutEntry(w, 0) := a][PutEntry(w, 0) := b] == t[w.key][PutEntry(w, 0) := b];
  }

  lemma StoreOverSecond(t: Tree, w: Writer, truth: Truth, a: string, b: string)
    requires w.key in t
    ensures var t1 := SecondStored(t, w, truth, a);
            PutEntry(w, 1) in t1[w.key] && t1[w.key][PutEntry(w, 1)] == a &&
            t1[w.key := t1[w.key][PutEntry(w, 1) := b]] == SecondStored(t, w, truth, b)
  {
    hide PutEntry, PutData;
    var dir := t[w.key][PutEntry(w, 0) := PutData(truth, w, 0)];
    assert dir[PutEntry(w, 1) := a][PutEntry(w, 1) := b] == dir[PutEntry(w, 1) := b];
  }

  lemma CloseProgress(s: State, w: nat, before: Tree, scan: seq<string>, truth: Truth)
    requires w < |s.writers| && s.writers[w].server < |s.trees|
    requires Progress(before, s.trees[s.writers[w].server], s.writers[w], truth, scan)
    ensures var s' := StepClose(s, w, truth);
            Progress(before, s'.trees[s.writers[w].server], s'.writers[w], truth, scan)
  {
    hide SessionTree, PutTree, PutData, EntryName, Label;
    var s', wr := StepClose(s, w, truth), s.writers[w];
    if s' != s {
      var data := PutData(truth, wr, wr.phase.part);
      assert data[..|data|] == data;
      SameFiles(wr, s'.writers[w], truth);
      PutTreeIs(before, wr, truth(wr.key, wr.name), scan);
      PutDataIs(truth, wr);
    }
  }

  lemma PutDataIs(truth: Truth, w: Writer)
    ensures PutData(truth, w, 0) == Part(truth(w.key, w.name), w.first)
    ensures PutData(truth, w, 1) == Part(truth(w.key, w.name), Next(w.first))
  {
  }

  /** A thread's step changes its own server's tree, as far as Progress says, and nothing else. */
  lemma WorkProgress(s: State, a: Action, before: Tree, scan0: seq<string>, truth: Truth) returns (scan: seq<string>)
    requires IsWork(a) && WriterOf(a) < |s.writers| && s.writers[WriterOf(a)].server < |s.trees|
    requires Progress(before, s.trees[s.writers[WriterOf(a)].server], s.writers[WriterOf(a)], truth, scan0)
    ensures var w, s' := WriterOf(a), Step(s, a, truth);
            OwnWork(s, s', w) && Progress(before, s'.trees[s.writers[w].server], s'.writers[w], truth, scan)
    ensures scan == scan0 || (a.Arrive? && scan == a.homeScan)
  {
    hide Progress, StepArrive, StepOpen, StepWrite, StepClose;
    WorkIsOwn(s, a, truth);
    scan := scan0;
    match a
    case Arrive(w, homeScan) => scan := ArriveProgress(s, w, homeScan, before, scan0, truth);
    case Open(w) => OpenProgress(s, w, before, scan0, truth);
    case Write(w, count) => WriteProgress(s, w, count, before, scan0, truth);
    case Close(w) => CloseProgress(s, w, before, scan0, truth);
    case _ =>
  }

  predicate OwnWork(s: State, s': State, w: nat) {
    w < |s.writers| == |s'.writers| && |s'.trees| == |s.trees| && s'.clients == s.clients &&
    s'.writers == s.writers[w := s.writers[w].(phase := s'.writers[w].phase)] &&
    forall i | 0 <= i < |s.trees| && i != s.writers[w].server :: s'.trees[i] == s.trees[i]
  }

  lemma WorkIsOwn(s: State, a: Action, truth: Truth)
    requires IsWork(a) && WriterOf(a) < |s.writers| && s.writers[WriterOf(a)].server < |s.trees|
    ensures OwnWork(s, Step(s, a, truth), WriterOf(a))
  {
    hide SessionTree, PutEntry, PutData, Overwrite;
  }

  // ----- all threads of one put -----

  // A put under way: the client, what it puts, the trees and the number of threads before it.
  datatype PutJob = PutJob(client: nat, key: DirKey, name: string, m: nat, before: seq<Tree>, base: nat)

  /** Server i and its thread, if the put has reached it. */
  predicate SiteOk(job: PutJob, s: State, up: seq<bool>, scans: seq<seq<string>>, truth: Truth, i: nat)
    requires i < |job.before| == |s.trees| && |up| == |scans|
  {
    if i < |up| && up[i] then
      job.base + Rank(up, i) < |s.writers| &&
      var w := s.writers[job.base + Rank(up, i)];
      w.key == job.key && w.name == job.name && w.first == FirstPart(job.m, up, i) && w.server == i &&
      Progress(job.before[i], s.trees[i], w, truth, scans[i])
    else s.trees[i] == job.before[i]
  }

  /** No entry that these readings of the servers' directories show hides that a home is missing. */
  predicate ClearScans(user: string, scans: seq<seq<string>>) {
    forall scan | scan in scans :: !HasPrefixIn(user, scan)
  }

  predicate ClearArrivals(user: string, actions: seq<Action>) {
    forall a | a in actions && a.Arrive? :: !HasPrefixIn(user, a.homeScan)
  }

  predicate ClientPuts(job: PutJob, client: Client, up: seq<bool>) {
    client == Putting(job.key, job.name, job.m, |up|, Rank(up, |up|)) || (client.Idle? && |up| == |job.before|)
  }

  predicate UnderWay(job: PutJob, s: State, up: seq<bool>, scans: seq<seq<string>>, truth: Truth) {
    |up| == |scans| <= |job.before| == |s.trees| && |s.writers| == job.base + Rank(up, |up|) &&
    ClientPuts(job, ClientOf(s, job.client), up) &&
    forall i | 0 <= i < |s.trees| :: SiteOk(job, s, up, scans, truth, i)
  }

  /** The put's own steps: of its client, and of its threads. */
  predicate IsOwn(job: PutJob, a: Action) {
    ((a.Skip? || a.Connect? || a.Finish?) && a.client == job.client) || (IsWork(a) && job.base <= WriterOf(a))
  }

  lemma {:induction false} RankOfPrefix(up: seq<bool>, more: bool, i: nat)
    requires i <= |up|
    ensures Rank(up + [more], i) == Rank(up, i)
  {
    if i > 0 {
      RankOfPrefix(up, more, i - 1);
      assert (up + [more])[i - 1] == up[i - 1];
    }
  }

  lemma RanksDiffer(up: seq<bool>, i: nat, j: nat)
    requires i < j < |up| && up[i]
    ensures Rank(up, i) < Rank(up, j)
  {
    RankGrows(up, i + 1, j);
  }

  lemma SiteExtends(job: PutJob, s: State, s': State, up: seq<bool>, scans: seq<seq<string>>, more: bool,
                    truth: Truth, i: nat)
    requires |up| == |scans| && i < |job.before| == |s.trees| == |s'.trees| && i != |up|
    requires SiteOk(job, s, up, scans, truth, i) && s'.trees[i] == s.trees[i] && s.writers <= s'.writers
    ensures SiteOk(job, s', up + [more], scans + [[]], truth, i)
  {
    hide Progress;
    if i < |up| {
      RankOfPrefix(up, more, i);
    }
  }

  lemma SkipOrConnect(job: PutJob, s: State, a: Action, up: seq<bool>, scans: seq<seq<string>>, truth: Truth)
    returns (up': seq<bool>, scans': seq<seq<string>>)
    requires UnderWay(job, s, up, scans, truth) && (a.Skip? || a.Connect? || a.Finish?) && a.client == job.client
    ensures UnderWay(job, Step(s, a, truth), up', scans', truth)
    ensures ClearScans(job.key.user, scans) ==> ClearScans(job.key.user, scans')
  {
    hide Progress, SiteOk, SessionTree, IsComplete;
    var s' := Step(s, a, truth);
    if AtNextServer(s, ClientOf(s, job.client)) && (a.Skip? || a.Connect?) {
      up', scans' := up + [a.Connect?], scans + [[]];
      RankOfPrefix(up, a.Connect?, |up|);
      forall i | 0 <= i < |s'.trees|
        ensures SiteOk(job, s', up', scans', truth, i)
      {
        if i != |up| {
          SiteExtends(job, s, s', up, scans, a.Connect?, truth, i);
        } else {
          NewSite(job, s, s', up, scans, a.Connect?, truth);
        }
      }
    } else {
      up', scans' := up, scans;
      forall i | 0 <= i < |s'.trees|
        ensures SiteOk(job, s', up', scans', truth, i)
      {
        SiteKept(job, s, s', up, scans, truth, i);
      }
    }
  }

  lemma SiteKept(job: PutJob, s: State, s': State, up: seq<bool>, scans: seq<seq<string>>, truth: Truth, i: nat)
    requires |up| == |scans| && i < |job.before| == |s.trees| == |s'.trees|
    requires SiteOk(job, s, up, scans, truth, i) && s'.trees[i] == s.trees[i] && s.writers == s'.writers
    ensures SiteOk(job, s', up, scans, truth, i)
  {
  }

  lemma NewSite(job: PutJob, s: State, s': State, up: seq<bool>, scans: seq<seq<string>>, more: bool, truth: Truth)
    requires |up| == |scans| < |job.before| == |s.trees| == |s'.trees| && |s.writers| == job.base + Rank(up, |up|)
    requires SiteOk(job, s, up, scans, truth, |up|) && s'.trees == s.trees
    requires more ==> s'.writers == s.writers + [Writer(job.key, job.name, (job.m + Rank(up, |up|)) % 4, |up|, Arrived)]
    ensures SiteOk(job, s', up + [more], scans + [[]], truth, |up|)
  {
    hide SessionTree;
    RankOfPrefix(up, more, |up|);
  }

  lemma WorkStep(job: PutJob, s: State, a: Action, up: seq<bool>, scans: seq<seq<string>>, truth: Truth)
    returns (scans': seq<seq<string>>)
    requires UnderWay(job, s, up, scans, truth) && IsWork(a) && job.base <= WriterOf(a)
    ensures UnderWay(job, Step(s, a, truth), up, scans', truth)
    ensures ClearScans(job.key.user, scans) && ClearArrivals(job.key.user, [a]) ==> ClearScans(job.key.user, scans')
  {
    hide Progress, Step;
    var w, s' := WriterOf(a), Step(s, a, truth);
    if w < |s.writers| {
      var i := RankOnto(up, |up|, w - job.base);
      assert SiteOk(job, s, up, scans, truth, i);
      var scan := WorkProgress(s, a, job.before[i], scans[i], truth);
      scans' := scans[i := scan];
      forall j | 0 <= j < |s'.trees|
        ensures SiteOk(job, s', up, scans', truth, j)
      {
        assert SiteOk(job, s, up, scans, truth, j);
        if j != i && j < |up| && up[j] {
          if i < j { RanksDiffer(up, i, j); } else { RanksDiffer(up, j, i); }
        }
      }
    } else {
      scans' := scans;
      NoSuchThread(s, a, truth);
    }
  }

  lemma NoSuchThread(s: State, a: Action, truth: Truth)
    requires IsWork(a) && |s.writers| <= WriterOf(a)
    ensures Step(s, a, truth) == s
  {
  }

  lemma {:induction false} StaysUnderWay(job: PutJob, s: State, actions: seq<Action>, up: seq<bool>,
      scans: seq<seq<string>>, truth: Truth)
    returns (up': seq<bool>, scans': seq<seq<string>>)
    requires UnderWay(job, s, up, scans, truth) && forall a | a in actions :: IsOwn(job, a)
    ensures UnderWay(job, Exec(s, actions, truth), up', scans', truth)
    ensures ClearScans(job.key.user, scans) && ClearArrivals(job.key.user, actions) ==> ClearScans(job.key.user, scans')
    decreases |actions|
  {
    hide UnderWay, Step;
    if actions == [] {
      up', scans' := up, scans;
    } else {
      assert actions[0] in actions;
      var up1, scans1 := up, scans;
      if IsWork(actions[0]) {
        scans1 := WorkStep(job, s, actions[0], up, scans, truth);
      } else {
        up1, scans1 := SkipOrConnect(job, s, actions[0], up, scans, truth);
      }
      up', scans' := StaysUnderWay(job, Step(s, actions[0], truth), actions[1..], up1, scans1, truth);
    }
  }

  /** The put is over: the client has gone on, and all its threads have closed their files. */
  predicate PutIsOver(job: PutJob, s: State) {
    ClientOf(s, job.client).Idle? && forall w | job.base <= w < |s.writers| :: s.writers[w].phase.Closed?
  }

  /** The put has reached this server: it has a thread there. */
  predicate Reached(job: PutJob, s: State, server: nat) {
    exists w | job.base <= w < |s.writers| :: s.writers[w].server == server
  }

  lemma ReachedIff(job: PutJob, s: State, up: seq<bool>, scans: seq<seq<string>>, truth: Truth, i: nat)
    requires UnderWay(job, s, up, scans, truth) && i < |up|
    ensures up[i] <==> Reached(job, s, i)
  {
    hide Progress;
    assert SiteOk(job, s, up, scans, truth, i);
    if w :| job.base <= w < |s.writers| && s.writers[w].server == i {
      var j := RankOnto(up, |up|, w - job.base);
      assert SiteOk(job, s, up, scans, truth, j);
    }
  }

  /** In whatever order the client and the threads of a put take their steps, when the put is over
      every server's tree is what the put command is said to leave there when it reaches the
      servers that this put has reached. */
  lemma ThreadsLeavePutTrees(job: PutJob, s: State, actions: seq<Action>, truth: Truth)
    returns (up: seq<bool>, scans: seq<seq<string>>)
    requires ClientOf(s, job.client) == Putting(job.key, job.name, job.m, 0, 0)
    requires job.before == s.trees && job.base == |s.writers|
    requires forall a | a in actions :: IsOwn(job, a)
    requires PutIsOver(job, Exec(s, actions, truth))
    ensures var after := Exec(s, actions, truth).trees;
            |up| == |scans| == |s.trees| == |after| &&
            forall i | 0 <= i < |after| ::
              after[i] == AfterPut(s.trees[i], job.key, job.name, truth(job.key, job.name), job.m, up, i, scans[i])
    ensures forall i | 0 <= i < |up| :: up[i] <==> Reached(job, Exec(s, actions, truth), i)
    ensures ClearArrivals(job.key.user, actions) ==> ClearScans(job.key.user, scans)
  {
    hide Exec, PutTree, SessionTree;
    up, scans := StaysUnderWay(job, s, actions, [], [], truth);
    var s' := Exec(s, actions, truth);
    forall i | 0 <= i < |s'.trees|
      ensures s'.trees[i] == AfterPut(s.trees[i], job.key, job.name, truth(job.key, job.name), job.m, up, i, scans[i])
    {
      assert SiteOk(job, s', up, scans, truth, i);
    }
    forall i | 0 <= i < |up|
      ensures up[i] <==> Reached(job, s', i)
    {
      ReachedIff(job, s', up, scans, truth, i);
    }
  }
}
