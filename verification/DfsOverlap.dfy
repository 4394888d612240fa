/** A client whose get overtakes its own put: for which locks on part files every get is right. */
module DfsOverlap {
  import opened Codec
  import opened DfsServer
  import opened Layout
  import opened DfsClient
  import opened DfsGet
  import opened DfsRun
  import opened RunRefinesCommands
  import opened DfsSafety
  import opened DfsTheorems
  import opened StaleParts
  import opened CommandRuns
  import A = Availability

  // ----- schedules that do overlap -----

  /** Only part k of the name may be open. */
  predicate OnlyOpen(s: State, key: DirKey, name: string, k: nat) {
    forall i | 0 <= i < |s.writers| && s.writers[i].phase.Writing? ::
      s.writers[i].key == key && s.writers[i].name == name && PutIndex(s.writers[i], s.writers[i].phase.part) == k
  }

  lemma OtherPartsUndisturbed(s: State, c: nat, key: DirKey, name: string, k: nat, parts: set<nat>)
    requires k < 4 && k !in parts && OnlyOpen(s, key, name, k)
    ensures Undisturbed(s, c, key, name, parts)
  {
    hide EntryName;
    var client := ClientOf(s, c);
    if HasPartFile(s, client) && client.key == key && client.name == name && client.session.part in parts {
      EntryNameInjective(name, k, name, client.session.part);
    }
  }

  lemma {:induction false} OnlyOpenRun(s: State, actions: seq<Action>, truth: Truth, c: nat, key: DirKey, name: string,
                                       k: nat, parts: set<nat>)
    requires k < 4 && k !in parts && OnlyOpen(s, key, name, k) && NobodyPuts(actions)
    ensures UndisturbedRun(s, actions, truth, c, key, name, parts)
    decreases |actions|
  {
    hide Undisturbed;
    OtherPartsUndisturbed(s, c, key, name, k, parts);
    if actions != [] {
      StaysOnlyOpen(s, actions[0], truth, key, name, k);
      hide OnlyOpen, Step;
      OnlyOpenRun(Step(s, actions[0], truth), actions[1..], truth, c, key, name, k, parts);
    }
  }

  lemma StaysOnlyOpen(s: State, a: Action, truth: Truth, key: DirKey, name: string, k: nat)
    requires OnlyOpen(s, key, name, k) && !a.Open?
    ensures OnlyOpen(Step(s, a, truth), key, name, k)
  {
    hide CanFind, HasPartFile, FirstMatch, SlotOf, AskParts, Fread, SessionTree, PutEntry, PutData, Overwrite,
        StoreFile, MakeDir, Result, IsComplete;
  }

  lemma {:induction false} UndisturbedThen(s: State, first: seq<Action>, later: seq<Action>, truth: Truth, c: nat,
                                           key: DirKey, name: string, parts: set<nat>)
    requires UndisturbedRun(s, first, truth, c, key, name, parts)
    requires UndisturbedRun(Exec(s, first, truth), later, truth, c, key, name, parts)
    ensures UndisturbedRun(s, first + later, truth, c, key, name, parts)
    decreases |first|
  {
    hide Step, Undisturbed;
    if first == [] {
      assert first + later == later;
    } else {
      assert (first + later)[1..] == first[1..] + later;
      UndisturbedThen(Step(s, first[0], truth), first[1..], later, truth, c, key, name, parts);
    }
  }

  // ----- a get that overtakes its own client's put -----

  /** A server's tree when it was empty and a session has made the directory. */
  function Fresh(key: DirKey): Tree {
    SessionTree(map[], key, [])
  }

  lemma FreshIs(key: DirKey)
    ensures Fresh(key) == if key.Sub? then map[Home(key.user) := map[], key := map[]] else map[key := map[]]
  {
  }

  function Holding(key: DirKey, dir: Directory): Tree {
    Fresh(key)[key := dir]
  }

  function WaitingWriter(key: DirKey, name: string, m: nat, i: nat): Writer {
    Writer(key, name, (m + i) % 4, i, Arrived)
  }

  /** The server whose second part is k, and the one opposite it, which has the other two parts. */
  lemma Opposite(m: nat, k: nat) returns (u: nat, o: nat)
    requires k < 4
    ensures u < 4 && o < 4 && (u == o + 2 || o == u + 2)
    ensures (m + u) % 4 == Next(Next(Next(k))) && (m + o) % 4 == Next(k)
  {
    u := Distance(m, Next(Next(Next(k))));
    o := Distance(m, Next(k));
    StepsToPart(m, u, Next(Next(Next(k))));
    StepsToPart(m, o, Next(k));
  }

  /** All but the last byte of a part. */
  function Short(file: string, k: nat): (bytes: string)
    requires k < 4 && Part(file, k) != ""
    ensures |bytes| + 1 == |Part(file, k)|
  {
    Part(file, k)[..|Part(file, k)| - 1]
  }

  /** The tree of a server whose thread has written part p, and part q but for its last byte. */
  function AllButOne(key: DirKey, name: string, file: string, p: nat, q: nat): Tree
    requires p < 4 && q < 4 && Part(file, q) != ""
  {
    Holding(key, TwoParts(name, p, Part(file, p), q, Short(file, q)))
  }

  /** A server's tree, once its thread has done what this run lets it do. */
  function DealtTree(file: string, key: DirKey, name: string, m: nat, k: nat, u: nat, i: nat): Tree
    requires k < 4 && Part(file, k) != ""
  {
    if i == u then AllButOne(key, name, file, Next(Next(Next(k))), k)
    else PutTree(map[], key, name, file, (m + i) % 4, [])
  }

  function DealtWriter(file: string, key: DirKey, name: string, m: nat, k: nat, u: nat, i: nat): Writer
    requires k < 4 && Part(file, k) != ""
  {
    WaitingWriter(key, name, m, i).(phase := if i == u then Writing(1, |Part(file, k)| - 1) else Closed)
  }

  /** Client 0 has been to i servers. Their threads have finished, but the one of server u, which
      still waits for the last byte of part k. */
  predicate Dealing(s: State, truth: Truth, key: DirKey, name: string, m: nat, k: nat, u: nat, i: nat)
    requires k < 4 && Part(truth(key, name), k) != ""
  {
    s.clients == map[0 := Putting(key, name, m, i, i)] && s.results == [] && |s.trees| == 4 && |s.writers| == i <= 4 &&
    (forall j | 0 <= j < i :: s.trees[j] == DealtTree(truth(key, name), key, name, m, k, u, j)) &&
    (forall j | i <= j < 4 :: s.trees[j] == map[]) &&
    forall j | 0 <= j < i :: s.writers[j] == DealtWriter(truth(key, name), key, name, m, k, u, j)
  }

  // ----- pacing -----

  /** The bytes of its two parts that a thread has not yet taken. */
  function Untaken(w: Writer, truth: Truth): nat {
    var second := |PutData(truth, w, 1)|;
    match w.phase
    case Arrived => |PutData(truth, w, 0)| + second
    case Between(part) => if part == 0 then |PutData(truth, w, 0)| + second else second
    case Writing(part, offset) =>
      var n := |PutData(truth, w, part)|;
      (if offset <= n then n - offset else 0) + if part == 0 then second else 0
    case Closed => 0
  }

  /** A putting client leaves for its next server, or for its prompt. */
  predicate GoesOn(s: State, a: Action) {
    (a.Skip? || a.Connect? || a.Finish?) && ClientOf(s, a.client).Putting?
  }

  /** Nobody goes on with a put while any thread has more than `room` bytes still to take. A client
      is held up in its writes until its sockets hold the rest, so these runs are among those that
      sockets of `room` bytes allow. */
  ghost predicate PacedRun(s: State, actions: seq<Action>, truth: Truth, room: nat)
    decreases |actions|
  {
    actions != [] ==>
      (GoesOn(s, actions[0]) ==> forall i | 0 <= i < |s.writers| :: Untaken(s.writers[i], truth) <= room) &&
      PacedRun(Step(s, actions[0], truth), actions[1..], truth, room)
  }

  lemma {:induction false} PacedThen(s: State, first: seq<Action>, s1: State, later: seq<Action>, truth: Truth,
                                     room: nat)
    requires PacedRun(s, first, truth, room) && Leads(s, first, s1, truth) && PacedRun(s1, later, truth, room)
    ensures PacedRun(s, first + later, truth, room)
    decreases |first|
  {
    hide Step, GoesOn, Untaken;
    if first == [] {
      assert first + later == later;
    } else {
      assert (first + later)[1..] == first[1..] + later;
      PacedThen(Step(s, first[0], truth), first[1..], s1, later, truth, room);
    }
  }

  predicate OnlyThreads(actions: seq<Action>) {
    forall a | a in actions :: a.Arrive? || a.Open? || a.Write? || a.Close?
  }

  lemma {:induction false} ThreadsArePaced(s: State, actions: seq<Action>, truth: Truth, room: nat)
    requires OnlyThreads(actions)
    ensures PacedRun(s, actions, truth, room)
    decreases |actions|
  {
    hide Step, Untaken;
    if actions != [] {
      assert actions[0] in actions && !GoesOn(s, actions[0]);
      ThreadsArePaced(Step(s, actions[0], truth), actions[1..], truth, room);
    }
  }

  predicate NobodyIsPutting(s: State) {
    forall c | c in s.clients :: !s.clients[c].Putting?
  }

  lemma {:induction false} GetsArePaced(s: State, actions: seq<Action>, truth: Truth, room: nat)
    requires NobodyPuts(actions) && NobodyIsPutting(s)
    ensures PacedRun(s, actions, truth, room)
    decreases |actions|
  {
    hide Untaken, Step, GoesOn, NobodyIsPutting;
    if actions != [] {
      StillNobodyPutting(s, actions[0], truth);
      GetsArePaced(Step(s, actions[0], truth), actions[1..], truth, room);
    }
  }

  lemma StillNobodyPutting(s: State, a: Action, truth: Truth)
    requires NobodyIsPutting(s) && !a.StartPut?
    ensures !GoesOn(s, a) && NobodyIsPutting(Step(s, a, truth))
  {
    hide CanFind, HasPartFile, FirstMatch, SlotOf, AskParts, Fread, SessionTree, PutEntry, PutData, Overwrite,
         StoreFile, MakeDir, Result, IsComplete;
  }

  lemma {:induction false} MoreRoom(s: State, actions: seq<Action>, truth: Truth, room: nat, more: nat)
    requires PacedRun(s, actions, truth, room) && room <= more
    ensures PacedRun(s, actions, truth, more)
    decreases |actions|
  {
    hide Step, Untaken, GoesOn;
    if actions != [] {
      MoreRoom(Step(s, actions[0], truth), actions[1..], truth, room, more);
    }
  }

  // ----- the put -----

  function TwoParts(name: string, p: nat, x: string, q: nat, y: string): Directory
    requires p < 4 && q < 4
  {
    map[][EntryName(name, Label(p)) := x][EntryName(name, Label(q)) := y]
  }

  lemma PutOnFresh(w: Writer, file: string, q: nat)
    requires q == Next(w.first)
    ensures PutTree(map[], w.key, w.name, file, w.first, [])
         == Holding(w.key, TwoParts(w.name, w.first, Part(file, w.first), q, Part(file, q)))
  {
    hide Part, PutTree, EntryName, Label;
    PutTreeIs(map[], w, file, []);
    FreshIs(w.key);
    assert Fresh(w.key)[w.key] == map[];
  }

  /** Up to the moment when the second part is open. */
  function OpeningActions(u: nat, n: nat): seq<Action> {
    [Arrive(u, [])] + ([Open(u)] + ([Write(u, n)] + ([Close(u)] + ([Open(u)] + []))))
  }

  lemma ExecOpening(s: State, u: nat, n: nat, truth: Truth)
    ensures Leads(s, OpeningActions(u, n),
                  StepOpen(StepClose(StepWrite(StepOpen(StepArrive(s, u, []), u), u, n, truth), u, truth), u), truth)
  {
    hide StepArrive, StepOpen, StepWrite, StepClose;
    var o1: seq<Action> := [Open(u)] + [];
    var c0 := [Close(u)] + o1;
    var w0 := [Write(u, n)] + c0;
    var s1 := StepArrive(s, u, []);
    var s2 := StepOpen(s1, u);
    var s3 := StepWrite(s2, u, n, truth);
    var s4 := StepClose(s3, u, truth);
    ExecFirst(s, Arrive(u, []), [Open(u)] + w0, truth);
    ExecFirst(s1, Open(u), w0, truth);
    ExecFirst(s2, Write(u, n), c0, truth);
    ExecFirst(s3, Close(u), o1, truth);
    ExecFirst(s4, Open(u), [], truth);
    NothingDone(StepOpen(s4, u), truth);
  }

  lemma OtherHasOpened(s: State, truth: Truth, p: nat, q: nat, u: nat)
    requires p < 4 && q == Next(p) && u < |s.writers| && s.writers[u].phase.Arrived? && s.writers[u].first == p
    requires s.writers[u].server < |s.trees| && s.trees[s.writers[u].server] == map[]
    ensures var w := s.writers[u];
            var part := Part(truth(w.key, w.name), p);
            Leads(s, OpeningActions(u, |part|),
                  SetPhase(s.(trees := s.trees[w.server := Holding(w.key, TwoParts(w.name, p, part, q, ""))]),
                           u, Writing(1, 0)), truth)
  {
    var w := s.writers[u];
    var part := Part(truth(w.key, w.name), p);
    var e0, e1 := EntryName(w.name, Label(p)), EntryName(w.name, Label(q));
    var trees4 := s.trees[w.server := Holding(w.key, map[e0 := part])];
    var s4 := s.(trees := trees4, writers := s.writers[u := w.(phase := Between(1))]);
    SecondEntry(w, q);
    hide *;
    ExecOpening(s, u, |part|, truth);
    FirstPartDone(s, truth, u);
    HoldingHas(w.key, map[e0 := part]);
    InItsDirectory(s4, u);
    SameEntries(w, s4.writers[u]);
    OpensNext(s4, u);
    StoreSecond(s.trees, w.server, w.key, e0, part, e1, "");
    SetPhaseAgain(s, u, trees4, StoreFile(trees4, w.server, w.key, e1, ""));
    TwoPartsAre(w.name, p, part, q, "");
  }

  /** And then all of the second part but its last byte. */
  lemma OtherHasWritten(s: State, truth: Truth, p: nat, q: nat, u: nat)
    requires p < 4 && q == Next(p) && u < |s.writers| && s.writers[u].phase.Arrived? && s.writers[u].first == p
    requires s.writers[u].server < |s.trees| && s.trees[s.writers[u].server] == map[]
    requires Part(truth(s.writers[u].key, s.writers[u].name), q) != ""
    ensures var w := s.writers[u];
            var file := truth(w.key, w.name);
            var n := |Part(file, q)| - 1;
            Leads(s, OpeningActions(u, |Part(file, p)|) + [Write(u, n)],
                  SetPhase(s.(trees := s.trees[w.server := AllButOne(w.key, w.name, file, p, q)]), u, Writing(1, n)),
                  truth)
  {
    var w := s.writers[u];
    var file := truth(w.key, w.name);
    var part, n := Part(file, p), |Part(file, q)| - 1;
    var trees := s.trees[w.server := Holding(w.key, TwoParts(w.name, p, part, q, ""))];
    var s1 := SetPhase(s.(trees := trees), u, Writing(1, 0));
    SecondEntry(w, q);
    HoldingHas(w.key, TwoParts(w.name, p, part, q, ""));
    var step := Step(s1, Write(u, n), truth);
    assert step == StepWrite(s1, u, n, truth);
    hide *;
    SecondWritten(s, truth, p, q, u);
    OtherHasOpened(s, truth, p, q, u);
    LeadsOne(s1, Write(u, n), truth);
    LeadsThen(s, OpeningActions(u, |part|), s1, [Write(u, n)], step, truth);
  }

  lemma SecondWritten(s: State, truth: Truth, p: nat, q: nat, u: nat)
    requires p < 4 && q == Next(p) && u < |s.writers| && s.writers[u].first == p && s.writers[u].server < |s.trees|
    requires Part(truth(s.writers[u].key, s.writers[u].name), q) != ""
    ensures var w := s.writers[u];
            var file := truth(w.key, w.name);
            var n := |Part(file, q)| - 1;
            var trees := s.trees[w.server := Holding(w.key, TwoParts(w.name, p, Part(file, p), q, ""))];
            StepWrite(SetPhase(s.(trees := trees), u, Writing(1, 0)), u, n, truth) ==
            SetPhase(s.(trees := s.trees[w.server := AllButOne(w.key, w.name, file, p, q)]), u, Writing(1, n))
  {
    var w := s.writers[u];
    var file := truth(w.key, w.name);
    var part, n := Part(file, p), |Part(file, q)| - 1;
    var before := TwoParts(w.name, p, part, q, "");
    var trees := s.trees[w.server := Holding(w.key, before)];
    var s1 := SetPhase(s.(trees := trees), u, Writing(1, 0));
    var w1 := s1.writers[u];
    SecondEntry(w, q);
    HoldingHas(w.key, before);
    var e0, e1 := EntryName(w.name, Label(p)), EntryName(w.name, Label(q));
    TwoPartsAre(w.name, p, part, q, "");
    TwoPartsAre(w.name, p, part, q, Short(file, q));
    assert PutEntry(w1, 1) == e1 && PutData(truth, w1, 1) == Part(file, q);
    assert Overwrite("", 0, Part(file, q)[0..n]) == Short(file, q);
    StoreAgain(s.trees, w.server, w.key, before, e1, Short(file, q));
    assert before[e1 := Short(file, q)] == TwoParts(w.name, p, part, q, Short(file, q));
    hide Part, EntryName, Label, PutEntry, PutData, Holding, TwoParts, Overwrite, Short;
  }

  lemma StoreAgain(trees: seq<Tree>, server: nat, key: DirKey, dir: Directory, entry: string, bytes: string)
    requires server < |trees|
    ensures var trees1 := trees[server := Holding(key, dir)];
            key in trees1[server] &&
            StoreFile(trees1, server, key, entry, bytes) == trees[server := Holding(key, dir[entry := bytes])]
  {
    var t := Fresh(key);
    assert t[key := dir][key := dir[entry := bytes]] == t[key := dir[entry := bytes]];
  }

  lemma SecondEntry(w: Writer, q: nat)
    requires q == Next(w.first)
    ensures PutEntry(w, 1) == EntryName(w.name, Label(q))
  {
  }

  lemma HoldingHas(key: DirKey, dir: Directory)
    ensures key in Holding(key, dir) && Holding(key, dir)[key] == dir
  {
  }

  lemma TwoPartsAre(name: string, p: nat, x: string, q: nat, y: string)
    requires p < 4 && q < 4
    ensures TwoParts(name, p, x, q, y) == map[EntryName(name, Label(p)) := x][EntryName(name, Label(q)) := y]
  {
  }

  lemma StoreSecond(trees: seq<Tree>, server: nat, key: DirKey, e0: string, x: string, e1: string, y: string)
    requires server < |trees|
    ensures var trees1 := trees[server := Holding(key, map[e0 := x])];
            key in trees1[server] &&
            StoreFile(trees1, server, key, e1, y) == trees[server := Holding(key, map[e0 := x][e1 := y])]
  {
    var t := Fresh(key);
    assert t[key := map[e0 := x]][key := map[e0 := x][e1 := y]] == t[key := map[e0 := x][e1 := y]];
  }

  lemma SetPhaseAgain(s: State, u: nat, trees: seq<Tree>, trees': seq<Tree>)
    requires u < |s.writers|
    ensures var s1 := s.(trees := trees, writers := s.writers[u := s.writers[u].(phase := Between(1))]);
            SetPhase(s1.(trees := trees'), u, Writing(1, 0)) == SetPhase(s.(trees := trees'), u, Writing(1, 0))
  {
  }

  lemma FirstPartDone(s: State, truth: Truth, u: nat)
    requires u < |s.writers| && s.writers[u].phase.Arrived?
    requires s.writers[u].server < |s.trees| && s.trees[s.writers[u].server] == map[]
    ensures var w := s.writers[u];
            var part := Part(truth(w.key, w.name), w.first);
            StepClose(StepWrite(StepOpen(StepArrive(s, u, []), u), u, |part|, truth), u, truth) ==
            s.(trees := s.trees[w.server := Holding(w.key, map[EntryName(w.name, Label(w.first)) := part])],
               writers := s.writers[u := w.(phase := Between(1))])
  {
    var w := s.writers[u];
    var part := Part(truth(w.key, w.name), w.first);
    assert PutEntry(w, 0) == EntryName(w.name, Label(w.first));
    FreshIs(w.key);
    var t := Fresh(w.key);
    hide Part, EntryName, Label, PutEntry, StepArrive, StepOpen, StepWrite, StepClose, SessionTree;
    WriterArrives(s, u, []);
    var s1 := StepArrive(s, u, []);
    assert s1.writers[u] == w.(phase := Between(0)) && s1.trees[w.server] == t && t[w.key] == map[];
    SameEntries(w, s1.writers[u]);
    SamePartData(truth, w, s1.writers[u]);
    OnePart(s1, u, truth);
  }

  lemma SamePartData(truth: Truth, w: Writer, w': Writer)
    requires w' == w.(phase := w'.phase)
    ensures PutData(truth, w', 0) == Part(truth(w.key, w.name), w.first)
  {
  }

  lemma OpensNext(s: State, u: nat)
    requires u < |s.writers| && s.writers[u].phase == Between(1) && HasDirectory(s.trees, s.writers[u])
    ensures var w := s.writers[u];
            StepOpen(s, u)
            == SetPhase(s.(trees := StoreFile(s.trees, w.server, w.key, PutEntry(w, 1), "")), u, Writing(1, 0))
  {
  }

  // ----- the get -----

  lemma HoldingReady(key: DirKey, dir: Directory)
    ensures var t := Holding(key, dir);
            key in t && t[key] == dir && SessionTree(t, key, []) == t && Subdirs(t, key) == {}
  {
    FreshIs(key);
  }

  lemma TwoPartsHeld(name: string, p: nat, x: string, q: nat, y: string)
    requires p < 4 && q < 4 && p != q
    ensures var dir := TwoParts(name, p, x, q, y);
            WellNamed(dir) && Held(dir, name) == {p, q} &&
            dir[EntryName(name, Label(p))] == x && dir[EntryName(name, Label(q))] == y
  {
    hide EntryName, Label, IsPartName;
    EntryNameShape(name, p);
    EntryNameShape(name, q);
    forall k: nat | k < 4
      ensures EntryName(name, Label(k)) in TwoParts(name, p, x, q, y) <==> k == p || k == q
    {
      EntryNameInjective(name, k, name, p);
      EntryNameInjective(name, k, name, q);
    }
    EntryNameInjective(name, p, name, q);
  }

  // ----- the whole run -----

  /** Every put of the name uses rotation m, which the file's digest determines. */
  predicate Rotated(actions: seq<Action>, key: DirKey, name: string, m: nat) {
    forall a | a in actions && a.StartPut? && a.key == key && a.name == name :: a.m == m
  }

  lemma SecondIndex(w: Writer, k: nat)
    requires k < 4 && w.first == Next(Next(Next(k)))
    ensures PutIndex(w, 1) == k
  {
  }

  /** What this run lets thread i do, once its server has been reached. */
  lemma WorkOne(s: State, truth: Truth, key: DirKey, name: string, m: nat, k: nat, u: nat, i: nat)
    returns (work: seq<Action>)
    requires k < 4 && Part(truth(key, name), k) != "" && (m + u) % 4 == Next(Next(Next(k)))
    requires i < |s.writers| && s.writers[i] == WaitingWriter(key, name, m, i) && i < |s.trees| && s.trees[i] == map[]
    ensures OnlyThreads(work)
    ensures var s' := s.(trees := s.trees[i := DealtTree(truth(key, name), key, name, m, k, u, i)]);
            Leads(s, work, SetPhase(s', i, DealtWriter(truth(key, name), key, name, m, k, u, i).phase), truth)
  {
    var file := truth(key, name);
    var tree, w := DealtTree(file, key, name, m, k, u, i), DealtWriter(file, key, name, m, k, u, i);
    assert i == u ==> tree == AllButOne(key, name, file, Next(Next(Next(k))), k);
    assert i == u ==> w.phase == Writing(1, |Part(file, k)| - 1);
    assert i != u ==> tree == PutTree(map[], key, name, file, s.writers[i].first, []) && w.phase == Closed;
    assert i == u ==> s.writers[i].first == Next(Next(Next(k)));
    FourResidues(k);
    hide *;
    if i == u {
      work := OpenPart(s, truth, Next(Next(Next(k))), k, u);
    } else {
      work := FinishBoth(s, truth, i);
    }
  }

  lemma OpenPart(s: State, truth: Truth, p: nat, k: nat, u: nat) returns (work: seq<Action>)
    requires p < 4 && k == Next(p) && u < |s.writers| && s.writers[u].phase.Arrived? && s.writers[u].first == p
    requires s.writers[u].server == u < |s.trees| && s.trees[u] == map[]
    requires Part(truth(s.writers[u].key, s.writers[u].name), k) != ""
    ensures OnlyThreads(work)
    ensures var w := s.writers[u];
            var file := truth(w.key, w.name);
            Leads(s, work, SetPhase(s.(trees := s.trees[u := AllButOne(w.key, w.name, file, p, k)]), u,
                                    Writing(1, |Part(file, k)| - 1)), truth)
  {
    var file := truth(s.writers[u].key, s.writers[u].name);
    work := OpeningActions(u, |Part(file, p)|) + [Write(u, |Part(file, k)| - 1)];
    hide *;
    OtherHasWritten(s, truth, p, k, u);
    OpeningOnly(u, |Part(file, p)|, |Part(file, k)| - 1);
  }

  lemma FinishBoth(s: State, truth: Truth, i: nat) returns (work: seq<Action>)
    requires i < |s.writers| && s.writers[i].phase.Arrived? && s.writers[i].server == i < |s.trees| &&
             s.trees[i] == map[]
    ensures OnlyThreads(work)
    ensures var w := s.writers[i];
            var tree := PutTree(map[], w.key, w.name, truth(w.key, w.name), w.first, []);
            Leads(s, work, SetPhase(s.(trees := s.trees[i := tree]), i, Closed), truth)
  {
    var w := s.writers[i];
    var file := truth(w.key, w.name);
    work := ThreadActions(i, [], |Part(file, w.first)|, |Part(file, Next(w.first))|);
    hide *;
    PutSessionRefines(s, i, [], truth);
    ThreadOnly(i, |Part(file, w.first)|, |Part(file, Next(w.first))|);
  }

  /** The client connects to its next server, whose thread does at once what it is let do. */
  lemma DealOne(s: State, truth: Truth, key: DirKey, name: string, m: nat, k: nat, u: nat, i: nat)
    returns (actions: seq<Action>, s': State)
    requires k < 4 && Part(truth(key, name), k) != "" && (m + u) % 4 == Next(Next(Next(k)))
    requires Dealing(s, truth, key, name, m, k, u, i) && i < 4
    ensures Leads(s, actions, s', truth) && Dealing(s', truth, key, name, m, k, u, i + 1)
    ensures PacedRun(s, actions, truth, 1) && NobodyReads(actions) && NobodyStarts(actions)
  {
    hide Part, Leads, DealtTree, DealtWriter, Untaken;
    var s1 := StepConnect(s, 0, []);
    assert s1 == s.(clients := map[0 := Putting(key, name, m, i + 1, i + 1)],
                    writers := s.writers + [WaitingWriter(key, name, m, i)]);
    AllTaken(s, truth, key, name, m, k, u, i);
    var work := WorkOne(s1, truth, key, name, m, k, u, i);
    var w := DealtWriter(truth(key, name), key, name, m, k, u, i);
    s' := SetPhase(s1.(trees := s1.trees[i := DealtTree(truth(key, name), key, name, m, k, u, i)]), i, w.phase);
    LeadsThenPaced(s, Connect(0, []), s1, work, s', truth);
    actions := [Connect(0, [])] + work;
    assert w == WaitingWriter(key, name, m, i).(phase := w.phase)
      by { DealtIs(truth(key, name), key, name, m, k, u, i); }
  }

  lemma DealtIs(file: string, key: DirKey, name: string, m: nat, k: nat, u: nat, i: nat)
    requires k < 4 && Part(file, k) != ""
    ensures var w := DealtWriter(file, key, name, m, k, u, i);
            w == WaitingWriter(key, name, m, i).(phase := w.phase)
  {
  }

  lemma LeadsThenPaced(s: State, a: Action, s1: State, work: seq<Action>, s': State, truth: Truth)
    requires Step(s, a, truth) == s1 && Leads(s1, work, s', truth) && OnlyThreads(work)
    requires !a.StartPut? && !a.Find? && !a.Size? && !a.Read?
    requires GoesOn(s, a) ==> forall i | 0 <= i < |s.writers| :: Untaken(s.writers[i], truth) <= 1
    ensures Leads(s, [a] + work, s', truth) && PacedRun(s, [a] + work, truth, 1)
    ensures NobodyReads([a] + work) && NobodyStarts([a] + work)
  {
    hide Step, Untaken, GoesOn, Leads;
    LeadsOne(s, a, truth);
    LeadsThen(s, [a], s1, work, s', truth);
    ThreadsArePaced(s1, work, truth, 1);
    assert ([a] + work)[1..] == work;
  }

  lemma ThreadOnly(w: nat, n0: nat, n1: nat)
    ensures OnlyThreads(ThreadActions(w, [], n0, n1))
  {
  }

  lemma OpeningOnly(u: nat, n0: nat, n1: nat)
    ensures OnlyThreads(OpeningActions(u, n0) + [Write(u, n1)])
  {
  }

  lemma AllTaken(s: State, truth: Truth, key: DirKey, name: string, m: nat, k: nat, u: nat, i: nat)
    requires k < 4 && Part(truth(key, name), k) != "" && (m + u) % 4 == Next(Next(Next(k)))
    requires Dealing(s, truth, key, name, m, k, u, i)
    ensures forall j | 0 <= j < i :: Untaken(s.writers[j], truth) <= 1
  {
    forall j | 0 <= j < i
      ensures Untaken(s.writers[j], truth) <= 1
    {
      var w := s.writers[j];
      assert w == DealtWriter(truth(key, name), key, name, m, k, u, j);
      if j == u {
        FourResidues(k);
        SecondIndex(w, k);
        assert PutData(truth, w, 1) == Part(truth(key, name), k);
      }
    }
  }

  /** In the end three threads have finished, the client is at its prompt, and part k is open. */
  predicate Overtaken(s: State, truth: Truth, key: DirKey, name: string, m: nat, k: nat, u: nat)
    requires k < 4 && Part(truth(key, name), k) != ""
  {
    s.clients == map[0 := Idle] && s.results == [] && |s.trees| == |s.writers| == 4 &&
    (forall j | 0 <= j < 4 :: s.trees[j] == DealtTree(truth(key, name), key, name, m, k, u, j)) &&
    forall j | 0 <= j < 4 :: s.writers[j] == DealtWriter(truth(key, name), key, name, m, k, u, j)
  }

  /** The client's whole put, paced by sockets that hold one byte. */
  lemma PutGetsThere(truth: Truth, key: DirKey, name: string, m: nat, k: nat, u: nat)
    returns (actions: seq<Action>, s: State)
    requires k < 4 && Part(truth(key, name), k) != "" && (m + u) % 4 == Next(Next(Next(k)))
    ensures Leads(Start(), actions, s, truth) && Overtaken(s, truth, key, name, m, k, u)
    ensures PacedRun(Start(), actions, truth, 1) && NobodyReads(actions) && Rotated(actions, key, name, m)
  {
    var start := StartPut(0, key, name, m);
    s := StepStart(Start(), start);
    assert Dealing(s, truth, key, name, m, k, u, 0);
    var some: seq<Action> := [];
    LeadsNowhere(s, truth);
    hide Part, Leads, Untaken, Dealing, Overtaken, PacedRun;
    assert PacedRun(s, some, truth, 1) by { ThreadsArePaced(s, some, truth, 1); }
    var s0 := s;
    for i := 0 to 4
      invariant Leads(s0, some, s, truth) && Dealing(s, truth, key, name, m, k, u, i)
      invariant PacedRun(s0, some, truth, 1) && NobodyReads(some) && NobodyStarts(some)
    {
      var more, s' := DealOne(s, truth, key, name, m, k, u, i);
      LeadsThen(s0, some, s, more, s', truth);
      PacedThen(s0, some, s, more, truth, 1);
      some, s := some + more, s';
    }
    var s1 := PutEnds(s, truth, key, name, m, k, u);
    LeadsThen(s0, some, s, [Finish(0)], s1, truth);
    PacedThen(s0, some, s, [Finish(0)], truth, 1);
    LeadsOne(Start(), start, truth);
    LeadsThen(Start(), [start], s0, some + [Finish(0)], s1, truth);
    PacedThen(Start(), [start], s0, some + [Finish(0)], truth, 1);
    actions, s := [start] + (some + [Finish(0)]), s1;
  }

  lemma PutEnds(s: State, truth: Truth, key: DirKey, name: string, m: nat, k: nat, u: nat) returns (s': State)
    requires k < 4 && Part(truth(key, name), k) != "" && (m + u) % 4 == Next(Next(Next(k)))
    requires Dealing(s, truth, key, name, m, k, u, 4)
    ensures Leads(s, [Finish(0)], s', truth) && Overtaken(s', truth, key, name, m, k, u)
    ensures PacedRun(s, [Finish(0)], truth, 1)
  {
    s' := StepFinish(s, 0);
    AllTaken(s, truth, key, name, m, k, u, 4);
    hide Part, Leads, Untaken, DealtTree, DealtWriter;
    LeadsOne(s, Finish(0), truth);
  }

  predicate NobodyStarts(actions: seq<Action>) {
    forall a | a in actions :: !a.StartPut?
  }

  predicate FourParts(k: nat, p0: nat, p1: nat, p2: nat) {
    k < 4 && p0 < 4 && p1 < 4 && p2 < 4 && p0 != p1 && p0 != p2 && p0 != k && p1 != p2 && p1 != k && p2 != k
  }

  lemma FourResidues(k: nat)
    requires k < 4
    ensures FourParts(k, Next(k), Next(Next(k)), Next(Next(Next(k)))) && Next(Next(Next(Next(k)))) == k
  {
  }

  /** What the get finds: two servers with two parts each, and of part k the last byte missing. */
  lemma OvertakenIs(s: State, truth: Truth, key: DirKey, name: string, m: nat, k: nat, u: nat, o: nat)
    requires k < 4 && Part(truth(key, name), k) != "" && u < 4 && o < 4 && u != o
    requires (m + u) % 4 == Next(Next(Next(k))) && (m + o) % 4 == Next(k)
    requires Overtaken(s, truth, key, name, m, k, u)
    ensures OnlyOpen(s, key, name, k) && NobodyIsPutting(s)
    ensures var file := truth(key, name);
            var p0, p1, p2 := Next(k), Next(Next(k)), Next(Next(Next(k)));
            s.trees[u] == AllButOne(key, name, file, p2, k) &&
            s.trees[o] == Holding(key, TwoParts(name, p0, Part(file, p0), p1, Part(file, p1)))
  {
    hide Holding, TwoParts, Part, PutTree, Short;
    assert forall j | 0 <= j < 4 && j != u :: !s.writers[j].phase.Writing?;
    FourResidues(k);
    SecondIndex(s.writers[u], k);
    PutOnFresh(WaitingWriter(key, name, m, o), truth(key, name), Next(Next(k)));
  }

  /** The places that a get finds when it reaches only servers u and o. */
  function TwoPlaces(u: nat, o: nat, atU: Directory, atO: Directory): (places: seq<Place>)
    ensures |places| == 4
  {
    seq(4, i requires 0 <= i < 4 =>
      if i == u then Place(atU, {}) else if i == o then Place(atO, {}) else Unreachable)
  }

  /** Of the four parts each is at one of two servers, and one is too short: a get that reaches the
      two collects all four, and under some orders of their directories writes a wrong file. */
  lemma WrongFromTwo(name: string, file: string, k: nat, x: string, p0: nat, p1: nat, p2: nat, u: nat, o: nat)
    returns (visits: seq<Visit>)
    requires FourParts(k, p0, p1, p2) && u < 4 && o < 4 && u != o && |x| < |Part(file, k)|
    ensures var places := TwoPlaces(u, o, TwoParts(name, p2, Part(file, p2), k, x),
                                    TwoParts(name, p0, Part(file, p0), p1, Part(file, p1)));
            PlacesOk(places, name) && PossibleVisits(places, visits) &&
            Result(Gather(visits, name, map[]).0, Gather(visits, name, map[]).1).Written? &&
            Result(Gather(visits, name, map[]).0, Gather(visits, name, map[]).1) != Written(file)
  {
    var atU, atO := TwoParts(name, p2, Part(file, p2), k, x), TwoParts(name, p0, Part(file, p0), p1, Part(file, p1));
    var places := TwoPlaces(u, o, atU, atO);
    TwoPartsHeld(name, p2, Part(file, p2), k, x);
    TwoPartsHeld(name, p0, Part(file, p0), p1, Part(file, p1));
    hide *;
    WrongPlaces(places, name, file, k, p0, p1, p2, u, o, atU, atO);
    visits := WrongVisits(places, name, file);
  }

  lemma WrongPlaces(places: seq<Place>, name: string, file: string, k: nat, p0: nat, p1: nat, p2: nat, u: nat, o: nat,
                    atU: Directory, atO: Directory)
    requires FourParts(k, p0, p1, p2) && u < 4 && o < 4 && u != o && places == TwoPlaces(u, o, atU, atO)
    requires WellNamed(atU) && Held(atU, name) == {p2, k} && atU[EntryName(name, Label(p2))] == Part(file, p2)
    requires |atU[EntryName(name, Label(k))]| < |Part(file, k)|
    requires WellNamed(atO) && Held(atO, name) == {p0, p1} && atO[EntryName(name, Label(p0))] == Part(file, p0)
    requires atO[EntryName(name, Label(p1))] == Part(file, p1)
    ensures PlacesOk(places, name) && NoLonger(places, name, file) && A.Robust(HeldSets(places, name))
    ensures !NoneSent(places, name, file)
  {
    var held := HeldSets(places, name);
    hide Part, Held, WellNamed, EntryName, Label, A.Robust, A.Safe;
    assert held[u] == {p2, k} && held[o] == {p0, p1} && forall i | 0 <= i < 4 && i != u && i != o :: held[i] == {};
    TwoHoldersRobust(held, u, o, p2, k, p0, p1);
    FirstHolder(held, u, o, k);
    assert Stale(places[u], name, file, k);
  }

  lemma WrongVisits(places: seq<Place>, name: string, file: string) returns (visits: seq<Visit>)
    requires PlacesOk(places, name) && NoLonger(places, name, file) && A.Robust(HeldSets(places, name))
    requires !NoneSent(places, name, file)
    ensures PossibleVisits(places, visits)
    ensures Result(Gather(visits, name, map[]).0, Gather(visits, name, map[]).1).Written? &&
            Result(Gather(visits, name, map[]).0, Gather(visits, name, map[]).1) != Written(file)
  {
    hide PlacesOk, NoLonger, A.Robust, NoneSent, Gather, PossibleVisits, IsComplete;
    WritesFileIff(places, name, file);
    GetSucceedsIff(places, name);
    visits :| PossibleVisits(places, visits) &&
              Result(Gather(visits, name, map[]).0, Gather(visits, name, map[]).1) != Written(file);
    var takes := GatherIsRun(places, visits, name, map[]);
  }

  lemma TwoHoldersRobust(held: seq<set<nat>>, u: nat, o: nat, a: nat, b: nat, c: nat, d: nat)
    requires |held| == 4 && u < 4 && o < 4 && held[u] == {a, b} && held[o] == {c, d}
    requires {a, b, c, d} == A.ALL
    ensures A.Robust(held)
  {
  }

  /** A part that only server u holds is not safe before it. */
  lemma FirstHolder(held: seq<set<nat>>, u: nat, o: nat, k: nat)
    requires |held| == 4 && u < 4 && o < 4 && k !in held[o]
    requires forall i | 0 <= i < 4 && i != u && i != o :: held[i] == {}
    ensures !A.Safe(held[..u], k)
  {
  }

  lemma GetOvertakes(s: State, truth: Truth, key: DirKey, name: string, m: nat, k: nat, u: nat, o: nat)
    returns (actions: seq<Action>, s': State, r: Finished)
    requires k < 4 && Part(truth(key, name), k) != "" && u < 4 && o < 4 && u != o
    requires (m + u) % 4 == Next(Next(Next(k))) && (m + o) % 4 == Next(k)
    requires Overtaken(s, truth, key, name, m, k, u)
    ensures NobodyPuts(actions) && Leads(s, actions, s', truth)
    ensures s'.results == [r] && r.key == key && r.name == name
    ensures r.outcome.Written? && r.outcome.file != truth(key, name)
  {
    var file, p0, p1, p2 := truth(key, name), Next(k), Next(Next(k)), Next(Next(Next(k)));
    var x := Short(file, k);
    var atU, atO := TwoParts(name, p2, Part(file, p2), k, x), TwoParts(name, p0, Part(file, p0), p1, Part(file, p1));
    var places := TwoPlaces(u, o, atU, atO);
    OvertakenIs(s, truth, key, name, m, k, u, o);
    FourResidues(k);
    TwoMet(s, key, u, o, atU, atO);
    hide TwoParts, Part, Short, TwoPlaces, Meets, DealtTree, DealtWriter, Gather, PossibleVisits, Result, Leads,
         NobodyPuts, PlacesOk, FourParts, AllButOne;
    var visits := WrongFromTwo(name, file, k, x, p0, p1, p2, u, o);
    actions, s', r := GetRefines(s, 0, key, name, NO_SCANS, places, visits, truth);
  }

  // The directories are there, so nothing is looked for.
  const NO_SCANS: seq<seq<string>> := [[], [], [], []]

  lemma TwoMet(s: State, key: DirKey, u: nat, o: nat, atU: Directory, atO: Directory)
    requires |s.trees| == 4 && u < 4 && o < 4 && s.trees[u] == Holding(key, atU) && s.trees[o] == Holding(key, atO)
    ensures forall i | 0 <= i < 4 :: Meets(s, key, i, NO_SCANS[i], TwoPlaces(u, o, atU, atO)[i])
  {
    HoldingReady(key, atU);
    HoldingReady(key, atO);
    hide Holding, SessionTree;
  }

  /** For every part that is not empty, and every rotation, there is a run from the start in which
      a single client puts the file and then gets it, and its get writes a wrong file, because it
      reads that part before the put's own thread has written it. No other part is disturbed. It
      happens with files of every size, as soon as the client's sockets hold a single byte: three
      threads have finished, and one has still to write the last byte of one part. */
  lemma GetOvertakesPut(truth: Truth, key: DirKey, name: string, m: nat, k: nat, parts: set<nat>)
    returns (actions: seq<Action>, r: Finished)
    requires k < 4 && Part(truth(key, name), k) != "" && k !in parts
    ensures Rotated(actions, key, name, m) && KeptApart(actions, truth, key, name, parts)
    ensures PacedRun(Start(), actions, truth, 1)
    ensures r in Exec(Start(), actions, truth).results && r.key == key && r.name == name
    ensures r.outcome.Written? && r.outcome.file != truth(key, name)
  {
    var u, o := Opposite(m, k);
    var before, s := PutGetsThere(truth, key, name, m, k, u);
    OvertakenIs(s, truth, key, name, m, k, u, o);
    var during, s';
    during, s', r := GetOvertakes(s, truth, key, name, m, k, u, o);
    hide Exec, Part, Overtaken, UndisturbedRun, ApartRun, Result, OnlyOpen, PacedRun, IsComplete, Holding, TwoParts;
    actions := before + during;
    LeadsThen(Start(), before, s, during, s', truth);
    GetsArePaced(s, during, truth, 1);
    PacedThen(Start(), before, s, during, truth, 1);
    WorkApart(Start(), before, truth);
    forall c: nat
      ensures UndisturbedRun(Start(), actions, truth, c, key, name, parts)
    {
      ApartIsUndisturbed(Start(), before, truth, c, key, name, parts);
      OnlyOpenRun(s, during, truth, c, key, name, k, parts);
      UndisturbedThen(Start(), before, during, truth, c, key, name, parts);
    }
  }

  /** What locking the files of these parts would achieve: nobody ever reads one of these parts of
      the name from a file that a writer has open. */
  ghost predicate KeptApart(actions: seq<Action>, truth: Truth, key: DirKey, name: string, parts: set<nat>) {
    forall c: nat :: UndisturbedRun(Start(), actions, truth, c, key, name, parts)
  }

  /** The run is one of those in question, and this is what one of its gets of the name came to. */
  ghost predicate Concerns(actions: seq<Action>, truth: Truth, key: DirKey, name: string, m: nat, parts: set<nat>,
                           r: Finished) {
    Rotated(actions, key, name, m) && KeptApart(actions, truth, key, name, parts) &&
    r in Exec(Start(), actions, truth).results && r.key == key && r.name == name
  }

  /** The file that every get of the name writes is right in all the runs that keep `parts` apart. */
  ghost predicate AlwaysRight(truth: Truth, key: DirKey, name: string, m: nat, parts: set<nat>) {
    forall actions, r | Concerns(actions, truth, key, name, m, parts, r) :: RightFile(r, truth)
  }

  /** It is in all those runs in which puts are paced by sockets that hold `room` bytes. */
  ghost predicate RightWhenPaced(truth: Truth, key: DirKey, name: string, m: nat, parts: set<nat>, room: nat) {
    forall actions, r | Concerns(actions, truth, key, name, m, parts, r) && PacedRun(Start(), actions, truth, room) ::
      RightFile(r, truth)
  }

  predicate RightFile(r: Finished, truth: Truth) {
    r.outcome.Written? ==> r.outcome.file == truth(r.key, r.name)
  }

  /** Exactly which part files must be locked: gets are right in every run that keeps some parts
      apart if and only if all other parts of the file are empty. Locking all four is always
      enough; with no lock at all only empty files are safe; a file of one to three bytes needs
      only its last part locked. Sockets that hold only a little, so that puts cannot run far
      ahead of their threads, make no difference. */
  lemma WholeRunExact(truth: Truth, key: DirKey, name: string, m: nat, parts: set<nat>, room: nat)
    requires room >= 1
    ensures AlwaysRight(truth, key, name, m, parts) <==>
            forall k: nat | k < 4 :: k in parts || Part(truth(key, name), k) == ""
    ensures RightWhenPaced(truth, key, name, m, parts, room) <==>
            forall k: nat | k < 4 :: k in parts || Part(truth(key, name), k) == ""
  {
    hide Exec, Part, UndisturbedRun, PacedRun, Rotated, KeptApart;
    if forall k: nat | k < 4 :: k in parts || Part(truth(key, name), k) == "" {
      forall actions, r | Concerns(actions, truth, key, name, m, parts, r)
        ensures RightFile(r, truth)
      {
        ResultOfRun(actions, truth, r);
        assert UndisturbedRun(Start(), actions, truth, r.client, key, name, parts)
          by { ApartFor(actions, truth, key, name, parts, r.client); }
        WholeRunSafety([], actions, truth, r.client, key, name, parts, r);
      }
    } else {
      var k: nat :| k < 4 && k !in parts && Part(truth(key, name), k) != "";
      var actions, r := GetOvertakesPut(truth, key, name, m, k, parts);
      MoreRoom(Start(), actions, truth, 1, room);
      assert Concerns(actions, truth, key, name, m, parts, r) && !RightFile(r, truth);
    }
  }

  lemma ApartFor(actions: seq<Action>, truth: Truth, key: DirKey, name: string, parts: set<nat>, c: nat)
    requires KeptApart(actions, truth, key, name, parts)
    ensures UndisturbedRun(Start(), actions, truth, c, key, name, parts)
  {
  }

  lemma ResultOfRun(actions: seq<Action>, truth: Truth, r: Finished)
    requires r in Exec(Start(), actions, truth).results
    ensures Exec(Start(), [], truth) == Start() && ResultOf([], actions, truth, r.client, r.key, r.name, r)
  {
    hide Exec;
    NothingDone(Start(), truth);
    var results := Exec(Start(), actions, truth).results;
    var i :| 0 <= i < |results| && results[i] == r;
  }
}
