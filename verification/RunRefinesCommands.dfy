/** The steps of a run, taken without interference, do what the commands do: the run model and
    the put and get commands are about the same system. */
module RunRefinesCommands {
  import opened Codec
  import opened DfsServer
  import opened Layout
  import opened DfsClient
  import opened DfsGet
  import opened DfsRun
  import PutThenGet

  lemma ExecFirst(s: State, a: Action, later: seq<Action>, truth: Truth)
    ensures Exec(s, [a] + later, truth) == Exec(Step(s, a, truth), later, truth)
  {
    hide Step;
    assert ([a] + later)[1..] == later;
  }

  /** These steps, and nothing else, take s to s'. */
  ghost predicate Leads(s: State, actions: seq<Action>, s': State, truth: Truth) {
    Exec(s, actions, truth) == s'
  }

  lemma LeadsNowhere(s: State, truth: Truth)
    ensures Leads(s, [], s, truth)
  {
  }

  lemma LeadsOne(s: State, a: Action, truth: Truth)
    ensures Leads(s, [a], Step(s, a, truth), truth)
  {
    hide Step;
    assert [a] + [] == [a];
    ExecFirst(s, a, [], truth);
  }

  lemma LeadsThen(s: State, first: seq<Action>, s1: State, later: seq<Action>, s2: State, truth: Truth)
    requires Leads(s, first, s1, truth) && Leads(s1, later, s2, truth)
    ensures Leads(s, first + later, s2, truth)
  {
    hide Exec;
    ExecThen(s, first, later, truth);
  }

  // ----- put -----

  lemma StoreTwice(trees: seq<Tree>, server: nat, key: DirKey, entry: string, a: string, b: string)
    requires server < |trees| && key in trees[server]
    ensures StoreFile(StoreFile(trees, server, key, entry, a), server, key, entry, b)
            == StoreFile(trees, server, key, entry, b)
  {
    var t := trees[server];
    assert t[key := t[key][entry := a]][key := t[key][entry := a][entry := b]] == t[key := t[key][entry := b]] by {
      assert t[key][entry := a][entry := b] == t[key][entry := b];
    }
  }

  lemma StoreBoth(trees: seq<Tree>, server: nat, t: Tree, key: DirKey, e0: string, d0: string, e1: string, d1: string)
    requires server < |trees| && key in t
    ensures StoreFile(StoreFile(trees[server := t], server, key, e0, d0), server, key, e1, d1)
         == trees[server := t[key := t[key][e0 := d0][e1 := d1]]]
  {
    assert t[key := t[key][e0 := d0]][key := t[key][e0 := d0][e1 := d1]] == t[key := t[key][e0 := d0][e1 := d1]];
  }

  /** Truncating, writing everything and closing. */
  function WritePart(s: State, w: nat, truth: Truth): State
    requires w < |s.writers| && s.writers[w].phase.Between?
  {
    StepClose(StepWrite(StepOpen(s, w), w, |PutData(truth, s.writers[w], s.writers[w].phase.part)|, truth), w, truth)
  }

  lemma OnePart(s: State, w: nat, truth: Truth)
    requires w < |s.writers| && HasDirectory(s.trees, s.writers[w]) && s.writers[w].phase.Between?
    ensures var wr := s.writers[w];
            WritePart(s, w, truth) ==
            SetPhase(s.(trees := StoreFile(s.trees, wr.server, wr.key, PutEntry(wr, wr.phase.part),
                                           PutData(truth, wr, wr.phase.part))),
                     w, if wr.phase.part == 0 then Between(1) else Closed)
  {
    hide EntryName, Label, Part;
    var wr := s.writers[w];
    var part := wr.phase.part;
    var entry, data := PutEntry(wr, part), PutData(truth, wr, part);
    var s1 := StepOpen(s, w);
    assert PutEntry(s1.writers[w], part) == entry && PutData(truth, s1.writers[w], part) == data;
    assert Overwrite("", 0, data) == data by { assert [] + data + [] == data; }
    assert data[0..|data|] == data;
    StoreTwice(s.trees, wr.server, wr.key, entry, "", data);
    var s2 := StepWrite(s1, w, |data|, truth);
    assert s2.writers[w] == wr.(phase := Writing(part, |data|)) && PutData(truth, s2.writers[w], part) == data;
  }

  /** A writer's whole work. */
  function ThreadActions(w: nat, homeScan: seq<string>, n0: nat, n1: nat): seq<Action> {
    [Arrive(w, homeScan)] +
    ([Open(w)] + ([Write(w, n0)] + ([Close(w)] + ([Open(w)] + ([Write(w, n1)] + ([Close(w)] + []))))))
  }

  lemma ExecThread(s: State, w: nat, homeScan: seq<string>, n0: nat, n1: nat, truth: Truth)
    ensures Leads(s, ThreadActions(w, homeScan, n0, n1),
                  StepClose(StepWrite(StepOpen(StepClose(StepWrite(StepOpen(StepArrive(s, w, homeScan),
                    w), w, n0, truth), w, truth), w), w, n1, truth), w, truth), truth)
  {
    hide StepArrive, StepOpen, StepWrite, StepClose;
    var c1: seq<Action> := [Close(w)] + [];
    var w1 := [Write(w, n1)] + c1;
    var o1 := [Open(w)] + w1;
    var c0 := [Close(w)] + o1;
    var w0 := [Write(w, n0)] + c0;
    var o0 := [Open(w)] + w0;
    var s1 := StepArrive(s, w, homeScan);
    var s2 := StepOpen(s1, w);
    var s3 := StepWrite(s2, w, n0, truth);
    var s4 := StepClose(s3, w, truth);
    var s5 := StepOpen(s4, w);
    var s6 := StepWrite(s5, w, n1, truth);
    ExecFirst(s, Arrive(w, homeScan), o0, truth);
    ExecFirst(s1, Open(w), w0, truth);
    ExecFirst(s2, Write(w, n0), c0, truth);
    ExecFirst(s3, Close(w), o1, truth);
    ExecFirst(s4, Open(w), w1, truth);
    ExecFirst(s5, Write(w, n1), c1, truth);
    ExecFirst(s6, Close(w), [], truth);
  }

  /** A writer's steps in a row make of the server's tree what the put command makes of it. */
  lemma PutSessionRefines(s: State, w: nat, homeScan: seq<string>, truth: Truth)
    requires w < |s.writers| && s.writers[w].phase.Arrived? && s.writers[w].server < |s.trees|
    ensures var wr := s.writers[w];
            var file := truth(wr.key, wr.name);
            Leads(s, ThreadActions(w, homeScan, |Part(file, wr.first)|, |Part(file, Next(wr.first))|),
                  var t := PutTree(s.trees[wr.server], wr.key, wr.name, file, wr.first, homeScan);
                  SetPhase(s.(trees := s.trees[wr.server := t]), w, Closed), truth)
  {
    var wr := s.writers[w];
    var file, p := truth(wr.key, wr.name), wr.first;
    var n0, n1 := |Part(file, p)|, |Part(file, Next(p))|;
    hide *;
    ExecThread(s, w, homeScan, n0, n1, truth);
    var t := SessionTree(s.trees[wr.server], wr.key, homeScan);
    PutTreeIs(s.trees[wr.server], wr, file, homeScan);
    if wr.key in t {
      WorkInDirectory(s, w, homeScan, truth);
    } else {
      WorkWithoutDirectory(s, w, homeScan, n0, n1, truth);
    }
  }

  lemma WorkInDirectory(s: State, w: nat, homeScan: seq<string>, truth: Truth)
    requires w < |s.writers| && s.writers[w].phase.Arrived? && s.writers[w].server < |s.trees|
    requires s.writers[w].key in SessionTree(s.trees[s.writers[w].server], s.writers[w].key, homeScan)
    ensures var wr := s.writers[w];
            var file, p, q := truth(wr.key, wr.name), wr.first, Next(wr.first);
            var t := SessionTree(s.trees[wr.server], wr.key, homeScan);
            var dir := t[wr.key][PutEntry(wr, 0) := Part(file, p)][PutEntry(wr, 1) := Part(file, q)];
            StepClose(StepWrite(StepOpen(StepClose(StepWrite(StepOpen(StepArrive(s, w, homeScan),
              w), w, |Part(file, p)|, truth), w, truth), w), w, |Part(file, q)|, truth), w, truth) ==
            SetPhase(s.(trees := s.trees[wr.server := t[wr.key := dir]]), w, Closed)
  {
    var wr := s.writers[w];
    var file, p, q := truth(wr.key, wr.name), wr.first, Next(wr.first);
    var t := SessionTree(s.trees[wr.server], wr.key, homeScan);
    var d0, d1 := Part(file, p), Part(file, q);
    hide Part, EntryName, Label, PutEntry, SessionTree, StepArrive, StepOpen, StepWrite, StepClose;
    var s1 := s.(trees := s.trees[wr.server := t], writers := s.writers[w := wr.(phase := Between(0))]);
    WriterArrives(s, w, homeScan);
    InItsDirectory(s1, w);
    BothParts(s1, w, truth);
    StoreBoth(s.trees, wr.server, t, wr.key, PutEntry(wr, 0), d0, PutEntry(wr, 1), d1);
    SameEntries(wr, s1.writers[w]);
    SetPhaseTwice(s, w, s1.trees, StoreFile(StoreFile(s1.trees, wr.server, wr.key, PutEntry(wr, 0), d0),
                                            wr.server, wr.key, PutEntry(wr, 1), d1));
  }

  lemma InItsDirectory(s: State, w: nat)
    requires w < |s.writers| && s.writers[w].server < |s.trees| && s.writers[w].key in s.trees[s.writers[w].server]
    ensures HasDirectory(s.trees, s.writers[w])
  {
  }

  lemma SameEntries(w: Writer, w': Writer)
    requires w' == w.(phase := w'.phase)
    ensures forall part :: PutEntry(w', part) == PutEntry(w, part)
  {
  }

  lemma SetPhaseTwice(s: State, w: nat, trees: seq<Tree>, trees': seq<Tree>)
    requires w < |s.writers|
    ensures var s1 := s.(trees := trees, writers := s.writers[w := s.writers[w].(phase := Between(0))]);
            SetPhase(s1.(trees := trees'), w, Closed) == SetPhase(s.(trees := trees'), w, Closed)
  {
  }

  lemma WorkWithoutDirectory(s: State, w: nat, homeScan: seq<string>, n0: nat, n1: nat, truth: Truth)
    requires w < |s.writers| && s.writers[w].phase.Arrived? && s.writers[w].server < |s.trees|
    requires s.writers[w].key !in SessionTree(s.trees[s.writers[w].server], s.writers[w].key, homeScan)
    ensures var wr := s.writers[w];
            StepClose(StepWrite(StepOpen(StepClose(StepWrite(StepOpen(StepArrive(s, w, homeScan),
              w), w, n0, truth), w, truth), w), w, n1, truth), w, truth) ==
            SetPhase(s.(trees := s.trees[wr.server := SessionTree(s.trees[wr.server], wr.key, homeScan)]), w, Closed)
  {
    hide SessionTree;
    ClosedIdles(StepArrive(s, w, homeScan), w, n0, n1, truth);
  }

  lemma WriterArrives(s: State, w: nat, homeScan: seq<string>)
    requires w < |s.writers| && s.writers[w].phase.Arrived? && s.writers[w].server < |s.trees|
    requires s.writers[w].key in SessionTree(s.trees[s.writers[w].server], s.writers[w].key, homeScan)
    ensures var wr := s.writers[w];
            StepArrive(s, w, homeScan) ==
            s.(trees := s.trees[wr.server := SessionTree(s.trees[wr.server], wr.key, homeScan)],
               writers := s.writers[w := wr.(phase := Between(0))])
  {
    hide SessionTree;
  }

  lemma PutTreeIs(tree: Tree, wr: Writer, file: string, homeScan: seq<string>)
    ensures var t, p, q := SessionTree(tree, wr.key, homeScan), wr.first, Next(wr.first);
            PutTree(tree, wr.key, wr.name, file, p, homeScan) ==
            if wr.key in t
            then t[wr.key := t[wr.key][PutEntry(wr, 0) := Part(file, p)][PutEntry(wr, 1) := Part(file, q)]]
            else t
  {
    hide EntryName, Label, Part, EnsureHome, StoreAll;
    var t := SessionTree(tree, wr.key, homeScan);
    if wr.key in t {
      PutThenGet.StoreTwo(t[wr.key], wr.name, PiecesFor(file, wr.first));
    }
  }

  /** The two parts one after the other. */
  lemma BothParts(s: State, w: nat, truth: Truth)
    requires w < |s.writers| && HasDirectory(s.trees, s.writers[w]) && s.writers[w].phase == Between(0)
    ensures var wr := s.writers[w];
            var file, p, q := truth(wr.key, wr.name), wr.first, Next(wr.first);
            StepClose(StepWrite(StepOpen(StepClose(StepWrite(StepOpen(s, w), w, |Part(file, p)|, truth), w, truth), w),
                                w, |Part(file, q)|, truth), w, truth) ==
            SetPhase(s.(trees := StoreFile(StoreFile(s.trees, wr.server, wr.key, PutEntry(wr, 0), Part(file, p)),
                                           wr.server, wr.key, PutEntry(wr, 1), Part(file, q))), w, Closed)
  {
    hide Part, EntryName, Label, StepOpen, StepWrite, StepClose;
    var wr := s.writers[w];
    OnePart(s, w, truth);
    var s4 := WritePart(s, w, truth);
    assert s4.writers[w] == wr.(phase := Between(1));
    OnePart(s4, w, truth);
  }

  lemma ClosedIdles(s: State, w: nat, n0: nat, n1: nat, truth: Truth)
    requires w < |s.writers| && s.writers[w].phase.Closed?
    ensures StepClose(StepWrite(StepOpen(StepClose(StepWrite(StepOpen(s, w), w, n0, truth), w, truth), w), w, n1,
                                truth), w, truth) == s
  {
  }

  // ----- get -----

  function Remaining(s: State, c: nat): nat {
    var client := ClientOf(s, c);
    if client.Getting? && client.session.Reading? && |client.session.sofar| <= client.session.size
    then client.session.size - |client.session.sofar| else 0
  }

  /** One pass of the server's loop for a connected get: a part, if there is one, goes over whole. */
  ghost function OnePass(s: State, c: nat, scan: seq<string>): State {
    var s2 := StepSize(StepFind(s, c, scan), c);
    StepRead(s2, c, Remaining(s2, c))
  }

  ghost function PassActions(s: State, c: nat, scan: seq<string>): seq<Action> {
    [Find(c, scan)] + ([Size(c)] + ([Read(c, Remaining(StepSize(StepFind(s, c, scan), c), c))] + []))
  }

  lemma ExecPass(s: State, c: nat, scan: seq<string>, truth: Truth)
    ensures Exec(s, PassActions(s, c, scan), truth) == OnePass(s, c, scan)
  {
    hide StepFind, StepSize, StepRead, Remaining;
    var s1 := StepFind(s, c, scan);
    var s2 := StepSize(s1, c);
    var r: seq<Action> := [Read(c, Remaining(s2, c))] + [];
    ExecFirst(s, Find(c, scan), [Size(c)] + r, truth);
    ExecFirst(s1, Size(c), r, truth);
    ExecFirst(s2, Read(c, Remaining(s2, c)), [], truth);
  }

  lemma PassFinds(s: State, c: nat, scan: seq<string>)
    requires c in s.clients && CanFind(s, s.clients[c], scan) &&
             WellNamed(s.trees[s.clients[c].server][s.clients[c].key])
    ensures var client := s.clients[c];
            var dir := s.trees[client.server][client.key];
            var picks := Picks(client.name, AskParts(client.got), [scan]);
            var s1 := StepFind(s, c, scan);
            if picks == [] then s1 == SetClient(s, c, client.(session := Away, server := client.server + 1))
            else |picks| == 1 && picks[0] in Held(dir, client.name) &&
                 s1 == SetClient(s, c, client.(session := Found(client.session.served, picks[0])))
  {
    hide IsScan, Harmless, WellNamed, EntryName, Label, FirstMatch, SlotOf, AskParts;
    var client := s.clients[c];
    var dir, subs, ask := s.trees[client.server][client.key], Subdirs(s.trees[client.server], client.key),
        AskParts(client.got);
    AskPartsIsRequest(client.got);
    ScanFinds(scan, dir, subs, client.name, ask);
    assert [scan][1..] == [];
    var i := FirstMatch(scan, client.name, ask);
    if i < |scan| {
      var k := SlotOf(ask, LastChar(scan[i]));
      assert Picks(client.name, ask, [scan]) == [k] + Picks(client.name, ask[k := '0'], []);
      assert Picks(client.name, ask, [scan]) == [k];
    }
  }

  /** A part that was found goes over as its file holds it. */
  lemma PassReads(s: State, c: nat)
    requires c in s.clients && s.clients[c].Getting? && s.clients[c].session.Found? && HasPartFile(s, s.clients[c])
    ensures var client := s.clients[c];
            var k, data := client.session.part, PartFile(s, client);
            var s2 := StepSize(s, c);
            var s3 := StepRead(s2, c, Remaining(s2, c));
            s3 == SetClient(s, c,
              if client.session.served == 0
              then client.(session := Serving(1), got := client.got[k := data], torn := TornNow(s, client))
              else client.(session := Away, server := client.server + 1, got := client.got[k := data],
                           torn := TornNow(s, client)))
  {
    hide BeingWritten, EntryName, Label;
    var client := s.clients[c];
    var data := PartFile(s, client);
    var s2 := StepSize(s, c);
    var reading := s2.clients[c];
    assert HasPartFile(s2, reading) && PartFile(s2, reading) == data && Remaining(s2, c) == |data|;
    assert "" + data[0..|data|] == data;
    assert TornNow(s2, reading) == TornNow(s, client);
    assert s.clients[c := reading][c := s.clients[c]] == s.clients;
  }

  lemma OnePassResult(s: State, c: nat, scan: seq<string>)
    requires c in s.clients && CanFind(s, s.clients[c], scan) &&
             WellNamed(s.trees[s.clients[c].server][s.clients[c].key])
    ensures var client := s.clients[c];
            var dir := s.trees[client.server][client.key];
            var picks := Picks(client.name, AskParts(client.got), [scan]);
            var s3 := OnePass(s, c, scan);
            c in s3.clients && s3.clients[c].Getting? && |picks| <= 1 &&
            (picks != [] ==> picks[0] in Held(dir, client.name)) &&
            var after := client.(torn := s3.clients[c].torn);
            s3 == SetClient(s, c,
              if picks == [] then after.(session := Away, server := client.server + 1)
              else
                var got := client.got[picks[0] := dir[EntryName(client.name, Label(picks[0]))]];
                if client.session.served == 0 then after.(session := Serving(1), got := got)
                else after.(session := Away, server := client.server + 1, got := got))
  {
    hide CanFind, WellNamed, EntryName, Label, AskParts, StepFind, Picks, StepSize, StepRead;
    var client := s.clients[c];
    InDirectory(s, client, scan);
    var picks := Picks(client.name, AskParts(client.got), [scan]);
    var s1 := StepFind(s, c, scan);
    PassFinds(s, c, scan);
    if picks == [] {
      NothingGoesOver(s1, c);
    } else {
      assert HasPartFile(s1, s1.clients[c]);
      PassReads(s1, c);
    }
  }

  lemma InDirectory(s: State, client: Client, scan: seq<string>)
    requires CanFind(s, client, scan)
    ensures client.Getting? && client.session.Serving? && client.server < |s.trees| &&
            client.key in s.trees[client.server]
  {
  }

  lemma NothingGoesOver(s: State, c: nat)
    requires c in s.clients && s.clients[c].Getting? && s.clients[c].session.Away?
    ensures var s2 := StepSize(s, c); StepRead(s2, c, Remaining(s2, c)) == s
  {
  }

  /** A connected get's session without interference: the second pass if the first found a part. */
  ghost function WholeSession(s: State, c: nat, first: seq<string>, second: seq<string>): State {
    var s1 := OnePass(s, c, first);
    if ClientOf(s1, c).Getting? && ClientOf(s1, c).session.Serving? then OnePass(s1, c, second) else s1
  }

  ghost function SessionActions(s: State, c: nat, first: seq<string>, second: seq<string>): seq<Action> {
    var s1 := OnePass(s, c, first);
    PassActions(s, c, first) +
    if ClientOf(s1, c).Getting? && ClientOf(s1, c).session.Serving? then PassActions(s1, c, second) else []
  }

  lemma ExecSession(s: State, c: nat, first: seq<string>, second: seq<string>, truth: Truth)
    ensures Leads(s, SessionActions(s, c, first, second), WholeSession(s, c, first, second), truth)
  {
    hide OnePass, PassActions;
    var s1 := OnePass(s, c, first);
    ExecPass(s, c, first, truth);
    ExecPass(s1, c, second, truth);
    ExecThen(s, PassActions(s, c, first), PassActions(s1, c, second), truth);
    assert PassActions(s, c, first) + [] == PassActions(s, c, first);
  }

  lemma CanFindAgain(s: State, s1: State, client: Client, client1: Client, scan: seq<string>)
    requires CanFind(s, client, scan) && s1.trees == s.trees
    requires client1.Getting? && client1.session.Serving? && client1.server == client.server
    requires client1.key == client.key && client1.name == client.name
    ensures CanFind(s1, client1, scan)
  {
  }

  /** A get session's steps in a row collect what the get command receives from that server. */
  lemma GetSessionRefines(s: State, c: nat, first: seq<string>, second: seq<string>)
    requires c in s.clients && CanFind(s, s.clients[c], first) && CanFind(s, s.clients[c], second)
    requires s.clients[c].session.served == 0 && WellNamed(s.trees[s.clients[c].server][s.clients[c].key])
    ensures var client := s.clients[c];
            var dir := s.trees[client.server][client.key];
            var s2 := WholeSession(s, c, first, second);
            c in s2.clients && s2.clients[c].Getting? &&
            s2 == SetClient(s, c, client.(session := Away, server := client.server + 1, torn := s2.clients[c].torn,
                                          got := client.got + Received(dir, client.name, client.got, [first, second])))
  {
    hide OnePass, IsScan, Harmless, WellNamed, EntryName, Label, AskParts, Picks, CanFind;
    var client := s.clients[c];
    InDirectory(s, client, first);
    var dir := s.trees[client.server][client.key];
    OnePassResult(s, c, first);
    var s1 := OnePass(s, c, first);
    var p1 := Picks(client.name, AskParts(client.got), [first]);
    TwoScans(client.name, client.got, first, second, "");
    if p1 != [] {
      var k := p1[0];
      assert k in p1 && p1 == [k];
      var data := dir[EntryName(client.name, Label(k))];
      TwoScans(client.name, client.got, first, second, data);
      CanFindAgain(s, s1, client, s1.clients[c], second);
      hide Held;
      OnePassResult(s1, c, second);
      var p2 := Picks(client.name, AskParts(client.got[k := data]), [second]);
      ReceivedTwo(dir, client.name, client.got, first, second, k, p2);
      assert s.clients[c := s1.clients[c]][c := client] == s.clients;
    } else {
      assert client.got + Received(dir, client.name, client.got, [first, second]) == client.got;
    }
  }

  lemma ReceivedTwo(dir: Directory, name: string, got: Got, first: seq<string>, second: seq<string>, k: nat,
                    p2: seq<nat>)
    requires k < 4 && k in Held(dir, name) && |p2| <= 1 && (p2 != [] ==> p2[0] < 4 && p2[0] in Held(dir, name))
    requires Picks(name, AskParts(got), [first, second]) == [k] + p2
    ensures var data := dir[EntryName(name, Label(k))];
            got + Received(dir, name, got, [first, second]) ==
            if p2 == [] then got[k := data] else got[k := data][p2[0] := dir[EntryName(name, Label(p2[0]))]]
  {
    hide EntryName, Label, Picks, AskParts;
    assert forall j :: j in [k] + p2 <==> j == k || (p2 != [] && j == p2[0]);
  }

  lemma AskAfter(got: Got, k: nat, data: string)
    requires k < 4
    ensures AskParts(got[k := data]) == AskParts(got)[k := '0']
  {
  }

  lemma TwoScans(name: string, got: Got, first: seq<string>, second: seq<string>, data: string)
    ensures var p1, both := Picks(name, AskParts(got), [first]), Picks(name, AskParts(got), [first, second]);
            |p1| <= 1 && (p1 == [] ==> both == []) &&
            (p1 != [] ==> p1[0] < 4 && both == p1 + Picks(name, AskParts(got[p1[0] := data]), [second]))
  {
    hide AskParts, FirstMatch, SlotOf;
    var ask := AskParts(got);
    var i := FirstMatch(first, name, ask);
    assert [first][1..] == [] && [first, second][1..] == [second];
    if i < |first| {
      var k := SlotOf(ask, LastChar(first[i]));
      assert k < 4;
      AskAfter(got, k, data);
      assert Picks(name, ask, [first]) == [k] + Picks(name, ask[k := '0'], []);
    }
  }
}
