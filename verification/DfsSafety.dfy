/** What keeps a get from reading half-written parts: which schedules are safe, and which are not. */
module DfsSafety {
  import opened Codec
  import opened DfsServer
  import opened Layout
  import opened DfsClient
  import opened DfsGet
  import opened DfsRun
  import opened RunRefinesCommands
  import A = Availability

  // ----- undisturbed parts -----

  /** Client c is not now reading one of these parts of the name from a file that a writer has open. */
  predicate Undisturbed(s: State, c: nat, key: DirKey, name: string, parts: set<nat>) {
    var client := ClientOf(s, c);
    HasPartFile(s, client) && client.key == key && client.name == name && client.session.part in parts ==>
      !BeingWritten(s.writers, client.server, key, EntryName(name, Label(client.session.part)))
  }

  predicate IsReading(a: Action, c: nat) {
    (a.Size? || a.Read?) && a.client == c
  }

  /** It never is, at the moments of the run when it takes the size or reads some bytes. */
  ghost predicate UndisturbedRun(s: State, actions: seq<Action>, truth: Truth, c: nat, key: DirKey, name: string,
                                 parts: set<nat>)
    decreases |actions|
  {
    actions != [] ==>
      (IsReading(actions[0], c) ==> Undisturbed(s, c, key, name, parts)) &&
      UndisturbedRun(Step(s, actions[0], truth), actions[1..], truth, c, key, name, parts)
  }

  predicate Untorn(client: Client, key: DirKey, name: string, parts: set<nat>) {
    client.Getting? && client.key == key && client.name == name ==> client.torn !! parts
  }

  predicate UntornResult(r: Finished, key: DirKey, name: string, parts: set<nat>) {
    r.key == key && r.name == name ==> r.torn !! parts
  }

  predicate NewUntorn(s: State, s': State, c: nat, key: DirKey, name: string, parts: set<nat>) {
    |s.results| <= |s'.results| && s'.results[..|s.results|] == s.results &&
    forall i | |s.results| <= i < |s'.results| && s'.results[i].client == c ::
      UntornResult(s'.results[i], key, name, parts)
  }

  lemma StepUntorn(s: State, a: Action, truth: Truth, c: nat, key: DirKey, name: string, parts: set<nat>)
    requires IsReading(a, c) ==> Undisturbed(s, c, key, name, parts)
    requires Untorn(ClientOf(s, c), key, name, parts)
    ensures var s' := Step(s, a, truth);
            Untorn(ClientOf(s', c), key, name, parts) && NewUntorn(s, s', c, key, name, parts)
  {
    hide SessionTree, IsScan, Harmless, FirstMatch, SlotOf, AskParts, BeingWritten, EntryName, Overwrite, PutData,
         PutEntry, MakeDir, IsComplete, Result, Fread;
  }

  lemma {:induction false} RunUntorn(s: State, actions: seq<Action>, truth: Truth, c: nat, key: DirKey, name: string,
                                     parts: set<nat>)
    requires UndisturbedRun(s, actions, truth, c, key, name, parts) && Untorn(ClientOf(s, c), key, name, parts)
    ensures NewUntorn(s, Exec(s, actions, truth), c, key, name, parts)
    decreases |actions|
  {
    hide Undisturbed, Untorn, UntornResult, Step, IsReading;
    if actions != [] {
      var s1 := Step(s, actions[0], truth);
      StepUntorn(s, actions[0], truth, c, key, name, parts);
      RunUntorn(s1, actions[1..], truth, c, key, name, parts);
      var s2 := Exec(s, actions, truth);
      assert s2.results[..|s.results|] == s2.results[..|s1.results|][..|s.results|];
      forall i | |s.results| <= i < |s2.results| && s2.results[i].client == c
        ensures UntornResult(s2.results[i], key, name, parts)
      {
        if i < |s1.results| {
          assert s2.results[i] == s2.results[..|s1.results|][i] == s1.results[i];
        }
      }
    }
  }

  /** The result of a get that client c starts and finishes while the run goes on from `before`. */
  ghost predicate ResultOf(before: seq<Action>, during: seq<Action>, truth: Truth, c: nat, key: DirKey, name: string,
                           r: Finished) {
    var s := Exec(Start(), before, truth);
    ClientOf(s, c).Idle? && r.client == c && r.key == key && r.name == name &&
    exists i | |s.results| <= i < |Exec(s, during, truth).results| :: Exec(s, during, truth).results[i] == r
  }

  /** Every part among `parts` that the get collected undisturbed is the true part, in spite of all
      else that goes on; and no part is ever too long. */
  lemma UndisturbedParts(before: seq<Action>, during: seq<Action>, truth: Truth, c: nat, key: DirKey, name: string,
                         parts: set<nat>, r: Finished)
    requires ResultOf(before, during, truth, c, key, name, r)
    requires UndisturbedRun(Exec(Start(), before, truth), during, truth, c, key, name, parts)
    ensures r.outcome == Result(r.got, false)
    ensures forall k | k in r.got ::
              k < 4 && |r.got[k]| <= |Part(truth(key, name), k)| &&
              (k in parts ==> r.got[k] == Part(truth(key, name), k))
  {
    hide Exec, UndisturbedRun, Part, Result;
    var s := Exec(Start(), before, truth);
    RunUntorn(s, during, truth, c, key, name, parts);
    RunSound(before + during, truth);
    ExecThen(Start(), before, during, truth);
    assert r in Exec(s, during, truth).results;
    assert ResultSound(r, truth);
  }

  /** Whole-run safety. In every run, with servers coming and going, degraded and repeated puts and
      writers overlapping each other, a get that reads every non-empty part of its name only while
      nobody has the part's file open writes exactly the bytes that the puts carried. */
  lemma WholeRunSafety(before: seq<Action>, during: seq<Action>, truth: Truth, c: nat, key: DirKey, name: string,
                       parts: set<nat>, r: Finished)
    requires ResultOf(before, during, truth, c, key, name, r)
    requires UndisturbedRun(Exec(Start(), before, truth), during, truth, c, key, name, parts)
    requires forall k: nat | k < 4 :: k in parts || Part(truth(key, name), k) == ""
    ensures r.outcome.Written? ==> r.outcome.file == truth(key, name)
  {
    hide Exec, UndisturbedRun, Part, Join, ResultOf;
    UndisturbedParts(before, during, truth, c, key, name, parts, r);
    if IsComplete(r.got) {
      var file := truth(key, name);
      SplitJoin(file);
      assert [r.got[0], r.got[1], r.got[2], r.got[3]] == Parts(file);
    }
  }

  // ----- a get while no put of the name is under way -----

  predicate ThreadsClosed(writers: seq<Writer>, key: DirKey, name: string) {
    forall i | 0 <= i < |writers| && writers[i].key == key && writers[i].name == name :: writers[i].phase.Closed?
  }

  predicate NobodyPutting(clients: map<nat, Client>, key: DirKey, name: string) {
    forall c | c in clients :: !(clients[c].Putting? && clients[c].key == key && clients[c].name == name)
  }

  /** Nobody is putting the name, and the threads of all puts of it have closed their files. */
  predicate PutsOver(s: State, key: DirKey, name: string) {
    ThreadsClosed(s.writers, key, name) && NobodyPutting(s.clients, key, name)
  }

  predicate NoPutIn(actions: seq<Action>, key: DirKey, name: string) {
    forall a | a in actions :: !(a.StartPut? && a.key == key && a.name == name)
  }

  lemma ThreadsStayClosed(s: State, a: Action, truth: Truth, key: DirKey, name: string)
    requires PutsOver(s, key, name)
    ensures ThreadsClosed(Step(s, a, truth).writers, key, name)
  {
    hide SessionTree, CanFind, FirstMatch, SlotOf, AskParts, TornNow, EntryName, Overwrite, PutData, PutEntry,
         MakeDir, IsComplete, Result, Fread, StoreFile, HasPartFile;
  }

  lemma NobodyStartsPutting(s: State, a: Action, truth: Truth, key: DirKey, name: string)
    requires NobodyPutting(s.clients, key, name) && !(a.StartPut? && a.key == key && a.name == name)
    ensures NobodyPutting(Step(s, a, truth).clients, key, name)
  {
    hide SessionTree, CanFind, FirstMatch, SlotOf, AskParts, TornNow, EntryName, Overwrite, PutData, PutEntry,
         MakeDir, IsComplete, Result, Fread, StoreFile, HasPartFile;
  }

  lemma PutsStayOver(s: State, a: Action, truth: Truth, key: DirKey, name: string)
    requires PutsOver(s, key, name) && !(a.StartPut? && a.key == key && a.name == name)
    ensures PutsOver(Step(s, a, truth), key, name)
  {
    hide Step, ThreadsClosed, NobodyPutting;
    ThreadsStayClosed(s, a, truth, key, name);
    NobodyStartsPutting(s, a, truth, key, name);
  }

  lemma NobodyWrites(s: State, c: nat, key: DirKey, name: string, parts: set<nat>)
    requires PutsOver(s, key, name)
    ensures Undisturbed(s, c, key, name, parts)
  {
    hide EntryName;
    var client := ClientOf(s, c);
    if HasPartFile(s, client) && client.key == key && client.name == name {
      var k := client.session.part;
      forall i | 0 <= i < |s.writers|
        ensures !IsWriting(s.writers[i], client.server, key, EntryName(name, Label(k)))
      {
        if s.writers[i].phase.Writing? {
          EntryNameInjective(s.writers[i].name, PutIndex(s.writers[i], s.writers[i].phase.part), name, k);
        }
      }
    }
  }

  lemma {:induction false} NoPutDisturbs(s: State, actions: seq<Action>, truth: Truth, c: nat, key: DirKey,
      name: string, parts: set<nat>)
    requires PutsOver(s, key, name) && NoPutIn(actions, key, name)
    ensures UndisturbedRun(s, actions, truth, c, key, name, parts)
    decreases |actions|
  {
    hide PutsOver, Undisturbed, Step;
    NobodyWrites(s, c, key, name, parts);
    if actions != [] {
      PutsStayOver(s, actions[0], truth, key, name);
      NoPutDisturbs(Step(s, actions[0], truth), actions[1..], truth, c, key, name, parts);
    }
  }

  /** What a caller can check beforehand: if the threads of all puts of the name have closed when
      the get starts, and no put of that name starts before it ends, the get writes exactly the
      file, whatever else the clients and servers do. */
  lemma SafeBetweenPuts(before: seq<Action>, during: seq<Action>, truth: Truth, c: nat, key: DirKey, name: string,
                        r: Finished)
    requires ResultOf(before, during, truth, c, key, name, r)
    requires PutsOver(Exec(Start(), before, truth), key, name) && NoPutIn(during, key, name)
    ensures r.outcome.Written? ==> r.outcome.file == truth(key, name)
  {
    hide Exec, UndisturbedRun, Part, ResultOf, PutsOver, NoPutIn;
    NoPutDisturbs(Exec(Start(), before, truth), during, truth, c, key, name, A.ALL);
    WholeRunSafety(before, during, truth, c, key, name, A.ALL, r);
  }

  // ----- sessions that do not overlap -----

  predicate NoReader(s: State) {
    forall c | c in s.clients && s.clients[c].Getting? :: s.clients[c].session.Away? || s.clients[c].session.Serving?
  }

  predicate NoWriter(s: State) {
    forall i | 0 <= i < |s.writers| :: !s.writers[i].phase.Writing?
  }

  ghost predicate ApartRun(s: State, actions: seq<Action>, truth: Truth)
    decreases |actions|
  {
    (NoReader(s) || NoWriter(s)) && (actions != [] ==> ApartRun(Step(s, actions[0], truth), actions[1..], truth))
  }

  lemma {:induction false} ApartIsUndisturbed(s: State, actions: seq<Action>, truth: Truth, c: nat, key: DirKey,
      name: string, parts: set<nat>)
    requires ApartRun(s, actions, truth)
    ensures UndisturbedRun(s, actions, truth, c, key, name, parts)
    decreases |actions|
  {
    hide Step;
    if actions != [] {
      ApartIsUndisturbed(Step(s, actions[0], truth), actions[1..], truth, c, key, name, parts);
    }
  }

  lemma {:induction false} ApartThen(s: State, first: seq<Action>, later: seq<Action>, truth: Truth)
    requires ApartRun(s, first, truth) && ApartRun(Exec(s, first, truth), later, truth)
    ensures ApartRun(s, first + later, truth)
    decreases |first|
  {
    hide Step, NoReader, NoWriter;
    if first == [] {
      assert first + later == later;
    } else {
      assert (first + later)[1..] == first[1..] + later;
      ApartThen(Step(s, first[0], truth), first[1..], later, truth);
    }
  }

  predicate NobodyReads(actions: seq<Action>) {
    forall a | a in actions :: !a.Find? && !a.Size? && !a.Read?
  }

  predicate NobodyPuts(actions: seq<Action>) {
    forall a | a in actions :: !a.StartPut? && !a.Open?
  }

  lemma {:induction false} WorkApart(s: State, actions: seq<Action>, truth: Truth)
    requires NobodyReads(actions) && NoReader(s)
    ensures ApartRun(s, actions, truth)
    decreases |actions|
  {
    hide SessionTree, PutEntry, PutData, Overwrite, StoreFile, MakeDir, Result, IsComplete;
    if actions != [] {
      WorkApart(Step(s, actions[0], truth), actions[1..], truth);
    }
  }

  lemma {:induction false} ServingApart(s: State, actions: seq<Action>, truth: Truth)
    requires NobodyPuts(actions) && NoWriter(s)
    ensures ApartRun(s, actions, truth)
    decreases |actions|
  {
    hide CanFind, HasPartFile, FirstMatch, SlotOf, AskParts, Fread, SessionTree, PutEntry, PutData, Overwrite,
        StoreFile, MakeDir, Result, IsComplete;
    if actions != [] {
      ServingApart(Step(s, actions[0], truth), actions[1..], truth);
    }
  }

  // A step at the granularity of sessions: one server's session of a put or a get, or a client's own step.
  datatype Turn =
    | PutAt(client: nat, homeScan: seq<string>)
    | GetAt(client: nat, homeScan: seq<string>, first: seq<string>, second: seq<string>)
    | Other(action: Action)

  predicate IsOwnStep(a: Action) {
    a.StartPut? || a.StartGet? || a.Skip? || a.Finish? || a.Mkdir?
  }

  /** The put session that starts here runs to its end; an impossible turn does nothing. */
  function PutTurn(s: State, c: nat, homeScan: seq<string>, truth: Truth): seq<Action> {
    var client := ClientOf(s, c);
    if client.Putting? && AtNextServer(s, client) then
      var file, p := truth(client.key, client.name), (client.m + client.rank) % 4;
      [Connect(c, [])] + ThreadActions(|s.writers|, homeScan, |Part(file, p)|, |Part(file, Next(p))|)
    else []
  }

  ghost function GetTurn(s: State, c: nat, homeScan: seq<string>, first: seq<string>,
                         second: seq<string>): seq<Action> {
    var client, s1 := ClientOf(s, c), StepConnect(s, c, homeScan);
    if client.Getting? && AtNextServer(s, client) && CanFind(s1, ClientOf(s1, c), first) &&
      CanFind(s1, ClientOf(s1, c), second)
    then [Connect(c, homeScan)] + SessionActions(s1, c, first, second)
    else []
  }

  ghost function TurnActions(s: State, turn: Turn, truth: Truth): seq<Action> {
    match turn
    case PutAt(c, homeScan) => PutTurn(s, c, homeScan, truth)
    case GetAt(c, homeScan, first, second) => GetTurn(s, c, homeScan, first, second)
    case Other(a) => if IsOwnStep(a) then [a] else []
  }

  /** The run of single steps that a sequence of turns is. */
  ghost function RunOf(s: State, turns: seq<Turn>, truth: Truth): seq<Action>
    decreases |turns|
  {
    if turns == [] then []
    else
      var actions := TurnActions(s, turns[0], truth);
      actions + RunOf(Exec(s, actions, truth), turns[1..], truth)
  }

  /** Between two turns nobody is in the middle of a session. */
  predicate Quiet(s: State) {
    (forall i | 0 <= i < |s.writers| :: s.writers[i].phase.Closed?) &&
    forall c | c in s.clients && s.clients[c].Getting? :: s.clients[c].session.Away?
  }

  lemma PutTurnQuiet(s: State, c: nat, homeScan: seq<string>, truth: Truth)
    requires Quiet(s)
    ensures Quiet(Exec(s, PutTurn(s, c, homeScan, truth), truth)) && ApartRun(s, PutTurn(s, c, homeScan, truth), truth)
  {
    hide Exec, ThreadActions, PutTree, Part;
    var client, actions := ClientOf(s, c), PutTurn(s, c, homeScan, truth);
    if actions != [] {
      var s1, w := StepConnect(s, c, []), |s.writers|;
      var rest := actions[1..];
      assert actions == [Connect(c, [])] + rest && actions[0] == Connect(c, []);
      ExecFirst(s, Connect(c, []), rest, truth);
      PutSessionRefines(s1, w, homeScan, truth);
      ThreadActionsOnly(w, homeScan, |Part(truth(client.key, client.name), (client.m + client.rank) % 4)|,
                        |Part(truth(client.key, client.name), Next((client.m + client.rank) % 4))|);
      WorkApart(s1, rest, truth);
    } else {
      NothingDone(s, truth);
    }
  }

  lemma NothingDone(s: State, truth: Truth)
    ensures Exec(s, [], truth) == s && (ApartRun(s, [], truth) <==> NoReader(s) || NoWriter(s))
  {
  }

  lemma ThreadActionsOnly(w: nat, homeScan: seq<string>, n0: nat, n1: nat)
    ensures NobodyReads(ThreadActions(w, homeScan, n0, n1))
    ensures forall a | a in ThreadActions(w, homeScan, n0, n1) :: !a.StartPut?
  {
  }

  lemma SessionActionsOnly(s: State, c: nat, first: seq<string>, second: seq<string>)
    ensures NobodyPuts(SessionActions(s, c, first, second))
  {
    hide OnePass, Remaining, StepFind, StepSize;
  }

  lemma GetTurnQuiet(s: State, c: nat, homeScan: seq<string>, first: seq<string>, second: seq<string>, truth: Truth)
    requires Quiet(s) && Sound(s, truth)
    ensures var actions := GetTurn(s, c, homeScan, first, second);
            Quiet(Exec(s, actions, truth)) && ApartRun(s, actions, truth)
  {
    hide Exec, SessionActions, WholeSession, CanFind, Received, SessionTree, Sound, IsComplete;
    var client, actions := ClientOf(s, c), GetTurn(s, c, homeScan, first, second);
    if actions != [] {
      var s1 := StepConnect(s, c, homeScan);
      var rest := actions[1..];
      assert actions == [Connect(c, homeScan)] + rest && actions[0] == Connect(c, homeScan) &&
             rest == SessionActions(s1, c, first, second);
      ExecFirst(s, Connect(c, homeScan), rest, truth);
      ConnectKeeps(s, c, homeScan, truth);
      InDirectory(s1, ClientOf(s1, c), first);
      PartNamesOnly(s1, truth, ClientOf(s1, c).server, ClientOf(s1, c).key);
      GetSessionRefines(s1, c, first, second);
      ExecSession(s1, c, first, second, truth);
      SessionActionsOnly(s1, c, first, second);
      ServingApart(s1, rest, truth);
    } else {
      NothingDone(s, truth);
    }
  }

  lemma PartNamesOnly(s: State, truth: Truth, server: nat, key: DirKey)
    requires Sound(s, truth) && server < |s.trees| && key in s.trees[server]
    ensures WellNamed(s.trees[server][key])
  {
    hide FileSound, IsPartName;
  }

  lemma OwnStepQuiet(s: State, a: Action, truth: Truth)
    requires Quiet(s) && IsOwnStep(a)
    ensures Quiet(Exec(s, [a], truth)) && ApartRun(s, [a], truth)
  {
    hide Exec, MakeDir, IsComplete, Result;
    ExecFirst(s, a, [], truth);
    assert [a] + [] == [a];
    NothingDone(Step(s, a, truth), truth);
  }

  lemma TurnQuiet(s: State, turn: Turn, truth: Truth)
    requires Quiet(s) && Sound(s, truth)
    ensures var actions := TurnActions(s, turn, truth);
            Quiet(Exec(s, actions, truth)) && ApartRun(s, actions, truth)
  {
    hide Quiet, Sound, Exec, PutTurn, GetTurn;
    match turn
    case PutAt(c, homeScan) => PutTurnQuiet(s, c, homeScan, truth);
    case GetAt(c, homeScan, first, second) => GetTurnQuiet(s, c, homeScan, first, second, truth);
    case Other(a) => if IsOwnStep(a) { OwnStepQuiet(s, a, truth); } else { NothingDone(s, truth); QuietIsApart(s); }
  }

  lemma QuietIsApart(s: State)
    requires Quiet(s)
    ensures NoReader(s)
  {
  }

  lemma {:induction false} TurnsApart(s: State, turns: seq<Turn>, truth: Truth)
    requires Quiet(s) && Sound(s, truth)
    ensures ApartRun(s, RunOf(s, turns, truth), truth)
    decreases |turns|
  {
    hide Quiet, Sound, Exec, TurnActions;
    if turns == [] {
      NothingDone(s, truth);
      QuietIsApart(s);
    } else {
      var actions := TurnActions(s, turns[0], truth);
      TurnQuiet(s, turns[0], truth);
      RunKeeps(s, actions, truth);
      TurnsApart(Exec(s, actions, truth), turns[1..], truth);
      ApartThen(s, actions, RunOf(Exec(s, actions, truth), turns[1..], truth), truth);
    }
  }

  /** Safety at the granularity of sessions: when each session with a server runs undisturbed, in
      whatever order the sessions of all clients are mixed, every get writes exactly the file. */
  lemma SafeByTurns(turns: seq<Turn>, truth: Truth, r: Finished)
    requires r in Exec(Start(), RunOf(Start(), turns, truth), truth).results
    ensures r.outcome.Written? ==> r.outcome.file == truth(r.key, r.name)
  {
    hide Exec, RunOf, UndisturbedRun, ApartRun, Part;
    var actions := RunOf(Start(), turns, truth);
    NothingDone(Start(), truth);
    TurnsApart(Start(), turns, truth);
    ApartIsUndisturbed(Start(), actions, truth, r.client, r.key, r.name, A.ALL);
    var results := Exec(Start(), actions, truth).results;
    var i :| 0 <= i < |results| && results[i] == r;
    WholeRunSafety([], actions, truth, r.client, r.key, r.name, A.ALL, r);
  }
}
