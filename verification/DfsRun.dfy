/** Whole runs of the file system: any number of clients, four multi-threaded servers, servers
    coming and going, and every interleaving.

    A put's client only talks: it hands a server two parts and turns to the next one without
    waiting for an answer. A thread of the server's own, a writer, does the work, at any time
    later, even after the client has finished the put and started something else.

    A step is what one thread does without waiting: skip or reach a server, make a directory,
    truncate a part file, write some bytes of it, close it, find a part that a get wants, take its
    size, or send some of its bytes. Nothing in the servers locks a file, so a part that is being
    rewritten can be read half done, and two writers can write the same file at once, each at its
    own offset. */
module DfsRun {
  import opened CStrings
  import opened Codec
  import opened DfsServer
  import opened Layout
  import opened DfsClient
  import opened DfsGet
  import opened Listing

  // What every put to a name in a directory carries.
  type Truth = (DirKey, string) -> string

  datatype Client =
    | Idle
      // `server` is next; `rank` servers were reached so far
    | Putting(key: DirKey, name: string, m: nat, server: nat, rank: nat)
      // torn: the parts that were open for writing at a moment when they were read
    | Getting(key: DirKey, name: string, server: nat, session: Session, got: Got, torn: set<nat>)

  // A get's session with one server: how many parts it has served, and the part that is going over.
  datatype Session = Away | Serving(served: nat) | Found(served: nat, part: nat)
                   | Reading(served: nat, part: nat, size: nat, sofar: string)

  // A server's thread for one put session; `first` is the first of its two parts.
  datatype Writer = Writer(key: DirKey, name: string, first: PartIndex, server: nat, phase: Phase)

  datatype Phase = Arrived | Between(part: nat) | Writing(part: nat, offset: nat) | Closed

  // A finished get.
  datatype Finished = Finished(client: nat, key: DirKey, name: string, got: Got, torn: set<nat>, outcome: Outcome)

  datatype State = State(trees: seq<Tree>, clients: map<nat, Client>, writers: seq<Writer>, results: seq<Finished>)

  datatype Action =
    | StartPut(client: nat, key: DirKey, name: string, m: nat)
    | StartGet(client: nat, key: DirKey, name: string)
    | Skip(client: nat)
    | Connect(client: nat, homeScan: seq<string>)
    | Finish(client: nat)
      // a writer's steps
    | Arrive(writer: nat, homeScan: seq<string>)
    | Open(writer: nat)
    | Write(writer: nat, count: nat)
    | Close(writer: nat)
      // what the server does for a connected get
    | Find(client: nat, scan: seq<string>)
    | Size(client: nat)
    | Read(client: nat, count: nat)
      // MKDIR, and all that a list changes
    | Mkdir(server: nat, key: DirKey)

  function ClientOf(s: State, c: nat): Client {
    if c in s.clients then s.clients[c] else Idle
  }

  function SetClient(s: State, c: nat, client: Client): State {
    s.(clients := s.clients[c := client])
  }

  /** The part number that the writer's current part has. */
  function PutIndex(w: Writer, part: nat): PartIndex {
    if part == 0 then w.first else Next(w.first)
  }

  function PutEntry(w: Writer, part: nat): string {
    EntryName(w.name, Label(PutIndex(w, part)))
  }

  function PutData(truth: Truth, w: Writer, part: nat): string {
    Part(truth(w.key, w.name), PutIndex(w, part))
  }

  function StoreFile(trees: seq<Tree>, server: nat, key: DirKey, entry: string, bytes: string): seq<Tree>
    requires server < |trees| && key in trees[server]
  {
    trees[server := trees[server][key := trees[server][key][entry := bytes]]]
  }

  /** pwrite: bytes at an offset; a gap before the offset reads as zeros. */
  function Overwrite(before: string, offset: nat, data: string): string {
    if offset <= |before| then
      before[..offset] + data + (if offset + |data| < |before| then before[offset + |data|..] else "")
    else before + Zeros(offset - |before|) + data
  }

  /** fread into a zeroed buffer that is sent whole: what the file does not have is zeros. */
  function Fread(bytes: string, offset: nat, count: nat): (data: string)
    ensures |data| == count
    ensures offset + count <= |bytes| ==> data == bytes[offset..offset + count]
  {
    if offset + count <= |bytes| then bytes[offset..offset + count]
    else if offset <= |bytes| then bytes[offset..] + Zeros(offset + count - |bytes|)
    else Zeros(count)
  }

  lemma FreadChar(bytes: string, offset: nat, count: nat, i: nat)
    requires i < count
    ensures Fread(bytes, offset, count)[i] == if offset + i < |bytes| then bytes[offset + i] else NUL
  {
  }

  /** Whether a writer has this file open. */
  predicate IsWriting(w: Writer, server: nat, key: DirKey, entry: string) {
    w.phase.Writing? && w.server == server && w.key == key && PutEntry(w, w.phase.part) == entry
  }

  predicate BeingWritten(writers: seq<Writer>, server: nat, key: DirKey, entry: string) {
    exists i | 0 <= i < |writers| :: IsWriting(writers[i], server, key, entry)
  }

  // ----- one step; an action that is not possible changes nothing -----

  function StepStart(s: State, a: Action): State {
    match a
    case StartPut(c, key, name, m) =>
      if ClientOf(s, c).Idle? then SetClient(s, c, Putting(key, name, m, 0, 0)) else s
    case StartGet(c, key, name) =>
      if ClientOf(s, c).Idle? then SetClient(s, c, Getting(key, name, 0, Away, map[], {})) else s
    case _ => s
  }

  predicate AtNextServer(s: State, client: Client) {
    !client.Idle? && client.server < |s.trees| &&
    (client.Getting? ==> client.session.Away? && !IsComplete(client.got))
  }

  function StepSkip(s: State, c: nat): State {
    var client := ClientOf(s, c);
    if !AtNextServer(s, client) then s
    else SetClient(s, c, client.(server := client.server + 1))
  }

  /** A put leaves its parts with a new writer and moves on. For a get the server makes sure of
      the directory. */
  function StepConnect(s: State, c: nat, homeScan: seq<string>): State {
    var client := ClientOf(s, c);
    if !AtNextServer(s, client) then s
    else if client.Putting? then
      var w := Writer(client.key, client.name, (client.m + client.rank) % 4, client.server, Arrived);
      SetClient(s.(writers := s.writers + [w]), c, client.(server := client.server + 1, rank := client.rank + 1))
    else
      var t := SessionTree(s.trees[client.server], client.key, homeScan);
      var s1 := s.(trees := s.trees[client.server := t]);
      if client.key in t then SetClient(s1, c, client.(session := Serving(0))) else s1
  }

  function StepFinish(s: State, c: nat): State {
    var client := ClientOf(s, c);
    if client.Putting? && client.server == |s.trees| then SetClient(s, c, Idle)
    else if client.Getting? && client.session.Away? && (IsComplete(client.got) || client.server == |s.trees|) then
      var result := Finished(c, client.key, client.name, client.got, client.torn, Result(client.got, false));
      SetClient(s.(results := s.results + [result]), c, Idle)
    else s
  }

  function SetPhase(s: State, w: nat, phase: Phase): State
    requires w < |s.writers|
  {
    s.(writers := s.writers[w := s.writers[w].(phase := phase)])
  }

  /** The writer makes sure of the directory; without it nothing is stored. */
  function StepArrive(s: State, w: nat, homeScan: seq<string>): State {
    if w < |s.writers| && s.writers[w].phase.Arrived? && s.writers[w].server < |s.trees| then
      var wr := s.writers[w];
      var t := SessionTree(s.trees[wr.server], wr.key, homeScan);
      SetPhase(s.(trees := s.trees[wr.server := t]), w, if wr.key in t then Between(0) else Closed)
    else s
  }

  predicate HasDirectory(trees: seq<Tree>, w: Writer) {
    w.server < |trees| && w.key in trees[w.server]
  }

  /** fopen for writing: the file is empty from now on. */
  function StepOpen(s: State, w: nat): State {
    if w < |s.writers| && HasDirectory(s.trees, s.writers[w]) && s.writers[w].phase.Between? then
      var wr := s.writers[w];
      SetPhase(s.(trees := StoreFile(s.trees, wr.server, wr.key, PutEntry(wr, wr.phase.part), "")), w,
               Writing(wr.phase.part, 0))
    else s
  }

  function StepWrite(s: State, w: nat, count: nat, truth: Truth): State {
    if w < |s.writers| && HasDirectory(s.trees, s.writers[w]) && s.writers[w].phase.Writing? then
      var wr := s.writers[w];
      var part, offset := wr.phase.part, wr.phase.offset;
      var entry, data := PutEntry(wr, part), PutData(truth, wr, part);
      if offset + count <= |data| && entry in s.trees[wr.server][wr.key] then
        var bytes := Overwrite(s.trees[wr.server][wr.key][entry], offset, data[offset..offset + count]);
        SetPhase(s.(trees := StoreFile(s.trees, wr.server, wr.key, entry, bytes)), w, Writing(part, offset + count))
      else s
    else s
  }

  /** fclose, once everything is written; after the second part the thread ends. */
  function StepClose(s: State, w: nat, truth: Truth): State {
    if w < |s.writers| && s.writers[w].phase.Writing? &&
       s.writers[w].phase.offset == |PutData(truth, s.writers[w], s.writers[w].phase.part)|
    then SetPhase(s, w, if s.writers[w].phase.part == 0 then Between(1) else Closed)
    else s
  }

  /** The directory that a connected get reads, and that its order is possible. */
  ghost predicate CanFind(s: State, client: Client, scan: seq<string>) {
    client.Getting? && client.session.Serving? && client.server < |s.trees| && client.key in s.trees[client.server] &&
    var subs := Subdirs(s.trees[client.server], client.key);
    IsScan(scan, s.trees[client.server][client.key], subs) && Harmless(subs, client.name)
  }

  /** One pass over the directory: a part that is still wanted, or the end of the session. */
  ghost function StepFind(s: State, c: nat, scan: seq<string>): State {
    var client := ClientOf(s, c);
    if CanFind(s, client, scan) then
      var i := FirstMatch(scan, client.name, AskParts(client.got));
      SetClient(s, c,
        if i < |scan| then
          client.(session := Found(client.session.served, SlotOf(AskParts(client.got), LastChar(scan[i]))))
        else client.(session := Away, server := client.server + 1))
    else s
  }

  /** The file of the part that is going over is there. */
  predicate HasPartFile(s: State, client: Client) {
    client.Getting? && (client.session.Found? || client.session.Reading?) && client.session.part < 4 &&
    client.server < |s.trees| && client.key in s.trees[client.server] &&
    EntryName(client.name, Label(client.session.part)) in s.trees[client.server][client.key]
  }

  function PartFile(s: State, client: Client): string
    requires HasPartFile(s, client)
  {
    s.trees[client.server][client.key][EntryName(client.name, Label(client.session.part))]
  }

  /** The parts known to be torn, with this one added if a writer has its file open now. */
  function TornNow(s: State, client: Client): set<nat>
    requires HasPartFile(s, client)
  {
    client.torn + if BeingWritten(s.writers, client.server, client.key,
                                  EntryName(client.name, Label(client.session.part)))
                  then {client.session.part} else {}
  }

  /** fopen, fseek and ftell. */
  function StepSize(s: State, c: nat): State {
    var client := ClientOf(s, c);
    if HasPartFile(s, client) && client.session.Found? then
      SetClient(s, c, client.(session := Reading(client.session.served, client.session.part, |PartFile(s, client)|, ""),
                              torn := TornNow(s, client)))
    else s
  }

  /** Some more bytes go over; with the last the part is the client's, and after two parts the
      session is over. */
  function StepRead(s: State, c: nat, count: nat): State {
    var client := ClientOf(s, c);
    if HasPartFile(s, client) && client.session.Reading? && |client.session.sofar| + count <= client.session.size then
      var Reading(served, part, size, sofar) := client.session;
      var now := sofar + Fread(PartFile(s, client), |sofar|, count);
      var torn := TornNow(s, client);
      SetClient(s, c,
        if |now| < size then client.(session := Reading(served, part, size, now), torn := torn)
        else if served == 0 then client.(session := Serving(1), got := client.got[part := now], torn := torn)
        else client.(session := Away, server := client.server + 1, got := client.got[part := now], torn := torn))
    else s
  }

  /** The bytes that go over are those of the file at this moment, whatever it held when its size was
      taken, and zeros where it is shorter by now. */
  lemma ReadSeesNow(s: State, c: nat, count: nat)
    requires var client := ClientOf(s, c);
             HasPartFile(s, client) && client.session.Reading? && |client.session.sofar| + count <= client.session.size
    ensures var client, s' := ClientOf(s, c), StepRead(s, c, count);
            var sofar, file := client.session.sofar, PartFile(s, client);
            var now := if s'.clients[c].session.Reading? then s'.clients[c].session.sofar
                       else s'.clients[c].got[client.session.part];
            |now| == |sofar| + count && now[..|sofar|] == sofar &&
            forall i | |sofar| <= i < |now| :: now[i] == if i < |file| then file[i] else NUL
  {
    var client := ClientOf(s, c);
    var sofar, file := client.session.sofar, PartFile(s, client);
    forall i | 0 <= i < count
      ensures Fread(file, |sofar|, count)[i] == if |sofar| + i < |file| then file[|sofar| + i] else NUL
    {
      FreadChar(file, |sofar|, count, i);
    }
    hide Fread, HasPartFile, PartFile, TornNow;
    var now := sofar + Fread(file, |sofar|, count);
    assert forall i | |sofar| <= i < |now| :: now[i] == Fread(file, |sofar|, count)[i - |sofar|];
  }

  ghost function Step(s: State, a: Action, truth: Truth): State {
    match a
    case StartPut(_, _, _, _) => StepStart(s, a)
    case StartGet(_, _, _) => StepStart(s, a)
    case Skip(c) => StepSkip(s, c)
    case Connect(c, homeScan) => StepConnect(s, c, homeScan)
    case Finish(c) => StepFinish(s, c)
    case Arrive(w, homeScan) => StepArrive(s, w, homeScan)
    case Open(w) => StepOpen(s, w)
    case Write(w, count) => StepWrite(s, w, count, truth)
    case Close(w) => StepClose(s, w, truth)
    case Find(c, scan) => StepFind(s, c, scan)
    case Size(c) => StepSize(s, c)
    case Read(c, count) => StepRead(s, c, count)
    case Mkdir(server, key) =>
      if server < |s.trees| then s.(trees := s.trees[server := MakeDir(s.trees[server], key)]) else s
  }

  ghost function Exec(s: State, actions: seq<Action>, truth: Truth): State
    decreases |actions|
  {
    if actions == [] then s else Exec(Step(s, actions[0], truth), actions[1..], truth)
  }

  function Start(): State {
    State([map[], map[], map[], map[]], map[], [], [])
  }

  lemma {:induction false} ExecThen(s: State, first: seq<Action>, later: seq<Action>, truth: Truth)
    ensures Exec(s, first + later, truth) == Exec(Exec(s, first, truth), later, truth)
    decreases |first|
  {
    hide Step;
    if first == [] {
      assert first + later == later;
    } else {
      assert (first + later)[1..] == first[1..] + later;
      ExecThen(Step(s, first[0], truth), first[1..], later, truth);
    }
  }

  // ----- what every step keeps -----

  /** What a file with this entry name should hold in the end. */
  function TrueBytes(truth: Truth, key: DirKey, entry: string): string
    requires IsPartName(entry)
  {
    Part(truth(key, NameOf(entry)), PartOf(entry))
  }

  /** A part file is never too long, and it is whole unless some writer still has it open and all
      before that writer's offset is right. */
  predicate FileSound(writers: seq<Writer>, bytes: string, whole: string, server: nat, key: DirKey, entry: string) {
    |bytes| <= |whole| &&
    (bytes == whole ||
     exists i | 0 <= i < |writers| ::
       IsWriting(writers[i], server, key, entry) && GoodUpTo(bytes, whole, writers[i].phase.offset))
  }

  predicate GoodUpTo(bytes: string, whole: string, offset: nat) {
    offset <= |bytes| && offset <= |whole| && bytes[..offset] == whole[..offset]
  }

  predicate FilesSound(trees: seq<Tree>, writers: seq<Writer>, truth: Truth) {
    forall i | 0 <= i < |trees| ::
      forall key | key in trees[i] ::
        forall e | e in trees[i][key] ::
          IsPartName(e) && FileSound(writers, trees[i][key][e], TrueBytes(truth, key, e), i, key, e)
  }

  predicate WriterSound(trees: seq<Tree>, w: Writer, truth: Truth) {
    w.phase.Writing? ==>
      HasDirectory(trees, w) && PutEntry(w, w.phase.part) in trees[w.server][w.key] &&
      w.phase.offset <= |PutData(truth, w, w.phase.part)|
  }

  predicate WritersSound(trees: seq<Tree>, writers: seq<Writer>, truth: Truth) {
    forall i | 0 <= i < |writers| :: WriterSound(trees, writers[i], truth)
  }

  predicate GotSound(got: Got, torn: set<nat>, file: string) {
    forall k | k in got :: k < 4 && |got[k]| <= |Part(file, k)| && (k !in torn ==> got[k] == Part(file, k))
  }

  /** What has been sent of a part is its beginning, unless the part is torn. */
  predicate SessionSound(session: Session, torn: set<nat>, file: string) {
    session.Reading? ==>
      session.part < 4 && |session.sofar| <= session.size <= |Part(file, session.part)| &&
      (session.part !in torn ==>
         session.size == |Part(file, session.part)| && session.sofar == Part(file, session.part)[..|session.sofar|])
  }

  predicate ClientSound(client: Client, truth: Truth) {
    client.Getting? ==>
      GotSound(client.got, client.torn, truth(client.key, client.name)) &&
      SessionSound(client.session, client.torn, truth(client.key, client.name))
  }

  predicate ClientsSound(clients: map<nat, Client>, truth: Truth) {
    forall c | c in clients :: ClientSound(clients[c], truth)
  }

  predicate ResultSound(r: Finished, truth: Truth) {
    r.outcome == Result(r.got, false) && GotSound(r.got, r.torn, truth(r.key, r.name))
  }

  predicate ResultsSound(results: seq<Finished>, truth: Truth) {
    forall r | r in results :: ResultSound(r, truth)
  }

  predicate Sound(s: State, truth: Truth) {
    FilesSound(s.trees, s.writers, truth) && WritersSound(s.trees, s.writers, truth) &&
    ClientsSound(s.clients, truth) && ResultsSound(s.results, truth)
  }

  lemma EntryMeaning(name: string, k: nat)
    requires k < 4
    ensures var e := EntryName(name, Label(k));
            IsPartName(e) && NameOf(e) == name && PartOf(e) == k
  {
    EntryNameShape(name, k);
  }

  lemma PutEntryMeaning(truth: Truth, w: Writer, part: nat)
    ensures var e := PutEntry(w, part);
            IsPartName(e) && TrueBytes(truth, w.key, e) == PutData(truth, w, part)
  {
    EntryMeaning(w.name, PutIndex(w, part));
  }

  /** All threads with a file open go on with it, unchanged. */
  predicate WritersKept(ws: seq<Writer>, ws': seq<Writer>) {
    |ws| <= |ws'| && forall i | 0 <= i < |ws| && ws[i].phase.Writing? :: ws'[i] == ws[i]
  }

  lemma FileKept(ws: seq<Writer>, ws': seq<Writer>, bytes: string, whole: string, server: nat, key: DirKey,
                 entry: string)
    requires WritersKept(ws, ws') && FileSound(ws, bytes, whole, server, key, entry)
    ensures FileSound(ws', bytes, whole, server, key, entry)
  {
    hide GoodUpTo;
    if bytes != whole {
      var i :| 0 <= i < |ws| && IsWriting(ws[i], server, key, entry) && GoodUpTo(bytes, whole, ws[i].phase.offset);
      assert ws'[i] == ws[i];
    }
  }

  /** Trees may only gain empty directories. */
  predicate TreesGrow(before: seq<Tree>, after: seq<Tree>) {
    |after| == |before| &&
    forall i | 0 <= i < |before| ::
      (forall key | key in before[i] :: key in after[i] && after[i][key] == before[i][key]) &&
      forall key | key in after[i] && key !in before[i] :: after[i][key] == map[]
  }

  lemma TreesSame(trees: seq<Tree>)
    ensures TreesGrow(trees, trees)
  {
  }

  lemma FilesKept(trees: seq<Tree>, trees': seq<Tree>, ws: seq<Writer>, ws': seq<Writer>, truth: Truth)
    requires FilesSound(trees, ws, truth) && WritersKept(ws, ws') && TreesGrow(trees, trees')
    ensures FilesSound(trees', ws', truth)
  {
    hide FileSound, WritersKept;
    forall i, key, e | 0 <= i < |trees'| && key in trees'[i] && e in trees'[i][key]
      ensures IsPartName(e) && FileSound(ws', trees'[i][key][e], TrueBytes(truth, key, e), i, key, e)
    {
      assert key in trees[i];
      FileKept(ws, ws', trees[i][key][e], TrueBytes(truth, key, e), i, key, e);
    }
  }

  lemma WriterKept(trees: seq<Tree>, trees': seq<Tree>, w: Writer, truth: Truth)
    requires WriterSound(trees, w, truth) && TreesGrow(trees, trees')
    ensures WriterSound(trees', w, truth)
  {
    hide PutEntry, PutData;
  }

  /** A step that adds at most empty directories and touches no thread with an open file. */
  lemma GrowthKeeps(s: State, s': State, truth: Truth)
    requires Sound(s, truth) && TreesGrow(s.trees, s'.trees) && WritersKept(s.writers, s'.writers)
    requires forall i | 0 <= i < |s'.writers| && (i < |s.writers| ==> s'.writers[i] != s.writers[i]) ::
             !s'.writers[i].phase.Writing?
    requires ClientsSound(s'.clients, truth) && ResultsSound(s'.results, truth)
    ensures Sound(s', truth)
  {
    hide FilesSound, ClientsSound, ResultsSound, TreesGrow, WriterSound;
    FilesKept(s.trees, s'.trees, s.writers, s'.writers, truth);
    forall i | 0 <= i < |s'.writers|
      ensures WriterSound(s'.trees, s'.writers[i], truth)
    {
      if i < |s.writers| && s'.writers[i] == s.writers[i] {
        WriterKept(s.trees, s'.trees, s.writers[i], truth);
      } else {
        NotWritingIsSound(s'.trees, s'.writers[i], truth);
      }
    }
  }

  lemma NotWritingIsSound(trees: seq<Tree>, w: Writer, truth: Truth)
    requires !w.phase.Writing?
    ensures WriterSound(trees, w, truth)
  {
  }

  lemma ClientSet(clients: map<nat, Client>, c: nat, client: Client, truth: Truth)
    requires ClientsSound(clients, truth) && ClientSound(client, truth)
    ensures ClientsSound(clients[c := client], truth)
  {
    hide ClientSound;
  }

  lemma SoundClient(s: State, c: nat, truth: Truth)
    requires Sound(s, truth)
    ensures ClientSound(ClientOf(s, c), truth)
  {
    hide GotSound, SessionSound, FilesSound;
  }

  lemma StartKeeps(s: State, a: Action, truth: Truth)
    requires Sound(s, truth)
    ensures Sound(StepStart(s, a), truth)
  {
    hide FilesSound, WriterSound, ClientsSound, ResultsSound, TreesGrow;
    TreesSame(s.trees);
    var s' := StepStart(s, a);
    if s' != s {
      ClientSet(s.clients, a.client, s'.clients[a.client], truth);
      GrowthKeeps(s, s', truth);
    }
  }

  lemma SkipKeeps(s: State, c: nat, truth: Truth)
    requires Sound(s, truth)
    ensures Sound(StepSkip(s, c), truth)
  {
    hide FilesSound, WriterSound, ClientsSound, ResultsSound, TreesGrow, GotSound, IsComplete;
    TreesSame(s.trees);
    SoundClient(s, c, truth);
    var s' := StepSkip(s, c);
    if s' != s {
      ClientSet(s.clients, c, s'.clients[c], truth);
      GrowthKeeps(s, s', truth);
    }
  }

  lemma SessionTreeGrows(trees: seq<Tree>, server: nat, key: DirKey, homeScan: seq<string>)
    requires server < |trees|
    ensures TreesGrow(trees, trees[server := SessionTree(trees[server], key, homeScan)])
  {
    hide SessionTree;
    SessionTreeKeeps(trees[server], key, homeScan);
  }

  lemma ConnectKeeps(s: State, c: nat, homeScan: seq<string>, truth: Truth)
    requires Sound(s, truth)
    ensures Sound(StepConnect(s, c, homeScan), truth)
  {
    hide FilesSound, WriterSound, ClientsSound, ResultsSound, TreesGrow, GotSound, IsComplete, SessionTree;
    var client, s' := ClientOf(s, c), StepConnect(s, c, homeScan);
    TreesSame(s.trees);
    SoundClient(s, c, truth);
    if AtNextServer(s, client) {
      SessionTreeGrows(s.trees, client.server, client.key, homeScan);
      if client.Putting? || client.key in SessionTree(s.trees[client.server], client.key, homeScan) {
        ClientSet(s.clients, c, s'.clients[c], truth);
      }
      GrowthKeeps(s, s', truth);
    }
  }

  lemma ArriveKeeps(s: State, w: nat, homeScan: seq<string>, truth: Truth)
    requires Sound(s, truth)
    ensures Sound(StepArrive(s, w, homeScan), truth)
  {
    hide FilesSound, WriterSound, ClientsSound, ResultsSound, TreesGrow, SessionTree;
    var s' := StepArrive(s, w, homeScan);
    if s' != s {
      SessionTreeGrows(s.trees, s.writers[w].server, s.writers[w].key, homeScan);
      GrowthKeeps(s, s', truth);
    }
  }

  lemma MkdirKeeps(s: State, server: nat, key: DirKey, truth: Truth)
    requires Sound(s, truth) && server < |s.trees|
    ensures Sound(s.(trees := s.trees[server := MakeDir(s.trees[server], key)]), truth)
  {
    hide FilesSound, WriterSound, ClientsSound, ResultsSound, TreesGrow;
    MakeDirGrows(s.trees, server, key);
    GrowthKeeps(s, s.(trees := s.trees[server := MakeDir(s.trees[server], key)]), truth);
  }

  lemma MakeDirGrows(trees: seq<Tree>, server: nat, key: DirKey)
    requires server < |trees|
    ensures TreesGrow(trees, trees[server := MakeDir(trees[server], key)])
  {
  }

  lemma FinishKeeps(s: State, c: nat, truth: Truth)
    requires Sound(s, truth)
    ensures Sound(StepFinish(s, c), truth)
  {
    hide FilesSound, WriterSound, ClientsSound, TreesGrow, GotSound, IsComplete, Result, SessionSound;
    TreesSame(s.trees);
    SoundClient(s, c, truth);
    var s' := StepFinish(s, c);
    if s' != s {
      ClientSet(s.clients, c, Idle, truth);
      GrowthKeeps(s, s', truth);
    }
  }

  // ----- writing -----

  /** Only one file of the trees changes. */
  predicate OneFileChanged(trees: seq<Tree>, trees': seq<Tree>, server: nat, key: DirKey, entry: string,
                           bytes: string) {
    server < |trees| && key in trees[server] && trees' == StoreFile(trees, server, key, entry, bytes)
  }

  lemma FilesAfterStore(trees: seq<Tree>, trees': seq<Tree>, ws': seq<Writer>, truth: Truth, server: nat, key: DirKey,
                        entry: string, bytes: string)
    requires OneFileChanged(trees, trees', server, key, entry, bytes)
    requires forall i, d, e | 0 <= i < |trees| && d in trees[i] && e in trees[i][d] :: IsPartName(e)
    requires IsPartName(entry) && FileSound(ws', bytes, TrueBytes(truth, key, entry), server, key, entry)
    requires forall i, d, e | 0 <= i < |trees| && d in trees[i] && e in trees[i][d] &&
             (i != server || d != key || e != entry) ::
               FileSound(ws', trees[i][d][e], TrueBytes(truth, d, e), i, d, e)
    ensures FilesSound(trees', ws', truth)
  {
    hide FileSound, TrueBytes, IsPartName;
    forall i, d, e | 0 <= i < |trees'| && d in trees'[i] && e in trees'[i][d]
      ensures IsPartName(e) && FileSound(ws', trees'[i][d][e], TrueBytes(truth, d, e), i, d, e)
    {
      if i != server || d != key || e != entry {
        assert d in trees[i] && e in trees[i][d] && trees'[i][d][e] == trees[i][d][e];
      }
    }
  }

  /** A writer's own step on one file leaves the other files sound: it was no witness for them. */
  lemma OtherFileKept(ws: seq<Writer>, ws': seq<Writer>, w: nat, bytes: string, whole: string, server: nat,
                      key: DirKey, entry: string)
    requires FileSound(ws, bytes, whole, server, key, entry)
    requires w < |ws| == |ws'| && !IsWriting(ws[w], server, key, entry) && ws' == ws[w := ws'[w]]
    ensures FileSound(ws', bytes, whole, server, key, entry)
  {
    hide GoodUpTo;
    if bytes != whole {
      var i :| 0 <= i < |ws| && IsWriting(ws[i], server, key, entry) && GoodUpTo(bytes, whole, ws[i].phase.offset);
      assert ws'[i] == ws[i];
    }
  }

  lemma WriterAfterStore(trees: seq<Tree>, trees': seq<Tree>, truth: Truth, w: Writer, server: nat, key: DirKey,
                         entry: string, bytes: string)
    requires WriterSound(trees, w, truth) && OneFileChanged(trees, trees', server, key, entry, bytes)
    ensures WriterSound(trees', w, truth)
  {
    hide PutEntry, PutData;
  }

  /** The invariant after a step of writer w that stores one file. */
  lemma SoundAfterStore(s: State, s': State, truth: Truth, w: nat, entry: string, bytes: string)
    requires Sound(s, truth) && w < |s.writers| == |s'.writers|
    requires var wr := s.writers[w];
             (wr.phase.Writing? ==> entry == PutEntry(wr, wr.phase.part)) &&
             OneFileChanged(s.trees, s'.trees, wr.server, wr.key, entry, bytes) && IsPartName(entry) &&
             FileSound(s'.writers, bytes, TrueBytes(truth, wr.key, entry), wr.server, wr.key, entry)
    requires s'.writers == s.writers[w := s'.writers[w]] && WriterSound(s'.trees, s'.writers[w], truth)
    requires s'.clients == s.clients && s'.results == s.results
    ensures Sound(s', truth)
  {
    hide FileSound, WriterSound, ClientsSound, ResultsSound, PutEntry, OneFileChanged, TrueBytes;
    var wr := s.writers[w];
    forall i, d, e | 0 <= i < |s.trees| && d in s.trees[i] && e in s.trees[i][d] &&
        (i != wr.server || d != wr.key || e != entry)
      ensures FileSound(s'.writers, s.trees[i][d][e], TrueBytes(truth, d, e), i, d, e)
    {
      OtherFileKept(s.writers, s'.writers, w, s.trees[i][d][e], TrueBytes(truth, d, e), i, d, e);
    }
    FilesAfterStore(s.trees, s'.trees, s'.writers, truth, wr.server, wr.key, entry, bytes);
    forall i | 0 <= i < |s'.writers|
      ensures WriterSound(s'.trees, s'.writers[i], truth)
    {
      if i != w {
        WriterAfterStore(s.trees, s'.trees, truth, s.writers[i], wr.server, wr.key, entry, bytes);
      }
    }
  }

  lemma OpenKeeps(s: State, w: nat, truth: Truth)
    requires Sound(s, truth)
    ensures Sound(StepOpen(s, w), truth)
  {
    hide Sound, FilesSound, TrueBytes, PutData, EntryName;
    var s' := StepOpen(s, w);
    if s' != s {
      var wr := s.writers[w];
      var entry := PutEntry(wr, wr.phase.part);
      PutEntryMeaning(truth, wr, wr.phase.part);
      var whole := TrueBytes(truth, wr.key, entry);
      assert IsWriting(s'.writers[w], wr.server, wr.key, entry) && GoodUpTo("", whole, 0);
      SoundAfterStore(s, s', truth, w, entry, "");
    }
  }

  lemma OverwriteChar(bytes: string, offset: nat, data: string, i: nat)
    requires i < |bytes| || i < offset + |data|
    ensures i < |Overwrite(bytes, offset, data)|
    ensures Overwrite(bytes, offset, data)[i] ==
            if offset <= i < offset + |data| then data[i - offset] else if i < |bytes| then bytes[i] else NUL
  {
  }

  /** A prefix is good when each of its characters is. */
  lemma GoodByChars(bytes: string, whole: string, good: nat)
    requires good <= |bytes| && good <= |whole| && forall i | 0 <= i < good :: bytes[i] == whole[i]
    ensures GoodUpTo(bytes, whole, good)
  {
  }

  lemma GoodChar(bytes: string, whole: string, good: nat, i: nat)
    requires GoodUpTo(bytes, whole, good) && i < good
    ensures bytes[i] == whole[i]
  {
    assert bytes[i] == bytes[..good][i] && whole[i] == whole[..good][i];
  }

  /** Writing the true bytes at any offset keeps every true prefix, and extends the writer's own. */
  lemma OverwriteKeeps(bytes: string, whole: string, offset: nat, count: nat, good: nat)
    requires offset + count <= |whole| && |bytes| <= |whole| && GoodUpTo(bytes, whole, good)
    ensures var after := Overwrite(bytes, offset, whole[offset..offset + count]);
            |after| <= |whole| && GoodUpTo(after, whole, good) &&
            (good == offset ==> GoodUpTo(after, whole, offset + count)) && (bytes == whole ==> after == whole)
  {
    var data := whole[offset..offset + count];
    var after := Overwrite(bytes, offset, data);
    OverwriteFits(bytes, whole, offset, count);
    forall i | 0 <= i < |bytes| || offset <= i < offset + count
      ensures i < |after| && (i < good || offset <= i < offset + count || bytes == whole ==> after[i] == whole[i])
    {
      OverwriteChar(bytes, offset, data, i);
      if i < good {
        GoodChar(bytes, whole, good, i);
      }
    }
    hide Overwrite;
    GoodLength(bytes, whole, good);
    GoodByChars(after, whole, good);
    if good == offset {
      OverwriteLength(bytes, offset, data);
      GoodByChars(after, whole, offset + count);
    }
  }

  lemma GoodLength(bytes: string, whole: string, good: nat)
    requires GoodUpTo(bytes, whole, good)
    ensures good <= |bytes| && good <= |whole|
  {
  }

  lemma OverwriteLength(bytes: string, offset: nat, data: string)
    ensures |Overwrite(bytes, offset, data)| == if |bytes| < offset + |data| then offset + |data| else |bytes|
  {
  }

  lemma OverwriteFits(bytes: string, whole: string, offset: nat, count: nat)
    requires offset + count <= |whole| && |bytes| <= |whole|
    ensures |Overwrite(bytes, offset, whole[offset..offset + count])| <= |whole|
  {
  }

  lemma WrittenFileSound(ws: seq<Writer>, ws': seq<Writer>, w: nat, bytes: string, whole: string, count: nat,
                         server: nat, key: DirKey, entry: string)
    requires FileSound(ws, bytes, whole, server, key, entry)
    requires w < |ws| == |ws'| && IsWriting(ws[w], server, key, entry)
    requires ws[w].phase.offset + count <= |whole|
    requires ws' == ws[w := ws'[w]] && IsWriting(ws'[w], server, key, entry)
    requires ws'[w].phase.offset == ws[w].phase.offset + count
    ensures var offset := ws[w].phase.offset;
            FileSound(ws', Overwrite(bytes, offset, whole[offset..offset + count]), whole, server, key, entry)
  {
    hide GoodUpTo, Overwrite;
    var offset := ws[w].phase.offset;
    OverwriteFits(bytes, whole, offset, count);
    if bytes == whole {
      WholeIsGood(whole);
      OverwriteKeeps(bytes, whole, offset, count, |whole|);
    } else {
      var i :| 0 <= i < |ws| && IsWriting(ws[i], server, key, entry) && GoodUpTo(bytes, whole, ws[i].phase.offset);
      OverwriteKeeps(bytes, whole, offset, count, ws[i].phase.offset);
      assert IsWriting(ws'[i], server, key, entry);
    }
  }

  lemma WholeIsGood(whole: string)
    ensures GoodUpTo(whole, whole, |whole|)
  {
  }

  lemma WriteKeeps(s: State, w: nat, count: nat, truth: Truth)
    requires Sound(s, truth)
    ensures Sound(StepWrite(s, w, count, truth), truth)
  {
    hide FileSound, WriterSound, ClientsSound, ResultsSound, TrueBytes, EntryName, Overwrite, IsPartName, PutEntry,
        PutData;
    var s' := StepWrite(s, w, count, truth);
    if s' != s {
      var wr, wr' := s.writers[w], s'.writers[w];
      var part, offset := wr.phase.part, wr.phase.offset;
      var entry, whole := PutEntry(wr, part), PutData(truth, wr, part);
      PutEntryMeaning(truth, wr, part);
      var bytes := s.trees[wr.server][wr.key][entry];
      assert FileSound(s.writers, bytes, whole, wr.server, wr.key, entry);
      SamePlace(wr, wr', truth);
      WrittenFileSound(s.writers, s'.writers, w, bytes, whole, count, wr.server, wr.key, entry);
      WritingIsSound(s'.trees, wr', truth);
      SoundAfterStore(s, s', truth, w, entry, Overwrite(bytes, offset, whole[offset..offset + count]));
    }
  }

  /** Moving the offset leaves a writer at the same file. */
  lemma SamePlace(w: Writer, w': Writer, truth: Truth)
    requires w.phase.Writing? && w' == w.(phase := w'.phase) && w'.phase.Writing? && w'.phase.part == w.phase.part
    ensures PutEntry(w', w'.phase.part) == PutEntry(w, w.phase.part)
    ensures PutData(truth, w', w'.phase.part) == PutData(truth, w, w.phase.part)
    ensures IsWriting(w, w.server, w.key, PutEntry(w, w.phase.part)) &&
            IsWriting(w', w.server, w.key, PutEntry(w, w.phase.part))
  {
  }

  lemma WritingIsSound(trees: seq<Tree>, w: Writer, truth: Truth)
    requires w.phase.Writing? && HasDirectory(trees, w) && PutEntry(w, w.phase.part) in trees[w.server][w.key]
    requires w.phase.offset <= |PutData(truth, w, w.phase.part)|
    ensures WriterSound(trees, w, truth)
  {
  }

  lemma CloseKeeps(s: State, w: nat, truth: Truth)
    requires Sound(s, truth)
    ensures Sound(StepClose(s, w, truth), truth)
  {
    hide FileSound, WriterSound, ClientsSound, ResultsSound, TrueBytes, IsPartName, PutEntry, PutData;
    var s' := StepClose(s, w, truth);
    if s' != s {
      var wr := s.writers[w];
      forall i, d, e | 0 <= i < |s.trees| && d in s.trees[i] && e in s.trees[i][d]
        ensures FileSound(s'.writers, s.trees[i][d][e], TrueBytes(truth, d, e), i, d, e)
      {
        ClosedFileSound(s.writers, s'.writers, w, s.trees[i][d][e], TrueBytes(truth, d, e), i, d, e, truth);
      }
      NotWritingIsSound(s'.trees, s'.writers[w], truth);
    }
  }

  lemma GoodToTheEnd(bytes: string, whole: string)
    requires |bytes| <= |whole|
    ensures GoodUpTo(bytes, whole, |whole|) ==> bytes == whole
  {
    if GoodUpTo(bytes, whole, |whole|) {
      assert bytes == bytes[..|whole|] && whole == whole[..|whole|];
    }
  }

  /** When the witness itself closes, it has written everything: the file is whole. */
  lemma ClosedFileSound(ws: seq<Writer>, ws': seq<Writer>, w: nat, bytes: string, whole: string, server: nat,
                        key: DirKey, entry: string, truth: Truth)
    requires FileSound(ws, bytes, whole, server, key, entry) && IsPartName(entry) &&
             whole == TrueBytes(truth, key, entry)
    requires w < |ws| == |ws'| && ws[w].phase.Writing?
    requires ws[w].phase.offset == |PutData(truth, ws[w], ws[w].phase.part)|
    requires ws' == ws[w := ws'[w]]
    ensures FileSound(ws', bytes, whole, server, key, entry)
  {
    hide TrueBytes, PutData, PutEntry, GoodUpTo;
    PutEntryMeaning(truth, ws[w], ws[w].phase.part);
    GoodToTheEnd(bytes, whole);
    if bytes != whole {
      var i :| 0 <= i < |ws| && IsWriting(ws[i], server, key, entry) && GoodUpTo(bytes, whole, ws[i].phase.offset);
      assert ws'[i] == ws[i];
    }
  }

  // ----- reading -----

  /** A file that nobody has open is whole. */
  lemma UnopenedIsWhole(s: State, truth: Truth, server: nat, key: DirKey, entry: string)
    requires FilesSound(s.trees, s.writers, truth)
    requires server < |s.trees| && key in s.trees[server] && entry in s.trees[server][key]
    ensures IsPartName(entry) && |s.trees[server][key][entry]| <= |TrueBytes(truth, key, entry)|
    ensures !BeingWritten(s.writers, server, key, entry) ==> s.trees[server][key][entry] == TrueBytes(truth, key, entry)
  {
    hide IsWriting;
    assert FileSound(s.writers, s.trees[server][key][entry], TrueBytes(truth, key, entry), server, key, entry);
  }

  lemma FindKeeps(s: State, c: nat, scan: seq<string>, truth: Truth)
    requires Sound(s, truth)
    ensures Sound(StepFind(s, c, scan), truth)
  {
    hide FilesSound, WriterSound, ClientsSound, ResultsSound, TreesGrow, GotSound, AskParts, IsScan, Harmless,
        FirstMatch, SlotOf;
    TreesSame(s.trees);
    SoundClient(s, c, truth);
    var s' := StepFind(s, c, scan);
    if s' != s {
      ClientSet(s.clients, c, s'.clients[c], truth);
      GrowthKeeps(s, s', truth);
    }
  }

  /** The file of the part going over: never too long, and the true part when nobody has it open. */
  lemma PartFileSound(s: State, client: Client, truth: Truth)
    requires FilesSound(s.trees, s.writers, truth) && HasPartFile(s, client)
    ensures var k := client.session.part;
            var part := Part(truth(client.key, client.name), k);
            |PartFile(s, client)| <= |part| && client.torn <= TornNow(s, client) &&
            (k !in TornNow(s, client) ==> PartFile(s, client) == part)
  {
    hide FilesSound, BeingWritten, Part, EntryName;
    EntryMeaning(client.name, client.session.part);
    UnopenedIsWhole(s, truth, client.server, client.key, EntryName(client.name, Label(client.session.part)));
  }

  lemma SizeKeeps(s: State, c: nat, truth: Truth)
    requires Sound(s, truth)
    ensures Sound(StepSize(s, c), truth)
  {
    hide FilesSound, WriterSound, ClientsSound, ResultsSound, TreesGrow, TornNow, PartFile, Part;
    TreesSame(s.trees);
    SoundClient(s, c, truth);
    var client, s' := ClientOf(s, c), StepSize(s, c);
    if HasPartFile(s, client) && client.session.Found? {
      PartFileSound(s, client, truth);
      assert ClientSound(s'.clients[c], truth);
      ClientSet(s.clients, c, s'.clients[c], truth);
      GrowthKeeps(s, s', truth);
    }
  }

  /** Bytes read from the true part continue its beginning. */
  lemma ReadOn(part: string, sofar: string, count: nat)
    requires |sofar| + count <= |part| && sofar == part[..|sofar|]
    ensures sofar + Fread(part, |sofar|, count) == part[..|sofar| + count]
  {
  }

  lemma ReadKeeps(s: State, c: nat, count: nat, truth: Truth)
    requires Sound(s, truth)
    ensures Sound(StepRead(s, c, count), truth)
  {
    hide FilesSound, WriterSound, ClientsSound, ResultsSound, TreesGrow, TornNow, PartFile, Part, Fread;
    TreesSame(s.trees);
    SoundClient(s, c, truth);
    var client, s' := ClientOf(s, c), StepRead(s, c, count);
    if HasPartFile(s, client) && client.session.Reading? && |client.session.sofar| + count <= client.session.size {
      PartFileSound(s, client, truth);
      var part := Part(truth(client.key, client.name), client.session.part);
      if client.session.part !in TornNow(s, client) {
        ReadOn(part, client.session.sofar, count);
        assert part[..|part|] == part;
      }
      assert ClientSound(s'.clients[c], truth);
      ClientSet(s.clients, c, s'.clients[c], truth);
      GrowthKeeps(s, s', truth);
    }
  }

  // ----- whole runs -----

  lemma StepKeeps(s: State, a: Action, truth: Truth)
    requires Sound(s, truth)
    ensures Sound(Step(s, a, truth), truth)
  {
    hide Sound, StepStart, StepSkip, StepConnect, StepFinish, StepArrive, StepOpen, StepWrite, StepClose, StepFind,
        StepSize, StepRead;
    match a
    case StartPut(_, _, _, _) => StartKeeps(s, a, truth);
    case StartGet(_, _, _) => StartKeeps(s, a, truth);
    case Skip(c) => SkipKeeps(s, c, truth);
    case Connect(c, homeScan) => ConnectKeeps(s, c, homeScan, truth);
    case Finish(c) => FinishKeeps(s, c, truth);
    case Arrive(w, homeScan) => ArriveKeeps(s, w, homeScan, truth);
    case Open(w) => OpenKeeps(s, w, truth);
    case Write(w, count) => WriteKeeps(s, w, count, truth);
    case Close(w) => CloseKeeps(s, w, truth);
    case Find(c, scan) => FindKeeps(s, c, scan, truth);
    case Size(c) => SizeKeeps(s, c, truth);
    case Read(c, count) => ReadKeeps(s, c, count, truth);
    case Mkdir(server, key) => if server < |s.trees| { MkdirKeeps(s, server, key, truth); }
  }

  lemma {:induction false} RunKeeps(s: State, actions: seq<Action>, truth: Truth)
    requires Sound(s, truth)
    ensures Sound(Exec(s, actions, truth), truth)
    decreases |actions|
  {
    hide Sound, Step;
    if actions != [] {
      StepKeeps(s, actions[0], truth);
      RunKeeps(Step(s, actions[0], truth), actions[1..], truth);
    }
  }

  lemma RunSound(actions: seq<Action>, truth: Truth)
    ensures Sound(Exec(Start(), actions, truth), truth)
  {
    hide Exec;
    assert Sound(Start(), truth);
    RunKeeps(Start(), actions, truth);
  }

  /** Part k of the name, if the server has a file of it that nobody has open, is the true part. */
  predicate WholeUnlessOpen(s: State, truth: Truth, server: nat, key: DirKey, name: string, k: PartIndex) {
    var entry := EntryName(name, Label(k));
    server < |s.trees| && key in s.trees[server] && entry in s.trees[server][key] &&
    !BeingWritten(s.writers, server, key, entry)
    ==> s.trees[server][key][entry] == Part(truth(key, name), k)
  }

  lemma SoundIsWhole(s: State, truth: Truth, server: nat, key: DirKey, name: string, k: PartIndex)
    requires Sound(s, truth)
    ensures WholeUnlessOpen(s, truth, server, key, name, k)
  {
    hide FilesSound, BeingWritten, EntryName, Part;
    EntryMeaning(name, k);
    var entry := EntryName(name, Label(k));
    if server < |s.trees| && key in s.trees[server] && entry in s.trees[server][key] {
      UnopenedIsWhole(s, truth, server, key, entry);
    }
  }

  /** After every run, a part file that nobody has open is whole, whatever writers overlapped on it. */
  lemma ClosedIsWhole(actions: seq<Action>, truth: Truth, server: nat, key: DirKey, name: string, k: PartIndex)
    ensures WholeUnlessOpen(Exec(Start(), actions, truth), truth, server, key, name, k)
  {
    hide Exec, WholeUnlessOpen, Sound;
    RunSound(actions, truth);
    SoundIsWhole(Exec(Start(), actions, truth), truth, server, key, name, k);
  }
}
