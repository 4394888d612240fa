/** The client's get command: the shrinking request vector, the parts collected, and the file. */
module DfsGet {
  import opened CStrings
  import opened Codec
  import opened DfsServer
  import opened Layout
  import opened DfsClient
  import Transfer

  // The parts collected so far, by part index.
  type Got = map<nat, string>

  datatype Outcome = Exited | Incomplete | Written(file: string)

  // What the client meets at one server.
  datatype Visit = Down | Refusing | Up(dir: Directory, scans: seq<seq<string>>)

  predicate IsComplete(got: Got) {
    forall k: nat | k < 4 :: k in got
  }

  function AskChar(got: Got, k: nat): char
    requires k < 4
  {
    if k in got then '0' else DigitChar(k + 1)
  }

  /** The request vector: the numbers of the parts still wanted. */
  function AskParts(got: Got): (ask: string)
    ensures |ask| == 4
  {
    [AskChar(got, 0), AskChar(got, 1), AskChar(got, 2), AskChar(got, 3)]
  }

  /** The parts a server sends, read off its directory. */
  function Received(dir: Directory, name: string, got: Got, scans: seq<seq<string>>): Got {
    map k | k in Held(dir, name) && k in Picks(name, AskParts(got), scans) :: dir[EntryName(name, Label(k))]
  }

  /** The whole walk over the servers: parts are added until all four are there; the flag says
      whether a refused login ended the program. */
  function Gather(visits: seq<Visit>, name: string, got: Got): (Got, bool)
    decreases |visits|
  {
    if visits == [] || IsComplete(got) then (got, false)
    else match visits[0] {
      case Down => Gather(visits[1..], name, got)
      case Refusing => (got, true)
      case Up(dir, scans) => Gather(visits[1..], name, got + Received(dir, name, got, scans))
    }
  }

  function Result(got: Got, exited: bool): Outcome {
    if exited then Exited
    else if IsComplete(got) then Written(Join([got[0], got[1], got[2], got[3]]))
    else Incomplete
  }

  // ----- one server's pieces -----

  function PartIndex(piece: Piece): nat
    requires Sendable(piece)
  {
    var k: nat :| k < 4 && piece.tag == Label(k);
    assert Label(k)[0] == DigitChar(k + 1);
    piece.tag[0] as int - 49
  }

  lemma PartIndexIs(piece: Piece, k: nat)
    requires Sendable(piece) && k < 4 && piece.tag == Label(k)
    ensures PartIndex(piece) == k && Atoi(piece.tag) == k + 1
  {
    LabelIsNumber(k);
    assert piece.tag[0] == DigitChar(k + 1);
  }

  function AddPieces(got: Got, pieces: seq<Piece>): Got
    requires AllSendable(pieces)
    decreases |pieces|
  {
    if pieces == [] then got
    else AddPieces(got[PartIndex(pieces[0]) := pieces[0].data], pieces[1..])
  }

  predicate SmallFiles(dir: Directory) {
    forall e | e in dir :: |dir[e]| < INT_LIMIT
  }

  lemma {:induction false} PiecesOfSendable(dir: Directory, name: string, picks: seq<nat>)
    requires SmallFiles(dir) && forall k | k in picks :: k in Held(dir, name)
    ensures AllSendable(PiecesOf(dir, name, picks))
  {
    if picks != [] {
      assert picks[0] in picks;
      assert Sendable(Piece(Label(picks[0]), dir[EntryName(name, Label(picks[0]))]));
      PiecesOfSendable(dir, name, picks[1..]);
    }
  }

  lemma {:induction false} AddPicks(got: Got, dir: Directory, name: string, picks: seq<nat>)
    requires SmallFiles(dir) && (forall k | k in picks :: k in Held(dir, name))
    requires AllSendable(PiecesOf(dir, name, picks))
    ensures AddPieces(got, PiecesOf(dir, name, picks)) ==
            got + map k | k in Held(dir, name) && k in picks :: dir[EntryName(name, Label(k))]
    decreases |picks|
  {
    if picks != [] {
      var k := picks[0];
      assert k in picks && picks == [k] + picks[1..];
      var pieces := PiecesOf(dir, name, picks);
      PiecesOfSendable(dir, name, picks[1..]);
      assert pieces[1..] == PiecesOf(dir, name, picks[1..]);
      assert pieces[0] in pieces;
      PartIndexIs(pieces[0], k);
      AddPicks(got[k := pieces[0].data], dir, name, picks[1..]);
      AddOne(got, dir, name, k, picks[1..]);
    }
  }

  lemma AddOne(got: Got, dir: Directory, name: string, k: nat, later: seq<nat>)
    requires k in Held(dir, name)
    ensures var data := dir[EntryName(name, Label(k))];
            got[k := data] + (map j | j in Held(dir, name) && j in later :: dir[EntryName(name, Label(j))])
            == got + map j | j in Held(dir, name) && j in [k] + later :: dir[EntryName(name, Label(j))]
  {
  }

  // ----- the command -----

  /** The client's three arrays hold exactly the collected parts: a slot of the request vector
      is '0' precisely when the buffer and the size of that part are filled in. */
  ghost predicate Represents(askParts: array<char>, fileBufs: array<string>, partSize: array<int>, got: Got)
    reads askParts, fileBufs, partSize
  {
    askParts.Length == 4 && fileBufs.Length == 4 && partSize.Length == 4 &&
    (forall k | k in got :: k < 4) &&
    forall k | 0 <= k < 4 ::
      askParts[k] == AskChar(got, k) && (k in got ==> fileBufs[k] == got[k] && partSize[k] == |got[k]|)
  }

  /** The inner receive loop: up to two headers, each with its payload, or the terminator. */
  method ReceiveParts(reply: string, askParts: array<char>, fileBufs: array<string>, partSize: array<int>,
                      ghost got: Got)
    requires HoldsReply(reply, 2) && AllSendable(DecodeReply(reply, 2))
    requires Represents(askParts, fileBufs, partSize, got)
    requires askParts as object != partSize && fileBufs as object != partSize && askParts as object != fileBufs
    modifies askParts, fileBufs, partSize
    ensures Represents(askParts, fileBufs, partSize, AddPieces(got, DecodeReply(reply, 2)))
  {
    hide Represents;
    var stream := reply;
    ghost var sofar: Got, whole := got, AddPieces(got, DecodeReply(reply, 2));
    for j := 0 to 2
      invariant HoldsReply(stream, 2 - j) && AllSendable(DecodeReply(stream, 2 - j))
      invariant Represents(askParts, fileBufs, partSize, sofar)
      invariant AddPieces(sofar, DecodeReply(stream, 2 - j)) == whole
    {
      var header := stream[..FIELD];
      if IsTerminator(header) {
        return;
      }
      ghost var piece := DecodeReply(stream, 2 - j)[0];
      var fileSize := HeaderSize(header);
      var partNum := Atoi(HeaderLabel(header));
      ghost var k := NextPiece(stream, 1 - j, sofar);
      var data, rest := ReceivePart(stream[FIELD..], fileSize);
      StorePart(askParts, fileBufs, partSize, partNum - 1, data, sofar);
      stream := rest;
      sofar := sofar[k := data];
    }
  }

  lemma NextPiece(stream: string, n: nat, got: Got) returns (k: nat)
    requires HoldsReply(stream, n + 1) && AllSendable(DecodeReply(stream, n + 1)) && !IsTerminator(stream[..FIELD])
    ensures k < 4 && Atoi(HeaderLabel(stream[..FIELD])) == k + 1
    ensures 0 <= HeaderSize(stream[..FIELD]) <= |stream[FIELD..]|
    ensures var size := HeaderSize(stream[..FIELD]);
            var rest := stream[FIELD..][size..];
            HoldsReply(rest, n) && AllSendable(DecodeReply(rest, n)) &&
            AddPieces(got, DecodeReply(stream, n + 1)) ==
            AddPieces(got[k := stream[FIELD..][..size]], DecodeReply(rest, n))
  {
    var size := HeaderSize(stream[..FIELD]);
    var pieces := DecodeReply(stream, n + 1);
    assert pieces[0] in pieces;
    k :| k < 4 && pieces[0].tag == Label(k);
    PartIndexIs(pieces[0], k);
    assert stream[FIELD..][size..] == stream[FIELD + size..];
    assert stream[FIELD..][..size] == stream[FIELD..FIELD + size];
    assert pieces[1..] == DecodeReply(stream[FIELD + size..], n);
  }

  method StorePart(askParts: array<char>, fileBufs: array<string>, partSize: array<int>, index: nat, data: string,
                   ghost got: Got)
    requires index < 4 && Represents(askParts, fileBufs, partSize, got)
    requires askParts as object != partSize && fileBufs as object != partSize && askParts as object != fileBufs
    modifies askParts, fileBufs, partSize
    ensures Represents(askParts, fileBufs, partSize, got[index := data])
  {
    askParts[index] := '0';
    fileBufs[index] := data;
    partSize[index] := |data|;
  }

  /** One payload, through however short reads. */
  method ReceivePart(stream: string, size: nat) returns (data: string, rest: string)
    requires size <= |stream|
    ensures data == stream[..size] && rest == stream[size..]
  {
    var counts := Transfer.NetworkCounts(size);
    var part, after := Transfer.ClientReceive(stream, size, counts);
    Transfer.ClientReceiveExact(stream, size, counts);
    data, rest := part[..], after;
  }

  /** What the environment gives for one server: its home directory can be made, its files are
      parts that no subdirectory name can be taken for, and its directory is read in some order. */
  ghost predicate ServerReady(t: Tree, key: DirKey, name: string, homeScan: seq<string>, scans: seq<seq<string>>) {
    var t1 := SessionTree(t, key, homeScan);
    key in t1 && WellNamed(t1[key]) && SmallFiles(t1[key]) && Harmless(Subdirs(t1, key), name) &&
    |scans| == 2 && forall s | s in scans :: IsScan(s, t1[key], Subdirs(t1, key))
  }

  function VisitOf(t: Tree, accepts: bool, key: DirKey, homeScan: seq<string>, up: bool,
                   scans: seq<seq<string>>): Visit
  {
    var t1 := SessionTree(t, key, homeScan);
    if !up then Down
    else if !accepts then Refusing
    else if key in t1 then Up(t1[key], scans) else Down
  }

  function Trees(servers: seq<Server>): (trees: seq<Tree>)
    reads servers
    ensures |trees| == |servers| && forall i | 0 <= i < |servers| :: trees[i] == servers[i].tree
  {
    seq(|servers|, i requires 0 <= i < |servers| reads servers => servers[i].tree)
  }

  /** The four visits of a get, one per server in the order of the client's list. */
  function Visits(trees: seq<Tree>, accepts: seq<bool>, key: DirKey, homeScans: seq<seq<string>>, up: seq<bool>,
                  scans: seq<seq<seq<string>>>): (visits: seq<Visit>)
    requires |trees| == |accepts| == |homeScans| == |up| == |scans|
    ensures |visits| == |trees|
    ensures forall i | 0 <= i < |trees| ::
              visits[i] == VisitOf(trees[i], accepts[i], key, homeScans[i], up[i], scans[i])
  {
    seq(|trees|, i requires 0 <= i < |trees| => VisitOf(trees[i], accepts[i], key, homeScans[i], up[i], scans[i]))
  }

  lemma AskPartsIsRequest(got: Got)
    ensures IsRequest(AskParts(got))
    ensures Asked(AskParts(got)) == set k: nat | k < 4 && k !in got
  {
    var ask := AskParts(got);
    assert forall k: nat | k < 4 :: ask[k] == AskChar(got, k);
  }

  /** The reply of a ready server, decoded by the client, adds exactly what the directory and the
      request vector determine. */
  lemma SessionGains(t: Tree, key: DirKey, name: string, homeScan: seq<string>, scans: seq<seq<string>>, got: Got)
    requires ServerReady(t, key, name, homeScan, scans)
    ensures var dir := SessionTree(t, key, homeScan)[key];
            var answer := Answer(dir, name, AskParts(got), scans);
            HoldsReply(answer, 2) && AllSendable(DecodeReply(answer, 2)) &&
            AddPieces(got, DecodeReply(answer, 2)) == got + Received(dir, name, got, scans)
  {
    hide Answer, Encode, DecodeReply, HoldsReply, SessionTree, Message, AskParts, IsScan, WellNamed, Harmless,
         IsRequest;
    var t1 := SessionTree(t, key, homeScan);
    var dir, subs, ask := t1[key], Subdirs(t1, key), AskParts(got);
    AskPartsIsRequest(got);
    Selection(dir, subs, name, ask, scans);
    PicksAreHeld(dir, subs, name, ask, scans);
    AnswerIsPicks(dir, subs, name, ask, scans);
    var picks := Picks(name, ask, scans);
    PiecesOfSendable(dir, name, picks);
    ReplyRoundTrip(PiecesOf(dir, name, picks), 2);
    AddPicks(got, dir, name, picks);
  }

  /** The get comes to server i, some part missing still: nobody before has refused the login, and
      the parts gained from those before are not all four. */
  predicate ComesTo(visits: seq<Visit>, name: string, i: nat)
    requires i <= |visits|
  {
    (forall j | 0 <= j < i :: !visits[j].Refusing?) && !IsComplete(Gather(visits[..i], name, map[]).0)
  }

  /** The get command. It ends the program when a server that it comes to refuses the login, and in no
      other case; otherwise it writes the four parts in order, or reports that some are missing. Only
      servers that it comes to are asked to make directories. */
  method Get(login: Account, key: DirKey, name: string, servers: seq<Server>, up: seq<bool>,
             homeScans: seq<seq<string>>, scans: seq<seq<seq<string>>>) returns (outcome: Outcome)
    requires |servers| == SERVERS == |up| == |homeScans| == |scans|
    requires forall i, j | 0 <= i < j < |servers| :: servers[i] != servers[j]
    requires LoginFits(login) && CommandFits("get", name, key) && key.user == login.user
    requires forall i | 0 <= i < SERVERS && up[i] && login in servers[i].accounts ::
               ServerReady(servers[i].tree, key, name, homeScans[i], scans[i])
    requires forall i | 0 <= i < SERVERS :: |scans[i]| == 2
    modifies servers
    ensures var visits := Visits(old(Trees(servers)), AcceptedBy(login, servers), key, homeScans, up, scans);
            var (got, exited) := Gather(visits, name, map[]);
            outcome == Result(got, exited)
    ensures var visits := Visits(old(Trees(servers)), AcceptedBy(login, servers), key, homeScans, up, scans);
            var got := Gather(visits, name, map[]).0;
            (outcome.Exited? <==>
               exists i :: 0 <= i < SERVERS && up[i] && login !in servers[i].accounts &&
                           (forall j | 0 <= j < i && up[j] :: login in servers[j].accounts) &&
                           !IsComplete(Gather(visits[..i], name, map[]).0)) &&
            (!outcome.Exited? ==>
               outcome == if IsComplete(got) then Written(got[0] + got[1] + got[2] + got[3]) else Incomplete)
    ensures var visits := Visits(old(Trees(servers)), AcceptedBy(login, servers), key, homeScans, up, scans);
            forall i | 0 <= i < SERVERS ::
              servers[i].tree ==
              if up[i] && login in servers[i].accounts && ComesTo(visits, name, i)
              then SessionTree(old(servers[i].tree), key, homeScans[i])
              else old(servers[i].tree)
  {
    ghost var visits := Visits(Trees(servers), AcceptedBy(login, servers), key, homeScans, up, scans);
    ghost var accepts := AcceptedBy(login, servers);
    forall i | 0 <= i < SERVERS
      ensures visits[i].Refusing? <==> up[i] && !accepts[i]
    {
      VisitOfReady(servers[i].tree, accepts[i], key, name, homeScans[i], up[i], scans[i]);
    }
    GetExits(visits, up, accepts, name);
    hide Received, SessionTree, ServerReady, VisitOf, Gather, CommandFits, Fits, LoginFits, IsComplete, ComesTo;
    outcome := GetFromAll(login, key, name, servers, up, homeScans, scans);
  }

  /** The walk over the servers, and what is made of the parts in the end. */
  method GetFromAll(login: Account, key: DirKey, name: string, servers: seq<Server>, up: seq<bool>,
                    homeScans: seq<seq<string>>, scans: seq<seq<seq<string>>>) returns (outcome: Outcome)
    requires |servers| == SERVERS == |up| == |homeScans| == |scans|
    requires forall i, j | 0 <= i < j < |servers| :: servers[i] != servers[j]
    requires LoginFits(login) && CommandFits("get", name, key) && key.user == login.user
    requires forall i | 0 <= i < SERVERS && up[i] && login in servers[i].accounts ::
               ServerReady(servers[i].tree, key, name, homeScans[i], scans[i])
    requires forall i | 0 <= i < SERVERS :: |scans[i]| == 2
    modifies servers
    ensures var visits := Visits(old(Trees(servers)), AcceptedBy(login, servers), key, homeScans, up, scans);
            var (got, exited) := Gather(visits, name, map[]);
            outcome == Result(got, exited)
    ensures var visits := Visits(old(Trees(servers)), AcceptedBy(login, servers), key, homeScans, up, scans);
            forall i | 0 <= i < SERVERS ::
              servers[i].tree ==
              if up[i] && login in servers[i].accounts && ComesTo(visits, name, i)
              then SessionTree(old(servers[i].tree), key, homeScans[i])
              else old(servers[i].tree)
  {
    hide Received, SessionTree, ServerReady, Represents, VisitOf, Gather, CommandFits, Fits, LoginFits, AcceptedBy,
         IsComplete;
    ghost var visits := Visits(Trees(servers), AcceptedBy(login, servers), key, homeScans, up, scans);
    var askParts, fileBufs, partSize := StartCollecting();
    ghost var got: Got := map[];
    GatherEnd(name, got);
    for i := 0 to SERVERS
      invariant fresh(askParts) && fresh(fileBufs) && fresh(partSize)
      invariant askParts as object != partSize && fileBufs as object != partSize && askParts as object != fileBufs
      invariant Represents(askParts, fileBufs, partSize, got)
      invariant Gather(visits[..i], name, map[]) == (got, false)
      invariant forall j | 0 <= j < i ::
                  ComesTo(visits, name, j) && !visits[j].Refusing? && (up[j] ==> login in servers[j].accounts)
      invariant forall j | 0 <= j < i ::
                  servers[j].tree ==
                  if up[j] then SessionTree(old(servers[j].tree), key, homeScans[j]) else old(servers[j].tree)
      invariant forall j | i <= j < SERVERS :: servers[j].tree == old(servers[j].tree)
    {
      var complete := HaveAllParts(askParts, fileBufs, partSize, got);
      if complete {
        StaysComplete(visits, i, name);
        break;
      }
      GatherNext(visits, i, name);
      VisitOfReady(servers[i].tree, login in servers[i].accounts, key, name, homeScans[i], up[i], scans[i]);
      if up[i] {
        var exited := GetFrom(servers[i], login, key, name, askParts, fileBufs, partSize, homeScans[i], scans[i], got);
        if exited {
          StaysRefused(visits, i, name);
          return Exited;
        }
        got := got + Received(SessionTree(old(servers[i].tree), key, homeScans[i])[key], name, got, scans[i]);
      }
    }
    assert visits[..SERVERS] == visits;
    outcome := WriteFile(askParts, fileBufs, partSize, got);
  }

  /** The walk ends at a refusal exactly when some server refuses to which it comes. */
  lemma GetExits(visits: seq<Visit>, up: seq<bool>, accepts: seq<bool>, name: string)
    requires |visits| == |up| == |accepts|
    requires forall i | 0 <= i < |visits| :: visits[i].Refusing? <==> up[i] && !accepts[i]
    ensures Gather(visits, name, map[]).1 <==>
            exists i :: 0 <= i < |visits| && up[i] && !accepts[i] && (forall j | 0 <= j < i && up[j] :: accepts[j]) &&
                        !IsComplete(Gather(visits[..i], name, map[]).0)
  {
    if i :| 0 <= i < |visits| && up[i] && !accepts[i] && (forall j | 0 <= j < i && up[j] :: accepts[j]) &&
            !IsComplete(Gather(visits[..i], name, map[]).0) {
      NoRefusalNoExit(visits, i, name);
      StaysRefused(visits, i, name);
    }
    if Gather(visits, name, map[]).1 {
      assert visits[..|visits|] == visits;
      var i := ExitAt(visits, |visits|, name);
    }
  }

  lemma {:induction false} NoRefusalNoExit(visits: seq<Visit>, i: nat, name: string)
    requires i <= |visits| && forall j | 0 <= j < i :: !visits[j].Refusing?
    ensures !Gather(visits[..i], name, map[]).1
  {
    hide Gather, IsComplete;
    if i == 0 {
      GatherEnd(name, map[]);
    } else {
      NoRefusalNoExit(visits, i - 1, name);
      GatherNext(visits, i - 1, name);
    }
  }

  lemma {:induction false} ExitAt(visits: seq<Visit>, n: nat, name: string) returns (i: nat)
    requires n <= |visits| && Gather(visits[..n], name, map[]).1
    ensures i < n && visits[i].Refusing? && (forall j | 0 <= j < i :: !visits[j].Refusing?)
    ensures !IsComplete(Gather(visits[..i], name, map[]).0)
  {
    hide Gather, IsComplete;
    if n == 0 {
      GatherEnd(name, map[]);
    } else if Gather(visits[..n - 1], name, map[]).1 {
      i := ExitAt(visits, n - 1, name);
    } else {
      GatherNext(visits, n - 1, name);
      i := n - 1;
      NobodyRefused(visits, i, name);
    }
  }

  lemma {:induction false} NobodyRefused(visits: seq<Visit>, i: nat, name: string)
    requires i <= |visits| && !Gather(visits[..i], name, map[]).1 && !IsComplete(Gather(visits[..i], name, map[]).0)
    ensures forall j | 0 <= j < i :: !visits[j].Refusing?
  {
    hide Gather, IsComplete;
    if i > 0 {
      GatherNext(visits, i - 1, name);
      NobodyRefused(visits, i - 1, name);
    }
  }

  /** The walk over some visits and then over others. */
  lemma {:induction false} GatherThen(first: seq<Visit>, later: seq<Visit>, name: string, got: Got)
    ensures Gather(first + later, name, got) ==
            var (got1, exited) := Gather(first, name, got);
            if exited || IsComplete(got1) then (got1, exited) else Gather(later, name, got1)
    decreases |first|
  {
    hide Received, IsComplete;
    if first == [] {
      assert first + later == later;
    } else {
      assert (first + later)[1..] == first[1..] + later;
      match first[0]
      case Down => GatherThen(first[1..], later, name, got);
      case Refusing =>
      case Up(dir, scans) => GatherThen(first[1..], later, name, got + Received(dir, name, got, scans));
    }
  }

  lemma GatherNext(visits: seq<Visit>, i: nat, name: string)
    requires i < |visits|
    ensures Gather(visits[..i + 1], name, map[]) ==
            var (got, exited) := Gather(visits[..i], name, map[]);
            if exited || IsComplete(got) then (got, exited)
            else match visits[i] {
              case Down => (got, false)
              case Refusing => (got, true)
              case Up(dir, scans) => (got + Received(dir, name, got, scans), false)
            }
  {
    hide Received, IsComplete;
    assert visits[..i + 1] == visits[..i] + [visits[i]];
    GatherThen(visits[..i], [visits[i]], name, map[]);
    var got := Gather(visits[..i], name, map[]).0;
    assert [visits[i]][1..] == [];
    match visits[i]
    case Down => GatherEnd(name, got);
    case Refusing =>
    case Up(dir, scans) => GatherEnd(name, got + Received(dir, name, got, scans));
  }

  lemma GatherEnd(name: string, got: Got)
    ensures Gather([], name, got) == (got, false)
  {
  }

  /** Once all parts are there, no server is asked any more. */
  lemma StaysComplete(visits: seq<Visit>, i: nat, name: string)
    requires i <= |visits| && !Gather(visits[..i], name, map[]).1 && IsComplete(Gather(visits[..i], name, map[]).0)
    ensures forall j | i <= j <= |visits| :: Gather(visits[..j], name, map[]) == Gather(visits[..i], name, map[])
    ensures Gather(visits, name, map[]) == Gather(visits[..i], name, map[])
    ensures forall j | i <= j <= |visits| :: !ComesTo(visits, name, j)
  {
    hide Gather, IsComplete;
    forall j | i <= j <= |visits|
      ensures Gather(visits[..j], name, map[]) == Gather(visits[..i], name, map[])
    {
      assert visits[..j] == visits[..i] + visits[i..j];
      GatherThen(visits[..i], visits[i..j], name, map[]);
    }
    assert visits[..|visits|] == visits;
  }

  /** A refusal at a server that the get comes to ends the walk. */
  lemma StaysRefused(visits: seq<Visit>, i: nat, name: string)
    requires i < |visits| && visits[i].Refusing? && ComesTo(visits, name, i)
    requires !Gather(visits[..i], name, map[]).1
    ensures Gather(visits, name, map[]).1
    ensures forall j | i < j <= |visits| :: !ComesTo(visits, name, j)
  {
    hide Gather, IsComplete;
    GatherNext(visits, i, name);
    assert visits == visits[..i + 1] + visits[i + 1..];
    GatherThen(visits[..i + 1], visits[i + 1..], name, map[]);
  }

  lemma VisitOfReady(t: Tree, accepts: bool, key: DirKey, name: string, homeScan: seq<string>, up: bool,
                     scans: seq<seq<string>>)
    requires up && accepts ==> ServerReady(t, key, name, homeScan, scans)
    ensures up && accepts ==> key in SessionTree(t, key, homeScan)
    ensures VisitOf(t, accepts, key, homeScan, up, scans) ==
            if !up then Down else if !accepts then Refusing else Up(SessionTree(t, key, homeScan)[key], scans)
  {
  }

  method StartCollecting() returns (askParts: array<char>, fileBufs: array<string>, partSize: array<int>)
    ensures fresh(askParts) && fresh(fileBufs) && fresh(partSize)
    ensures askParts as object != partSize && fileBufs as object != partSize && askParts as object != fileBufs
    ensures Represents(askParts, fileBufs, partSize, map[])
  {
    askParts := new char[4](i requires 0 <= i < 4 => DigitChar(i + 1));
    fileBufs := new string[4](_ => "");
    partSize := new int[4](_ => 0);
  }

  method HaveAllParts(askParts: array<char>, fileBufs: array<string>, partSize: array<int>, ghost got: Got)
    returns (complete: bool)
    requires Represents(askParts, fileBufs, partSize, got)
    ensures complete <==> IsComplete(got)
  {
    complete := askParts[0] == '0' && askParts[1] == '0' && askParts[2] == '0' && askParts[3] == '0';
  }

  method WriteFile(askParts: array<char>, fileBufs: array<string>, partSize: array<int>, ghost got: Got)
    returns (outcome: Outcome)
    requires Represents(askParts, fileBufs, partSize, got)
    ensures outcome == Result(got, false)
  {
    var complete := HaveAllParts(askParts, fileBufs, partSize, got);
    if complete {
      var file := JoinFile(fileBufs, partSize);
      outcome := Written(file);
    } else {
      outcome := Incomplete;
    }
  }

  /** One get session with one reachable server. */
  method GetFrom(server: Server, login: Account, key: DirKey, name: string, askParts: array<char>,
                 fileBufs: array<string>, partSize: array<int>, homeScan: seq<string>, scans: seq<seq<string>>,
                 ghost got: Got) returns (refused: bool)
    requires LoginFits(login) && CommandFits("get", name, key) && key.user == login.user
    requires login in server.accounts ==> ServerReady(server.tree, key, name, homeScan, scans)
    requires |scans| == 2 && Represents(askParts, fileBufs, partSize, got)
    requires askParts as object != partSize && fileBufs as object != partSize && askParts as object != fileBufs
    modifies server, askParts, fileBufs, partSize
    ensures refused <==> login !in server.accounts
    ensures server.tree == if refused then old(server.tree) else SessionTree(old(server.tree), key, homeScan)
    ensures !refused ==> key in SessionTree(old(server.tree), key, homeScan)
    ensures !refused ==> Represents(askParts, fileBufs, partSize,
              got + Received(SessionTree(old(server.tree), key, homeScan)[key], name, got, scans))
  {
    hide Respond, Complete, Refused, Answer, SessionTree, Block, CommandFits, Fits, LoginFits, Request, Received,
         DecodeReply, HoldsReply, AddPieces;
    assert askParts[..] == AskParts(got);
    var input := Request(login, Words("get", name, key), Block(askParts[..], FIELD));
    ghost var t1 := SessionTree(server.tree, key, homeScan);
    ghost var answer := if key in t1 then Answer(t1[key], name, askParts[..], scans) else "";
    if login in server.accounts {
      GetSession(login, key, name, askParts[..], server.accounts, server.tree, homeScan, scans);
      SessionGains(server.tree, key, name, homeScan, scans, got);
    } else {
      RefusedSession(login, Words("get", name, key), Block(askParts[..], FIELD), server.accounts, server.tree,
                     homeScan, scans);
    }
    RefusedIff(answer);
    var reply := server.HandleRequest(input, homeScan, scans);
    refused := Refused(reply);
    if !refused {
      assert reply[FIELD..] == answer;
      ReceiveParts(reply[FIELD..], askParts, fileBufs, partSize, got);
    }
  }
}
