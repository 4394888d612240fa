/** The client's requests, and its put command: one session per reachable server, in order.

    Which servers can be reached, and the order in which each reads its directories, are
    parameters. */
module DfsClient {
  import opened CStrings
  import opened Codec
  import opened DfsServer
  import opened Layout
  import Md5Mod
  import Transfer

  // ----- requests -----

  /** The words of a command: a subdirectory is the last word. */
  function Words(verb: string, name: string, key: DirKey): seq<string> {
    if key.Sub? then [verb, name, key.dir] else [verb, name]
  }

  function Request(login: Account, words: seq<string>, body: string): string {
    Block(Line([login.user, login.password]), FIELD) + (Block(Line(words), FIELD) + body)
  }

  /** Names contain no white space, and messages fit the 100-byte blocks. */
  predicate Fits(words: seq<string>) {
    AreWords(words) && |Line(words)| <= FIELD
  }

  /** The server formats the path of a part file into 100 bytes, the NUL among them. */
  predicate PathFits(name: string, key: DirKey) {
    |Path(key) + EntryName(name, "1")| < FIELD
  }

  predicate CommandFits(verb: string, name: string, key: DirKey) {
    Fits(Words(verb, name, key)) && PathFits(name, key)
  }

  predicate ListFits(key: DirKey) {
    (key.Sub? ==> Fits(["list", key.dir])) && |Path(key)| < FIELD
  }

  predicate LoginFits(login: Account) {
    Fits([login.user, login.password])
  }

  lemma RequestFields(login: Account, words: seq<string>, body: string)
    ensures var input := Request(login, words, body);
            |input| == 2 * FIELD + |body| &&
            input[..FIELD] == Block(Line([login.user, login.password]), FIELD) &&
            input[FIELD..2 * FIELD] == Block(Line(words), FIELD) && input[2 * FIELD..] == body
  {
  }

  lemma CommandParsed(words: seq<string>)
    requires Fits(words) && words != []
    ensures var command := Block(Line(words), FIELD);
            Tokens(WhiteSpace, CStr(command)) == words && Token(CStr(command), 0) == words[0]
  {
    BlockRoundTrip(words);
  }

  lemma LoginParsed(login: Account, accounts: seq<Account>)
    requires LoginFits(login)
    ensures var block := Block(Line([login.user, login.password]), FIELD);
            Token(CStr(block), 0) == login.user && (LoginAccepted(accounts, block) <==> login in accounts)
  {
    BlockRoundTrip([login.user, login.password]);
  }

  /** The tree a session works on: home made sure of, a named subdirectory made. */
  function SessionTree(t: Tree, key: DirKey, homeScan: seq<string>): Tree {
    OpenDir(EnsureHome(t, key.user, homeScan), key)
  }

  /** A session adds at most empty directories. */
  lemma SessionTreeKeeps(t: Tree, key: DirKey, homeScan: seq<string>)
    ensures var t1 := SessionTree(t, key, homeScan);
            (forall k | k in t :: k in t1 && t1[k] == t[k]) && (forall k | k in t1 && k !in t :: t1[k] == map[])
  {
  }

  function PutRequest(login: Account, key: DirKey, name: string, pieces: seq<Piece>): string {
    Request(login, Words("put", name, key), Encode(pieces))
  }

  function GetRequest(login: Account, key: DirKey, name: string, asked: string): string {
    Request(login, Words("get", name, key), Block(asked, FIELD))
  }

  /** A put session, from the client's bytes to the files: the server stores exactly the pieces
      sent, under the name and in the directory that the user typed. */
  lemma PutSession(login: Account, key: DirKey, name: string, pieces: seq<Piece>, accounts: seq<Account>,
                   t: Tree, homeScan: seq<string>, scans: seq<seq<string>>)
    requires LoginFits(login) && CommandFits("put", name, key) && key.user == login.user && login in accounts
    requires |pieces| == 2 && AllSendable(pieces) && |scans| == 2
    ensures var input := PutRequest(login, key, name, pieces);
            Complete(accounts, input) &&
            Respond(accounts, t, input, homeScan, scans) ==
            (ServePut(EnsureHome(t, login.user, homeScan), key, name, pieces), Block(VALID, FIELD))
  {
    var words, body := Words("put", name, key), Encode(pieces);
    RequestFields(login, words, body);
    LoginParsed(login, accounts);
    CommandParsed(words);
    PutRoundTrip(pieces, "");
    assert body + "" == body;
    NotOtherCommand(Block(Line(words), FIELD), "put");
    assert Block(VALID, FIELD) + "" == Block(VALID, FIELD);
  }

  /** A get session answers from the directory the user typed. */
  lemma GetSession(login: Account, key: DirKey, name: string, asked: string, accounts: seq<Account>,
                   t: Tree, homeScan: seq<string>, scans: seq<seq<string>>)
    requires LoginFits(login) && CommandFits("get", name, key) && key.user == login.user && login in accounts
    requires |asked| == 4 && |scans| == 2
    requires key in SessionTree(t, key, homeScan)
    ensures var input := GetRequest(login, key, name, asked);
            var t1 := SessionTree(t, key, homeScan);
            Complete(accounts, input) &&
            Respond(accounts, t, input, homeScan, scans) ==
            (t1, Block(VALID, FIELD) + Answer(t1[key], name, asked, scans))
  {
    var words, body := Words("get", name, key), Block(asked, FIELD);
    RequestFields(login, words, body);
    LoginParsed(login, accounts);
    CommandParsed(words);
    assert body[..4] == asked;
    NotOtherCommand(Block(Line(words), FIELD), "get");
  }

  lemma NotOtherCommand(command: string, verb: string)
    requires Token(CStr(command), 0) == verb
    ensures verb == "put" ==> IsCommand(command, "put") && !IsCommand(command, "list") && !IsCommand(command, "get")
    ensures verb == "get" ==> IsCommand(command, "get") && !IsCommand(command, "list") && !IsCommand(command, "put")
    ensures verb == "list" ==> IsCommand(command, "list") && !IsCommand(command, "put") && !IsCommand(command, "get")
  {
    CommandsExclusive(command);
  }

  /** A refused login changes nothing and reveals nothing. */
  lemma RefusedSession(login: Account, words: seq<string>, body: string, accounts: seq<Account>,
                       t: Tree, homeScan: seq<string>, scans: seq<seq<string>>)
    requires LoginFits(login) && login !in accounts && |scans| == 2
    ensures var input := Request(login, words, body);
            Complete(accounts, input) &&
            Respond(accounts, t, input, homeScan, scans) == (t, Block(INVALID, FIELD))
  {
    RequestFields(login, words, body);
    LoginParsed(login, accounts);
  }

  /** strncmp of the first reply with the refusal, over the length of the reply. */
  predicate Refused(reply: string)
    requires FIELD <= |reply|
  {
    CStr(reply[..FIELD]) <= INVALID
  }

  lemma RefusedIff(answer: string)
    ensures Refused(Block(INVALID, FIELD)) && !Refused(Block(VALID, FIELD) + answer)
  {
    CStrOfBlock(INVALID, FIELD);
    CStrOfBlock(VALID, FIELD);
    assert Block(INVALID, FIELD)[..FIELD] == Block(INVALID, FIELD);
    assert (Block(VALID, FIELD) + answer)[..FIELD] == Block(VALID, FIELD);
    assert VALID[0] == 'V' && INVALID[0] == 'I';
  }

  // ----- put -----

  function PiecesFor(file: string, p: nat): (pieces: seq<Piece>)
    requires p < 4
    ensures |pieces| == 2
  {
    [Piece(Label(p), Part(file, p)), Piece(Label(Next(p)), Part(file, Next(p)))]
  }

  lemma PiecesForSendable(file: string, p: nat)
    requires p < 4 && |file| < INT_LIMIT
    ensures AllSendable(PiecesFor(file, p))
  {
    var q := Next(p);
    assert Sendable(Piece(Label(p), Part(file, p)));
    assert Sendable(Piece(Label(q), Part(file, q)));
  }

  /** What a put session with rotation p makes of a server's tree. */
  function PutTree(t: Tree, key: DirKey, name: string, file: string, p: nat, homeScan: seq<string>): Tree
    requires p < 4
  {
    ServePut(EnsureHome(t, key.user, homeScan), key, name, PiecesFor(file, p))
  }

  /** Server i is reached, and no server before it has sent the client home. */
  predicate Visited(up: seq<bool>, accepts: seq<bool>, i: nat)
    requires i < |up| == |accepts|
  {
    up[i] && forall j | 0 <= j <= i :: up[j] ==> accepts[j]
  }

  function AcceptedBy(login: Account, servers: seq<Server>): (accepts: seq<bool>)
    ensures |accepts| == |servers|
    ensures forall i | 0 <= i < |servers| :: accepts[i] <==> login in servers[i].accounts
  {
    seq(|servers|, i requires 0 <= i < |servers| => login in servers[i].accounts)
  }

  /** One part on the wire: its header, and its bytes through however short writes. */
  method SendPart(data: string, index: nat) returns (message: string)
    requires index < 4
    ensures message == Message(Piece(Label(index), data))
  {
    var counts := Transfer.NetworkCounts(|data|);
    var payload := Transfer.ClientSend(data, counts);
    Transfer.ClientSendExact(data, counts);
    LabelIsNumber(index);
    message := Block(Line([Itoa(|data|), Itoa(index + 1)]), FIELD) + payload;
  }

  /** The inner loop of a put session: two parts, cyclically. */
  method SendPair(bufs: array<string>, pair: nat, ghost file: string) returns (body: string)
    requires pair < 4 && bufs.Length == 4
    requires forall k | 0 <= k < 4 :: bufs[k] == Part(file, k)
    ensures body == Encode(PiecesFor(file, pair))
  {
    hide Message, Part, Label;
    var first := SendPart(bufs[pair], pair);
    var index := pair + 1;
    if index > 3 {
      index := 0;
    }
    var second := SendPart(bufs[index], index);
    body := first + second;
    EncodePair(PiecesFor(file, pair));
  }

  lemma EncodePair(pieces: seq<Piece>)
    requires |pieces| == 2
    ensures Encode(pieces) == Message(pieces[0]) + Message(pieces[1])
  {
    hide Message;
    assert pieces[1..][1..] == [];
    assert Encode(pieces[1..]) == Message(pieces[1]) + "";
  }

  /** The put command. Every visited server gets the pair of parts that its rank among the
      visited servers says; the others keep their trees; a refused login ends the program. */
  method Put(login: Account, key: DirKey, name: string, file: string, digest: Md5Mod.Digest,
             servers: seq<Server>, up: seq<bool>, homeScans: seq<seq<string>>) returns (exited: bool)
    requires |servers| == SERVERS == |up| == |homeScans|
    requires forall i, j | 0 <= i < j < |servers| :: servers[i] != servers[j]
    requires LoginFits(login) && CommandFits("put", name, key) && key.user == login.user
    requires |file| < INT_LIMIT
    modifies servers
    ensures var accepts := AcceptedBy(login, servers);
            (exited <==> exists i :: 0 <= i < SERVERS && up[i] && !accepts[i]) &&
            forall i | 0 <= i < SERVERS ::
              servers[i].tree ==
              if Visited(up, accepts, i)
              then PutTree(old(servers[i].tree), key, name, file, FirstPart(Md5Mod.Rotation(digest), up, i),
                           homeScans[i])
              else old(servers[i].tree)
    ensures forall i, j | 0 <= j <= i < SERVERS && up[j] && login !in servers[j].accounts ::
              servers[i].tree == old(servers[i].tree)
  {
    var bufs, sizes := SplitFile(file);
    var pairToSend := Md5Mod.GetMd5Mod(digest, 4);
    exited := PutToAll(login, key, name, bufs, file, pairToSend, servers, up, homeScans);
  }

  /** The walk over the servers. */
  method PutToAll(login: Account, key: DirKey, name: string, bufs: array<string>, ghost file: string, m: nat,
                  servers: seq<Server>, up: seq<bool>, homeScans: seq<seq<string>>) returns (exited: bool)
    requires |servers| == SERVERS == |up| == |homeScans| && m < 4
    requires forall i, j | 0 <= i < j < |servers| :: servers[i] != servers[j]
    requires LoginFits(login) && CommandFits("put", name, key) && key.user == login.user
    requires |file| < INT_LIMIT && bufs.Length == 4 && forall k | 0 <= k < 4 :: bufs[k] == Part(file, k)
    modifies servers
    ensures var accepts := AcceptedBy(login, servers);
            (exited <==> exists i :: 0 <= i < SERVERS && up[i] && !accepts[i]) &&
            forall i | 0 <= i < SERVERS ::
              servers[i].tree ==
              if Visited(up, accepts, i)
              then PutTree(old(servers[i].tree), key, name, file, FirstPart(m, up, i), homeScans[i])
              else old(servers[i].tree)
  {
    hide PutTree, AcceptedBy, CommandFits, Fits, LoginFits;
    ghost var accepts := AcceptedBy(login, servers);
    var pairToSend := m;
    exited := false;
    for i := 0 to SERVERS
      invariant !exited && pairToSend <= 4 && pairToSend % 4 == FirstPart(m, up, i)
      invariant forall j | 0 <= j < i :: up[j] ==> accepts[j]
      invariant forall j | 0 <= j < i ::
                  servers[j].tree ==
                  if up[j] then PutTree(old(servers[j].tree), key, name, file, FirstPart(m, up, j), homeScans[j])
                  else old(servers[j].tree)
      invariant forall j | i <= j < SERVERS :: servers[j].tree == old(servers[j].tree)
    {
      FirstPartStep(m, up, i);
      if up[i] {
        pairToSend, exited := PutTurn(servers[i], login, key, name, bufs, file, pairToSend, homeScans[i]);
        if exited {
          return;
        }
      }
    }
  }

  /** The part of the loop that a reachable server sees. */
  method PutTurn(server: Server, login: Account, key: DirKey, name: string, bufs: array<string>,
                 ghost file: string, pairToSend: nat, homeScan: seq<string>) returns (next: nat, refused: bool)
    requires LoginFits(login) && CommandFits("put", name, key) && key.user == login.user
    requires |file| < INT_LIMIT && pairToSend <= 4
    requires bufs.Length == 4 && forall k | 0 <= k < 4 :: bufs[k] == Part(file, k)
    modifies server
    ensures refused <==> login !in server.accounts
    ensures next == pairToSend % 4 + 1
    ensures server.tree == if refused then old(server.tree)
                           else PutTree(old(server.tree), key, name, file, pairToSend % 4, homeScan)
  {
    hide CommandFits, Fits, LoginFits, Part, AllSendable, Encode, ServePut, EnsureHome;
    var pair := if pairToSend > 3 then 0 else pairToSend;
    var body := SendPair(bufs, pair, file);
    PiecesForSendable(file, pair);
    refused := PutTo(server, login, key, name, body, PiecesFor(file, pair), homeScan);
    next := pair + 1;
  }

  /** One put session with one server. */
  method PutTo(server: Server, login: Account, key: DirKey, name: string, body: string,
               ghost pieces: seq<Piece>, homeScan: seq<string>) returns (refused: bool)
    requires LoginFits(login) && CommandFits("put", name, key) && key.user == login.user
    requires |pieces| == 2 && AllSendable(pieces) && body == Encode(pieces)
    modifies server
    ensures refused <==> login !in server.accounts
    ensures server.tree == if refused then old(server.tree)
                           else ServePut(EnsureHome(old(server.tree), key.user, homeScan), key, name, pieces)
  {
    hide Respond, Complete, Refused, Encode, ServePut, EnsureHome, Block, CommandFits, Fits, LoginFits, AllSendable,
         Request;
    var input := Request(login, Words("put", name, key), body);
    if login in server.accounts {
      PutSession(login, key, name, pieces, server.accounts, server.tree, homeScan, [[], []]);
    } else {
      RefusedSession(login, Words("put", name, key), body, server.accounts, server.tree, homeScan, [[], []]);
    }
    RefusedIff("");
    assert Block(VALID, FIELD) + "" == Block(VALID, FIELD);
    var reply := server.HandleRequest(input, homeScan, [[], []]);
    refused := Refused(reply);
  }
}
