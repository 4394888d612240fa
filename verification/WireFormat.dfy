/** The bytes on the wire, and the names on a server's disk: what the clients send, what a server makes
    of such bytes from whomever they come, and what it answers. */
module WireFormat {
  import opened CStrings
  import opened Codec
  import opened DfsServer
  import opened Layout
  import opened DfsClient
  import opened DfsGet
  import PutThenGet

  /** A block of 100 bytes with this text and zeros behind it. */
  predicate TextBlock(block: string, text: string) {
    |block| == 100 && |text| <= 100 && block == text + Zeros(100 - |text|)
  }

  lemma BlockIsText(text: string)
    requires |text| <= FIELD
    ensures TextBlock(Block(text, FIELD), text)
  {
    assert (text + Zeros(FIELD))[..FIELD] == text + Zeros(FIELD)[..FIELD - |text|];
    assert Zeros(FIELD)[..FIELD - |text|] == Zeros(100 - |text|);
  }

  /** "put name" or "put name dir", as typed. */
  function PutLine(key: DirKey, name: string): string {
    "put " + name + (if key.Sub? then " " + key.dir else "")
  }

  /** Two parts behind login and command: the size and the number of each in front of its bytes. */
  predicate PutBytes(input: string, login: Account, command: string, p: nat, x: string, q: nat, y: string) {
    |input| == 400 + |x| + |y| &&
    TextBlock(input[..100], login.user + " " + login.password) && TextBlock(input[100..200], command) &&
    TextBlock(input[200..300], Itoa(|x|) + " " + Itoa(p + 1)) && input[300..300 + |x|] == x &&
    TextBlock(input[300 + |x|..400 + |x|], Itoa(|y|) + " " + Itoa(q + 1)) && input[400 + |x|..] == y
  }

  lemma TwoWords(a: string, b: string)
    ensures Line([a, b]) == a + " " + b
  {
    assert [a, b][1..] == [b] && [b][1..] == [];
    assert Spaced([b]) == " " + (b + "");
  }

  lemma ThreeWords(a: string, b: string, c: string)
    ensures Line([a, b, c]) == a + " " + b + " " + c
  {
    TwoWords(b, c);
    assert [a, b, c][1..] == [b, c] && Spaced([b, c]) == " " + Line([b, c]);
    assert a + (" " + (b + " " + c)) == a + " " + b + " " + c;
  }

  lemma PutLineIs(key: DirKey, name: string)
    ensures Line(Words("put", name, key)) == PutLine(key, name)
  {
    TwoWords("put", name);
    if key.Sub? {
      ThreeWords("put", name, key.dir);
      assert "put" + " " + name + " " + key.dir == "put " + name + (" " + key.dir);
    } else {
      assert "put" + " " + name == "put " + name + "";
    }
  }

  lemma HeaderIs(data: string, k: nat)
    requires k < 4 && |data| < INT_LIMIT
    ensures TextBlock(Header(Piece(Label(k), data)), Itoa(|data|) + " " + Itoa(k + 1))
  {
    LabelIsNumber(k);
    IntLength(|data|);
    TwoWords(Itoa(|data|), Itoa(k + 1));
    BlockIsText(Itoa(|data|) + " " + Itoa(k + 1));
  }

  lemma SixPieces(a: string, b: string, h: string, x: string, g: string, y: string)
    requires |a| == |b| == |h| == |g| == 100
    ensures var input := a + (b + (h + x + (g + y)));
            |input| == 400 + |x| + |y| && input[..100] == a && input[100..200] == b && input[200..300] == h &&
            input[300..300 + |x|] == x && input[300 + |x|..400 + |x|] == g && input[400 + |x|..] == y
  {
  }

  /** What a put client sends, byte for byte. */
  lemma PutIsSentSo(login: Account, key: DirKey, name: string, file: string, p: nat)
    requires LoginFits(login) && CommandFits("put", name, key) && p < 4 && |file| < INT_LIMIT
    ensures PutBytes(PutRequest(login, key, name, PiecesFor(file, p)), login, PutLine(key, name),
                     p, Part(file, p), Next(p), Part(file, Next(p)))
  {
    var pieces := PiecesFor(file, p);
    var x, y := Part(file, p), Part(file, Next(p));
    var command := PutLine(key, name);
    assert pieces == [Piece(Label(p), x), Piece(Label(Next(p)), y)] && |x| < INT_LIMIT && |y| < INT_LIMIT;
    assert |login.user + " " + login.password| <= FIELD by { TwoWords(login.user, login.password); }
    assert |command| <= FIELD by { PutLineIs(key, name); }
    hide *;
    RequestOf(login, key, name, pieces);
    EncodePair(pieces);
    TwoWords(login.user, login.password);
    PutLineIs(key, name);
    BlockIsText(login.user + " " + login.password);
    BlockIsText(command);
    HeaderIs(x, p);
    HeaderIs(y, Next(p));
    MessageIs(Piece(Label(p), x));
    MessageIs(Piece(Label(Next(p)), y));
    BytesFrom(login, command, p, x, Next(p), y, Block(login.user + " " + login.password, FIELD), Block(command, FIELD),
              Header(Piece(Label(p), x)), Header(Piece(Label(Next(p)), y)));
  }

  lemma MessageIs(piece: Piece)
    ensures Message(piece) == Header(piece) + piece.data && |Header(piece)| == 100
  {
  }

  lemma BytesFrom(login: Account, command: string, p: nat, x: string, q: nat, y: string, a: string, b: string,
                  h: string, g: string)
    requires TextBlock(a, login.user + " " + login.password) && TextBlock(b, command)
    requires TextBlock(h, Itoa(|x|) + " " + Itoa(p + 1)) && TextBlock(g, Itoa(|y|) + " " + Itoa(q + 1))
    ensures PutBytes(a + (b + (h + x + (g + y))), login, command, p, x, q, y)
  {
    assert |a| == |b| == |h| == |g| == 100;
    hide *;
    SixPieces(a, b, h, x, g, y);
    SlicesAreBytes(a + (b + (h + x + (g + y))), login, command, p, x, q, y, a, b, h, g);
  }

  lemma SlicesAreBytes(input: string, login: Account, command: string, p: nat, x: string, q: nat, y: string, a: string,
                       b: string, h: string, g: string)
    requires |input| == 400 + |x| + |y| && input[..100] == a && input[100..200] == b && input[200..300] == h
    requires input[300..300 + |x|] == x && input[300 + |x|..400 + |x|] == g && input[400 + |x|..] == y
    requires TextBlock(a, login.user + " " + login.password) && TextBlock(b, command)
    requires TextBlock(h, Itoa(|x|) + " " + Itoa(p + 1)) && TextBlock(g, Itoa(|y|) + " " + Itoa(q + 1))
    ensures PutBytes(input, login, command, p, x, q, y)
  {
    hide TextBlock, Itoa;
  }

  lemma TextIsBlock(block: string, text: string)
    requires TextBlock(block, text)
    ensures block == Block(text, FIELD)
  {
    assert (text + Zeros(FIELD))[..FIELD] == text + Zeros(FIELD)[..FIELD - |text|];
    assert Zeros(FIELD)[..FIELD - |text|] == Zeros(100 - |text|);
  }

  lemma HeaderHasText(block: string, data: string, k: nat)
    requires k < 4 && TextBlock(block, Itoa(|data|) + " " + Itoa(k + 1))
    ensures block == Header(Piece(Label(k), data))
  {
    LabelIsNumber(k);
    TwoWords(Itoa(|data|), Itoa(k + 1));
    TextIsBlock(block, Itoa(|data|) + " " + Itoa(k + 1));
  }

  /** And what a server makes of such bytes, from whomever they come: two files, and no other. */
  lemma PutIsReadSo(input: string, login: Account, key: DirKey, name: string, p: nat, x: string, q: nat, y: string,
                    accounts: seq<Account>, t: Tree, homeScan: seq<string>, scans: seq<seq<string>>)
    requires LoginFits(login) && CommandFits("put", name, key) && key.user == login.user && login in accounts
    requires p < 4 && q < 4 && |x| < INT_LIMIT && |y| < INT_LIMIT && |scans| == 2
    requires PutBytes(input, login, PutLine(key, name), p, x, q, y)
    requires Home(key.user) in EnsureHome(t, key.user, homeScan)
    ensures Complete(accounts, input)
    ensures var (t', reply) := Respond(accounts, t, input, homeScan, scans);
            var t1 := EnsureHome(t, key.user, homeScan);
            var dir := if key in t1 then t1[key] else map[];
            t' == t1[key := dir["." + name + "." + Itoa(p + 1) := x]["." + name + "." + Itoa(q + 1) := y]] &&
            TextBlock(reply, "Valid account")
  {
    var pieces := [Piece(Label(p), x), Piece(Label(q), y)];
    var t1 := EnsureHome(t, login.user, homeScan);
    assert AllSendable(pieces);
    hide *;
    PutInputIs(input, login, key, name, p, x, q, y);
    PutSession(login, key, name, pieces, accounts, t, homeScan, scans);
    TwoFiles(t1, key, name, p, x, q, y);
    ValidText();
  }

  lemma ValidText()
    ensures TextBlock(Block(VALID, FIELD), "Valid account")
  {
    BlockIsText("Valid account");
  }

  lemma TwoFiles(t: Tree, key: DirKey, name: string, p: nat, x: string, q: nat, y: string)
    requires p < 4 && q < 4 && Home(key.user) in t
    ensures var dir := if key in t then t[key] else map[];
            ServePut(t, key, name, [Piece(Label(p), x), Piece(Label(q), y)]) ==
            t[key := dir["." + name + "." + Itoa(p + 1) := x]["." + name + "." + Itoa(q + 1) := y]]
  {
    LabelIsNumber(p);
    LabelIsNumber(q);
    PutThenGet.StoreTwo(if key in t then t[key] else map[], name, [Piece(Label(p), x), Piece(Label(q), y)]);
    hide StoreAll, Itoa, Label;
  }

  lemma PutInputIs(input: string, login: Account, key: DirKey, name: string, p: nat, x: string, q: nat, y: string)
    requires p < 4 && q < 4 && PutBytes(input, login, PutLine(key, name), p, x, q, y)
    ensures input == PutRequest(login, key, name, [Piece(Label(p), x), Piece(Label(q), y)])
  {
    var pieces := [Piece(Label(p), x), Piece(Label(q), y)];
    EncodePair(pieces);
    TwoWords(login.user, login.password);
    PutLineIs(key, name);
    TextIsBlock(input[..100], login.user + " " + login.password);
    TextIsBlock(input[100..200], PutLine(key, name));
    HeaderHasText(input[200..300], x, p);
    HeaderHasText(input[300 + |x|..400 + |x|], y, q);
    SixParts(input, |x|, |y|);
    hide *;
    RequestOf(login, key, name, pieces);
  }

  lemma RequestOf(login: Account, key: DirKey, name: string, pieces: seq<Piece>)
    ensures PutRequest(login, key, name, pieces) ==
            Block(Line([login.user, login.password]),
                  FIELD) + (Block(Line(Words("put", name, key)), FIELD) + Encode(pieces))
  {
  }

  lemma SixParts(input: string, n: nat, m: nat)
    requires |input| == 400 + n + m
    ensures input == input[..100] + (input[100..200] +
                     (input[200..300] + input[300..300 + n] + (input[300 + n..400 + n] + input[400 + n..])))
  {
    assert input == input[..100] + input[100..] && input[100..] == input[100..200] + input[200..];
    assert input[200..] == (input[200..300] + input[300..300 + n]) + input[300 + n..];
    assert input[300 + n..] == input[300 + n..400 + n] + input[400 + n..];
  }

  /** "get name" or "get name dir", and the numbers of the wanted parts, '0' for every part that is
      there already. */
  predicate GetBytes(input: string, login: Account, key: DirKey, name: string, got: Got) {
    |input| == 300 && TextBlock(input[..100], login.user + " " + login.password) &&
    TextBlock(input[100..200], "get " + name + (if key.Sub? then " " + key.dir else "")) &&
    forall k | 200 <= k < 300 ::
      input[k] == if k >= 204 then NUL else if k - 200 in got then '0' else "1234"[k - 200]
  }

  lemma GetLineIs(key: DirKey, name: string)
    ensures Line(Words("get", name, key)) == "get " + name + (if key.Sub? then " " + key.dir else "")
  {
    TwoWords("get", name);
    if key.Sub? {
      ThreeWords("get", name, key.dir);
      assert "get" + " " + name + " " + key.dir == "get " + name + (" " + key.dir);
    } else {
      assert "get" + " " + name == "get " + name + "";
    }
  }

  lemma AskBlock(got: Got)
    ensures forall k | 0 <= k < 100 ::
              Block(AskParts(got), FIELD)[k] == if k >= 4 then NUL else if k in got then '0' else "1234"[k]
  {
    assert DigitChar(1) == '1' && DigitChar(2) == '2' && DigitChar(3) == '3' && DigitChar(4) == '4';
  }

  lemma GetIsSentSo(login: Account, key: DirKey, name: string, got: Got)
    requires LoginFits(login) && CommandFits("get", name, key)
    ensures GetBytes(GetRequest(login, key, name, AskParts(got)), login, key, name, got)
  {
    var words, block := Words("get", name, key), Block(AskParts(got), FIELD);
    RequestFields(login, words, block);
    TwoWords(login.user, login.password);
    GetLineIs(key, name);
    BlockIsText(login.user + " " + login.password);
    BlockIsText(Line(words));
    AskBlock(got);
    var input := GetRequest(login, key, name, AskParts(got));
    hide TextBlock, Line, Request, AskParts, Block;
    forall k | 200 <= k < 300
      ensures input[k] == block[k - 200]
    {
      assert input[k] == input[200..][k - 200];
    }
  }

  /** The bytes of a reply: size and number in front of the bytes of each part, and "0 0" when there is
      room for more. */
  predicate ReplyBytes(s: string, parts: seq<Piece>, room: nat)
    decreases |parts|
  {
    if room == 0 then s == ""
    else if parts == [] then TextBlock(s, "0 0")
    else
      var data := parts[0].data;
      100 + |data| <= |s| && TextBlock(s[..100], Itoa(|data|) + " " + parts[0].tag) &&
      s[100..100 + |data|] == data && ReplyBytes(s[100 + |data|..], parts[1..], room - 1)
  }

  lemma {:induction false} ReplyIsSentSo(pieces: seq<Piece>, room: nat)
    requires AllSendable(pieces) && |pieces| <= room
    ensures ReplyBytes(EncodeReply(pieces, room), pieces, room)
    decreases |pieces|
  {
    hide TextBlock, Header, Sendable;
    if room > 0 {
      if pieces == [] {
        BlockIsText("0 0");
      } else {
        var piece := pieces[0];
        assert Sendable(piece);
        ReplyIsSentSo(pieces[1..], room - 1);
        PieceHeader(piece);
        var later := EncodeReply(pieces[1..], room - 1);
        Slices(Header(piece), piece.data, later);
        assert EncodeReply(pieces, room) == Header(piece) + piece.data + later;
      }
    }
  }

  lemma PieceHeader(piece: Piece)
    requires Sendable(piece)
    ensures TextBlock(Header(piece), Itoa(|piece.data|) + " " + piece.tag) && |Header(piece)| == FIELD
  {
    var k: nat :| k < 4 && piece.tag == Label(k);
    LabelIsNumber(k);
    HeaderIs(piece.data, k);
  }

  /** A part file of the directory, as a reply carries it. */
  predicate IsFileOf(piece: Piece, dir: Directory, name: string) {
    var entry := "." + name + "." + piece.tag;
    entry in dir && piece.data == dir[entry]
  }

  /** The number on the piece is that of a part that the client does not have. */
  predicate IsMissing(piece: Piece, got: Got) {
    (piece.tag == "1" && 0 !in got) || (piece.tag == "2" && 1 !in got) ||
    (piece.tag == "3" && 2 !in got) || (piece.tag == "4" && 3 !in got)
  }

  /** What a server answers to a get: that the account is valid, and files of the directory, at most two
      of them and only wanted ones, with "0 0" behind them when there are fewer than two. */
  lemma GetIsAnsweredSo(login: Account, key: DirKey, name: string, got: Got, accounts: seq<Account>, t: Tree,
                        homeScan: seq<string>, scans: seq<seq<string>>)
    returns (pieces: seq<Piece>)
    requires LoginFits(login) && CommandFits("get", name, key) && key.user == login.user && login in accounts
    requires ServerReady(t, key, name, homeScan, scans)
    ensures var input := GetRequest(login, key, name, AskParts(got));
            Complete(accounts, input) &&
            var (t', reply) := Respond(accounts, t, input, homeScan, scans);
            100 <= |reply| && TextBlock(reply[..100], "Valid account") && ReplyBytes(reply[100..], pieces, 2)
    ensures |pieces| <= 2
    ensures forall piece | piece in pieces ::
              IsFileOf(piece, SessionTree(t, key, homeScan)[key], name) && IsMissing(piece, got)
  {
    var t1, ask := SessionTree(t, key, homeScan), AskParts(got);
    var answer := Answer(t1[key], name, ask, scans);
    GetSession(login, key, name, ask, accounts, t, homeScan, scans);
    hide Respond, Complete, TextBlock, ReplyBytes, Answer, SessionTree, Request, Block, IsFileOf, IsMissing, AskParts, IsScan,
         LoginFits, CommandFits, WellNamed, SmallFiles, Harmless;
    pieces := AnswerBytes(t1[key], Subdirs(t1, key), name, got, scans);
    ValidText();
    assert (Block(VALID, FIELD) + answer)[..100] == Block(VALID, FIELD);
    assert (Block(VALID, FIELD) + answer)[100..] == answer;
  }

  lemma PickedFiles(dir: Directory, subs: set<string>, name: string, got: Got, scans: seq<seq<string>>)
    requires WellNamed(dir) && SmallFiles(dir) && Harmless(subs, name) && |scans| == 2
    requires forall s | s in scans :: IsScan(s, dir, subs)
    ensures var picks := Picks(name, AskParts(got), scans);
            (forall k | k in picks :: k < 4 && k in Held(dir, name) && k !in got) && |picks| <= 2 &&
            AllSendable(PiecesOf(dir, name, picks)) &&
            Answer(dir, name, AskParts(got), scans) == EncodeReply(PiecesOf(dir, name, picks), 2)
  {
    var ask := AskParts(got);
    var picks := Picks(name, ask, scans);
    AskPartsIsRequest(got);
    hide WellNamed, Harmless, IsScan, Picks, SmallFiles, Held, Answer, EncodeReply, PiecesOf, AskParts, AllSendable,
         IsRequest, Asked;
    PicksAreHeld(dir, subs, name, ask, scans);
    Selection(dir, subs, name, ask, scans);
    AnswerIsPicks(dir, subs, name, ask, scans);
    PiecesOfSendable(dir, name, picks);
    forall k | k in picks
      ensures k < 4 && k !in got
    {
      assert k in SetOf(picks);
    }
  }

  lemma AnswerBytes(dir: Directory, subs: set<string>, name: string, got: Got, scans: seq<seq<string>>)
    returns (pieces: seq<Piece>)
    requires WellNamed(dir) && SmallFiles(dir) && Harmless(subs, name) && |scans| == 2
    requires forall s | s in scans :: IsScan(s, dir, subs)
    ensures ReplyBytes(Answer(dir, name, AskParts(got), scans), pieces, 2) && |pieces| <= 2
    ensures forall piece | piece in pieces :: IsFileOf(piece, dir, name) && IsMissing(piece, got)
  {
    var picks := Picks(name, AskParts(got), scans);
    PickedFiles(dir, subs, name, got, scans);
    hide *;
    pieces := PiecesOf(dir, name, picks);
    ReplyIsSentSo(pieces, 2);
    forall piece | piece in pieces
      ensures IsFileOf(piece, dir, name) && IsMissing(piece, got)
    {
      PieceOfFile(dir, name, got, picks, piece);
    }
  }

  lemma {:induction false} PieceOfFile(dir: Directory, name: string, got: Got, picks: seq<nat>, piece: Piece)
    requires forall k | k in picks :: k < 4 && k in Held(dir, name) && k !in got
    requires piece in PiecesOf(dir, name, picks)
    ensures IsFileOf(piece, dir, name) && IsMissing(piece, got)
  {
    assert picks[0] in picks;
    if piece == PiecesOf(dir, name, picks)[0] {
      var k := picks[0];
      assert piece == Piece(Label(k), dir[EntryName(name, Label(k))]);
      assert Label(0) == "1" && Label(1) == "2" && Label(2) == "3" && Label(3) == "4";
    } else {
      assert forall k | k in picks[1..] :: k in picks;
      PieceOfFile(dir, name, got, picks[1..], piece);
    }
  }

  /** A refused client is told so, and nothing else. */
  lemma RefusalIsSentSo(login: Account, words: seq<string>, body: string, accounts: seq<Account>, t: Tree,
                        homeScan: seq<string>, scans: seq<seq<string>>)
    requires LoginFits(login) && login !in accounts && |scans| == 2
    ensures var input := Request(login, words, body);
            Complete(accounts, input) &&
            var (t', reply) := Respond(accounts, t, input, homeScan, scans);
            t' == t && TextBlock(reply, "Invalid" + " Username/Password. Please try again.")
  {
    RefusedSession(login, words, body, accounts, t, homeScan, scans);
    BlockIsText(INVALID);
    hide TextBlock, Respond, Complete, Request, Block;
  }
}
