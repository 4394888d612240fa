/** Which command a session is, and what it does when there is no directory for it. */
module Sessions {
  import opened CStrings
  import opened Codec
  import opened DfsServer
  import opened DfsClient
  import opened Listing

  // ----- which command it is -----

  /** The server reads these words in the command block. */
  predicate CommandIs(command: string, words: seq<string>) {
    Tokens(WhiteSpace, CStr(command)) == words
  }

  /** What the server looks at in a command. */
  predicate ReadAlike(c1: string, c2: string) {
    (IsCommand(c1, "list") <==> IsCommand(c2, "list")) && (IsCommand(c1, "put") <==> IsCommand(c2, "put")) &&
    (IsCommand(c1, "get") <==> IsCommand(c2, "get")) && (IsCommand(c1, "MKDIR") <==> IsCommand(c2, "MKDIR")) &&
    Token(CStr(c1), 1) == Token(CStr(c2), 1) && Token(CStr(c1), 2) == Token(CStr(c2), 2) &&
    |Tokens(WhiteSpace, CStr(c1))| == |Tokens(WhiteSpace, CStr(c2))|
  }

  lemma SameVerb(c1: string, c2: string, verb: string, word: string, args: seq<string>)
    requires CommandIs(c1, [verb] + args) && CommandIs(c2, [word] + args)
    requires word in ["list", "put", "get", "MKDIR"] && word <= verb
    ensures ReadAlike(c1, c2)
  {
    assert ([verb] + args)[0] == verb && ([word] + args)[0] == word;
    assert verb[0] == word[0];
    assert "list"[0] == 'l' && "put"[0] == 'p' && "get"[0] == 'g' && "MKDIR"[0] == 'M';
  }

  lemma ExecutedAlike(t: Tree, user: string, c1: string, c2: string, body: string, scans: seq<seq<string>>)
    requires ReadAlike(c1, c2) && |scans| == 2
    requires IsCommand(c1, "put") ==> HoldsPieces(body, 2)
    requires IsCommand(c1, "get") ==> FIELD <= |body|
    ensures Execute(t, user, c1, body, scans) == Execute(t, user, c2, body, scans)
    ensures EndsServer(t, user, c1) <==> EndsServer(t, user, c2)
  {
    hide IsCommand, Tokens, Token, CStr, OpenDir, ServePut, Answer, HoldsPieces, DecodePut, Visible, Clip, Block;
  }

  /** A command is known by how it begins: "putting f" is a put of f. */
  lemma VerbByPrefix(login: Account, verb: string, word: string, args: seq<string>, body: string,
                     accounts: seq<Account>, t: Tree, homeScan: seq<string>, scans: seq<seq<string>>)
    requires LoginFits(login) && Fits([verb] + args) && Fits([word] + args) && |scans| == 2
    requires word in ["list", "put", "get", "MKDIR"] && word <= verb
    ensures var typed, known := Request(login, [verb] + args, body), Request(login, [word] + args, body);
            (Complete(accounts, typed) <==> Complete(accounts, known)) &&
            (Complete(accounts, known) ==>
               Respond(accounts, t, typed, homeScan, scans) == Respond(accounts, t, known, homeScan, scans) &&
               (RequestEndsServer(accounts, t, typed, homeScan) <==> RequestEndsServer(accounts, t, known, homeScan)))
  {
    var c1, c2 := Block(Line([verb] + args), FIELD), Block(Line([word] + args), FIELD);
    RequestFields(login, [verb] + args, body);
    RequestFields(login, [word] + args, body);
    CommandParsed([verb] + args);
    CommandParsed([word] + args);
    SameVerb(c1, c2, verb, word, args);
    hide Request, Tokens, CStr, Token, Block, Line, Fits, LoginFits, HoldsPieces, Execute, EndsServer, ReadAlike,
         EnsureHome, LoginAccepted;
    assert (IsCommand(c1, "put") <==> IsCommand(c2, "put")) && (IsCommand(c1, "get") <==> IsCommand(c2, "get")) by {
      AlikeIs(c1, c2);
    }
    hide IsCommand;
    if Complete(accounts, Request(login, [word] + args, body)) &&
       LoginAccepted(accounts, Block(Line([login.user, login.password]), FIELD)) {
      var user := Token(CStr(Block(Line([login.user, login.password]), FIELD)), 0);
      ExecutedAlike(EnsureHome(t, user, homeScan), user, c1, c2, body, scans);
    }
  }

  lemma AlikeIs(c1: string, c2: string)
    requires ReadAlike(c1, c2)
    ensures (IsCommand(c1, "put") <==> IsCommand(c2, "put")) && (IsCommand(c1, "get") <==> IsCommand(c2, "get"))
  {
  }

  /** Any other command does nothing but make sure of the home directory. */
  lemma UnknownVerb(login: Account, words: seq<string>, body: string, accounts: seq<Account>, t: Tree,
                    homeScan: seq<string>, scans: seq<seq<string>>)
    requires LoginFits(login) && Fits(words) && words != [] && login in accounts && |scans| == 2
    requires !("list" <= words[0]) && !("put" <= words[0]) && !("get" <= words[0]) && !("MKDIR" <= words[0])
    ensures var input := Request(login, words, body);
            Complete(accounts, input) && !RequestEndsServer(accounts, t, input, homeScan) &&
            Respond(accounts, t, input, homeScan, scans) ==
            (EnsureHome(t, login.user, homeScan), Block(VALID, FIELD))
  {
    RequestFields(login, words, body);
    LoginParsed(login, accounts);
    CommandParsed(words);
    assert Block(VALID, FIELD) + "" == Block(VALID, FIELD);
    hide Request, Tokens, CStr, Token, Block, Line, Fits, LoginFits, HoldsPieces, EnsureHome, LoginAccepted;
  }

  // ----- with and without a directory -----

  /** With a home directory, a subdirectory named in a command is there afterwards, empty if it is new,
      and no other directory is made or changed. */
  lemma DirectoryMade(t: Tree, key: DirKey, homeScan: seq<string>)
    requires Home(key.user) in EnsureHome(t, key.user, homeScan)
    ensures var t1, t2 := EnsureHome(t, key.user, homeScan), SessionTree(t, key, homeScan);
            t2.Keys == t1.Keys + {key} && (key !in t1 ==> t2[key] == map[]) && forall k | k in t1 :: t2[k] == t1[k]
  {
  }

  /** When the check leaves the user without a home directory (HomeReadyIff says when), put stores
      nothing, get answers nothing, and list ends the server process; none of them makes a directory. */
  lemma NoHome(login: Account, key: DirKey, name: string, pieces: seq<Piece>, asked: string, accounts: seq<Account>,
               t: Tree, homeScan: seq<string>, scans: seq<seq<string>>)
    requires LoginFits(login) && login in accounts && key.user == login.user && |scans| == 2
    requires CommandFits("put", name, key) && CommandFits("get", name, key) && ListFits(key)
    requires |pieces| == 2 && AllSendable(pieces) && |asked| == 4
    requires var t1 := EnsureHome(t, login.user, homeScan); Home(login.user) !in t1 && key !in t1
    ensures var t1 := EnsureHome(t, login.user, homeScan);
            var put, get := PutRequest(login, key, name, pieces), GetRequest(login, key, name, asked);
            Complete(accounts, put) && Complete(accounts, get) &&
            Respond(accounts, t, put, homeScan, scans) == (t1, Block(VALID, FIELD)) &&
            Respond(accounts, t, get, homeScan, scans) == (t1, Block(VALID, FIELD))
  {
    PutSession(login, key, name, pieces, accounts, t, homeScan, scans);
    var words, body := Words("get", name, key), Block(asked, FIELD);
    RequestFields(login, words, body);
    LoginParsed(login, accounts);
    CommandParsed(words);
    NotOtherCommand(Block(Line(words), FIELD), "get");
    assert Block(VALID, FIELD) + "" == Block(VALID, FIELD);
  }

  /** A list session ends the server process exactly when its directory is not there. */
  lemma ListEndsServer(login: Account, key: DirKey, accounts: seq<Account>, t: Tree, homeScan: seq<string>)
    requires LoginFits(login) && login in accounts && key.user == login.user && ListFits(key)
    ensures var input := ListRequest(login, key);
            Complete(accounts, input) &&
            (RequestEndsServer(accounts, t, input, homeScan) <==> key !in SessionTree(t, key, homeScan))
  {
    var words := if key.Sub? then ["list", key.dir] else ["list"];
    RequestFields(login, words, "");
    LoginParsed(login, accounts);
    ListIsWord();
    CommandParsed(words);
    NotOtherCommand(Block(Line(words), FIELD), "list");
  }
}
