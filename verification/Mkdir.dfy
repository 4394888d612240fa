/** The MKDIR command: what a session does to a server's tree, and the client's walk over the servers. */
module Mkdir {
  import opened CStrings
  import opened DfsServer
  import opened Layout
  import opened DfsClient

  function MkdirWords(dir: string): seq<string> {
    ["MKDIR", dir]
  }

  predicate MkdirFits(login: Account, dir: string) {
    Fits(MkdirWords(dir)) && |Path(Sub(login.user, dir))| < FIELD
  }

  /** A server's tree after the session. */
  function MkdirTree(t: Tree, user: string, dir: string, homeScan: seq<string>): Tree {
    MakeDir(EnsureHome(t, user, homeScan), Sub(user, dir))
  }

  lemma MkdirIs(login: Account, dir: string, accounts: seq<Account>, t: Tree, homeScan: seq<string>,
                scans: seq<seq<string>>)
    requires LoginFits(login) && MkdirFits(login, dir) && login in accounts && |scans| == 2
    ensures var input := Request(login, MkdirWords(dir), "");
            Complete(accounts, input) && !RequestEndsServer(accounts, t, input, homeScan) &&
            Respond(accounts, t, input, homeScan, scans) ==
            (MkdirTree(t, login.user, dir, homeScan), Block(VALID, FIELD))
  {
    var words := MkdirWords(dir);
    var command := Block(Line(words), FIELD);
    RequestFields(login, words, "");
    LoginParsed(login, accounts);
    CommandParsed(words);
    assert Token(CStr(command), 0) == "MKDIR" && "MKDIR"[0] == 'M';
    assert "list"[0] == 'l' && "put"[0] == 'p' && "get"[0] == 'g';
    assert Block(VALID, FIELD) + "" == Block(VALID, FIELD);
  }

  /** A MKDIR session: every directory keeps its files; the new one is there afterwards, and empty if
      it was not there before. Without a home directory nothing happens. Nothing is answered but that
      the account is valid. */
  lemma MkdirSession(login: Account, dir: string, accounts: seq<Account>, t: Tree, homeScan: seq<string>,
                     scans: seq<seq<string>>)
    requires LoginFits(login) && MkdirFits(login, dir) && login in accounts && |scans| == 2
    ensures var input := Request(login, ["MKDIR", dir], "");
            Complete(accounts, input) && !RequestEndsServer(accounts, t, input, homeScan) &&
            var (t', reply) := Respond(accounts, t, input, homeScan, scans);
            var t1, key := EnsureHome(t, login.user, homeScan), Sub(login.user, dir);
            reply == Block(VALID, FIELD) && (forall k | k in t1 :: k in t' && t'[k] == t1[k]) &&
            (Home(login.user) in t1 ==> t'.Keys == t1.Keys + {key} && (key !in t1 ==> t'[key] == map[])) &&
            (Home(login.user) !in t1 ==> t' == t1)
  {
    MkdirIs(login, dir, accounts, t, homeScan, scans);
    hide Respond, Complete, RequestEndsServer, EnsureHome, Request, Block;
  }

  /** The client's walk: every visited server makes the directory, the others keep their trees, and a
      refused login ends the program. */
  method Mkdir(login: Account, dir: string, servers: seq<Server>, up: seq<bool>, homeScans: seq<seq<string>>)
    returns (exited: bool)
    requires |servers| == SERVERS == |up| == |homeScans|
    requires forall i, j | 0 <= i < j < |servers| :: servers[i] != servers[j]
    requires LoginFits(login) && MkdirFits(login, dir)
    modifies servers
    ensures exited <==> exists i :: 0 <= i < SERVERS && up[i] && login !in servers[i].accounts
    ensures forall i, j | 0 <= j <= i < SERVERS && up[j] && login !in servers[j].accounts ::
              servers[i].tree == old(servers[i].tree)
    ensures forall i | 0 <= i < SERVERS ::
              servers[i].tree ==
              if Visited(up, AcceptedBy(login, servers), i)
                then MkdirTree(old(servers[i].tree), login.user, dir, homeScans[i])
              else old(servers[i].tree)
  {
    hide MkdirTree, MkdirFits, LoginFits;
    exited := false;
    for i := 0 to SERVERS
      invariant !exited && forall j | 0 <= j < i && up[j] :: login in servers[j].accounts
      invariant forall j | 0 <= j < i ::
                  servers[j].tree ==
                  if up[j] then MkdirTree(old(servers[j].tree), login.user, dir, homeScans[j]) else old(servers[j].tree)
      invariant forall j | i <= j < SERVERS :: servers[j].tree == old(servers[j].tree)
    {
      if up[i] {
        exited := MkdirAt(servers[i], login, dir, homeScans[i]);
        if exited {
          return;
        }
      }
    }
  }

  method MkdirAt(server: Server, login: Account, dir: string, homeScan: seq<string>) returns (refused: bool)
    requires LoginFits(login) && MkdirFits(login, dir)
    modifies server
    ensures refused <==> login !in server.accounts
    ensures server.tree ==
            if refused then old(server.tree) else MkdirTree(old(server.tree), login.user, dir, homeScan)
  {
    hide Respond, Complete, Refused, MkdirTree, Block, Fits, LoginFits, Request;
    var input := Request(login, MkdirWords(dir), "");
    if login in server.accounts {
      MkdirIs(login, dir, server.accounts, server.tree, homeScan, [[], []]);
    } else {
      RefusedSession(login, MkdirWords(dir), "", server.accounts, server.tree, homeScan, [[], []]);
    }
    RefusedIff("");
    assert Block(VALID, FIELD) + "" == Block(VALID, FIELD);
    var reply := server.HandleRequest(input, homeScan, [[], []]);
    refused := Refused(reply);
  }
}
