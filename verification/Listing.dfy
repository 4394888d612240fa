/** The list command: the listing that travels as blank-separated names, the client's table of
    names and part flags, and how it agrees with what get can fetch. */
module Listing {
  import opened CStrings
  import opened Codec
  import opened DfsServer
  import opened Layout
  import opened DfsClient
  import opened DfsGet
  import Transfer

  // One row of the table: ret_files[j].
  datatype FileInfo = FileInfo(name: string, parts: seq<bool>)

  const NO_PARTS: seq<bool> := [false, false, false, false]

  function ListRequest(login: Account, key: DirKey): string {
    Request(login, if key.Sub? then ["list", key.dir] else ["list"], "")
  }

  // ----- the codec -----

  /** Directory entries as list can transport them: no white space, and all of them fit one
      buffer; subdirectories do not start with a dot. */
  ghost predicate Listable(dir: Directory, subs: set<string>, scan: seq<string>) {
    (forall e | e in dir :: IsWord(e)) && (forall d | d in subs :: IsWord(d) && d[0] != '.') &&
    |Spaced(Visible(scan))| < Transfer.MAXBUF
  }

  /** What the client's tokeniser makes of the buffer, after it has dropped the leading blank. */
  function ListTokens(buf: string): seq<string> {
    var text := CStr(buf);
    Tokens(Blank, if |text| > 0 then text[1..] else "")
  }

  /** The listing round trip: the client sees exactly the names that the server read. */
  lemma ListingRoundTrip(dir: Directory, subs: set<string>, scan: seq<string>)
    requires IsScan(scan, dir, subs) && Listable(dir, subs, scan)
    ensures ListTokens(Block(Clip(Spaced(Visible(scan))), Transfer.MAXBUF)) == Visible(scan)
  {
    forall w | w in Visible(scan)
      ensures IsWord(w)
    {
      assert w in scan;
    }
    TokensOfListing(Visible(scan));
  }

  lemma TokensOfListing(names: seq<string>)
    requires AreWords(names) && |Spaced(names)| < Transfer.MAXBUF
    ensures ListTokens(Block(Clip(Spaced(names)), Transfer.MAXBUF)) == names
  {
    LineHasNoNul(names);
    CStrOfBlock(Spaced(names), Transfer.MAXBUF);
    TokensOfSpaced(Blank, names);
    if names != [] {
      TokensAfterBlank(Blank, Spaced(names)[1..]);
      assert Spaced(names) == " " + Spaced(names)[1..];
    }
  }

  /** Exactly which directories can be listed: those whose names, with a blank before each, take up to
      8191 characters. */
  lemma ListingExact(names: seq<string>)
    requires AreWords(names)
    ensures ListTokens(Block(Clip(Spaced(names)), Transfer.MAXBUF)) == names <==> |Spaced(names)| <= 8191
  {
    if |Spaced(names)| <= 8191 {
      TokensOfListing(names);
    } else {
      var cut := Spaced(names)[..8191];
      LineHasNoNul(names);
      CStrOfBlock(cut, Transfer.MAXBUF);
      CutLosesWords(Blank, names, 8191);
      assert cut == " " + cut[1..];
      TokensAfterBlank(Blank, cut[1..]);
    }
  }

  // ----- the table -----

  /** ".name.k": the name between the first character and the last two. */
  function NameOf(token: string): string
    requires IsPartName(token)
  {
    token[1..|token| - 2]
  }

  function PartOf(token: string): (k: nat)
    requires IsPartName(token)
    ensures k < 4
  {
    LastChar(token) as int - 49
  }

  lemma TokenIsEntry(token: string)
    requires IsPartName(token)
    ensures |token| >= 3 && token == EntryName(NameOf(token), Label(PartOf(token)))
  {
    assert token == [token[0]] + token[1..|token| - 2] + [token[|token| - 2]] + [LastChar(token)];
  }

  function IndexOf(table: seq<FileInfo>, name: string): (j: nat)
    ensures j <= |table| && (j < |table| ==> table[j].name == name)
    ensures forall i | 0 <= i < j :: table[i].name != name
  {
    if table == [] || table[0].name == name then 0 else 1 + IndexOf(table[1..], name)
  }

  predicate IsTable(table: seq<FileInfo>) {
    (forall j | 0 <= j < |table| :: |table[j].parts| == 4) &&
    forall i, j | 0 <= i < j < |table| :: table[i].name != table[j].name
  }

  /** One token merged: names without a leading dot are subdirectories and are skipped. */
  function Merge(table: seq<FileInfo>, token: string): seq<FileInfo>
    requires IsTable(table) && token != "" && (token[0] == '.' ==> IsPartName(token))
  {
    if token[0] != '.' then table
    else
      var name, k := NameOf(token), PartOf(token);
      var j := IndexOf(table, name);
      if j < |table| then table[j := FileInfo(name, table[j].parts[k := true])]
      else table + [FileInfo(name, NO_PARTS[k := true])]
  }

  predicate GoodToken(token: string) {
    token != "" && (token[0] == '.' ==> IsPartName(token))
  }

  lemma IndexFound(table: seq<FileInfo>, j: nat)
    requires IsTable(table) && j < |table|
    ensures IndexOf(table, table[j].name) == j
  {
  }

  /** The names in the table after a merge: the old ones and the token's. */
  lemma MergeNames(table: seq<FileInfo>, token: string, name: string)
    requires IsTable(table) && GoodToken(token)
    ensures var after := Merge(table, token);
            IsTable(after) &&
            (IndexOf(after, name) < |after| <==>
               IndexOf(table, name) < |table| || (token[0] == '.' && name == NameOf(token)))
  {
    var after := Merge(table, token);
    if token[0] == '.' {
      var j := IndexOf(table, NameOf(token));
      assert forall i | 0 <= i < |table| :: after[i].name == table[i].name;
      if IndexOf(table, name) < |table| {
        assert after[IndexOf(table, name)].name == name;
      }
      if name == NameOf(token) {
        assert after[j].name == name;
      }
    }
  }

  function FlagOf(table: seq<FileInfo>, name: string, k: nat): bool
    requires IsTable(table) && k < 4
  {
    var j := IndexOf(table, name);
    j < |table| && table[j].parts[k]
  }

  lemma MergeFlags(table: seq<FileInfo>, token: string, name: string, k: nat)
    requires IsTable(table) && GoodToken(token) && k < 4 && IsTable(Merge(table, token))
    ensures FlagOf(Merge(table, token), name, k) <==>
            FlagOf(table, name, k) || (token[0] == '.' && token == EntryName(name, Label(k)))
  {
    hide EntryName, Label;
    var after := Merge(table, token);
    MergeNames(table, token, name);
    if token[0] == '.' {
      TokenIsEntry(token);
      EntryNameInjective(NameOf(token), PartOf(token), name, k);
      var j := IndexOf(table, NameOf(token));
      assert forall i | 0 <= i < |table| :: after[i].name == table[i].name;
      if IndexOf(after, name) < |after| {
        IndexFound(after, IndexOf(after, name));
        if IndexOf(after, name) < |table| {
          IndexFound(table, IndexOf(after, name));
        }
      }
    }
  }

  function MergeAll(table: seq<FileInfo>, tokens: seq<string>): (after: seq<FileInfo>)
    requires IsTable(table) && forall t | t in tokens :: GoodToken(t)
    ensures IsTable(after)
    decreases |tokens|
  {
    if tokens == [] then table
    else
      assert GoodToken(tokens[0]);
      MergeNames(table, tokens[0], "");
      MergeAll(Merge(table, tokens[0]), tokens[1..])
  }

  /** A merged listing: each name once; the names are the old ones and those of the tokens that
      start with a dot; flag k of a name is set exactly when it was, or ".name.k" is a token. */
  lemma {:induction false} MergeAllMeans(table: seq<FileInfo>, tokens: seq<string>, name: string, k: nat)
    requires IsTable(table) && k < 4 && forall t | t in tokens :: GoodToken(t)
    ensures FlagOf(MergeAll(table, tokens), name, k) <==> FlagOf(table, name, k) || EntryName(name, Label(k)) in tokens
    ensures IndexOf(MergeAll(table, tokens), name) < |MergeAll(table, tokens)| <==>
            IndexOf(table, name) < |table| || exists t | t in tokens :: t[0] == '.' && NameOf(t) == name
    decreases |tokens|
  {
    hide Merge, FlagOf, IndexOf, IsTable, EntryName, Label, NameOf;
    if tokens != [] {
      assert GoodToken(tokens[0]);
      MergeNames(table, tokens[0], name);
      MergeFlags(table, tokens[0], name, k);
      MergeAllMeans(Merge(table, tokens[0]), tokens[1..], name, k);
      EntryStartsWithDot(name, k);
      assert tokens == [tokens[0]] + tokens[1..];
    }
  }

  lemma EntryStartsWithDot(name: string, k: nat)
    requires k < 4
    ensures EntryName(name, Label(k)) != "" && EntryName(name, Label(k))[0] == '.'
  {
  }

  // ----- the order of the rows -----

  /** The token is a part file of this name. */
  predicate Names(token: string, name: string) {
    IsPartName(token) && NameOf(token) == name
  }

  /** Where the name occurs first, or the length. */
  function FirstNamed(tokens: seq<string>, name: string): (p: nat)
    ensures p <= |tokens| && (p < |tokens| ==> Names(tokens[p], name))
    ensures forall q | 0 <= q < p :: !Names(tokens[q], name)
  {
    if tokens == [] || Names(tokens[0], name) then 0 else 1 + FirstNamed(tokens[1..], name)
  }

  /** A token moves no row; it adds at most one, at the end, for a name that is not there. */
  lemma MergeKeepsRows(table: seq<FileInfo>, token: string)
    requires IsTable(table) && GoodToken(token)
    ensures var after := Merge(table, token);
            IsTable(after) && |table| <= |after| <= |table| + 1 &&
            (forall i | 0 <= i < |table| :: after[i].name == table[i].name) &&
            (|after| > |table| ==> Names(token, after[|table|].name)) &&
            (forall name | Names(token, name) :: exists i | 0 <= i < |after| :: after[i].name == name)
  {
    MergeNames(table, token, "");
    var after := Merge(table, token);
    if token[0] == '.' {
      var j := IndexOf(table, NameOf(token));
      assert after[j].name == NameOf(token);
    }
  }

  /** No row ever moves, and the new rows are those of the names that are not there yet, in the order
      in which the tokens bring them first. */
  lemma {:induction false} RowsInOrder(table: seq<FileInfo>, tokens: seq<string>)
    requires IsTable(table) && forall t | t in tokens :: GoodToken(t)
    ensures var after := MergeAll(table, tokens);
            |table| <= |after| && (forall i | 0 <= i < |table| :: after[i].name == table[i].name) &&
            (forall i | |table| <= i < |after| :: FirstNamed(tokens, after[i].name) < |tokens|) &&
            forall i, j | |table| <= i < j < |after| ::
              FirstNamed(tokens, after[i].name) < FirstNamed(tokens, after[j].name)
    decreases |tokens|
  {
    hide Merge, Names;
    if tokens != [] {
      assert GoodToken(tokens[0]);
      MergeKeepsRows(table, tokens[0]);
      var table1 := Merge(table, tokens[0]);
      RowsInOrder(table1, tokens[1..]);
      var after := MergeAll(table, tokens);
      assert after == MergeAll(table1, tokens[1..]);
      forall i | |table1| <= i < |after|
        ensures !Names(tokens[0], after[i].name)
      {
      }
    }
  }

  lemma {:induction false} MergeAllThen(table: seq<FileInfo>, first: seq<string>, later: seq<string>)
    requires IsTable(table) && (forall t | t in first :: GoodToken(t)) && forall t | t in later :: GoodToken(t)
    ensures forall t | t in first + later :: GoodToken(t)
    ensures MergeAll(table, first + later) == MergeAll(MergeAll(table, first), later)
    decreases |first|
  {
    hide Merge, IsTable;
    if first == [] {
      assert first + later == later;
    } else {
      assert (first + later)[1..] == first[1..] + later && first[0] in first;
      MergeNames(table, first[0], "");
      MergeAllThen(Merge(table, first[0]), first[1..], later);
    }
  }

  // ----- the command -----

  /** The loop over the table, for one token: every row with the name is flagged, and a new row
      is added when there is none. */
  method MergeToken(table: seq<FileInfo>, token: string) returns (after: seq<FileInfo>)
    requires IsTable(table) && GoodToken(token)
    ensures after == Merge(table, token)
  {
    after := table;
    if token[0] == '.' {
      var name, part := token[1..|token| - 2], PartOf(token);
      var found := false;
      ghost var j := IndexOf(table, name);
      for i := 0 to |table|
        invariant |after| == |table|
        invariant found <==> j < i
        invariant after == if j < i then table[j := FileInfo(name, table[j].parts[part := true])] else table
      {
        if table[i].name == name {
          IndexFound(table, i);
          found := true;
          after := after[i := FileInfo(after[i].name, after[i].parts[part := true])];
        }
      }
      if !found {
        after := after + [FileInfo(name, NO_PARTS[part := true])];
      }
    }
  }

  method MergeTokens(table: seq<FileInfo>, tokens: seq<string>) returns (after: seq<FileInfo>)
    requires IsTable(table) && forall t | t in tokens :: GoodToken(t)
    ensures after == MergeAll(table, tokens) && IsTable(after)
  {
    hide Merge, IsTable, GoodToken;
    after := table;
    for i := 0 to |tokens|
      invariant IsTable(after) && MergeAll(after, tokens[i..]) == MergeAll(table, tokens)
    {
      assert tokens[i..][0] == tokens[i] && tokens[i] in tokens && tokens[i..][1..] == tokens[i + 1..];
      MergeNames(after, tokens[i], "");
      after := MergeToken(after, tokens[i]);
    }
  }

  ghost predicate ServerListable(t: Tree, key: DirKey, homeScan: seq<string>, scans: seq<seq<string>>) {
    var t1 := SessionTree(t, key, homeScan);
    key in t1 && WellNamed(t1[key]) && |scans| == 2 && IsScan(scans[0], t1[key], Subdirs(t1, key)) &&
    Listable(t1[key], Subdirs(t1, key), scans[0])
  }

  lemma TokensAreGood(dir: Directory, subs: set<string>, scan: seq<string>)
    requires WellNamed(dir) && IsScan(scan, dir, subs) && Listable(dir, subs, scan)
    ensures forall t | t in Visible(scan) :: GoodToken(t)
  {
    forall t | t in Visible(scan)
      ensures GoodToken(t)
    {
      assert t in scan;
    }
  }

  predicate VisitListable(visit: Visit) {
    visit.Up? ==> visit.scans != [] && forall t | t in Visible(visit.scans[0]) :: GoodToken(t)
  }

  /** The whole walk over the servers. */
  function ListAll(visits: seq<Visit>, table: seq<FileInfo>): (seq<FileInfo>, bool)
    requires IsTable(table) && forall v | v in visits :: VisitListable(v)
    decreases |visits|
  {
    if visits == [] then (table, false)
    else
      assert VisitListable(visits[0]);
      if visits[0].Down? then ListAll(visits[1..], table)
      else if visits[0].Refusing? then (table, true)
      else ListAll(visits[1..], MergeAll(table, Visible(visits[0].scans[0])))
  }

  /** All that the client is sent to list, server after server, until one refuses. */
  function AllTokens(visits: seq<Visit>): (tokens: seq<string>)
    requires forall v | v in visits :: VisitListable(v)
    ensures forall t | t in tokens :: GoodToken(t)
    decreases |visits|
  {
    if visits == [] || visits[0].Refusing? then []
    else
      assert VisitListable(visits[0]);
      (if visits[0].Up? then Visible(visits[0].scans[0]) else []) + AllTokens(visits[1..])
  }

  lemma {:induction false} ListAllMerges(visits: seq<Visit>, table: seq<FileInfo>)
    requires IsTable(table) && forall v | v in visits :: VisitListable(v)
    ensures ListAll(visits, table).0 == MergeAll(table, AllTokens(visits))
    ensures ListAll(visits, table).1 <==> exists i | 0 <= i < |visits| :: visits[i].Refusing?
    decreases |visits|
  {
    hide MergeAll, IsTable, Visible, GoodToken;
    if visits == [] {
      EmptyMerge(table);
    } else {
      assert VisitListable(visits[0]);
      if visits[0].Refusing? {
        EmptyMerge(table);
      } else {
        var tokens := if visits[0].Up? then Visible(visits[0].scans[0]) else [];
        EmptyMerge(table);
        ListAllMerges(visits[1..], MergeAll(table, tokens));
        MergeAllThen(table, tokens, AllTokens(visits[1..]));
        assert forall i | 1 <= i < |visits| :: visits[i] == visits[1..][i - 1];
      }
    }
  }

  lemma EmptyMerge(table: seq<FileInfo>)
    requires IsTable(table)
    ensures MergeAll(table, []) == table
  {
  }

  /** The table for a list of names: a row per name of a part file, in the order of their first
      occurrence, in which flag k says whether ".name.k" is listed. */
  predicate ShowsTokens(table: seq<FileInfo>, tokens: seq<string>) {
    IsTable(table) &&
    (forall i | 0 <= i < |table| :: FirstNamed(tokens, table[i].name) < |tokens|) &&
    (forall i, j | 0 <= i < j < |table| :: FirstNamed(tokens, table[i].name) < FirstNamed(tokens, table[j].name)) &&
    (forall t | t in tokens && IsPartName(t) :: exists i | 0 <= i < |table| :: table[i].name == NameOf(t)) &&
    forall i, k | 0 <= i < |table| && 0 <= k < 4 ::
      table[i].parts[k] <==> EntryName(table[i].name, Label(k)) in tokens
  }

  lemma ListShows(visits: seq<Visit>)
    requires forall v | v in visits :: VisitListable(v)
    ensures ShowsTokens(ListAll(visits, []).0, AllTokens(visits))
  {
    hide GoodToken, VisitListable, ShowsTokens, AllTokens, ListAll, MergeAll;
    ListAllMerges(visits, []);
    MergeShows(AllTokens(visits));
  }

  lemma MergeShows(tokens: seq<string>)
    requires forall t | t in tokens :: GoodToken(t)
    ensures ShowsTokens(MergeAll([], tokens), tokens)
  {
    var table := MergeAll([], tokens);
    hide MergeAll, EntryName, Label;
    RowsInOrder([], tokens);
    forall t | t in tokens && IsPartName(t)
      ensures exists i | 0 <= i < |table| :: table[i].name == NameOf(t)
    {
      MergeAllMeans([], tokens, NameOf(t), 0);
      assert t[0] == '.';
      assert table[IndexOf(table, NameOf(t))].name == NameOf(t);
    }
    forall i, k: nat | 0 <= i < |table| && k < 4
      ensures table[i].parts[k] <==> EntryName(table[i].name, Label(k)) in tokens
    {
      MergeAllMeans([], tokens, table[i].name, k);
      IndexFound(table, i);
    }
    hide GoodToken, IsPartName, NameOf, FirstNamed, IndexOf, FlagOf;
  }

  lemma ListSession(login: Account, key: DirKey, accounts: seq<Account>, t: Tree, homeScan: seq<string>,
                    scans: seq<seq<string>>)
    requires LoginFits(login) && login in accounts && key.user == login.user && |scans| == 2
    requires ListFits(key)
    requires key in SessionTree(t, key, homeScan)
    ensures var input := ListRequest(login, key);
            Complete(accounts, input) &&
            Respond(accounts, t, input, homeScan, scans) ==
            (SessionTree(t, key, homeScan),
             Block(VALID, FIELD) + Block(Clip(Spaced(Visible(scans[0]))), Transfer.MAXBUF))
  {
    var words := if key.Sub? then ["list", key.dir] else ["list"];
    RequestFields(login, words, "");
    LoginParsed(login, accounts);
    ListIsWord();
    CommandParsed(words);
    NotOtherCommand(Block(Line(words), FIELD), "list");
  }

  lemma ListIsWord()
    ensures Fits(["list"])
  {
    assert Line(["list"]) == "list" + "";
  }

  /** The list command: the table shows the names that the visited servers list; a refused login ends
      the program. */
  method List(login: Account, key: DirKey, servers: seq<Server>, up: seq<bool>,
              homeScans: seq<seq<string>>, scans: seq<seq<seq<string>>>) returns (table: seq<FileInfo>, exited: bool)
    requires |servers| == SERVERS == |up| == |homeScans| == |scans|
    requires forall i, j | 0 <= i < j < |servers| :: servers[i] != servers[j]
    requires LoginFits(login) && key.user == login.user && ListFits(key)
    requires forall i | 0 <= i < SERVERS && up[i] && login in servers[i].accounts ::
               ServerListable(servers[i].tree, key, homeScans[i], scans[i])
    requires forall i | 0 <= i < SERVERS :: |scans[i]| == 2
    modifies servers
    ensures var visits := Visits(old(Trees(servers)), AcceptedBy(login, servers), key, homeScans, up, scans);
            (forall v | v in visits :: VisitListable(v)) &&
            table == ListAll(visits, []).0 && exited == ListAll(visits, []).1
    ensures var visits := Visits(old(Trees(servers)), AcceptedBy(login, servers), key, homeScans, up, scans);
            (forall v | v in visits :: VisitListable(v)) && ShowsTokens(table, AllTokens(visits))
    ensures exited <==> exists i :: 0 <= i < SERVERS && up[i] && login !in servers[i].accounts
    ensures forall i, j | 0 <= j <= i < SERVERS && up[j] && login !in servers[j].accounts ::
              servers[i].tree == old(servers[i].tree)
    ensures forall i | 0 <= i < SERVERS ::
              servers[i].tree ==
              if Visited(up, AcceptedBy(login, servers), i)
              then SessionTree(old(servers[i].tree), key, homeScans[i])
              else old(servers[i].tree)
  {
    hide ServerListable, VisitOf, ListAll, ListFits, Fits, LoginFits, AcceptedBy, IsTable, VisitListable, SessionTree,
         ShowsTokens, AllTokens;
    ghost var visits := Visits(Trees(servers), AcceptedBy(login, servers), key, homeScans, up, scans);
    forall v | v in visits
      ensures VisitListable(v)
    {
      var i :| 0 <= i < SERVERS && visits[i] == v;
      ListVisit(servers[i].tree, login in servers[i].accounts, key, homeScans[i], up[i], scans[i]);
    }
    EmptyTable();
    ListShows(visits);
    table, exited := [], false;
    ghost var final := ListAll(visits, []);
    assert visits[0..] == visits;
    for i := 0 to SERVERS
      invariant !exited && IsTable(table) && ListAll(visits[i..], table) == final
      invariant forall j | 0 <= j < i && up[j] :: login in servers[j].accounts
      invariant forall j | 0 <= j < i ::
                  servers[j].tree ==
                  if up[j] then SessionTree(old(servers[j].tree), key, homeScans[j]) else old(servers[j].tree)
      invariant forall j | i <= j < SERVERS :: servers[j].tree == old(servers[j].tree)
    {
      ListVisit(servers[i].tree, login in servers[i].accounts, key, homeScans[i], up[i], scans[i]);
      ListStep(visits, i, table);
      if up[i] {
        table, exited := ListFrom(servers[i], login, key, homeScans[i], scans[i], table);
        if exited {
          return;
        }
      }
    }
    assert visits[SERVERS..] == [];
    ListEnd(table);
  }

  lemma EmptyTable()
    ensures IsTable([])
  {
  }

  lemma ListEnd(table: seq<FileInfo>)
    requires IsTable(table)
    ensures ListAll([], table) == (table, false)
  {
  }

  lemma ListStep(visits: seq<Visit>, i: nat, table: seq<FileInfo>)
    requires i < |visits| && IsTable(table) && forall v | v in visits :: VisitListable(v)
    ensures VisitListable(visits[i])
    ensures ListAll(visits[i..], table) ==
            if visits[i].Down? then ListAll(visits[i + 1..], table)
            else if visits[i].Refusing? then (table, true)
            else ListAll(visits[i + 1..], MergeAll(table, Visible(visits[i].scans[0])))
  {
    assert visits[i] in visits && visits[i..][1..] == visits[i + 1..];
  }

  lemma ListVisit(t: Tree, accepts: bool, key: DirKey, homeScan: seq<string>, up: bool, scans: seq<seq<string>>)
    requires up && accepts ==> ServerListable(t, key, homeScan, scans)
    ensures up && accepts ==> key in SessionTree(t, key, homeScan)
    ensures var visit := VisitOf(t, accepts, key, homeScan, up, scans);
            visit == (if !up then Down else if !accepts then Refusing
                      else Up(SessionTree(t, key, homeScan)[key], scans)) &&
            VisitListable(visit)
  {
    if up && accepts {
      var t1 := SessionTree(t, key, homeScan);
      TokensAreGood(t1[key], Subdirs(t1, key), scans[0]);
    }
  }

  method ListFrom(server: Server, login: Account, key: DirKey, homeScan: seq<string>, scans: seq<seq<string>>,
                  table: seq<FileInfo>) returns (after: seq<FileInfo>, refused: bool)
    requires LoginFits(login) && key.user == login.user && ListFits(key)
    requires login in server.accounts ==> ServerListable(server.tree, key, homeScan, scans)
    requires |scans| == 2 && IsTable(table)
    modifies server
    ensures refused <==> login !in server.accounts
    ensures !refused ==> forall t | t in Visible(scans[0]) :: GoodToken(t)
    ensures IsTable(after)
    ensures after == if refused then table else MergeAll(table, Visible(scans[0]))
    ensures server.tree == if refused then old(server.tree) else SessionTree(old(server.tree), key, homeScan)
  {
    ListVisit(server.tree, login in server.accounts, key, homeScan, true, scans);
    hide Respond, Complete, Refused, SessionTree, ListFits, Fits, LoginFits, Request, MergeAll, IsTable, Visible,
         Listable, IsScan, WellNamed, GoodToken;
    var input := Request(login, if key.Sub? then ["list", key.dir] else ["list"], "");
    ghost var answer := Block(Clip(Spaced(Visible(scans[0]))), Transfer.MAXBUF);
    if login in server.accounts {
      ListSession(login, key, server.accounts, server.tree, homeScan, scans);
    } else {
      RefusedSession(login, if key.Sub? then ["list", key.dir] else ["list"], "", server.accounts, server.tree,
                     homeScan, scans);
    }
    RefusedIff(answer);
    ghost var t1 := SessionTree(server.tree, key, homeScan);
    var reply := server.HandleRequest(input, homeScan, scans);
    refused := Refused(reply);
    after := table;
    if !refused {
      assert reply[FIELD..] == answer;
      ListingRoundTrip(t1[key], Subdirs(t1, key), scans[0]);
      var tokens := ListTokens(reply[FIELD..]);
      after := MergeTokens(table, tokens);
    }
  }
}
