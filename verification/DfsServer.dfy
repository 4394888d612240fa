/** One server of the distributed file system: its directory tree and `handle_request`.

    The path strings the program builds, "user/" and "user/dir/", are the keys Home(user) and
    Sub(user, dir): names contain no '/'. What readdir yields is a parameter of a request. */
module DfsServer {
  import opened CStrings
  import opened Codec
  import Transfer
  import A = Availability

  datatype Account = Account(user: string, password: string)

  datatype DirKey = Home(user: string) | Sub(user: string, dir: string)

  // The regular files of one directory, by entry name, and all directories of a server.
  type Directory = map<string, string>
  type Tree = map<DirKey, Directory>

  // ----- directories -----

  /** mkdir: it fails when the directory exists or its parent does not. */
  function MakeDir(t: Tree, key: DirKey): Tree {
    if key in t || (key.Sub? && Home(key.user) !in t) then t else t[key := map[]]
  }

  /** A subdirectory named in a command is made first; the home directory is there already. */
  function OpenDir(t: Tree, key: DirKey): Tree {
    if key.Sub? then MakeDir(t, key) else t
  }

  predicate HasPrefixIn(user: string, scan: seq<string>) {
    exists i | 0 <= i < |scan| :: user <= scan[i]
  }

  /** The home directory is created unless some entry of the server's directory merely starts
      with the user's name. */
  function EnsureHome(t: Tree, user: string, homeScan: seq<string>): Tree {
    if HasPrefixIn(user, homeScan) then t else MakeDir(t, Home(user))
  }

  ghost predicate IsHomeScan(scan: seq<string>, t: Tree) {
    forall e :: e in scan <==> Home(e) in t || e == "." || e == ".."
  }

  /** After the check the user has a home directory exactly when it was there before, or nothing
      in the server's directory has the user's name as a prefix: a user whose name is a prefix of
      another's may find no directory made. */
  lemma HomeReadyIff(t: Tree, user: string, homeScan: seq<string>)
    requires IsHomeScan(homeScan, t) && user != "" && user[0] != '.'
    ensures Home(user) in EnsureHome(t, user, homeScan)
            <==> Home(user) in t || forall other: string | Home(other) in t :: !(user <= other)
  {
    if HasPrefixIn(user, homeScan) {
      var i :| 0 <= i < |homeScan| && user <= homeScan[i];
      assert homeScan[i] in homeScan && homeScan[i][0] == user[0];
      assert Home(homeScan[i]) in t;
    } else {
      forall other: string | Home(other) in t
        ensures !(user <= other)
      {
        assert other in homeScan;
      }
    }
  }

  /** The path strings: "user/", "user/dir/", and an entry behind either. */
  function Path(key: DirKey): string {
    match key
    case Home(user) => user + "/"
    case Sub(user, dir) => user + "/" + (dir + "/")
  }

  predicate SlashFree(key: DirKey) {
    '/' !in key.user && (key.Sub? ==> '/' !in key.dir)
  }

  /** Different directories and entries have different paths, so the keys stand for the paths. */
  lemma PathInjective(key1: DirKey, entry1: string, key2: DirKey, entry2: string)
    requires SlashFree(key1) && SlashFree(key2) && '/' !in entry1 && '/' !in entry2
    ensures Path(key1) + entry1 == Path(key2) + entry2 <==> key1 == key2 && entry1 == entry2
  {
    var rest1 := if key1.Sub? then key1.dir + "/" + entry1 else entry1;
    var rest2 := if key2.Sub? then key2.dir + "/" + entry2 else entry2;
    assert Path(key1) + entry1 == key1.user + "/" + rest1 && Path(key2) + entry2 == key2.user + "/" + rest2;
    SlashSplits(key1.user, rest1, key2.user, rest2);
    if rest1 == rest2 {
      if key1.Sub? {
        assert rest1[|key1.dir|] == '/';
      }
      if key2.Sub? {
        assert rest2[|key2.dir|] == '/';
      }
      if key1.Sub? && key2.Sub? {
        SlashSplits(key1.dir, entry1, key2.dir, entry2);
      }
    }
  }

  lemma SlashSplits(a: string, x: string, b: string, y: string)
    requires '/' !in a && '/' !in b
    ensures a + "/" + x == b + "/" + y <==> a == b && x == y
  {
    var s, t := a + "/" + x, b + "/" + y;
    assert s[|a|] == '/' && t[|b|] == '/';
    assert forall i | 0 <= i < |a| :: s[i] == a[i] && a[i] in a;
    assert forall i | 0 <= i < |b| :: t[i] == b[i] && b[i] in b;
    if s == t {
      assert |a| == |b|;
      assert a == s[..|a|] && b == t[..|b|] && x == s[|a| + 1..] && y == t[|b| + 1..];
    }
  }

  function Subdirs(t: Tree, key: DirKey): set<string> {
    if key.Sub? then {} else set k | k in t && k.Sub? && k.user == key.user :: k.dir
  }

  /** A possible result of reading a directory: its entries in some order. */
  ghost predicate IsScan(scan: seq<string>, dir: Directory, subs: set<string>) {
    (forall i, j | 0 <= i < j < |scan| :: scan[i] != scan[j]) &&
    forall e :: e in scan <==> e in dir || e in subs || e == "." || e == ".."
  }

  predicate WellNamed(dir: Directory) {
    forall e | e in dir :: IsPartName(e)
  }

  /** A directory entry that the get comparison would take for a part of `name`. */
  predicate LooksLikePart(entry: string, name: string) {
    NameMatches(entry, name) && '0' <= LastChar(entry) <= '4'
  }

  predicate Harmless(subs: set<string>, name: string) {
    forall d | d in subs :: !LooksLikePart(d, name)
  }

  // ----- put -----

  function StoreAll(dir: Directory, name: string, pieces: seq<Piece>): Directory
    decreases |pieces|
  {
    if pieces == [] then dir
    else StoreAll(dir[EntryName(name, pieces[0].tag) := pieces[0].data], name, pieces[1..])
  }

  /** Without the directory no file can be opened and nothing is stored. */
  function ServePut(t: Tree, key: DirKey, name: string, pieces: seq<Piece>): Tree {
    var t1 := OpenDir(t, key);
    if key in t1 then t1[key := StoreAll(t1[key], name, pieces)] else t1
  }

  // ----- get -----

  /** The first position of the request vector that equals c, or 4. */
  function SlotOf(requested: string, c: char): nat
    requires |requested| == 4
  {
    if c == requested[0] then 0
    else if c == requested[1] then 1
    else if c == requested[2] then 2
    else if c == requested[3] then 3
    else 4
  }

  predicate Wanted(entry: string, name: string, requested: string)
    requires |requested| == 4
  {
    NameMatches(entry, name) && SlotOf(requested, LastChar(entry)) < 4
  }

  function FirstMatch(scan: seq<string>, name: string, requested: string): (i: nat)
    requires |requested| == 4
    ensures i <= |scan|
    ensures i < |scan| ==> Wanted(scan[i], name, requested)
    ensures forall j | 0 <= j < i :: !Wanted(scan[j], name, requested)
  {
    if scan == [] || Wanted(scan[0], name, requested) then 0
    else 1 + FirstMatch(scan[1..], name, requested)
  }

  /** The bytes a get sends: per scan one part, or the terminator and an end. An entry that
      cannot be opened is answered with a terminator, but the next scan still follows. */
  function Answer(dir: Directory, name: string, requested: string, scans: seq<seq<string>>): string
    requires |requested| == 4
    decreases |scans|
  {
    if scans == [] then ""
    else
      var i := FirstMatch(scans[0], name, requested);
      if i == |scans[0]| then Terminator()
      else
        var entry := scans[0][i];
        var slot := SlotOf(requested, LastChar(entry));
        (if entry in dir then Message(Piece([LastChar(entry)], dir[entry])) else Terminator())
          + Answer(dir, name, requested[slot := '0'], scans[1..])
  }

  /** The part indices a get picks. */
  function Picks(name: string, requested: string, scans: seq<seq<string>>): seq<nat>
    requires |requested| == 4
    decreases |scans|
  {
    if scans == [] then []
    else
      var i := FirstMatch(scans[0], name, requested);
      if i == |scans[0]| then []
      else
        var slot := SlotOf(requested, LastChar(scans[0][i]));
        [slot] + Picks(name, requested[slot := '0'], scans[1..])
  }

  // ----- which parts a get picks -----

  /** "1234" with the parts already received replaced by '0'. */
  predicate IsRequest(requested: string) {
    |requested| == 4 && forall k | 0 <= k < 4 :: requested[k] == '0' || requested[k] == DigitChar(k + 1)
  }

  function Asked(requested: string): set<nat>
    requires |requested| == 4
  {
    set k: nat | k < 4 && requested[k] == DigitChar(k + 1)
  }

  function Held(dir: Directory, name: string): set<nat> {
    set k: nat | k < 4 && EntryName(name, Label(k)) in dir
  }

  function PiecesOf(dir: Directory, name: string, picks: seq<nat>): (pieces: seq<Piece>)
    requires forall k | k in picks :: k in Held(dir, name)
    ensures |pieces| == |picks|
  {
    if picks == [] then []
    else
      assert picks[0] in picks && picks[0] in Held(dir, name);
      [Piece(Label(picks[0]), dir[EntryName(name, Label(picks[0]))])] + PiecesOf(dir, name, picks[1..])
  }

  function SetOf(s: seq<nat>): set<nat> { set k | k in s }

  /** For a directory entry, being wanted means being a held part that is asked for. */
  lemma WantedIff(entry: string, dir: Directory, subs: set<string>, name: string, requested: string)
    requires WellNamed(dir) && Harmless(subs, name) && IsRequest(requested)
    requires entry in dir || entry in subs || entry == "." || entry == ".."
    ensures Wanted(entry, name, requested) <==>
              exists k :: k in Held(dir, name) * Asked(requested) && entry == EntryName(name, Label(k))
    ensures Wanted(entry, name, requested) ==>
              var k := SlotOf(requested, LastChar(entry));
              k in Held(dir, name) * Asked(requested) && entry == EntryName(name, Label(k))
  {
    if Wanted(entry, name, requested) {
      var k := SlotOf(requested, LastChar(entry));
      assert entry in dir;
      assert LastChar(entry) != '0';
      MatchIsExact(entry, name, k);
    }
    if k :| k in Held(dir, name) * Asked(requested) && entry == EntryName(name, Label(k)) {
      EntryNameShape(name, k);
      assert requested[k] == LastChar(entry);
    }
  }

  /** One scan: it finds a part exactly when a held part is asked for, whatever the order. */
  lemma ScanFinds(scan: seq<string>, dir: Directory, subs: set<string>, name: string, requested: string)
    requires WellNamed(dir) && Harmless(subs, name) && IsRequest(requested) && IsScan(scan, dir, subs)
    ensures var i := FirstMatch(scan, name, requested);
            if i < |scan| then
              var k := SlotOf(requested, LastChar(scan[i]));
              k in Held(dir, name) * Asked(requested) && scan[i] == EntryName(name, Label(k))
            else Held(dir, name) * Asked(requested) == {}
  {
    var i := FirstMatch(scan, name, requested);
    if i < |scan| {
      assert scan[i] in scan;
      WantedIff(scan[i], dir, subs, name, requested);
    } else if k :| k in Held(dir, name) * Asked(requested) {
      var entry := EntryName(name, Label(k));
      assert entry in scan;
      WantedIff(entry, dir, subs, name, requested);
    }
  }

  lemma AskedAfter(requested: string, k: nat)
    requires IsRequest(requested) && k < 4
    ensures IsRequest(requested[k := '0']) && Asked(requested[k := '0']) == Asked(requested) - {k}
  {
  }

  /** The server's selection, for every order in which the directory is read, each time anew:
      it picks min(#scans, |held and asked|) different parts, all held and all asked for. */
  lemma {:induction false} Selection(dir: Directory, subs: set<string>, name: string, requested: string,
                                     scans: seq<seq<string>>)
    requires WellNamed(dir) && Harmless(subs, name) && IsRequest(requested)
    requires forall s | s in scans :: IsScan(s, dir, subs)
    ensures var picks, eligible := Picks(name, requested, scans), Held(dir, name) * Asked(requested);
            SetOf(picks) <= eligible && |SetOf(picks)| == |picks| == A.Min(|scans|, |eligible|)
    decreases |scans|
  {
    hide WellNamed, Harmless, IsScan;
    if scans == [] {
      assert SetOf([]) == {};
    } else {
      var scan := scans[0];
      var i := FirstMatch(scan, name, requested);
      assert scan in scans;
      ScanFinds(scan, dir, subs, name, requested);
      if i < |scan| {
        var k := SlotOf(requested, LastChar(scan[i]));
        AskedAfter(requested, k);
        var eligible := Held(dir, name) * Asked(requested);
        assert Held(dir, name) * Asked(requested[k := '0']) == eligible - {k};
        Selection(dir, subs, name, requested[k := '0'], scans[1..]);
        var later := Picks(name, requested[k := '0'], scans[1..]);
        assert SetOf([k] + later) == {k} + SetOf(later);
      } else {
        assert SetOf([]) == {};
      }
    }
  }

  lemma PicksAreHeld(dir: Directory, subs: set<string>, name: string, requested: string, scans: seq<seq<string>>)
    requires WellNamed(dir) && Harmless(subs, name) && IsRequest(requested)
    requires forall s | s in scans :: IsScan(s, dir, subs)
    ensures forall k | k in Picks(name, requested, scans) :: k in Held(dir, name)
  {
    Selection(dir, subs, name, requested, scans);
    forall k | k in Picks(name, requested, scans)
      ensures k in Held(dir, name)
    {
      assert k in SetOf(Picks(name, requested, scans));
    }
  }

  /** What it sends are exactly the bytes of the parts it picks, and then the terminator
      exactly when it picks fewer than it may. */
  lemma {:induction false} AnswerIsPicks(dir: Directory, subs: set<string>, name: string, requested: string,
                                         scans: seq<seq<string>>)
    requires |requested| == 4
    requires WellNamed(dir) && Harmless(subs, name) && IsRequest(requested)
    requires forall s | s in scans :: IsScan(s, dir, subs)
    requires forall k | k in Picks(name, requested, scans) :: k in Held(dir, name)
    requires |Picks(name, requested, scans)| <= |scans|
    ensures Answer(dir, name, requested, scans) ==
            EncodeReply(PiecesOf(dir, name, Picks(name, requested, scans)), |scans|)
    decreases |scans|
  {
    hide Message, Held, FirstMatch, WellNamed, Harmless, IsScan, IsRequest;
    if scans != [] {
      var scan := scans[0];
      assert scan in scans;
      if FirstMatch(scan, name, requested) < |scan| {
        var k := FoundPart(dir, subs, name, requested, scans);
        var later := Picks(name, requested[k := '0'], scans[1..]);
        PicksAreHeld(dir, subs, name, requested[k := '0'], scans[1..]);
        AnswerIsPicks(dir, subs, name, requested[k := '0'], scans[1..]);
        PiecesStep(dir, name, k, later);
      }
    }
  }

  lemma FoundPart(dir: Directory, subs: set<string>, name: string, requested: string, scans: seq<seq<string>>)
    returns (k: nat)
    requires WellNamed(dir) && Harmless(subs, name) && IsRequest(requested)
    requires scans != [] && IsScan(scans[0], dir, subs)
    requires FirstMatch(scans[0], name, requested) < |scans[0]|
    ensures k in Held(dir, name) && k < 4 == |requested| && IsRequest(requested[k := '0'])
    ensures Picks(name, requested, scans) == [k] + Picks(name, requested[k := '0'], scans[1..])
    ensures Answer(dir, name, requested, scans) ==
            Message(Piece(Label(k), dir[EntryName(name, Label(k))]))
            + Answer(dir, name, requested[k := '0'], scans[1..])
  {
    var entry := scans[0][FirstMatch(scans[0], name, requested)];
    k := SlotOf(requested, LastChar(entry));
    ScanFinds(scans[0], dir, subs, name, requested);
    AskedAfter(requested, k);
    EntryNameShape(name, k);
    assert [LastChar(entry)] == Label(k);
  }

  lemma PiecesStep(dir: Directory, name: string, k: nat, later: seq<nat>)
    requires k in Held(dir, name) && forall j | j in later :: j in Held(dir, name)
    ensures PiecesOf(dir, name, [k] + later) ==
            [Piece(Label(k), dir[EntryName(name, Label(k))])] + PiecesOf(dir, name, later)
  {
    assert ([k] + later)[1..] == later;
  }

  /** Every permitted choice of n parts is the selection of some n directory orders. */
  lemma {:induction false} SomeOrderPicks(dir: Directory, subs: set<string>, name: string, requested: string,
                                          wish: seq<nat>, n: nat)
    returns (scans: seq<seq<string>>)
    requires WellNamed(dir) && Harmless(subs, name) && IsRequest(requested)
    requires SetOf(wish) <= Held(dir, name) * Asked(requested)
    requires |SetOf(wish)| == |wish| == A.Min(n, |Held(dir, name) * Asked(requested)|)
    ensures |scans| == n && forall s | s in scans :: IsScan(s, dir, subs)
    ensures Picks(name, requested, scans) == wish
    decreases n
  {
    hide WellNamed, Harmless, IsScan;
    if wish == [] {
      scans := NothingToPick(dir, subs, name, requested, n);
    } else {
      var a := wish[0];
      TailOfDistinct(wish);
      AskedAfter(requested, a);
      assert Held(dir, name) * Asked(requested[a := '0']) == Held(dir, name) * Asked(requested) - {a};
      var later := SomeOrderPicks(dir, subs, name, requested[a := '0'], wish[1..], n - 1);
      assert wish == [a] + wish[1..];
      scans := PickFirst(dir, subs, name, requested, a, later);
    }
  }

  lemma NothingToPick(dir: Directory, subs: set<string>, name: string, requested: string, n: nat)
    returns (scans: seq<seq<string>>)
    requires WellNamed(dir) && Harmless(subs, name) && IsRequest(requested)
    requires A.Min(n, |Held(dir, name) * Asked(requested)|) == 0
    ensures |scans| == n && forall s | s in scans :: IsScan(s, dir, subs)
    ensures Picks(name, requested, scans) == []
  {
    var any := Enumerate((set e | e in dir) + subs + {".", ".."});
    scans := seq(n, _ => any);
    assert IsScan(any, dir, subs);
    hide IsScan, WellNamed, Harmless, IsRequest, Held, Asked;
    Selection(dir, subs, name, requested, scans);
  }

  lemma PickFirst(dir: Directory, subs: set<string>, name: string, requested: string, a: nat,
                  later: seq<seq<string>>) returns (scans: seq<seq<string>>)
    requires WellNamed(dir) && Harmless(subs, name) && IsRequest(requested)
    requires a in Held(dir, name) * Asked(requested)
    requires forall s | s in later :: IsScan(s, dir, subs)
    ensures |scans| == 1 + |later| && forall s | s in scans :: IsScan(s, dir, subs)
    ensures Picks(name, requested, scans) == [a] + Picks(name, requested[a := '0'], later)
  {
    var first := ScanStarting(dir, subs, name, requested, a);
    scans := [first] + later;
    PicksStep(name, requested, first, later);
  }

  lemma PicksStep(name: string, requested: string, first: seq<string>, later: seq<seq<string>>)
    requires |requested| == 4 && first != [] && FirstMatch(first, name, requested) == 0
    ensures var a := SlotOf(requested, LastChar(first[0]));
            Picks(name, requested, [first] + later) == [a] + Picks(name, requested[a := '0'], later)
  {
    assert ([first] + later)[1..] == later;
  }

  lemma TailOfDistinct(s: seq<nat>)
    requires s != [] && |SetOf(s)| == |s|
    ensures s[0] in SetOf(s) && SetOf(s[1..]) == SetOf(s) - {s[0]} && |SetOf(s[1..])| == |s| - 1
  {
    assert SetOf(s) == {s[0]} + SetOf(s[1..]) by {
      assert s == [s[0]] + s[1..];
    }
    SetOfIsSmall(s[1..]);
  }

  lemma {:induction false} SetOfIsSmall(s: seq<nat>)
    ensures |SetOf(s)| <= |s|
  {
    if s == [] {
      assert SetOf(s) == {};
    } else {
      SetOfIsSmall(s[1..]);
      assert SetOf(s) == {s[0]} + SetOf(s[1..]) by {
        assert s == [s[0]] + s[1..];
      }
    }
  }

  /** An order of the directory in which a chosen eligible part comes first. */
  lemma ScanStarting(dir: Directory, subs: set<string>, name: string, requested: string, k: nat)
    returns (scan: seq<string>)
    requires WellNamed(dir) && Harmless(subs, name) && IsRequest(requested)
    requires k in Held(dir, name) * Asked(requested)
    ensures IsScan(scan, dir, subs) && scan != [] && FirstMatch(scan, name, requested) == 0
    ensures SlotOf(requested, LastChar(scan[0])) == k
  {
    var entry := EntryName(name, Label(k));
    var rest := Enumerate((set e | e in dir) + subs + {".", ".."} - {entry});
    scan := [entry] + rest;
    EntryNameShape(name, k);
    WantedIff(entry, dir, subs, name, requested);
  }

  lemma Enumerate(s: set<string>) returns (list: seq<string>)
    ensures forall e :: e in list <==> e in s
    ensures forall i, j | 0 <= i < j < |list| :: list[i] != list[j]
  {
    if s == {} {
      list := [];
    } else {
      var e :| e in s;
      var rest := Enumerate(s - {e});
      list := [e] + rest;
    }
  }

  // ----- list -----

  /** The entries a listing names: all but "." and "..". */
  function Visible(scan: seq<string>): (names: seq<string>)
    ensures forall e :: e in names <==> e in scan && e != "." && e != ".."
  {
    if scan == [] then []
    else if scan[0] == ".." || scan[0] == "." then Visible(scan[1..])
    else [scan[0]] + Visible(scan[1..])
  }

  /** The order is that of the scan. */
  lemma {:induction false} VisibleInOrder(first: seq<string>, later: seq<string>, e: string)
    ensures Visible(first + later) == Visible(first) + Visible(later)
    ensures Visible([e]) == if e == "." || e == ".." then [] else [e]
    decreases |first|
  {
    if first == [] {
      assert first + later == later;
    } else {
      assert (first + later)[1..] == first[1..] + later;
      VisibleInOrder(first[1..], later, e);
    }
    assert [e][1..] == [];
  }

  /** snprintf into the buffer: a text that does not fit with its NUL is cut off. */
  function Clip(s: string): string {
    if |s| < Transfer.MAXBUF then s else s[..Transfer.MAXBUF - 1]
  }

  lemma ClipOnce(a: string, b: string)
    ensures Clip(Clip(a) + b) == Clip(a + b)
  {
    var n := Transfer.MAXBUF - 1;
    if |a| > n {
      assert (a[..n] + b)[..n] == a[..n] == (a + b)[..n];
    }
  }

  lemma {:induction false} SpacedThen(first: seq<string>, later: seq<string>)
    ensures Spaced(first + later) == Spaced(first) + Spaced(later)
    decreases |first|
  {
    if first == [] {
      assert first + later == later;
    } else {
      assert (first + later)[1..] == first[1..] + later;
      SpacedThen(first[1..], later);
    }
  }

  lemma ListedNext(first: seq<string>, e: string)
    ensures Clip(Spaced(Visible(first + [e]))) ==
            if e == "." || e == ".." then Clip(Spaced(Visible(first)))
            else Clip(Clip(Spaced(Visible(first))) + (" " + e))
  {
    VisibleInOrder(first, [e], e);
    hide Visible, Clip;
    SpacedThen(Visible(first), Visible([e]));
    ClipOnce(Spaced(Visible(first)), " " + e);
    assert Spaced([e]) == " " + (e + Spaced([])) == " " + e;
    assert Spaced(Visible(first)) + Spaced([]) == Spaced(Visible(first));
  }

  /** The listing is built up in the buffer, name by name. */
  method ListDirectory(scan: seq<string>) returns (buf: string)
    ensures buf == Clip(Spaced(Visible(scan)))
  {
    buf := "";
    for i := 0 to |scan|
      invariant buf == Clip(Spaced(Visible(scan[..i])))
    {
      assert scan[..i + 1] == scan[..i] + [scan[i]];
      ListedNext(scan[..i], scan[i]);
      if scan[i] != ".." && scan[i] != "." {
        buf := Clip(buf + (" " + scan[i]));
      }
    }
    assert scan[..|scan|] == scan;
  }

  // ----- one request -----

  const VALID: string := "Valid account"
  // In two pieces, because the verifier does not look into a literal of this length.
  const INVALID: string := "Invalid" + " Username/Password. Please try again."

  predicate LoginAccepted(accounts: seq<Account>, login: string) {
    Account(Token(CStr(login), 0), Token(CStr(login), 1)) in accounts
  }

  /** The directory of a put or a get: a third word names a subdirectory. */
  function KeyOf(user: string, command: string): DirKey {
    if |Tokens(WhiteSpace, CStr(command))| >= 3 then Sub(user, Token(CStr(command), 2)) else Home(user)
  }

  function ListKeyOf(user: string, command: string): DirKey {
    if |Tokens(WhiteSpace, CStr(command))| == 2 then Sub(user, Token(CStr(command), 1)) else Home(user)
  }

  predicate IsCommand(command: string, word: string) {
    word <= Token(CStr(command), 0)
  }

  /** The client keeps to the protocol: the blocks and payloads its command announces arrive. */
  predicate Complete(accounts: seq<Account>, input: string) {
    FIELD <= |input| &&
    (LoginAccepted(accounts, input[..FIELD]) ==>
       2 * FIELD <= |input| &&
       var command, body := input[FIELD..2 * FIELD], input[2 * FIELD..];
       (IsCommand(command, "put") ==> HoldsPieces(body, 2)) &&
       (IsCommand(command, "get") ==> FIELD <= |body|))
  }

  /** What a command does to the tree and what it answers. A missing directory ends the
      connection, so nothing is answered. */
  function Execute(t: Tree, user: string, command: string, body: string, scans: seq<seq<string>>): (Tree, string)
    requires |scans| == 2
    requires IsCommand(command, "put") ==> HoldsPieces(body, 2)
    requires IsCommand(command, "get") ==> FIELD <= |body|
  {
    var argument := Token(CStr(command), 1);
    if IsCommand(command, "list") then
      var key := ListKeyOf(user, command);
      var t1 := OpenDir(t, key);
      (t1, if key in t1 then Block(Clip(Spaced(Visible(scans[0]))), Transfer.MAXBUF) else "")
    else if IsCommand(command, "put") then
      (ServePut(t, KeyOf(user, command), argument, DecodePut(body, 2)), "")
    else if IsCommand(command, "get") then
      var key := KeyOf(user, command);
      var t1 := OpenDir(t, key);
      (t1, if key in t1 then Answer(t1[key], argument, body[..4], scans) else "")
    else if IsCommand(command, "MKDIR") then
      (MakeDir(t, Sub(user, argument)), "")
    else (t, "")
  }

  /** A whole session: log in, make sure of the home directory, execute one command. */
  function Respond(accounts: seq<Account>, t: Tree, input: string, homeScan: seq<string>,
                   scans: seq<seq<string>>): (Tree, string)
    requires |scans| == 2 && Complete(accounts, input)
  {
    if !LoginAccepted(accounts, input[..FIELD]) then (t, Block(INVALID, FIELD))
    else
      var user := Token(CStr(input[..FIELD]), 0);
      var (t1, answer) :=
        Execute(EnsureHome(t, user, homeScan), user, input[FIELD..2 * FIELD], input[2 * FIELD..], scans);
      (t1, Block(VALID, FIELD) + answer)
  }

  /** A list whose directory cannot be opened ends the whole server process. */
  predicate EndsServer(t: Tree, user: string, command: string) {
    IsCommand(command, "list") && ListKeyOf(user, command) !in OpenDir(t, ListKeyOf(user, command))
  }

  predicate RequestEndsServer(accounts: seq<Account>, t: Tree, input: string, homeScan: seq<string>)
    requires Complete(accounts, input)
  {
    LoginAccepted(accounts, input[..FIELD]) &&
    var user := Token(CStr(input[..FIELD]), 0);
    EndsServer(EnsureHome(t, user, homeScan), user, input[FIELD..2 * FIELD])
  }

  /** The next piece of a put stream, and what is behind it. */
  lemma StoreNext(dir: Directory, name: string, stream: string, n: nat)
    requires HoldsPieces(stream, n + 1)
    ensures FIELD <= |stream|
    ensures var size, tag := HeaderSize(stream[..FIELD]), HeaderLabel(stream[..FIELD]);
            0 <= size <= |stream[FIELD..]| &&
            var file, after := stream[FIELD..][..size], stream[FIELD..][size..];
            HoldsPieces(after, n) &&
            StoreAll(dir, name, DecodePut(stream, n + 1))
            == StoreAll(dir[EntryName(name, tag) := file], name, DecodePut(after, n))
  {
    hide EntryName;
    var size, tag := HeaderSize(stream[..FIELD]), HeaderLabel(stream[..FIELD]);
    assert stream[FIELD..][..size] == stream[FIELD..FIELD + size];
    assert stream[FIELD..][size..] == stream[FIELD + size..];
    assert DecodePut(stream, n + 1)[1..] == DecodePut(stream[FIELD + size..], n);
  }

  lemma NothingLeft(dir: Directory, name: string, stream: string)
    requires HoldsPieces(stream, 0)
    ensures StoreAll(dir, name, DecodePut(stream, 0)) == dir
  {
  }

  class Server {
    const accounts: seq<Account>
    var tree: Tree
    var running: bool

    constructor (accounts: seq<Account>)
      ensures this.accounts == accounts && tree == map[] && running
    {
      this.accounts := accounts;
      tree := map[];
      running := true;
    }

    method CheckLogin(user: string, password: string) returns (valid: bool)
      ensures valid <==> Account(user, password) in accounts
    {
      valid := false;
      for i := 0 to |accounts|
        invariant !valid && Account(user, password) !in accounts[..i]
      {
        if accounts[i].user == user {
          if accounts[i].password == password {
            valid := true;
            return;
          }
        }
      }
    }

    method MakeHome(user: string, homeScan: seq<string>)
      modifies this`tree
      ensures tree == EnsureHome(old(tree), user, homeScan)
    {
      var found := false;
      var i := 0;
      while i < |homeScan| && !found
        invariant 0 <= i <= |homeScan|
        invariant found <==> exists k | 0 <= k < i :: user <= homeScan[k]
      {
        if user <= homeScan[i] {
          found := true;
        }
        i := i + 1;
      }
      if !found {
        tree := MakeDir(tree, Home(user));
      }
    }

    /** The put receiver: two headers, two files. */
    method ReceiveParts(key: DirKey, name: string, body: string)
      requires HoldsPieces(body, 2) && key in tree
      modifies this`tree
      ensures tree == old(tree)[key := StoreAll(old(tree)[key], name, DecodePut(body, 2))]
    {
      hide StoreAll, HoldsPieces, DecodePut, EntryName;
      var rest := body;
      ghost var whole := StoreAll(tree[key], name, DecodePut(body, 2));
      for j := 0 to 2
        invariant HoldsPieces(rest, 2 - j) && key in tree
        invariant tree == old(tree)[key := tree[key]]
        invariant StoreAll(tree[key], name, DecodePut(rest, 2 - j)) == whole
      {
        StoreNext(tree[key], name, rest, 1 - j);
        var size, tag := HeaderSize(rest[..FIELD]), HeaderLabel(rest[..FIELD]);
        var file, after := ReceiveFile(rest[FIELD..], size);
        tree := tree[key := tree[key][EntryName(name, tag) := file]];
        rest := after;
      }
      NothingLeft(tree[key], name, rest);
    }

    /** One payload, by full reads. */
    method ReceiveFile(stream: string, size: nat) returns (file: string, rest: string)
      requires size <= |stream|
      ensures file == stream[..size] && rest == stream[size..]
    {
      var counts := Transfer.FullCounts(size);
      file, rest := Transfer.ServerStore(stream, size, counts);
      Transfer.ServerStoreExact(stream, size, counts);
    }

    /** One pass over the directory, up to the first entry with a part still requested. */
    method FindWanted(scan: seq<string>, name: string, requested: array<char>) returns (i: nat)
      requires requested.Length == 4
      ensures i == FirstMatch(scan, name, requested[..])
    {
      i := 0;
      while i < |scan|
        invariant i <= |scan|
        invariant i + FirstMatch(scan[i..], name, requested[..]) == FirstMatch(scan, name, requested[..])
      {
        assert scan[i..][1..] == scan[i + 1..];
        if Wanted(scan[i], name, requested[..]) {
          break;
        }
        i := i + 1;
      }
    }

    method SendFile(file: string, tag: char) returns (message: string)
      ensures message == Message(Piece([tag], file))
    {
      var counts := Transfer.FullCounts(|file|);
      var data := Transfer.ServerSend(file, counts);
      Transfer.ServerSendFull(file, 0, counts);
      assert data == file[0..] == file;
      message := Header(Piece([tag], file)) + data;
    }

    /** The get sender: two scans of the directory, each for one part still requested. */
    method SendParts(dir: Directory, name: string, requested: array<char>, scans: seq<seq<string>>)
      returns (reply: string)
      requires requested.Length == 4
      modifies requested
      ensures reply == Answer(dir, name, old(requested[..]), scans)
    {
      reply := "";
      ghost var whole := Answer(dir, name, requested[..], scans);
      for j := 0 to |scans|
        invariant reply + Answer(dir, name, requested[..], scans[j..]) == whole
      {
        ghost var before := requested[..];
        assert scans[j..][1..] == scans[j + 1..];
        var i := FindWanted(scans[j], name, requested);
        if i == |scans[j]| {
          reply := reply + Terminator();
          return;
        }
        var entry := scans[j][i];
        var slot := SlotOf(requested[..], LastChar(entry));
        requested[slot] := '0';
        assert requested[..] == before[slot := '0'];
        var message := Terminator();
        if entry in dir {
          message := SendFile(dir[entry], LastChar(entry));
        }
        assert Answer(dir, name, before, scans[j..]) == message + Answer(dir, name, requested[..], scans[j + 1..]);
        Associates(reply, message, Answer(dir, name, requested[..], scans[j + 1..]));
        reply := reply + message;
      }
    }

    method ExecuteCommand(user: string, command: string, body: string, scans: seq<seq<string>>)
      returns (answer: string)
      requires |scans| == 2
      requires IsCommand(command, "put") ==> HoldsPieces(body, 2)
      requires IsCommand(command, "get") ==> FIELD <= |body|
      modifies this`tree, this`running
      ensures var (t, a) := Execute(old(tree), user, command, body, scans); tree == t && answer == a
      ensures running == (old(running) && !EndsServer(old(tree), user, command))
    {
      CommandsExclusive(command);
      var argument := Token(CStr(command), 1);
      answer := "";
      if IsCommand(command, "list") {
        var key := ListKeyOf(user, command);
        tree := OpenDir(tree, key);
        if key in tree {
          var text := ListDirectory(scans[0]);
          answer := Block(text, Transfer.MAXBUF);
        } else {
          running := false;
        }
      }
      if IsCommand(command, "put") {
        var key := KeyOf(user, command);
        tree := OpenDir(tree, key);
        if key in tree {
          ReceiveParts(key, argument, body);
        }
      }
      if IsCommand(command, "get") {
        var key := KeyOf(user, command);
        tree := OpenDir(tree, key);
        if key in tree {
          var requested := new char[4](i requires 0 <= i < 4 => body[i]);
          assert requested[..] == body[..4];
          answer := SendParts(tree[key], argument, requested, scans);
        }
      }
      if IsCommand(command, "MKDIR") {
        tree := MakeDir(tree, Sub(user, argument));
      }
    }

    method HandleRequest(input: string, homeScan: seq<string>, scans: seq<seq<string>>) returns (reply: string)
      requires |scans| == 2 && Complete(accounts, input)
      modifies this`tree, this`running
      ensures var (t, answer) := Respond(accounts, old(tree), input, homeScan, scans);
              tree == t && reply == answer
      ensures running == (old(running) && !RequestEndsServer(accounts, old(tree), input, homeScan))
    {
      var user, password := Token(CStr(input[..FIELD]), 0), Token(CStr(input[..FIELD]), 1);
      var valid := CheckLogin(user, password);
      if !valid {
        reply := Block(INVALID, FIELD);
      } else {
        MakeHome(user, homeScan);
        var answer := ExecuteCommand(user, input[FIELD..2 * FIELD], input[2 * FIELD..], scans);
        reply := Block(VALID, FIELD) + answer;
      }
    }
  }

  /** At most one of the four commands is recognised, so the order of the tests is no matter. */
  lemma CommandsExclusive(command: string)
    ensures IsCommand(command, "list") ==> !IsCommand(command, "put")
    ensures IsCommand(command, "list") || IsCommand(command, "put") ==> !IsCommand(command, "get")
    ensures IsCommand(command, "list") || IsCommand(command, "put") || IsCommand(command, "get")
            ==> !IsCommand(command, "MKDIR")
  {
    var word := Token(CStr(command), 0);
    assert IsCommand(command, "list") ==> word[0] == 'l';
    assert IsCommand(command, "put") ==> word[0] == 'p';
    assert IsCommand(command, "get") ==> word[0] == 'g';
    assert IsCommand(command, "MKDIR") ==> word[0] == 'M';
  }

  // ----- home directories over the life of a server -----

  /** No user's name is a prefix of another's. */
  predicate PrefixFree(accounts: seq<Account>) {
    forall a, b | a in accounts && b in accounts :: a.user <= b.user ==> a.user == b.user
  }

  predicate OwnedByUsers(t: Tree, accounts: seq<Account>) {
    forall key | key in t :: exists a | a in accounts :: a.user == key.user
  }

  /** With such names every accepted session finds its home directory, no session ends the
      server, and every session keeps the server's directories in its users' hands. */
  lemma HomeAlwaysReady(accounts: seq<Account>, t: Tree, input: string, homeScan: seq<string>, scans: seq<seq<string>>)
    requires PrefixFree(accounts) && OwnedByUsers(t, accounts) && IsHomeScan(homeScan, t)
    requires |scans| == 2 && Complete(accounts, input)
    requires var user := Token(CStr(input[..FIELD]), 0); user != "" && user[0] != '.'
    ensures var user := Token(CStr(input[..FIELD]), 0);
            LoginAccepted(accounts, input[..FIELD]) ==> Home(user) in EnsureHome(t, user, homeScan)
    ensures !RequestEndsServer(accounts, t, input, homeScan)
    ensures OwnedByUsers(Respond(accounts, t, input, homeScan, scans).0, accounts)
  {
    hide StoreAll, Answer, Visible, CStr, Tokens, HoldsPieces, DecodePut;
    var user := Token(CStr(input[..FIELD]), 0);
    if LoginAccepted(accounts, input[..FIELD]) {
      var account := Account(user, Token(CStr(input[..FIELD]), 1));
      assert account in accounts;
      HomeReadyIff(t, user, homeScan);
      forall other: string | Home(other) in t && user <= other
        ensures other == user
      {
        var a :| a in accounts && a.user == Home(other).user;
      }
      var t' := Respond(accounts, t, input, homeScan, scans).0;
      forall key | key in t'
        ensures exists a | a in accounts :: a.user == key.user
      {
        if key !in t {
          assert key.user == account.user;
        }
      }
    }
  }
}
