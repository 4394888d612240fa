/** list against get, for the same stores and the same reachable servers. */
module ListGetAgreement {
  import opened Codec
  import opened DfsServer
  import opened Layout
  import opened DfsClient
  import opened DfsGet
  import opened DfsTheorems
  import opened Listing
  import opened PutThenGet
  import A = Availability

  /** A row is printed without "[incomplete]". */
  predicate ListedComplete(table: seq<FileInfo>, name: string)
    requires IsTable(table)
  {
    forall k: nat | k < 4 :: FlagOf(table, name, k)
  }

  predicate InTable(table: seq<FileInfo>, name: string)
    requires IsTable(table)
  {
    IndexOf(table, name) < |table|
  }

  /** Listings whose names the client can take apart: part files, and subdirectories without a dot. */
  predicate DotFree(place: Place) {
    place.Place? ==> WellNamed(place.dir) && forall d | d in place.subs :: d != "" && d[0] != '.'
  }

  /** The tokens of one listing: the parts of a name that it names are those the server holds. */
  lemma VisitTokens(place: Place, visit: Visit, name: string, k: nat)
    requires PossibleVisit(place, visit) && DotFree(place) && k < 4
    ensures VisitListable(visit) && !visit.Refusing?
    ensures visit.Up? ==>
              var tokens := Visible(visit.scans[0]);
              (EntryName(name, Label(k)) in tokens <==> k in HeldAt(place, name)) &&
              ((exists t | t in tokens :: t[0] == '.' && NameOf(t) == name) <==> HeldAt(place, name) != {})
  {
    if visit.Up? {
      var scan, tokens := visit.scans[0], Visible(visit.scans[0]);
      assert scan in visit.scans;
      forall t | t in tokens
        ensures GoodToken(t)
      {
        assert t in scan;
      }
      EntryInListing(place, scan, name, k);
      if t :| t in tokens && t[0] == '.' && NameOf(t) == name {
        TokenIsEntry(t);
        EntryInListing(place, scan, name, PartOf(t));
      }
      if j :| j in HeldAt(place, name) {
        EntryInListing(place, scan, name, j);
        var t := EntryName(name, Label(j));
        EntryNameShape(name, j);
        assert NameOf(t) == name;
      }
    }
  }

  lemma EntryInListing(place: Place, scan: seq<string>, name: string, k: nat)
    requires place.Place? && DotFree(place) && IsScan(scan, place.dir, place.subs) && k < 4
    ensures EntryName(name, Label(k)) in Visible(scan) <==> k in Held(place.dir, name)
  {
    var e := EntryName(name, Label(k));
    EntryNameShape(name, k);
    assert |e| >= 3 && e[0] == '.';
    assert e in Visible(scan) <==> e in scan;
  }

  /** What list prints of a name: it is there exactly when some reachable server holds a part of
      it, once, and flag k is set exactly when some reachable server holds part k. */
  lemma {:induction false} ListMeans(places: seq<Place>, visits: seq<Visit>, table: seq<FileInfo>, name: string, k: nat)
    requires PossibleVisits(places, visits) && k < 4 && IsTable(table)
    requires forall p | p in places :: DotFree(p)
    requires forall v | v in visits :: VisitListable(v)
    ensures var (final, exited) := ListAll(visits, table);
            !exited && IsTable(final) &&
            (FlagOf(final, name, k) <==> FlagOf(table, name, k) || k in A.Union(HeldSets(places, name))) &&
            (InTable(final, name) <==> InTable(table, name) || A.Union(HeldSets(places, name)) != {})
    decreases |places|
  {
    hide FlagOf, IndexOf, IsTable, EntryName, Label, NameOf, HeldAt, PossibleVisit, DotFree;
    if places == [] {
      assert A.Union(HeldSets(places, name)) == {};
    } else {
      var visit := visits[0];
      assert places[0] in places && PossibleVisit(places[0], visits[0]) && visit in visits;
      assert PossibleVisits(places[1..], visits[1..]);
      VisitTokens(places[0], visit, name, k);
      TailOfHeld(places, name);
      UnionOfTail(places, name);
      var table' := table;
      if visit.Up? {
        MergeAllMeans(table, Visible(visit.scans[0]), name, k);
        table' := MergeAll(table, Visible(visit.scans[0]));
      } else {
        DownHoldsNothing(places[0], visit, name);
      }
      ListMeans(places[1..], visits[1..], table', name, k);
    }
  }

  lemma UnionOfTail(places: seq<Place>, name: string)
    requires places != []
    ensures A.Union(HeldSets(places, name)) == HeldAt(places[0], name) + A.Union(HeldSets(places[1..], name))
  {
    TailOfHeld(places, name);
  }

  lemma DownHoldsNothing(place: Place, visit: Visit, name: string)
    requires PossibleVisit(place, visit) && !visit.Up?
    ensures HeldAt(place, name) == {}
  {
  }

  /** So list calls a file complete exactly when every part is on some reachable server. */
  lemma ListedCompleteIff(places: seq<Place>, visits: seq<Visit>, name: string)
    requires PossibleVisits(places, visits)
    requires forall p | p in places :: DotFree(p)
    requires forall v | v in visits :: VisitListable(v)
    ensures var (table, exited) := ListAll(visits, []);
            !exited && IsTable(table) &&
            (ListedComplete(table, name) <==> A.ALL <= A.Union(HeldSets(places, name))) &&
            (InTable(table, name) <==> A.Union(HeldSets(places, name)) != {})
  {
    hide HeldAt, PossibleVisit, DotFree, VisitListable;
    ListMeans(places, visits, [], name, 0);
    forall k: nat | k < 4
      ensures FlagOf(ListAll(visits, []).0, name, k) <==> k in A.Union(HeldSets(places, name))
    {
      ListMeans(places, visits, [], name, k);
    }
    if ListedComplete(ListAll(visits, []).0, name) {
      forall k | k in A.ALL
        ensures k in A.Union(HeldSets(places, name))
      {
        assert FlagOf(ListAll(visits, []).0, name, k);
      }
    }
  }

  /** A get that succeeds is of a file that list shows complete. The converse holds when no server
      holds more than two parts of the name, whatever the directory orders of either command. */
  lemma GetAgreesWithList(places: seq<Place>, listing: seq<Visit>, fetching: seq<Visit>, name: string)
    requires PossibleVisits(places, listing) && PossibleVisits(places, fetching)
    requires PlacesOk(places, name) && forall p | p in places :: DotFree(p)
    requires forall v | v in listing :: VisitListable(v)
    ensures var got, table := Gather(fetching, name, map[]).0, ListAll(listing, []).0;
            IsTable(table) && (IsComplete(got) ==> ListedComplete(table, name)) &&
            ((forall p | p in places :: |HeldAt(p, name)| <= 2) ==> (ListedComplete(table, name) ==> IsComplete(got)))
  {
    hide HeldAt, PossibleVisit, DotFree, VisitListable, Gather, ListAll, PlaceOk, FlagOf;
    var none: Got := map[];
    ListedCompleteIff(places, listing, name);
    var takes := GatherIsRun(places, fetching, name, none);
    assert none.Keys == {};
    A.GainedBounds(HeldSets(places, name), {}, takes);
    CompleteIff(Gather(fetching, name, none).0);
    if forall p | p in places :: |HeldAt(p, name)| <= 2 {
      SmallHoldings(places, fetching, name);
    }
  }

  /** Exactly when list and get agree, whatever the directory orders: when the file is not all
      there, or its holdings are robust. */
  lemma AgreesIff(places: seq<Place>, listing: seq<Visit>, name: string)
    requires PossibleVisits(places, listing)
    requires PlacesOk(places, name) && forall p | p in places :: DotFree(p)
    requires forall v | v in listing :: VisitListable(v)
    ensures var table, held := ListAll(listing, []).0, HeldSets(places, name);
            IsTable(table) &&
            ((forall fetching | PossibleVisits(places, fetching) ::
                IsComplete(Gather(fetching, name, map[]).0) <==> ListedComplete(table, name))
             <==> (A.ALL <= A.Union(held) ==> A.Robust(held)))
  {
    hide HeldAt, PossibleVisit, DotFree, VisitListable, Gather, ListAll, PlaceOk, FlagOf, IsComplete, A.Robust;
    ListedCompleteIff(places, listing, name);
    GetSucceedsIff(places, name);
    forall fetching | PossibleVisits(places, fetching)
      ensures IsComplete(Gather(fetching, name, map[]).0) ==> ListedComplete(ListAll(listing, []).0, name)
    {
      GetAgreesWithList(places, listing, fetching, name);
    }
    if A.ALL <= A.Union(HeldSets(places, name)) && !A.Robust(HeldSets(places, name)) {
      var fetching :| PossibleVisits(places, fetching) && !IsComplete(Gather(fetching, name, map[]).0);
      assert ListedComplete(ListAll(listing, []).0, name);
    }
  }

  // ----- where they disagree -----

  /** Two puts of one file, the second while servers 0 and 1 are down, leave all four parts on
      server 2, whatever the rotation. */
  lemma TwoPutsFillServerTwo(dir: Directory, name: string, file: string, m: nat)
    requires Held(dir, name) == {}
    ensures var first, second := FirstPart(m, EVERYBODY, 2), FirstPart(m, [false, false, true, true], 2);
            var once := StoreAll(dir, name, PiecesFor(file, first));
            Held(StoreAll(once, name, PiecesFor(file, second)), name) == A.ALL
  {
    hide StoreAll, PiecesFor, Held, EntryName, Label, Part;
    RankOfAll(2);
    var later := [false, false, true, true];
    assert Rank(later, 1) == 0 && Rank(later, 2) == 0;
    var first, second := (m + 2) % 4, m % 4;
    var once := StoreAll(dir, name, PiecesFor(file, first));
    StorePair(dir, name, file, first);
    StorePair(once, name, file, second);
    OppositePairs(m);
  }

  lemma OppositePairs(m: nat)
    ensures var a, b := (m + 2) % 4, m % 4; {a, Next(a), b, Next(b)} == A.ALL
  {
    var b := m % 4;
    assert (m + 2) % 4 == (b + 2) % 4;
    assert b == 0 || b == 1 || b == 2 || b == 3;
  }

  /** From then on, while only that server is up, list shows the file complete and every get
      reports it incomplete: a server sends at most two parts. */
  lemma ListedButNotFetched(place: Place, listing: seq<Visit>, fetching: seq<Visit>, name: string)
    requires place.Place? && PlaceOk(place, name) && DotFree(place) && HeldAt(place, name) == A.ALL
    requires var places := [Unreachable, Unreachable, place, Unreachable];
             PossibleVisits(places, listing) && PossibleVisits(places, fetching)
    requires forall v | v in listing :: VisitListable(v)
    ensures var (table, _) := ListAll(listing, []);
            IsTable(table) && ListedComplete(table, name) && !IsComplete(Gather(fetching, name, map[]).0)
  {
    hide DotFree, VisitListable, Gather, ListAll, PlaceOk, FlagOf, PossibleVisits;
    var places := [Unreachable, Unreachable, place, Unreachable];
    var none: Got := map[];
    var held := HeldSets(places, name);
    assert forall p | p in places :: p == Unreachable || p == place;
    assert PlaceOk(Unreachable, name) && DotFree(Unreachable) by { UnreachableIsFine(name); }
    assert held == [{}, {}, A.ALL, {}];
    ListedCompleteIff(places, listing, name);
    A.HolderIsEarlier(held, 2, 4);
    assert held[..4] == held;
    var takes := GatherIsRun(places, fetching, name, none);
    assert none.Keys == {};
    OnlyTwo(takes);
    CompleteIff(Gather(fetching, name, none).0);
  }

  lemma UnreachableIsFine(name: string)
    ensures PlaceOk(Unreachable, name) && DotFree(Unreachable)
  {
  }

  lemma OnlyTwo(takes: seq<set<nat>>)
    requires A.IsRun([{}, {}, A.ALL, {}], {}, takes)
    ensures !(A.ALL <= A.Gained({}, takes))
  {
    var held: seq<set<nat>> := [{}, {}, A.ALL, {}];
    A.GainedAtMost(held, {}, takes);
    assert held[1..] == [{}, A.ALL, {}] && held[1..][1..] == [A.ALL, {}] && held[1..][1..][1..] == [{}];
    assert |A.ALL| == 4 && A.Capacity([{}]) == 0;
    assert A.Capacity([A.ALL, {}]) == A.Min(2, |A.ALL|) + A.Capacity([A.ALL, {}][1..]);
    assert A.Capacity([A.ALL, {}]) == 2 && A.Capacity([{}, A.ALL, {}]) == 2 && A.Capacity(held) == 2;
    if A.ALL <= A.Gained({}, takes) {
      A.SubsetSize(A.ALL, A.Gained({}, takes));
    }
  }
}
