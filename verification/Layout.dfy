/** How `put` cuts a file into four parts and deals them to the servers it can reach. */
module Layout {

  const PARTS: nat := 4
  const SERVERS: nat := 4

  // ----- cutting and joining -----

  function Part(file: string, k: nat): string
    requires k < PARTS
  {
    var quarter := |file| / 4;
    if k == 0 then file[..quarter]
    else if k == 1 then file[quarter..2 * quarter]
    else if k == 2 then file[2 * quarter..3 * quarter]
    else file[3 * quarter..]
  }

  function Parts(file: string): (parts: seq<string>)
    ensures |parts| == PARTS
  {
    [Part(file, 0), Part(file, 1), Part(file, 2), Part(file, 3)]
  }

  function Join(parts: seq<string>): string
    requires |parts| == PARTS
  {
    parts[0] + parts[1] + parts[2] + parts[3]
  }

  /** The four consecutive reads fill the four buffers with the four parts. */
  method SplitFile(file: string) returns (bufs: array<string>, sizes: array<int>)
    ensures fresh(bufs) && fresh(sizes) && bufs.Length == PARTS && sizes.Length == PARTS
    ensures forall k | 0 <= k < PARTS :: bufs[k] == Part(file, k) && sizes[k] == |Part(file, k)|
  {
    var quarter := |file| / 4;
    sizes := new int[PARTS];
    sizes[0] := quarter;
    sizes[1] := sizes[0];
    sizes[2] := sizes[0];
    sizes[3] := |file| - sizes[0] * 3;
    bufs := new string[PARTS](_ => "");
    // Each read starts where the one before stopped.
    var position := 0;
    bufs[0], position := file[position..position + sizes[0]], position + sizes[0];
    bufs[1], position := file[position..position + sizes[1]], position + sizes[1];
    bufs[2], position := file[position..position + sizes[2]], position + sizes[2];
    bufs[3], position := file[position..position + sizes[3]], position + sizes[3];
    assert bufs[0] == file[..quarter] == Part(file, 0);
    assert bufs[1] == Part(file, 1) && bufs[2] == Part(file, 2) && bufs[3] == Part(file, 3);
  }

  /** What `get` writes: part_size[i] bytes of each buffer, in order. */
  method JoinFile(bufs: array<string>, sizes: array<int>) returns (file: string)
    requires bufs.Length == PARTS && sizes.Length == PARTS
    requires forall k | 0 <= k < PARTS :: sizes[k] == |bufs[k]|
    ensures file == Join(bufs[..])
  {
    file := "";
    for i := 0 to PARTS
      invariant file == Prefixes(bufs[..], i)
    {
      assert bufs[i][..sizes[i]] == bufs[i];
      file := file + bufs[i][..sizes[i]];
    }
    PrefixesJoin(bufs[..]);
  }

  lemma PrefixesJoin(bufs: seq<string>)
    requires |bufs| == PARTS
    ensures Prefixes(bufs, PARTS) == Join(bufs)
  {
    assert Prefixes(bufs, 1) == "" + bufs[0] == bufs[0];
    assert Prefixes(bufs, 2) == bufs[0] + bufs[1];
    assert Prefixes(bufs, 3) == bufs[0] + bufs[1] + bufs[2];
  }

  function Prefixes(bufs: seq<string>, i: nat): string
    requires i <= |bufs|
  {
    if i == 0 then "" else Prefixes(bufs, i - 1) + bufs[i - 1]
  }

  /** The parts concatenate back to the file, whatever its length; three are equally long
      and the last is at most three bytes longer. */
  lemma SplitJoin(file: string)
    ensures Join(Parts(file)) == file
    ensures |Part(file, 0)| == |Part(file, 1)| == |Part(file, 2)|
    ensures |Part(file, 0)| <= |Part(file, 3)| <= |Part(file, 0)| + 3
  {
    var q := |file| / 4;
    assert file[..q] + file[q..2 * q] == file[..2 * q];
    assert file[..2 * q] + file[2 * q..3 * q] == file[..3 * q];
    assert file[..3 * q] + file[3 * q..] == file;
  }

  /** Only the four true parts join to the file, among parts that are not too long. */
  lemma JoinExact(file: string, parts: seq<string>)
    requires |parts| == PARTS
    requires forall k | 0 <= k < PARTS :: |parts[k]| <= |Part(file, k)|
    ensures Join(parts) == file <==> parts == Parts(file)
  {
    SplitJoin(file);
    if Join(parts) == file {
      var q := |file| / 4;
      assert |parts[0]| == |parts[1]| == |parts[2]| == q && |parts[3]| == |file| - 3 * q;
      assert parts[0] == Join(parts)[..q];
      assert parts[1] == Join(parts)[q..2 * q];
      assert parts[2] == Join(parts)[2 * q..3 * q];
      assert parts[3] == Join(parts)[3 * q..];
    }
  }

  // ----- dealing -----

  /** How many of the first i servers answered: the value of the rotation counter is
      m plus this, because unreachable servers do not advance it. */
  function Rank(up: seq<bool>, i: nat): (r: nat)
    requires i <= |up|
    ensures r <= i
  {
    if i == 0 then 0 else Rank(up, i - 1) + if up[i - 1] then 1 else 0
  }

  function FirstPart(m: nat, up: seq<bool>, i: nat): (p: nat)
    requires i <= |up|
    ensures p < 4
  {
    (m + Rank(up, i)) % 4
  }

  lemma {:induction false} RankCounts(up: seq<bool>, i: nat)
    requires i <= |up|
    ensures Rank(up, i) == |set j: nat | j < i && up[j]|
  {
    if i > 0 {
      RankCounts(up, i - 1);
      var before, now := set j: nat | j < i - 1 && up[j], set j: nat | j < i && up[j];
      assert now == before + if up[i - 1] then {i - 1} else {};
    }
  }

  /** What is dealt to a reached server: with r servers reached before it, parts m + r and m + r + 1,
      cyclically. */
  lemma DealtPair(m: nat, up: seq<bool>, i: nat, k: nat)
    requires i < |up|
    ensures var r := |set j: nat | j < i && up[j]|;
            Gets(m, up, i, k) <==> up[i] && (k == (m + r) % 4 || k == (m + r + 1) % 4)
  {
    RankCounts(up, i);
    NextResidue(m + Rank(up, i));
  }

  lemma FirstPartStep(m: nat, up: seq<bool>, i: nat)
    requires i < |up|
    ensures FirstPart(m, up, i + 1) == if up[i] then Next(FirstPart(m, up, i)) else FirstPart(m, up, i)
  {
    NextResidue(m + Rank(up, i));
  }

  /** The part behind part k, cyclically. */
  function Next(k: nat): (next: nat)
    requires k < 4
    ensures next < 4
  {
    if k == 3 then 0 else k + 1
  }

  // Which of the four parts.
  type PartIndex = k: nat | k < 4

  predicate Gets(m: nat, up: seq<bool>, i: nat, k: nat)
    requires i < |up|
  {
    up[i] && (k == FirstPart(m, up, i) || k == Next(FirstPart(m, up, i)))
  }

  predicate Placed(m: nat, up: seq<bool>, k: nat) {
    exists i :: 0 <= i < |up| && Gets(m, up, i, k)
  }

  function PlacedParts(m: nat, up: seq<bool>): set<nat> {
    set k: nat | k < 4 && Placed(m, up, k)
  }

  lemma RankGrows(up: seq<bool>, i: nat, j: nat)
    requires i <= j <= |up|
    ensures Rank(up, i) <= Rank(up, j)
  {
  }

  lemma {:induction false} RankOnto(up: seq<bool>, n: nat, r: nat) returns (i: nat)
    requires n <= |up| && r < Rank(up, n)
    ensures i < n && up[i] && Rank(up, i) == r
  {
    if up[n - 1] && Rank(up, n - 1) == r {
      i := n - 1;
    } else {
      i := RankOnto(up, n - 1, r);
    }
  }

  /** How far part k is, cyclically, from the rotation m. */
  function Distance(m: nat, k: nat): (d: nat)
    requires k < 4
    ensures d < 4
  {
    var a := m % 4;
    if a <= k then k - a else k + 4 - a
  }

  lemma SumOfResidues(m: nat, r: nat)
    ensures (m + r) % 4 == var sum := m % 4 + r % 4; if sum < 4 then sum else sum - 4
  {
    assert m == 4 * (m / 4) + m % 4 && r == 4 * (r / 4) + r % 4;
  }

  lemma StepsToPart(m: nat, r: nat, k: nat)
    requires k < 4
    ensures k == (m + r) % 4 <==> r % 4 == Distance(m, k)
  {
    SumOfResidues(m, r);
  }

  lemma GetsByRank(m: nat, up: seq<bool>, i: nat, k: nat)
    requires i < |up| && k < 4
    ensures Gets(m, up, i, k) <==>
              up[i] && (Rank(up, i) % 4 == Distance(m, k) || (Rank(up, i) + 1) % 4 == Distance(m, k))
  {
    var r := Rank(up, i);
    StepsToPart(m, r, k);
    StepsToPart(m, r + 1, k);
    NextResidue(m + r);
  }

  lemma NextResidue(x: nat)
    ensures Next(x % 4) == (x + 1) % 4
  {
  }

  /** A part is stored somewhere exactly when its cyclic distance from the rotation is at most
      the number of servers that answered. */
  lemma PlacedIff(m: nat, up: seq<bool>, k: nat)
    requires k < 4
    ensures Placed(m, up, k) <==> 1 <= Rank(up, |up|) && Distance(m, k) <= Rank(up, |up|)
  {
    var s, d := Rank(up, |up|), Distance(m, k);
    if i :| 0 <= i < |up| && Gets(m, up, i, k) {
      GetsByRank(m, up, i, k);
      RankGrows(up, i + 1, |up|);
      assert d <= Rank(up, i) + 1;
    }
    if 1 <= s && d <= s {
      var i := RankOnto(up, |up|, if d < s then d else d - 1);
      GetsByRank(m, up, i, k);
    }
  }

  /** s >= 1 reachable servers store exactly min(4, s + 1) different parts, so any three
      reachable servers hold the whole file. */
  lemma PlacedCount(m: nat, up: seq<bool>)
    ensures var s := Rank(up, |up|);
            |PlacedParts(m, up)| == if s == 0 then 0 else if s < 3 then s + 1 else 4
  {
    var s := Rank(up, |up|);
    assert PlacedParts(m, up) == set k: nat | k < 4 && 1 <= s && Distance(m, k) <= s by {
      forall k: nat | k < 4 {
        PlacedIff(m, up, k);
      }
    }
    PartsWithin(m, s);
  }

  lemma PartsWithin(m: nat, s: nat)
    ensures |set k: nat | k < 4 && 1 <= s && Distance(m, k) <= s| ==
            if s == 0 then 0 else if s < 3 then s + 1 else 4
  {
    var within := set k: nat | k < 4 && 1 <= s && Distance(m, k) <= s;
    var m4 := m % 4;
    var b, c := if m4 == 3 then 0 else m4 + 1, if m4 < 2 then m4 + 2 else m4 - 2;
    if s == 0 {
      assert within == {};
    } else if s == 1 {
      assert within == {m4, b};
    } else if s == 2 {
      assert within == {m4, b, c};
    } else {
      assert within == {0, 1, 2, 3};
    }
  }

  /** A put that reaches every server gives part k to server k - m and its predecessor, cyclically. */
  lemma FullPutHolders(m: nat, i: nat, k: nat)
    requires i < 4 && k < 4
    ensures var up := [true, true, true, true];
            Gets(m, up, i, k) <==> i == Distance(m, k) || i == (Distance(m, k) + 3) % 4
  {
    var up := [true, true, true, true];
    RankOfAll(i);
    GetsByRank(m, up, i, k);
    assert i % 4 == i && (i + 1) % 4 == if i == 3 then 0 else i + 1;
    hide Gets, Rank, Distance;
  }

  lemma RankOfAll(i: nat)
    requires i <= 4
    ensures Rank([true, true, true, true], i) == i
  {
    if i > 0 {
      RankOfAll(i - 1);
    }
  }
}
