/** Which parts a get can end up with, in terms of which parts each server holds.

    `held[i]` is what the i-th server of the client's list holds of the requested name (nothing
    when it is unreachable). Every server answers with at most two parts that are still wanted;
    which two is up to the order its directory is read in. */
module Availability {

  function Min(a: nat, b: nat): nat { if a < b then a else b }

  const ALL: set<nat> := {0, 1, 2, 3}

  /** takes[i] is a possible answer of server i when the client starts out with `got`. */
  predicate IsRun(held: seq<set<nat>>, got: set<nat>, takes: seq<set<nat>>)
    decreases |held|
  {
    |takes| == |held| &&
    (held != [] ==>
       takes[0] <= held[0] - got && |takes[0]| == Min(2, |held[0] - got|) &&
       IsRun(held[1..], got + takes[0], takes[1..]))
  }

  function Gained(got: set<nat>, takes: seq<set<nat>>): set<nat>
    decreases |takes|
  {
    if takes == [] then got else Gained(got + takes[0], takes[1..])
  }

  function Union(held: seq<set<nat>>): set<nat> {
    if held == [] then {} else held[0] + Union(held[1..])
  }

  predicate Parts4(held: seq<set<nat>>) {
    forall h | h in held :: h <= ALL
  }

  lemma {:induction false} GainedBounds(held: seq<set<nat>>, got: set<nat>, takes: seq<set<nat>>)
    requires IsRun(held, got, takes)
    ensures got <= Gained(got, takes) <= got + Union(held)
    decreases |held|
  {
    if held != [] {
      GainedBounds(held[1..], got + takes[0], takes[1..]);
    }
  }

  lemma {:induction false} SomeRun(held: seq<set<nat>>, got: set<nat>) returns (takes: seq<set<nat>>)
    ensures IsRun(held, got, takes)
    decreases |held|
  {
    if held == [] {
      takes := [];
    } else {
      var two := Subset(held[0] - got, Min(2, |held[0] - got|));
      var later := SomeRun(held[1..], got + two);
      takes := [two] + later;
      assert takes[1..] == later;
    }
  }

  lemma Subset(s: set<nat>, n: nat) returns (t: set<nat>)
    requires n <= |s|
    ensures t <= s && |t| == n
  {
    if n == 0 {
      t := {};
    } else {
      var x :| x in s;
      var t' := Subset(s - {x}, n - 1);
      t := t' + {x};
    }
  }

  /** At most two parts come from each server. */
  function Capacity(held: seq<set<nat>>): nat {
    if held == [] then 0 else Min(2, |held[0]|) + Capacity(held[1..])
  }

  lemma {:induction false} GainedAtMost(held: seq<set<nat>>, got: set<nat>, takes: seq<set<nat>>)
    requires IsRun(held, got, takes)
    ensures |Gained(got, takes)| <= |got| + Capacity(held)
    decreases |held|
  {
    if held != [] {
      SubsetSize(held[0] - got, held[0]);
      assert |got + takes[0]| == |got| + |takes[0]|;
      GainedAtMost(held[1..], got + takes[0], takes[1..]);
    }
  }

  // ----- at most two parts per server -----

  /** When no server holds more than two parts of the name, every run gains all that is held:
      the order of the directories does not matter. */
  lemma {:induction false} SmallHoldingsGainAll(held: seq<set<nat>>, got: set<nat>, takes: seq<set<nat>>)
    requires IsRun(held, got, takes)
    requires forall h | h in held :: |h| <= 2
    ensures Gained(got, takes) == got + Union(held)
    decreases |held|
  {
    if held != [] {
      assert held[0] in held;
      SubsetSize(held[0] - got, held[0]);
      FullSubset(takes[0], held[0] - got);
      SmallHoldingsGainAll(held[1..], got + takes[0], takes[1..]);
    }
  }

  lemma SubsetSize(a: set<nat>, b: set<nat>)
    requires a <= b
    ensures |a| <= |b|
  {
    if a != {} {
      var x :| x in a;
      SubsetSize(a - {x}, b - {x});
    }
  }

  lemma FullSubset(a: set<nat>, b: set<nat>)
    requires a <= b && |a| == |b|
    ensures a == b
  {
    if a != b {
      assert !(b <= a);
      var x :| x in b && x !in a;
      SubsetSize(a, b - {x});
    }
  }

  // ----- any holdings: when a get succeeds under every directory order -----

  /** The parts that servers before i hold. */
  function Earlier(held: seq<set<nat>>, i: nat): set<nat>
    requires i <= |held|
  {
    Union(held[..i])
  }

  /** Part k cannot be missed: two servers hold it, or one does that has at most one other part
      which no earlier server holds. */
  predicate Safe(held: seq<set<nat>>, k: nat) {
    exists i :: 0 <= i < |held| && k in held[i] &&
                (k in Earlier(held, i) || |held[i] - Earlier(held, i) - {k}| <= 1)
  }

  predicate Robust(held: seq<set<nat>>) {
    forall k: nat | k < 4 :: Safe(held, k)
  }

  function GotBefore(got: set<nat>, takes: seq<set<nat>>, i: nat): set<nat>
    requires i <= |takes|
  {
    Gained(got, takes[..i])
  }

  lemma {:induction false} GainedSplit(got: set<nat>, a: seq<set<nat>>, b: seq<set<nat>>)
    ensures Gained(got, a + b) == Gained(Gained(got, a), b)
    decreases |a|
  {
    if a == [] {
      assert a + b == b;
    } else {
      assert (a + b)[1..] == a[1..] + b;
      GainedSplit(got + a[0], a[1..], b);
    }
  }

  lemma {:induction false} RunSplit(a: seq<set<nat>>, b: seq<set<nat>>, got: set<nat>,
                                    ta: seq<set<nat>>, tb: seq<set<nat>>)
    requires |ta| == |a|
    ensures IsRun(a + b, got, ta + tb) <==> IsRun(a, got, ta) && IsRun(b, Gained(got, ta), tb)
    decreases |a|
  {
    if a == [] {
      assert a + b == b && ta + tb == tb;
    } else {
      assert (a + b)[1..] == a[1..] + b && (ta + tb)[1..] == ta[1..] + tb;
      RunSplit(a[1..], b, got + ta[0], ta[1..], tb);
    }
  }

  /** One server's place in a run. */
  lemma RunAt(held: seq<set<nat>>, got: set<nat>, takes: seq<set<nat>>, i: nat)
    requires IsRun(held, got, takes) && i < |held|
    ensures var before := GotBefore(got, takes, i);
            IsRun(held[..i], got, takes[..i]) &&
            takes[i] <= held[i] - before && |takes[i]| == Min(2, |held[i] - before|) &&
            got <= before && before <= got + Earlier(held, i) &&
            before + takes[i] <= Gained(got, takes)
  {
    assert held[..i] + held[i..] == held && takes[..i] + takes[i..] == takes;
    RunSplit(held[..i], held[i..], got, takes[..i], takes[i..]);
    GainedSplit(got, takes[..i], takes[i..]);
    var before := GotBefore(got, takes, i);
    assert held[i..][0] == held[i] && takes[i..][0] == takes[i];
    GainedBounds(held[..i], got, takes[..i]);
    GainedBounds(held[i..][1..], before + takes[i], takes[i..][1..]);
  }

  /** What an earlier server takes is there before server i answers. */
  lemma TakenEarlier(held: seq<set<nat>>, got: set<nat>, takes: seq<set<nat>>, j: nat, i: nat)
    requires IsRun(held, got, takes) && j < i < |held|
    ensures GotBefore(got, takes, j) + takes[j] <= GotBefore(got, takes, i)
  {
    RunAt(held, got, takes, i);
    RunAt(held[..i], got, takes[..i], j);
    assert takes[..i][..j] == takes[..j];
  }

  /** A server that holds a wanted part and does not send it sends two others, both new. */
  lemma MissedMeansTwo(held: seq<set<nat>>, takes: seq<set<nat>>, i: nat, k: nat)
    requires IsRun(held, {}, takes) && Parts4(held) && i < |held| == |takes| && k in held[i]
    requires k !in GotBefore({}, takes, i) + takes[i]
    ensures |takes[i]| == 2 && takes[i] <= held[i] - {k} && held[i] <= ALL
    ensures takes[i] !! GotBefore({}, takes, i)
  {
    RunAt(held, {}, takes, i);
    var before := GotBefore({}, takes, i);
    SubsetSize(takes[i] + {k}, held[i] - before);
    assert held[i] in held;
  }

  lemma NotGainedNotTaken(held: seq<set<nat>>, takes: seq<set<nat>>, i: nat, k: nat)
    requires IsRun(held, {}, takes) && i < |held| == |takes| && k !in Gained({}, takes)
    ensures k !in GotBefore({}, takes, i) + takes[i]
  {
    RunAt(held, {}, takes, i);
  }

  /** Two servers cannot both keep back a part: they would have sent four of three other parts. */
  lemma NotTwice(held: seq<set<nat>>, takes: seq<set<nat>>, j: nat, i: nat, x: nat, k: nat)
    requires IsRun(held, {}, takes) && Parts4(held) && j < i < |held| == |takes| && k < 4
    requires x in held[j] && k in held[i]
    ensures k in Gained({}, takes) || x in GotBefore({}, takes, i)
  {
    hide *;
    if k !in Gained({}, takes) && x !in GotBefore({}, takes, i) {
      TakenEarlier(held, {}, takes, j, i);
      NotGainedNotTaken(held, takes, i, k);
      NotGainedNotTaken(held, takes, j, k);
      MissedMeansTwo(held, takes, j, x);
      MissedMeansTwo(held, takes, i, k);
      assert takes[j] <= ALL - {k} && takes[i] <= ALL - {k};
      ThreeOthers(takes[j], takes[i], k);
    }
  }

  lemma ThreeOthers(a: set<nat>, b: set<nat>, k: nat)
    requires k < 4 && a <= ALL - {k} && b <= ALL - {k} && a !! b
    ensures |a| + |b| <= 3
  {
    SubsetSize(a + b, ALL - {k});
    assert |ALL - {k}| == 3;
  }

  lemma {:induction false} EarlierHolder(held: seq<set<nat>>, i: nat, x: nat) returns (j: nat)
    requires i <= |held| && x in Earlier(held, i)
    ensures j < i && x in held[j]
  {
    if x in held[0] {
      j := 0;
    } else {
      assert held[..i][1..] == held[1..][..i - 1];
      var j' := EarlierHolder(held[1..], i - 1, x);
      j := j' + 1;
    }
  }

  lemma {:induction false} HolderIsEarlier(held: seq<set<nat>>, j: nat, i: nat)
    requires j < i <= |held|
    ensures held[j] <= Earlier(held, i)
  {
    assert held[..i][1..] == held[1..][..i - 1];
    if j > 0 {
      HolderIsEarlier(held[1..], j - 1, i - 1);
    }
  }

  lemma SafeIsGained(held: seq<set<nat>>, takes: seq<set<nat>>, k: nat)
    requires IsRun(held, {}, takes) && Parts4(held) && k < 4 && Safe(held, k)
    ensures k in Gained({}, takes)
  {
    var i :| 0 <= i < |held| && k in held[i] &&
             (k in Earlier(held, i) || |held[i] - Earlier(held, i) - {k}| <= 1);
    if k !in Gained({}, takes) {
      RunAt(held, {}, takes, i);
      if k in Earlier(held, i) {
        var j := EarlierHolder(held, i, k);
        NotTwice(held, takes, j, i, k, k);
      } else {
        MissedMeansTwo(held, takes, i, k);
        if takes[i] <= held[i] - Earlier(held, i) - {k} {
          SubsetSize(takes[i], held[i] - Earlier(held, i) - {k});
        } else {
          var x :| x in takes[i] && x in Earlier(held, i);
          var j := EarlierHolder(held, i, x);
          NotTwice(held, takes, j, i, x, k);
        }
      }
    }
  }

  lemma {:induction false} InUnion(held: seq<set<nat>>, k: nat)
    ensures k in Union(held) <==> exists i :: 0 <= i < |held| && k in held[i]
  {
    if held != [] {
      InUnion(held[1..], k);
      if k in held[0] {
      } else if k in Union(held) {
        var i :| 0 <= i < |held[1..]| && k in held[1..][i];
        assert k in held[i + 1];
      }
      if i :| 0 <= i < |held| && k in held[i] {
        assert i > 0 ==> held[1..][i - 1] == held[i];
      }
    }
  }

  /** A part that is not safe is missed by some run: its only holder sends two others. */
  lemma UnsafeIsMissed(held: seq<set<nat>>, k: nat) returns (takes: seq<set<nat>>)
    requires k < 4 && !Safe(held, k)
    ensures IsRun(held, {}, takes) && k !in Gained({}, takes)
  {
    InUnion(held, k);
    if k !in Union(held) {
      takes := SomeRun(held, {});
      GainedBounds(held, {}, takes);
    } else {
      var i :| 0 <= i < |held| && k in held[i];
      var first := SomeRun(held[..i], {});
      GainedBounds(held[..i], {}, first);
      var two := Subset(held[i] - Earlier(held, i) - {k}, 2);
      SubsetSize(two, held[i] - Gained({}, first));
      var last := SomeRun(held[i + 1..], Gained({}, first) + two);
      GainedBounds(held[i + 1..], Gained({}, first) + two, last);
      NoLaterHolder(held, i, k);
      takes := RunThrough(held, first, i, two, last);
    }
  }

  lemma NoLaterHolder(held: seq<set<nat>>, i: nat, k: nat)
    requires i < |held| && k in held[i] && !Safe(held, k)
    ensures k !in Union(held[i + 1..])
  {
    InUnion(held[i + 1..], k);
    var later := held[i + 1..];
    if j :| 0 <= j < |later| && k in later[j] {
      HolderIsEarlier(held, i, i + 1 + j);
    }
  }

  lemma RunThrough(held: seq<set<nat>>, first: seq<set<nat>>, i: nat, take: set<nat>, last: seq<set<nat>>)
    returns (takes: seq<set<nat>>)
    requires i < |held| && IsRun(held[..i], {}, first)
    requires take <= held[i] - Gained({}, first) && |take| == Min(2, |held[i] - Gained({}, first)|)
    requires IsRun(held[i + 1..], Gained({}, first) + take, last)
    ensures IsRun(held, {}, takes) && Gained({}, takes) == Gained(Gained({}, first) + take, last)
  {
    var rest := [take] + last;
    takes := first + rest;
    assert held == held[..i] + held[i..];
    assert held[i..][1..] == held[i + 1..] && rest[1..] == last;
    RunSplit(held[..i], held[i..], {}, first, rest);
    GainedSplit({}, first, rest);
  }

  /** A get succeeds under every order in which the servers read their directories if and only
      if every part is safe. */
  lemma RobustIff(held: seq<set<nat>>)
    requires Parts4(held)
    ensures Robust(held) <==> forall takes | IsRun(held, {}, takes) :: ALL <= Gained({}, takes)
  {
    if Robust(held) {
      forall takes | IsRun(held, {}, takes)
        ensures ALL <= Gained({}, takes)
      {
        forall k: nat | k < 4 {
          SafeIsGained(held, takes, k);
        }
      }
    } else {
      var k: nat :| k < 4 && !Safe(held, k);
      var takes := UnsafeIsMissed(held, k);
      assert k in ALL;
    }
  }
}
