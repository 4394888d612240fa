/** Sessions that begin at once: each of them looks for its user's home directory and then makes it,
    and nothing keeps another session's mkdir from coming in between. A mkdir that fails ends the
    server process. */
module HomeRace {
  import opened DfsServer

  datatype Phase = Arriving | Missing | Ready

  datatype Session = Session(user: string, phase: Phase)

  datatype State = State(tree: Tree, sessions: seq<Session>, running: bool)

  datatype Action =
      // the loop over the server's directory
    | Look(session: nat, scan: seq<string>)
    | Make(session: nat)

  function SetPhase(s: State, i: nat, phase: Phase): State
    requires i < |s.sessions|
  {
    s.(sessions := s.sessions[i := s.sessions[i].(phase := phase)])
  }

  /** An action that is not possible changes nothing, and so does every one when the process has ended. */
  ghost function Step(s: State, a: Action): State {
    var i := a.session;
    if !s.running || i >= |s.sessions| then s
    else if a.Look? then
      if s.sessions[i].phase.Arriving? && IsHomeScan(a.scan, s.tree) then
        SetPhase(s, i, if HasPrefixIn(s.sessions[i].user, a.scan) then Ready else Missing)
      else s
    else if !s.sessions[i].phase.Missing? then s
    else if Home(s.sessions[i].user) in s.tree then s.(running := false)
    else SetPhase(s.(tree := MakeDir(s.tree, Home(s.sessions[i].user))), i, Ready)
  }

  ghost function Exec(s: State, actions: seq<Action>): State
    decreases |actions|
  {
    if actions == [] then s else Exec(Step(s, actions[0]), actions[1..])
  }

  function Opening(tree: Tree, users: seq<string>): State {
    State(tree, seq(|users|, i requires 0 <= i < |users| => Session(users[i], Arriving)), true)
  }

  predicate UserNames(users: seq<string>) {
    forall u | u in users :: u != "" && u[0] != '.'
  }

  /** What the loop looks for: a directory whose name begins with the user's. */
  ghost predicate Seen(tree: Tree, user: string) {
    exists other: string :: Home(other) in tree && user <= other
  }

  lemma LookFinds(tree: Tree, user: string, scan: seq<string>)
    requires IsHomeScan(scan, tree) && user != "" && user[0] != '.'
    ensures HasPrefixIn(user, scan) <==> Seen(tree, user)
  {
    if HasPrefixIn(user, scan) {
      var i :| 0 <= i < |scan| && user <= scan[i];
      assert scan[i] in scan && scan[i][0] == user[0];
      assert Home(scan[i]) in tree;
    }
    if other: string :| Home(other) in tree && user <= other {
      assert other in scan;
      var i :| 0 <= i < |scan| && scan[i] == other;
    }
  }

  /** A session that is alone does what EnsureHome says, and the server goes on. */
  lemma AloneIsEnsureHome(s: State, i: nat, scan: seq<string>)
    requires s.running && i < |s.sessions| && s.sessions[i].phase.Arriving? && IsHomeScan(scan, s.tree)
    requires UserNames([s.sessions[i].user])
    ensures var user := s.sessions[i].user;
            Exec(s, [Look(i, scan), Make(i)])
            == SetPhase(s.(tree := EnsureHome(s.tree, user, scan)), i, Ready)
  {
    var user := s.sessions[i].user;
    assert user in [user];
    LookFinds(s.tree, user, scan);
    ExecTwo(s, Look(i, scan), Make(i));
    if HasPrefixIn(user, scan) {
      assert s.tree == EnsureHome(s.tree, user, scan);
    } else {
      assert user <= user;
    }
  }

  lemma ExecTwo(s: State, a: Action, b: Action)
    ensures Exec(s, [a, b]) == Step(Step(s, a), b)
  {
    hide Step;
    assert [a, b][1..] == [b] && [b][1..] == [];
    assert Exec(Step(s, a), [b]) == Exec(Step(Step(s, a), b), []);
  }

  // ----- what every step keeps -----

  /** Nothing is removed, directories are made by sessions that are ready, and who found nothing
      would have found nothing at the start. */
  ghost predicate Kept(tree: Tree, users: seq<string>, s: State) {
    |s.sessions| == |users| && (forall i | 0 <= i < |users| :: s.sessions[i].user == users[i]) &&
    (forall key | key in tree :: key in s.tree) &&
    (forall user | Home(user) in s.tree && Home(user) !in tree :: ReadyFor(s, user)) &&
    (forall i | 0 <= i < |users| && s.sessions[i].phase.Missing? :: !Seen(tree, users[i])) &&
    forall i | 0 <= i < |users| && s.sessions[i].phase.Ready? :: Seen(s.tree, users[i])
  }

  predicate ReadyFor(s: State, user: string) {
    exists i | 0 <= i < |s.sessions| :: s.sessions[i].user == user && s.sessions[i].phase.Ready?
  }

  /** Two sessions of a user whose directory is not there. */
  ghost predicate Crowded(tree: Tree, users: seq<string>) {
    exists i, j | 0 <= i < j < |users| :: users[i] == users[j] && !Seen(tree, users[i])
  }

  lemma LookKeeps(tree: Tree, users: seq<string>, s: State, a: Action)
    requires UserNames(users) && Kept(tree, users, s) && a.Look?
    ensures Kept(tree, users, Step(s, a)) && (Step(s, a).running <==> s.running)
  {
    var i, s' := a.session, Step(s, a);
    if s' != s {
      assert users[i] in users;
      LookFinds(s.tree, users[i], a.scan);
      assert Seen(tree, users[i]) ==> Seen(s.tree, users[i]);
      hide IsHomeScan, HasPrefixIn, Seen;
      ReadyStays(s, s', i);
    }
  }

  lemma ReadyStays(s: State, s': State, i: nat)
    requires i < |s.sessions| == |s'.sessions| && s'.sessions == s.sessions[i := s'.sessions[i]]
    requires !s.sessions[i].phase.Ready?
    ensures forall user | ReadyFor(s, user) :: ReadyFor(s', user)
  {
    forall user | ReadyFor(s, user)
      ensures ReadyFor(s', user)
    {
      var j :| 0 <= j < |s.sessions| && s.sessions[j].user == user && s.sessions[j].phase.Ready?;
      assert s'.sessions[j] == s.sessions[j];
    }
  }

  lemma MakeKeeps(tree: Tree, users: seq<string>, s: State, a: Action)
    requires Kept(tree, users, s) && a.Make?
    ensures Kept(tree, users, Step(s, a)) && (s.running && !Crowded(tree, users) ==> Step(s, a).running)
  {
    var i, s' := a.session, Step(s, a);
    if s' != s {
      var user := users[i];
      SeenItself(s.tree, user);
      SeenItself(tree, user);
      if Home(user) in s.tree {
        assert ReadyFor(s, user);
        var j :| 0 <= j < |s.sessions| && s.sessions[j].user == user && s.sessions[j].phase.Ready?;
        assert users[j] == user && i != j;
        assert Crowded(tree, users) by { CrowdedBy(tree, users, i, j); }
      } else {
        Makes(tree, users, s, i);
      }
    }
  }

  lemma SeenItself(tree: Tree, user: string)
    ensures Home(user) in tree ==> Seen(tree, user)
  {
    assert user <= user;
  }

  lemma CrowdedBy(tree: Tree, users: seq<string>, i: nat, j: nat)
    requires i < |users| && j < |users| && i != j && users[i] == users[j] && !Seen(tree, users[i])
    ensures Crowded(tree, users)
  {
    hide Seen;
    if j < i {
      assert users[j] == users[i];
    }
  }

  lemma Makes(tree: Tree, users: seq<string>, s: State, i: nat)
    requires Kept(tree, users, s) && i < |users| && Home(users[i]) !in s.tree
    requires s.sessions[i].phase.Missing?
    ensures Kept(tree, users, SetPhase(s.(tree := MakeDir(s.tree, Home(users[i]))), i, Ready))
  {
    var s' := SetPhase(s.(tree := MakeDir(s.tree, Home(users[i]))), i, Ready);
    assert s'.tree == s.tree[Home(users[i]) := map[]];
    SeenItself(s'.tree, users[i]);
    forall u
      ensures Seen(s.tree, u) ==> Seen(s'.tree, u)
    {
    }
    hide Seen, MakeDir;
    ReadyStays(s, s', i);
    assert s'.sessions[i].user == users[i] && s'.sessions[i].phase.Ready?;
    assert ReadyFor(s', users[i]);
  }

  lemma StepKeeps(tree: Tree, users: seq<string>, s: State, a: Action)
    requires UserNames(users) && Kept(tree, users, s)
    ensures Kept(tree, users, Step(s, a)) && (s.running && !Crowded(tree, users) ==> Step(s, a).running)
  {
    hide Step, Kept, Crowded;
    if a.Look? {
      LookKeeps(tree, users, s, a);
    } else {
      MakeKeeps(tree, users, s, a);
    }
  }

  lemma {:induction false} RunKeeps(tree: Tree, users: seq<string>, s: State, actions: seq<Action>)
    requires UserNames(users) && Kept(tree, users, s)
    ensures Kept(tree, users, Exec(s, actions))
    ensures s.running && !Crowded(tree, users) ==> Exec(s, actions).running
    decreases |actions|
  {
    hide Step, Kept, Crowded;
    if actions != [] {
      StepKeeps(tree, users, s, actions[0]);
      RunKeeps(tree, users, Step(s, actions[0]), actions[1..]);
    }
  }

  /** The server survives every interleaving if and only if no user without a directory has two of
      the sessions. */
  lemma RaceIff(tree: Tree, users: seq<string>)
    requires UserNames(users)
    ensures (forall actions :: Exec(Opening(tree, users), actions).running) <==> !Crowded(tree, users)
  {
    hide Exec, Step, Crowded;
    if !Crowded(tree, users) {
      forall actions
        ensures Exec(Opening(tree, users), actions).running
      {
        RunKeeps(tree, users, Opening(tree, users), actions);
      }
    } else {
      var actions := BothMake(tree, users);
      assert !Exec(Opening(tree, users), actions).running;
    }
  }

  /** Both look before either makes; then the second mkdir fails. */
  lemma BothMake(tree: Tree, users: seq<string>) returns (actions: seq<Action>)
    requires UserNames(users) && Crowded(tree, users)
    ensures !Exec(Opening(tree, users), actions).running
  {
    var i, j :| 0 <= i < j < |users| && users[i] == users[j] && !Seen(tree, users[i]);
    assert users[i] in users;
    var scan := Enumerate((set key | key in tree && key.Home? :: key.user) + {".", ".."});
    assert IsHomeScan(scan, tree);
    LookFinds(tree, users[i], scan);
    var s := Opening(tree, users);
    actions := [Look(i, scan), Look(j, scan)] + [Make(i), Make(j)];
    var s2 := Step(Step(s, Look(i, scan)), Look(j, scan));
    ExecTwo(s, Look(i, scan), Look(j, scan));
    ExecTwo(s2, Make(i), Make(j));
    ExecThen(s, [Look(i, scan), Look(j, scan)], [Make(i), Make(j)]);
    assert users[i] <= users[i];
  }

  lemma {:induction false} ExecThen(s: State, first: seq<Action>, later: seq<Action>)
    ensures Exec(s, first + later) == Exec(Exec(s, first), later)
    decreases |first|
  {
    hide Step;
    if first == [] {
      assert first + later == later;
    } else {
      assert (first + later)[1..] == first[1..] + later;
      ExecThen(Step(s, first[0]), first[1..], later);
    }
  }

  /** And when no user's name begins another's, among the sessions and the directories, every
      session that goes on to its command has its home, in every interleaving. */
  lemma RaceLeavesHomes(tree: Tree, users: seq<string>, actions: seq<Action>, i: nat)
    requires UserNames(users) && i < |users|
    requires forall other | other in users || Home(other) in tree :: users[i] <= other ==> users[i] == other
    ensures var s := Exec(Opening(tree, users), actions);
            |s.sessions| == |users| && (s.sessions[i].phase.Ready? ==> Home(users[i]) in s.tree)
  {
    RunKeeps(tree, users, Opening(tree, users), actions);
    hide Exec;
    var s := Exec(Opening(tree, users), actions);
    if s.sessions[i].phase.Ready? {
      var other: string :| Home(other) in s.tree && users[i] <= other;
      if Home(other) !in tree {
        var j :| 0 <= j < |s.sessions| && s.sessions[j].user == other && s.sessions[j].phase.Ready?;
        assert users[j] == other && users[j] in users;
      }
    }
  }
}
