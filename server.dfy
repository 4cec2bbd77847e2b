/** Many sessions sharing one name set. The server accepts connections and
    each session task handles its own events; because every update of the
    name set is a single atomic insert, an interleaving of the sessions is a
    sequence of actions, each one an accept or one step of one session.
    The history records, in order, every name a rename has claimed and the
    session that claimed it. */
module Server {
  import opened Protocol

  datatype World = World(names: set<string>, sessions: seq<State>, bus: seq<string>)

  datatype Action = Accept(peer: Addr) | Handle(session: nat, event: Event)

  datatype Grant = Grant(owner: nat, name: string)

  datatype History = History(world: World, grants: seq<Grant>)

  /** The server at start-up: an empty name set, no sessions, nothing sent. */
  function Start(): (h: History)
    ensures h.world.names == {} && h.world.sessions == [] && h.grants == []
  {
    History(World({}, [], []), [])
  }

  /** One action. An event for a session that does not exist or has ended is
      not handled by anyone. */
  function Apply(help: string, h: History, a: Action): (r: History)
    // names are never removed, and sessions, grants and sends only accumulate
    ensures h.world.names <= r.world.names && h.grants <= r.grants && h.world.bus <= r.world.bus
    ensures |h.world.sessions| <= |r.world.sessions| <= |h.world.sessions| + 1
    ensures forall i :: 0 <= i < |h.world.sessions| ==> r.world.sessions[i].peer == h.world.sessions[i].peer
    // at most one grant per action, of a name that was free and is now claimed
    ensures |r.grants| <= |h.grants| + 1
    ensures |r.grants| > |h.grants| ==> r.grants[|h.grants|].name !in h.world.names && r.grants[|h.grants|].name in r.world.names
    // the name set changes only with a grant
    ensures r.world.names != h.world.names ==> |r.grants| > |h.grants|
  {
    var w := h.world;
    match a
    case Accept(peer) =>
      var t := Connect(peer, help, w.names);
      History(World(t.names, w.sessions + [t.state], w.bus), h.grants)
    case Handle(i, e) =>
      if i >= |w.sessions| || !w.sessions[i].running then h
      else
        var t := Step(help, w.sessions[i], w.names, e);
        var granted := if t.names != w.names then [Grant(i, t.state.name)] else [];
        History(World(t.names, w.sessions[i := t.state], w.bus + t.broadcasts), h.grants + granted)
  }

  function Replay(help: string, h: History, actions: seq<Action>): (r: History)
    ensures h.world.names <= r.world.names && h.grants <= r.grants && h.world.bus <= r.world.bus
    ensures |h.world.sessions| <= |r.world.sessions| <= |h.world.sessions| + |actions|
    ensures |r.grants| <= |h.grants| + |actions|
    decreases |actions|
  {
    if actions == [] then h else Replay(help, Apply(help, h, actions[0]), actions[1..])
  }

  predicate IsDefault(s: State) {
    s.name == DefaultName(s.peer)
  }

  /** What the interleaving keeps: names are never removed; each grant is of
      a name that was free (so no name is granted twice) and that stays
      claimed; every session has either its default name or a name granted
      to it, and a session that has renamed itself holds a name granted to
      it. */
  ghost predicate Inv(h: History, initial: set<string>) {
    var w := h.world;
    initial <= w.names &&
    (forall k :: 0 <= k < |h.grants| ==>
      h.grants[k].owner < |w.sessions| && h.grants[k].name in w.names && h.grants[k].name !in initial) &&
    (forall k, l :: 0 <= k < l < |h.grants| ==> h.grants[k].name != h.grants[l].name) &&
    (forall i :: 0 <= i < |w.sessions| ==> IsDefault(w.sessions[i]) || Grant(i, w.sessions[i].name) in h.grants) &&
    (forall k :: 0 <= k < |h.grants| ==> Grant(h.grants[k].owner, w.sessions[h.grants[k].owner].name) in h.grants)
  }

  /** Session `i` has renamed itself successfully at least once. */
  ghost predicate Renamed(h: History, i: nat) {
    exists k :: 0 <= k < |h.grants| && h.grants[k].owner == i
  }

  lemma StartInv()
    ensures Inv(Start(), {})
  {
  }

  lemma ApplyKeepsInv(help: string, h: History, initial: set<string>, a: Action)
    requires Inv(h, initial)
    ensures Inv(Apply(help, h, a), initial)
    ensures h.world.names <= Apply(help, h, a).world.names
    ensures h.grants <= Apply(help, h, a).grants
  {
    match a
    case Accept(peer) => AcceptKeepsInv(help, h, initial, peer);
    case Handle(i, e) =>
      if i < |h.world.sessions| && h.world.sessions[i].running {
        HandleKeepsInv(help, h, initial, i, e);
      }
  }

  lemma AcceptKeepsInv(help: string, h: History, initial: set<string>, peer: Addr)
    requires Inv(h, initial)
    ensures Inv(Apply(help, h, Accept(peer)), initial)
  {
    var w, w' := h.world, Apply(help, h, Accept(peer)).world;
    assert forall i :: 0 <= i < |w.sessions| ==> w'.sessions[i] == w.sessions[i];
    assert IsDefault(w'.sessions[|w.sessions|]);
  }

  lemma HandleKeepsInv(help: string, h: History, initial: set<string>, i: nat, e: Event)
    requires Inv(h, initial)
    requires i < |h.world.sessions| && h.world.sessions[i].running
    ensures Inv(Apply(help, h, Handle(i, e)), initial)
  {
    var w := h.world;
    var h' := Apply(help, h, Handle(i, e));
    var w', g := h'.world, h'.grants;
    var t := Step(help, w.sessions[i], w.names, e);
    var renamed := t.state.name != w.sessions[i].name;
    assert renamed ==> g[|h.grants|] == Grant(i, t.state.name);
    assert forall j :: 0 <= j < |w'.sessions| && j != i ==> w'.sessions[j] == w.sessions[j];
    assert h.grants <= g;
    forall j | 0 <= j < |w'.sessions|
      ensures IsDefault(w'.sessions[j]) || Grant(j, w'.sessions[j].name) in g
    {
      if j == i && !renamed {
        assert w'.sessions[j].peer == w.sessions[j].peer;
      }
    }
    forall k | 0 <= k < |g|
      ensures Grant(g[k].owner, w'.sessions[g[k].owner].name) in g
    {
      if k < |h.grants| && (g[k].owner != i || !renamed) {
        assert Grant(g[k].owner, w.sessions[g[k].owner].name) in h.grants;
      }
    }
    if t.names != w.names {
      forall k | 0 <= k < |h.grants| ensures h.grants[k].name != t.state.name {
      }
    }
  }

  lemma {:induction false} ReplayKeepsInv(help: string, h: History, initial: set<string>, actions: seq<Action>)
    requires Inv(h, initial)
    ensures Inv(Replay(help, h, actions), initial)
    ensures h.world.names <= Replay(help, h, actions).world.names
    ensures h.grants <= Replay(help, h, actions).grants
    decreases |actions|
  {
    if actions != [] {
      var h1 := Apply(help, h, actions[0]);
      ApplyKeepsInv(help, h, initial, actions[0]);
      ReplayKeepsInv(help, h1, initial, actions[1..]);
    }
  }

  /** Name uniqueness: two different sessions never both hold a name other
      than their defaults that is the same. */
  lemma NonDefaultNamesUnique(h: History, initial: set<string>, i: nat, j: nat)
    requires Inv(h, initial)
    requires i < |h.world.sessions| && j < |h.world.sessions| && i != j
    requires !IsDefault(h.world.sessions[i]) && !IsDefault(h.world.sessions[j])
    ensures h.world.sessions[i].name != h.world.sessions[j].name
  {
  }

  /** From start-up, over every interleaving, sessions that do not hold
      their own default name hold distinct names. */
  lemma NamesUniqueFromStart(help: string, actions: seq<Action>, i: nat, j: nat)
    ensures var w := Replay(help, Start(), actions).world;
      i < |w.sessions| && j < |w.sessions| && i != j &&
      !IsDefault(w.sessions[i]) && !IsDefault(w.sessions[j]) ==>
      w.sessions[i].name != w.sessions[j].name
  {
    var h := Replay(help, Start(), actions);
    StartInv();
    ReplayKeepsInv(help, Start(), {}, actions);
    if i < |h.world.sessions| && j < |h.world.sessions| && i != j &&
       !IsDefault(h.world.sessions[i]) && !IsDefault(h.world.sessions[j]) {
      NonDefaultNamesUnique(h, {}, i, j);
    }
  }

  /** Two different sessions that have both renamed themselves hold
      different names, even when one holds its own default name again. */
  lemma RenamedNamesUnique(h: History, initial: set<string>, i: nat, j: nat)
    requires Inv(h, initial)
    requires i < |h.world.sessions| && j < |h.world.sessions| && i != j
    requires Renamed(h, i) && Renamed(h, j)
    ensures h.world.sessions[i].name != h.world.sessions[j].name
  {
    var g := h.grants;
    var ki :| 0 <= ki < |g| && g[ki].owner == i;
    var kj :| 0 <= kj < |g| && g[kj].owner == j;
    assert Grant(i, h.world.sessions[i].name) in g;
    assert Grant(j, h.world.sessions[j].name) in g;
  }

  /** From start-up, over every interleaving, sessions that have renamed
      themselves hold distinct names. */
  lemma RenamedNamesUniqueFromStart(help: string, actions: seq<Action>, i: nat, j: nat)
    requires var h := Replay(help, Start(), actions);
      i < |h.world.sessions| && j < |h.world.sessions| && i != j &&
      Renamed(h, i) && Renamed(h, j)
    ensures var w := Replay(help, Start(), actions).world;
      w.sessions[i].name != w.sessions[j].name
  {
    StartInv();
    ReplayKeepsInv(help, Start(), {}, actions);
    RenamedNamesUnique(Replay(help, Start(), actions), {}, i, j);
  }

  /** Two sessions that ask for the same free name, one right after the
      other: the first gets it, the second is told it exists. */
  lemma SecondClaimFails(help: string, h: History, i: nat, j: nat, x: string)
    requires i < |h.world.sessions| && j < |h.world.sessions| && i != j
    requires h.world.sessions[i].running && h.world.sessions[j].running
    requires x !in h.world.names
    ensures var h1 := Apply(help, h, Handle(i, Line(RenamePrefix + x)));
      var h2 := Apply(help, h1, Handle(j, Line(RenamePrefix + x)));
      h1.world.names == h.world.names + {x} && h1.world.sessions[i].name == x &&
      h1.grants == h.grants + [Grant(i, x)] &&
      h2.world.names == h1.world.names && h2.grants == h1.grants &&
      h2.world.sessions == h1.world.sessions && h2.world.bus == h1.world.bus
  {
  }

  /** Ending a session does not give its name back: after the owner of a
      claimed name quits, asking for that name still fails. */
  lemma QuitKeepsNameClaimed(help: string, h: History, i: nat, j: nat)
    requires i < |h.world.sessions| && j < |h.world.sessions| && i != j
    requires h.world.sessions[i].running && h.world.sessions[j].running
    requires h.world.sessions[i].name in h.world.names
    ensures var x := h.world.sessions[i].name;
      var h1 := Apply(help, h, Handle(i, Line(QuitCommand)));
      var h2 := Apply(help, h1, Handle(j, Line(RenamePrefix + x)));
      !h1.world.sessions[i].running && x in h1.world.names &&
      h2.world.names == h1.world.names && h2.world.sessions[j].name == h.world.sessions[j].name
  {
  }
}
