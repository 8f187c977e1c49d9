/** The spawner over whole runs: any number of overlapping updates, each with a scan that may be old
    by the time it gets the lock, threads that end at any moment, and clears. A clear empties the list
    under the lock and joins the threads afterwards, without it.
  */
module SpawnerRuns {
  import opened Spawner

  /** The nodes held; those that a clear took out of the list and has not destroyed yet; the threads
      ever started and those that have ended; and the scans of updates that wait for the lock. */
  datatype Sys = Sys(
    nodes: seq<NodePtr>, doomed: seq<NodePtr>, started: set<nat>, exited: set<nat>, scans: map<nat, seq<string>>)

  const START := Sys([], [], {}, {}, map[])

  datatype Event =
    | Scan(u: nat, serials: seq<string>)
    | Update(u: nat, sawExit: seq<bool>, result: seq<NodePtr>)
    | Exit(id: nat)
    | Detach                            // the locked part of a clear
    | Destroy(k: nat)                   // a clear's join of one thread has returned

  predicate DistinctIds(nodes: seq<NodePtr>) {
    forall i, j :: 0 <= i < j < |nodes| && nodes[i].Ptr? && nodes[j].Ptr? ==> nodes[i].id != nodes[j].id
  }

  ghost function Ids(nodes: seq<NodePtr>): set<nat> {
    set i | 0 <= i < |nodes| && nodes[i].Ptr? :: nodes[i].id
  }

  /** Nodes whose destruction waits for their threads. */
  ghost function Removed(nodes: seq<NodePtr>, sawExit: seq<bool>, current: seq<string>): set<nat>
    requires |sawExit| == |nodes| && NoNulls(nodes)
  {
    set i | 0 <= i < |nodes| && !Stays(nodes, sawExit, current, i) :: nodes[i].id
  }

  /** What an update asks the vendor for. */
  function Request(s: Sys, u: nat, sawExit: seq<bool>): seq<string>
    requires u in s.scans && |sawExit| == |s.nodes| && NoNulls(s.nodes)
  {
    Missing(s.scans[u], Survivors(s.nodes, sawExit, s.scans[u]))
  }

  /** What the spawner's own code and the threads can do, whatever a vendor returns. */
  ghost predicate Possible(s: Sys, e: Event) {
    match e
    case Scan(u, _) => u !in s.scans
    case Update(u, sawExit, result) =>
      && u in s.scans && |sawExit| == |s.nodes| && NoNulls(s.nodes)
      && (forall i :: 0 <= i < |s.nodes| && s.nodes[i].id in s.exited ==> sawExit[i])
      && (Request(s, u, sawExit) == [] ==> result == [])
      && DistinctIds(result) && Ids(result) !! s.started
    case Exit(id) => id in s.started
    case Detach => true
    case Destroy(k) => k < |s.doomed| && s.doomed[k].Ptr? && s.doomed[k].id in s.exited
  }

  /** The same with a vendor that does what the spawner expects. */
  ghost predicate Enabled(s: Sys, e: Event) {
    Possible(s, e) && (e.Update? ==> SpawnContract(Request(s, e.u, e.sawExit), e.result))
  }

  ghost function Next(s: Sys, e: Event): Sys
    requires Possible(s, e)
  {
    match e
    case Scan(u, serials) => s.(scans := s.scans[u := serials])
    case Update(u, sawExit, result) =>
      s.(nodes := AfterUpdate(s.nodes, sawExit, s.scans[u], (request: seq<string>) => result),
         started := s.started + Ids(result),
         exited := s.exited + Removed(s.nodes, sawExit, s.scans[u]))
    case Exit(id) => s.(exited := s.exited + {id})
    case Detach => s.(nodes := [], doomed := s.doomed + s.nodes)
    case Destroy(k) => s.(doomed := s.doomed[..k] + s.doomed[k + 1..])
  }

  ghost predicate Behavior(states: seq<Sys>, evs: seq<Event>) {
    && |states| == |evs| + 1
    && states[0] == START
    && forall i :: 0 <= i < |evs| ==> Enabled(states[i], evs[i]) && states[i + 1] == Next(states[i], evs[i])
  }

  /** No null and no serial twice in the list; and every running thread belongs to a node that is
      held, or that a clear is about to destroy, so that the destructor of a node's base class
      returns only after the node's thread has ended. */
  ghost predicate Inv(s: Sys) {
    && NoNulls(s.nodes) && DistinctSerials(s.nodes) && DistinctIds(s.nodes) && NoNulls(s.doomed)
    && Ids(s.nodes) + Ids(s.doomed) <= s.started && s.exited <= s.started
    && Ids(s.nodes) !! Ids(s.doomed)
    && s.started - s.exited <= Ids(s.nodes) + Ids(s.doomed)
  }

  lemma KeptIds(nodes: seq<NodePtr>, sawExit: seq<bool>, current: seq<string>)
    requires |sawExit| == |nodes| && NoNulls(nodes) && DistinctIds(nodes)
    ensures DistinctIds(Survivors(nodes, sawExit, current))
    ensures Ids(Survivors(nodes, sawExit, current)) <= Ids(nodes)
    ensures Ids(nodes) <= Ids(Survivors(nodes, sawExit, current)) + Removed(nodes, sawExit, current)
    ensures Removed(nodes, sawExit, current) <= Ids(nodes)
  {
    var at := SurvivorPositions(nodes, sawExit, current);
    var kept := Survivors(nodes, sawExit, current);
    forall x | x in Ids(kept)
      ensures x in Ids(nodes)
    {
      var k :| 0 <= k < |kept| && kept[k].id == x;
      assert nodes[at[k]].id == x;
    }
    forall x | x in Ids(nodes)
      ensures x in Ids(kept) || x in Removed(nodes, sawExit, current)
    {
      var i :| 0 <= i < |nodes| && nodes[i].id == x;
      if Stays(nodes, sawExit, current, i) {
        var k :| 0 <= k < |at| && at[k] == i;
        assert kept[k].id == x;
      }
    }
  }

  lemma {:induction false} NonNullDistinctIds(nodes: seq<NodePtr>)
    requires DistinctIds(nodes)
    ensures DistinctIds(NonNull(nodes))
  {
    if nodes != [] {
      var n := |nodes| - 1;
      var front := NonNull(nodes[..n]);
      NonNullDistinctIds(nodes[..n]);
      NonNullMeaning(nodes[..n]);
      if nodes[n].Ptr? {
        forall i | 0 <= i < |front|
          ensures front[i].Ptr? && front[i].id != nodes[n].id
        {
          assert front[i] in front;
          var k :| 0 <= k < n && nodes[..n][k] == front[i];
        }
      }
    }
  }

  lemma NonNullIds(nodes: seq<NodePtr>)
    ensures Ids(NonNull(nodes)) == Ids(nodes)
  {
    NonNullMeaning(nodes);
    forall x | x in Ids(nodes)
      ensures x in Ids(NonNull(nodes))
    {
      var i :| 0 <= i < |nodes| && nodes[i].Ptr? && nodes[i].id == x;
      assert nodes[i] in NonNull(nodes);
      var k :| 0 <= k < |NonNull(nodes)| && NonNull(nodes)[k] == nodes[i];
    }
    forall x | x in Ids(NonNull(nodes))
      ensures x in Ids(nodes)
    {
      var k :| 0 <= k < |NonNull(nodes)| && NonNull(nodes)[k].id == x;
      assert NonNull(nodes)[k] in NonNull(nodes);
      var i :| 0 <= i < |nodes| && nodes[i] == NonNull(nodes)[k];
    }
  }

  lemma IdsAddUp(a: seq<NodePtr>, b: seq<NodePtr>)
    ensures Ids(a + b) == Ids(a) + Ids(b)
  {
    forall x | x in Ids(a) + Ids(b)
      ensures x in Ids(a + b)
    {
      if x in Ids(a) {
        var i :| 0 <= i < |a| && a[i].Ptr? && a[i].id == x;
        assert (a + b)[i] == a[i];
      } else {
        var i :| 0 <= i < |b| && b[i].Ptr? && b[i].id == x;
        assert (a + b)[|a| + i] == b[i];
      }
    }
  }

  lemma UpdateKeepsInv(s: Sys, e: Event)
    requires Inv(s) && e.Update? && Enabled(s, e)
    ensures Inv(Next(s, e))
  {
    var current := s.scans[e.u];
    var kept := Survivors(s.nodes, e.sawExit, current);
    var added := NonNull(e.result);
    UpdateStaysDistinct(s.nodes, e.sawExit, current, (request: seq<string>) => e.result);
    KeptIds(s.nodes, e.sawExit, current);
    NonNullIds(e.result);
    NonNullDistinctIds(e.result);
    IdsAddUp(kept, added);
    var nodes := Next(s, e).nodes;
    assert nodes == kept + added;
    forall i, j | 0 <= i < |kept| && 0 <= j < |added| && kept[i].Ptr? && added[j].Ptr?
      ensures kept[i].id != added[j].id
    {
      assert kept[i].id in Ids(kept) && added[j].id in Ids(added);
    }
    forall x | x in Next(s, e).started - Next(s, e).exited
      ensures x in Ids(kept) || x in Ids(added) || x in Ids(s.doomed)
    {
      if x in s.started {
        assert x in Ids(s.nodes) + Ids(s.doomed);
      }
    }
  }

  lemma DestroyKeepsInv(s: Sys, k: nat)
    requires Inv(s) && Enabled(s, Destroy(k))
    ensures Inv(Next(s, Destroy(k)))
  {
    var before, after := s.doomed[..k], s.doomed[k + 1..];
    assert s.doomed == before + [s.doomed[k]] + after;
    IdsAddUp(before + [s.doomed[k]], after);
    IdsAddUp(before, [s.doomed[k]]);
    IdsAddUp(before, after);
    assert Ids([s.doomed[k]]) == {s.doomed[k].id};
  }

  /** Main result. In every run the spawner holds no null and no two nodes for one camera, and every
      running thread has its node, in the list or on its way out of a clear. */
  lemma {:induction false} InvHolds(states: seq<Sys>, evs: seq<Event>, i: nat)
    requires Behavior(states, evs) && i <= |evs|
    ensures Inv(states[i])
  {
    if i > 0 {
      InvHolds(states, evs, i - 1);
      var s, e := states[i - 1], evs[i - 1];
      match e
      case Update(_, _, _) => UpdateKeepsInv(s, e);
      case Destroy(k) => DestroyKeepsInv(s, k);
      case Detach =>
        IdsAddUp(s.doomed, s.nodes);
        assert Ids([]) == {};
      case _ =>
    }
  }

  /** A node leaves the list by an update, and then its thread has ended; or by a clear, and then it
      is kept until its thread has ended. A thread that ended stays so. */
  lemma NodesOutliveTheirThreads(states: seq<Sys>, evs: seq<Event>, i: nat, id: nat)
    requires Behavior(states, evs) && i < |evs|
    ensures id in Ids(states[i].nodes) && id !in Ids(states[i + 1].nodes) ==>
              || (evs[i].Update? && id in states[i + 1].exited)
              || (evs[i].Detach? && id in Ids(states[i + 1].doomed))
    ensures id in Ids(states[i].doomed) && id !in Ids(states[i + 1].doomed) ==>
              evs[i].Destroy? && id in states[i].exited
    ensures id in states[i].exited ==> id in states[i + 1].exited
  {
    InvHolds(states, evs, i);
    InvHolds(states, evs, i + 1);
    var s, e := states[i], evs[i];
    assert states[i + 1] == Next(s, e);
    match e
    case Update(_, _, _) =>
      if id in Ids(s.nodes) && id !in states[i + 1].exited {
        assert id in states[i + 1].started - states[i + 1].exited;
      }
    case Detach => IdsAddUp(s.doomed, s.nodes);
    case Destroy(k) =>
      IdsAddUp(s.doomed[..k], [s.doomed[k]]);
      IdsAddUp(s.doomed[..k] + [s.doomed[k]], s.doomed[k + 1..]);
      IdsAddUp(s.doomed[..k], s.doomed[k + 1..]);
      assert s.doomed == s.doomed[..k] + [s.doomed[k]] + s.doomed[k + 1..];
    case _ =>
  }

  /** After an update, no node is left whose thread had exited before the update, or whose camera is
      not in the scan. */
  lemma UpdateLeavesNoDeadNode(states: seq<Sys>, evs: seq<Event>, i: nat, p: NodePtr)
    requires Behavior(states, evs) && i < |evs| && evs[i].Update?
    requires p in states[i + 1].nodes
    ensures p.Ptr? && p.id !in states[i].exited && p.serial in states[i].scans[evs[i].u]
  {
    InvHolds(states, evs, i);
    UpdatedNodes(states[i], evs[i], p);
  }

  /** Where a node that is held after an update comes from. */
  lemma UpdatedNodes(s: Sys, e: Event, p: NodePtr)
    requires Inv(s) && e.Update? && Enabled(s, e) && p in Next(s, e).nodes
    ensures p.Ptr? && p.id !in s.exited && p.serial in s.scans[e.u]
    ensures p in s.nodes || p in e.result
  {
    var current := s.scans[e.u];
    var kept := Survivors(s.nodes, e.sawExit, current);
    assert Next(s, e).nodes == kept + NonNull(e.result);
    if p in kept {
      SurvivorsMeaning(s.nodes, e.sawExit, current);
      var k :| From(s.nodes, e.sawExit, current, p, k);
    } else {
      NonNullMeaning(e.result);
      MissingMeaning(current, kept);
      assert p.id in Ids(e.result);
    }
  }

  // ----- Two adapters for one camera -----

  /** A node whose thread runs, in the list or on its way out of a clear. */
  ghost predicate Live(s: Sys, p: NodePtr) {
    p.Ptr? && (p in s.nodes || p in s.doomed) && p.id !in s.exited
  }

  ghost predicate OneLiveEach(s: Sys) {
    forall p, q :: Live(s, p) && Live(s, q) && p.serial == q.serial ==> p.id == q.id
  }

  /** The scan names a camera whose node a clear has taken out and whose thread still runs. */
  ghost predicate ScansDoomed(s: Sys, u: nat) {
    u in s.scans && exists d :: d in s.doomed && Live(s, d) && d.serial in s.scans[u]
  }

  lemma HeldTwice(s: Sys, p: NodePtr, q: NodePtr)
    requires Inv(s) && p in s.nodes && q in s.nodes && p.serial == q.serial
    ensures p == q
  {
    var i :| 0 <= i < |s.nodes| && s.nodes[i] == p;
    var j :| 0 <= j < |s.nodes| && s.nodes[j] == q;
  }

  lemma UpdateKeepsOneLive(s: Sys, e: Event, p: NodePtr, q: NodePtr)
    requires Inv(s) && OneLiveEach(s) && e.Update? && Enabled(s, e) && !ScansDoomed(s, e.u)
    requires Live(Next(s, e), p) && Live(Next(s, e), q) && p.serial == q.serial && p in Next(s, e).nodes
    ensures p.id == q.id
  {
    UpdatedNodes(s, e, p);
    if q in Next(s, e).nodes {
      UpdateKeepsInv(s, e);
      HeldTwice(Next(s, e), p, q);
    } else {
      assert q in s.doomed && Live(s, q);
    }
  }

  lemma StepKeepsOneLive(s: Sys, e: Event)
    requires Inv(s) && OneLiveEach(s) && Enabled(s, e) && (e.Update? ==> !ScansDoomed(s, e.u))
    ensures OneLiveEach(Next(s, e))
  {
    var s' := Next(s, e);
    forall p, q | Live(s', p) && Live(s', q) && p.serial == q.serial
      ensures p.id == q.id
    {
      if e.Update? && p in s'.nodes {
        UpdateKeepsOneLive(s, e, p, q);
      } else if e.Update? && q in s'.nodes {
        UpdateKeepsOneLive(s, e, q, p);
      } else {
        assert Live(s, p) && Live(s, q);
      }
    }
  }

  /** As long as no update gets a scan that names a camera whose node a clear is still waiting for, no
      camera has two adapters whose threads run. Without a clear that is always so. */
  lemma {:induction false} OneAdapterPerCamera(states: seq<Sys>, evs: seq<Event>, i: nat)
    requires Behavior(states, evs) && i <= |evs|
    requires forall k :: 0 <= k < i && evs[k].Update? ==> !ScansDoomed(states[k], evs[k].u)
    ensures OneLiveEach(states[i])
  {
    if i > 0 {
      OneAdapterPerCamera(states, evs, i - 1);
      InvHolds(states, evs, i - 1);
      StepKeepsOneLive(states[i - 1], evs[i - 1]);
    }
  }

  /** A step starts a second adapter for a camera whose first one still runs. */
  ghost predicate StartsSecond(s: Sys, e: Event)
    requires Possible(s, e)
  {
    && e.Update?
    && exists p, d ::
         p in e.result && Live(Next(s, e), p) && d in s.doomed && Live(Next(s, e), d) && p.serial == d.serial
  }

  lemma {:induction false} FreshId(ids: set<nat>) returns (x: nat)
    ensures forall y :: y in ids ==> y < x
  {
    x := 0;
    if ids != {} {
      var y :| y in ids;
      var z := FreshId(ids - {y});
      x := if z <= y then y + 1 else z;
      forall w | w in ids
        ensures w < x
      {
        assert w == y || w in ids - {y};
      }
    }
  }

  lemma AllSeenExited(s: Sys, u: nat, serial: string) returns (e: Event)
    requires Inv(s) && u in s.scans && serial in s.scans[u]
    ensures e.Update? && e.u == u && Enabled(s, e)
    ensures exists p :: p in e.result && p in Next(s, e).nodes && p.Ptr? && p.serial == serial && p.id !in s.started
  {
    var sawExit := seq(|s.nodes|, i => true);
    var kept := Survivors(s.nodes, sawExit, s.scans[u]);
    SurvivorsMeaning(s.nodes, sawExit, s.scans[u]);
    if kept != [] {
      assert kept[0] in kept;
      var k :| From(s.nodes, sawExit, s.scans[u], kept[0], k);
    }
    MissingMeaning(s.scans[u], kept);
    var x := FreshId(s.started);
    var p := Ptr(x, serial);
    e := Update(u, sawExit, [p]);
    NonNullMeaning([p]);
    assert Ids([p]) == {x};
    assert p in NonNull([p]);
    assert Next(s, e).nodes == kept + NonNull([p]);
  }

  /** An update can start a second adapter for a camera whose first one still runs exactly when its
      scan names a camera whose node a clear has taken out and whose thread has not ended. */
  lemma SecondAdapterIff(states: seq<Sys>, evs: seq<Event>, i: nat, u: nat)
    requires Behavior(states, evs) && i <= |evs| && u in states[i].scans
    ensures (exists e: Event :: e.Update? && e.u == u && Enabled(states[i], e) && StartsSecond(states[i], e))
            <==> ScansDoomed(states[i], u)
  {
    var s := states[i];
    InvHolds(states, evs, i);
    if ScansDoomed(s, u) {
      var d :| d in s.doomed && Live(s, d) && d.serial in s.scans[u];
      var e := AllSeenExited(s, u, d.serial);
      var p :| p in e.result && p in Next(s, e).nodes && p.Ptr? && p.serial == d.serial && p.id !in s.started;
      KeptIds(s.nodes, e.sawExit, s.scans[u]);
      assert d.id in Ids(s.doomed);
      assert Live(Next(s, e), p) && Live(Next(s, e), d);
      assert StartsSecond(s, e);
    }
    if e: Event :| e.Update? && e.u == u && Enabled(s, e) && StartsSecond(s, e) {
      var p, d :| p in e.result && Live(Next(s, e), p) && d in s.doomed && Live(Next(s, e), d) && p.serial == d.serial;
      MissingMeaning(s.scans[u], Survivors(s.nodes, e.sawExit, s.scans[u]));
      assert Live(s, d);
    }
  }

  lemma SpawnsAlone(s: Sys, u: nat, id: nat, serial: string)
    requires s.nodes == [] && u in s.scans && s.scans[u] == [serial] && id !in s.started
    ensures Enabled(s, Update(u, [], [Ptr(id, serial)]))
    ensures Next(s, Update(u, [], [Ptr(id, serial)])) == s.(nodes := [Ptr(id, serial)], started := s.started + {id})
  {
    var p := Ptr(id, serial);
    assert [serial][..0] == [] && [p][..0] == [];
    assert Missing([serial], []) == [serial] && NonNull([p]) == [p];
    assert Ids([p]) == {id};
    assert Removed([], [], [serial]) == {};
  }

  /** And it happens: a clear takes a running node out, and before its thread ends an update finds the
      list empty and starts another node for the same camera. */
  lemma ClearLetsTwoRun(serial: string) returns (states: seq<Sys>, evs: seq<Event>)
    ensures Behavior(states, evs)
    ensures evs == [Scan(0, [serial]), Update(0, [], [Ptr(0, serial)]), Detach,
                    Scan(1, [serial]), Update(1, [], [Ptr(1, serial)])]
    ensures Live(states[5], Ptr(0, serial)) && Live(states[5], Ptr(1, serial)) && !OneLiveEach(states[5])
  {
    var first, second := Ptr(0, serial), Ptr(1, serial);
    evs := [Scan(0, [serial]), Update(0, [], [first]), Detach, Scan(1, [serial]), Update(1, [], [second])];
    var s1 := START.(scans := map[0 := [serial]]);
    var s2 := s1.(nodes := [first], started := {0});
    var s3 := s2.(nodes := [], doomed := [first]);
    var s4 := s3.(scans := map[0 := [serial], 1 := [serial]]);
    var s5 := s4.(nodes := [second], started := {0, 1});
    SpawnsAlone(s1, 0, 0, serial);
    SpawnsAlone(s4, 1, 1, serial);
    assert s3 == Next(s2, Detach);
    states := [START, s1, s2, s3, s4, s5];
  }
}
