/** The spawner: it keeps one adapter node for each camera that the hardware scan reports.

    A node is held through a shared pointer, which can be null. Each node runs a thread that may
    exit at any time; the flag that tells so only rises. Destroying a node joins its thread.
  */
module Spawner {
  datatype NodePtr = Null | Ptr(id: nat, serial: string)

  predicate NoNulls(nodes: seq<NodePtr>) {
    forall i :: 0 <= i < |nodes| ==> nodes[i].Ptr?
  }

  predicate DistinctSerials(nodes: seq<NodePtr>) {
    forall i, j :: 0 <= i < j < |nodes| && nodes[i].Ptr? && nodes[j].Ptr? ==> nodes[i].serial != nodes[j].serial
  }

  predicate Spawned(nodes: seq<NodePtr>, serial: string) {
    exists i :: 0 <= i < |nodes| && nodes[i].Ptr? && nodes[i].serial == serial
  }

  predicate DistinctStrings(xs: seq<string>) {
    forall i, j :: 0 <= i < j < |xs| ==> xs[i] != xs[j]
  }

  /** The nodes that stay: live when looked at, and still plugged in; in their old order. */
  function Survivors(nodes: seq<NodePtr>, sawExit: seq<bool>, current: seq<string>): seq<NodePtr>
    requires |sawExit| == |nodes| && NoNulls(nodes)
  {
    if nodes == [] then []
    else
      var n := |nodes| - 1;
      Survivors(nodes[..n], sawExit[..n], current)
      + if !sawExit[n] && nodes[n].serial in current then [nodes[n]] else []
  }

  lemma SurvivorsGrow(nodes: seq<NodePtr>, sawExit: seq<bool>, current: seq<string>, x: bool)
    requires NoNulls(nodes) && |sawExit| < |nodes|
    ensures var n := |sawExit|;
            Survivors(nodes[..n + 1], sawExit + [x], current)
            == Survivors(nodes[..n], sawExit, current) + if !x && nodes[n].serial in current then [nodes[n]] else []
  {
    var n := |sawExit|;
    assert nodes[..n + 1][..n] == nodes[..n] && (sawExit + [x])[..n] == sawExit;
  }

  /** What the first looks at the flags showed: a node that had exited before is seen to have exited,
      and the thread of every node that does not stay has ended by now. */
  predicate Looked(nodes: seq<NodePtr>, sawExit: seq<bool>, current: seq<string>, before: set<nat>, now: set<nat>)
    requires NoNulls(nodes) && |sawExit| <= |nodes|
  {
    forall i :: 0 <= i < |sawExit| ==>
      && (nodes[i].id in before ==> sawExit[i])
      && (sawExit[i] || nodes[i].serial !in current ==> nodes[i].id in now)
  }

  lemma LookedAgain(
    nodes: seq<NodePtr>, sawExit: seq<bool>, current: seq<string>, before: set<nat>, since: set<nat>, now: set<nat>, x: bool)
    requires NoNulls(nodes) && |sawExit| < |nodes| && Looked(nodes, sawExit, current, before, since) && since <= now
    requires nodes[|sawExit|].id in before ==> x
    requires x || nodes[|sawExit|].serial !in current ==> nodes[|sawExit|].id in now
    ensures Looked(nodes, sawExit + [x], current, before, now)
  {
  }

  /** Where the loop over all nodes stands: the survivors of the nodes visited are in front of the
      iterator, the nodes not visited yet behind it. */
  predicate Visited(all: seq<NodePtr>, sawExit: seq<bool>, current: seq<string>, nodes: seq<NodePtr>, it: nat)
    requires NoNulls(all) && it <= |nodes|
  {
    && |sawExit| <= |all|
    && nodes[..it] == Survivors(all[..|sawExit|], sawExit, current)
    && nodes[it..] == all[|sawExit|..]
  }

  lemma VisitedNext(all: seq<NodePtr>, sawExit: seq<bool>, current: seq<string>, nodes: seq<NodePtr>, it: nat)
    requires NoNulls(all) && it < |nodes| && Visited(all, sawExit, current, nodes, it)
    ensures |sawExit| < |all| && nodes[it] == all[|sawExit|] && NoNulls(nodes)
  {
    assert nodes[it..][0] == all[|sawExit|..][0];
    SurvivorsAreNodes(all[..|sawExit|], sawExit, current);
    forall k | 0 <= k < |nodes|
      ensures nodes[k].Ptr?
    {
      if k < it {
        assert nodes[k] == nodes[..it][k];
      } else {
        assert nodes[k] == nodes[it..][k - it];
      }
    }
  }

  lemma {:induction false} SurvivorsAreNodes(nodes: seq<NodePtr>, sawExit: seq<bool>, current: seq<string>)
    requires |sawExit| == |nodes| && NoNulls(nodes)
    ensures NoNulls(Survivors(nodes, sawExit, current))
  {
    if nodes != [] {
      SurvivorsAreNodes(nodes[..|nodes| - 1], sawExit[..|nodes| - 1], current);
    }
  }

  lemma VisitedOneMore(
    all: seq<NodePtr>, sawExit: seq<bool>, current: seq<string>, nodes: seq<NodePtr>, it: nat, x: bool)
    requires NoNulls(all) && it < |nodes| && Visited(all, sawExit, current, nodes, it) && |sawExit| < |all|
    ensures if x || all[|sawExit|].serial !in current
            then Visited(all, sawExit + [x], current, nodes[..it] + nodes[it + 1..], it)
            else Visited(all, sawExit + [x], current, nodes, it + 1)
  {
    SurvivorsGrow(all, sawExit, current, x);
    assert nodes[it] == nodes[it..][0] && nodes[it..][1..] == nodes[it + 1..];
    assert all[|sawExit|..][1..] == all[|sawExit| + 1..];
    assert (nodes[..it] + nodes[it + 1..])[..it] == nodes[..it];
    assert nodes[..it + 1] == nodes[..it] + [nodes[it]];
  }

  function Missing(current: seq<string>, nodes: seq<NodePtr>): seq<string> {
    if current == [] then []
    else
      var n := |current| - 1;
      Missing(current[..n], nodes) + if Spawned(nodes, current[n]) then [] else [current[n]]
  }

  function NonNull(nodes: seq<NodePtr>): seq<NodePtr> {
    if nodes == [] then []
    else NonNull(nodes[..|nodes| - 1]) + if nodes[|nodes| - 1].Ptr? then [nodes[|nodes| - 1]] else []
  }

  /** What the spawner expects of a vendor's SpawnNodes: no two nodes for one serial, and none that
      was not asked for. Fewer nodes than asked for, and null pointers, are allowed. */
  predicate SpawnContract(request: seq<string>, result: seq<NodePtr>) {
    && DistinctSerials(result)
    && forall i :: 0 <= i < |result| && result[i].Ptr? ==> result[i].serial in request
  }

  function AfterUpdate(
    nodes: seq<NodePtr>, sawExit: seq<bool>, current: seq<string>, spawn: seq<string> -> seq<NodePtr>): seq<NodePtr>
    requires |sawExit| == |nodes| && NoNulls(nodes)
  {
    var kept := Survivors(nodes, sawExit, current);
    var request := Missing(current, kept);
    if request == [] then kept else kept + NonNull(spawn(request))
  }

  // ----- The code -----

  /** The threads of all nodes ever started, and which of them have exited. */
  class Threads {
    var exited: set<nat>

    constructor ()
      ensures exited == {}
    {
      exited := {};
    }

    /** Other threads run; any of them may exit. */
    method LetThreadsRun()
      modifies this
      ensures old(exited) <= exited
    {
      var more: set<nat> := *;
      exited := exited + more;
    }

    /** The join in the destructor of a node's base class: that destructor returns only after the
        thread has ended. Nothing here makes it end. The members of the derived adapter are destroyed
        before, while the thread may still run. */
    method Join(id: nat)
      modifies this
      ensures old(exited) <= exited && id in exited
    {
      LetThreadsRun();
      exited := exited + {id};
    }
  }

  class BaseSpawner {
    const threads: Threads
    var nodes: seq<NodePtr>

    constructor (threads: Threads)
      ensures this.threads == threads && nodes == []
    {
      this.threads := threads;
      nodes := [];
    }

    method IsAlreadySpawned(serial: string) returns (b: bool)
      ensures b <==> Spawned(nodes, serial)
    {
      for i := 0 to |nodes|
        invariant !Spawned(nodes[..i], serial)
      {
        if nodes[i].Ptr? && nodes[i].serial == serial {
          return true;
        }
        assert nodes[..i + 1] == nodes[..i] + [nodes[i]];
      }
      assert nodes[..|nodes|] == nodes;
      return false;
    }

    method Discover() returns (serials: seq<string>)
      requires NoNulls(nodes)
      ensures |serials| == |nodes| && forall i :: 0 <= i < |nodes| ==> serials[i] == nodes[i].serial
    {
      serials := [];
      for i := 0 to |nodes|
        invariant |serials| == i && forall k :: 0 <= k < i ==> serials[k] == nodes[k].serial
      {
        serials := serials + [nodes[i].serial];
      }
    }

    /** Erases in place while the threads run on. sawExit tells, for each node that was there, what
        the look at its flag showed. */
    method CleanupDeadNodes(current: seq<string>) returns (ghost sawExit: seq<bool>)
      requires NoNulls(nodes)
      modifies this`nodes, threads
      ensures |sawExit| == |old(nodes)| && nodes == Survivors(old(nodes), sawExit, current)
      ensures old(threads.exited) <= threads.exited
      ensures Looked(old(nodes), sawExit, current, old(threads.exited), threads.exited)
    {
      sawExit := [];
      ghost var all := nodes;
      var it: nat := 0;
      while it < |nodes|
        invariant it <= |nodes| && Visited(all, sawExit, current, nodes, it)
        invariant old(threads.exited) <= threads.exited
        invariant Looked(all, sawExit, current, old(threads.exited), threads.exited)
        decreases |nodes| - it
      {
        ghost var seen, since, before := sawExit, threads.exited, nodes;
        ghost var at: nat := it;
        VisitedNext(all, sawExit, current, nodes, it);
        var hasExited;
        it, hasExited := Visit(it, current);
        sawExit := sawExit + [hasExited];
        VisitedOneMore(all, seen, current, before, at, hasExited);
        LookedAgain(all, seen, current, old(threads.exited), since, threads.exited, hasExited);
      }
      assert all[..|sawExit|] == all && nodes[..it] == nodes;
    }

    /** The body of the loop. */
    method Visit(it: nat, current: seq<string>) returns (next: nat, hasExited: bool)
      requires NoNulls(nodes) && it < |nodes|
      modifies this`nodes, threads
      ensures old(threads.exited) <= threads.exited
      ensures var p := old(nodes)[it];
              && (p.id in old(threads.exited) ==> hasExited)
              && if hasExited || p.serial !in current
                 then next == it && nodes == old(nodes)[..it] + old(nodes)[it + 1..] && p.id in threads.exited
                 else next == it + 1 && nodes == old(nodes)
    {
      threads.LetThreadsRun();
      hasExited := nodes[it].id in threads.exited;
      var isUnplugged := nodes[it].serial !in current;
      if hasExited || isUnplugged {
        var gone := nodes[it].id;
        nodes := nodes[..it] + nodes[it + 1..];
        threads.Join(gone);
        next := it;
      } else {
        next := it + 1;
      }
    }

    /** One update with the scan `current`. `spawn` is the vendor's SpawnNodes. */
    method UpdateCameras(current: seq<string>, spawn: seq<string> -> seq<NodePtr>) returns (ghost sawExit: seq<bool>)
      requires NoNulls(nodes)
      modifies this`nodes, threads
      ensures |sawExit| == |old(nodes)| && nodes == AfterUpdate(old(nodes), sawExit, current, spawn)
      ensures NoNulls(nodes)
      ensures old(threads.exited) <= threads.exited
      ensures Looked(old(nodes), sawExit, current, old(threads.exited), threads.exited)
    {
      sawExit := CleanupDeadNodes(current);
      SurvivorsMeaning(old(nodes), sawExit, current);
      var serialsToSpawn := SerialsToSpawn(current);
      if serialsToSpawn != [] {
        var newNodes := spawn(serialsToSpawn);
        Adopt(newNodes);
      }
    }

    /** The scanned serials without a node. */
    method SerialsToSpawn(current: seq<string>) returns (serials: seq<string>)
      ensures serials == Missing(current, nodes)
    {
      serials := [];
      for i := 0 to |current|
        invariant serials == Missing(current[..i], nodes)
      {
        assert current[..i + 1][..i] == current[..i];
        var present := IsAlreadySpawned(current[i]);
        if present {
          continue;
        }
        serials := serials + [current[i]];
      }
      assert current[..|current|] == current;
    }

    /** New nodes join the list; null pointers among them do not. */
    method Adopt(newNodes: seq<NodePtr>)
      modifies this`nodes
      ensures nodes == old(nodes) + NonNull(newNodes)
      ensures NoNulls(old(nodes)) ==> NoNulls(nodes)
    {
      for i := 0 to |newNodes|
        invariant nodes == old(nodes) + NonNull(newNodes[..i])
        invariant NoNulls(old(nodes)) ==> NoNulls(nodes)
      {
        assert newNodes[..i + 1][..i] == newNodes[..i];
        if newNodes[i].Ptr? {
          nodes := nodes + [newNodes[i]];
        }
      }
      assert newNodes[..|newNodes|] == newNodes;
    }

    /** Updates of other threads, while the mutex is free. */
    method LetUpdatesRun()
      requires NoNulls(nodes)
      modifies this`nodes, threads
      ensures NoNulls(nodes) && old(threads.exited) <= threads.exited
    {
      var n: int := *;
      while 0 < n
        invariant NoNulls(nodes) && old(threads.exited) <= threads.exited
      {
        var current: seq<string>, spawn: seq<string> -> seq<NodePtr> := *, *;
        ghost var sawExit := UpdateCameras(current, spawn);
        n := n - 1;
      }
    }

    /** The only locked part of a clear. The nodes leave the list; their threads still run. */
    method Detach() returns (nodesToDelete: seq<NodePtr>)
      modifies this`nodes
      ensures nodes == [] && nodesToDelete == old(nodes)
    {
      nodesToDelete := nodes;
      nodes := [];
    }

    /** The joins come after the mutex was let go, so that updates run in between: when a clear
        returns, every thread of the nodes it found has ended, but the list need not be empty. */
    method ClearSpawnedNodes()
      requires NoNulls(nodes)
      modifies this`nodes, threads
      ensures NoNulls(nodes) && old(threads.exited) <= threads.exited
      ensures forall i :: 0 <= i < |old(nodes)| ==> old(nodes)[i].id in threads.exited
    {
      var nodesToDelete := Detach();
      for i := 0 to |nodesToDelete|
        invariant NoNulls(nodes) && old(threads.exited) <= threads.exited
        invariant forall k :: 0 <= k < i ==> nodesToDelete[k].id in threads.exited
      {
        LetUpdatesRun();
        threads.Join(nodesToDelete[i].id);
      }
    }
  }

  // ----- What the functions mean -----

  /** The node at a position stays. */
  predicate Stays(nodes: seq<NodePtr>, sawExit: seq<bool>, current: seq<string>, i: int)
    requires |sawExit| == |nodes| && NoNulls(nodes)
  {
    0 <= i < |nodes| && !sawExit[i] && nodes[i].serial in current
  }

  predicate Increasing(at: seq<nat>) {
    forall k, m :: 0 <= k < m < |at| ==> at[k] < at[m]
  }

  /** Survivors is an order-preserving filter: the nodes at exactly the positions that stay, in
      increasing order. */
  lemma {:induction false} SurvivorPositions(nodes: seq<NodePtr>, sawExit: seq<bool>, current: seq<string>)
    returns (at: seq<nat>)
    requires |sawExit| == |nodes| && NoNulls(nodes)
    ensures |at| == |Survivors(nodes, sawExit, current)| && Increasing(at)
    ensures forall k :: 0 <= k < |at| ==>
              Stays(nodes, sawExit, current, at[k]) && Survivors(nodes, sawExit, current)[k] == nodes[at[k]]
    ensures forall i :: Stays(nodes, sawExit, current, i) ==> i in at
  {
    at := PositionsUpTo(nodes, sawExit, current, |nodes|);
    assert nodes[..|nodes|] == nodes && sawExit[..|nodes|] == sawExit;
  }

  /** The positions below n that stay, for the survivors `kept` of the first n nodes. */
  ghost predicate PositionsBelow(
    nodes: seq<NodePtr>, sawExit: seq<bool>, current: seq<string>, n: nat, kept: seq<NodePtr>, at: seq<nat>)
    requires |sawExit| == |nodes| && NoNulls(nodes)
  {
    && |at| == |kept| && Increasing(at)
    && (forall k :: 0 <= k < |at| ==>
          at[k] < n && Stays(nodes, sawExit, current, at[k]) && kept[k] == nodes[at[k]])
    && (forall i :: i < n && Stays(nodes, sawExit, current, i) ==> i in at)
  }

  lemma {:induction false} PositionsUpTo(nodes: seq<NodePtr>, sawExit: seq<bool>, current: seq<string>, n: nat)
    returns (at: seq<nat>)
    requires |sawExit| == |nodes| && NoNulls(nodes) && n <= |nodes|
    ensures PositionsBelow(nodes, sawExit, current, n, Survivors(nodes[..n], sawExit[..n], current), at)
  {
    at := [];
    if 0 < n {
      var m := n - 1;
      var front := PositionsUpTo(nodes, sawExit, current, m);
      var kept := Survivors(nodes[..m], sawExit[..m], current);
      SurvivorsGrow(nodes, sawExit[..m], current, sawExit[m]);
      assert sawExit[..n] == sawExit[..m] + [sawExit[m]];
      at := front + if Stays(nodes, sawExit, current, m) then [m] else [];
      PositionsGrow(nodes, sawExit, current, m, kept, front);
    }
  }

  lemma PositionsGrow(
    nodes: seq<NodePtr>, sawExit: seq<bool>, current: seq<string>, m: nat, kept: seq<NodePtr>, front: seq<nat>)
    requires |sawExit| == |nodes| && NoNulls(nodes) && m < |nodes|
    requires PositionsBelow(nodes, sawExit, current, m, kept, front)
    ensures if Stays(nodes, sawExit, current, m)
            then PositionsBelow(nodes, sawExit, current, m + 1, kept + [nodes[m]], front + [m])
            else PositionsBelow(nodes, sawExit, current, m + 1, kept + [], front + [])
  {
    assert kept + [] == kept && front + [] == front;
  }

  ghost predicate From(nodes: seq<NodePtr>, sawExit: seq<bool>, current: seq<string>, p: NodePtr, i: int)
    requires |sawExit| == |nodes| && NoNulls(nodes)
  {
    Stays(nodes, sawExit, current, i) && nodes[i] == p
  }

  lemma SurvivorsMeaning(nodes: seq<NodePtr>, sawExit: seq<bool>, current: seq<string>)
    requires |sawExit| == |nodes| && NoNulls(nodes)
    ensures NoNulls(Survivors(nodes, sawExit, current))
    ensures forall i :: Stays(nodes, sawExit, current, i) ==> nodes[i] in Survivors(nodes, sawExit, current)
    ensures forall p :: p in Survivors(nodes, sawExit, current) ==>
              exists i :: From(nodes, sawExit, current, p, i)
  {
    var at := SurvivorPositions(nodes, sawExit, current);
    var kept := Survivors(nodes, sawExit, current);
    forall p | p in kept
      ensures exists i :: From(nodes, sawExit, current, p, i)
    {
      var k :| 0 <= k < |kept| && kept[k] == p;
      assert From(nodes, sawExit, current, p, at[k]);
    }
    forall i | Stays(nodes, sawExit, current, i)
      ensures nodes[i] in kept
    {
      var k :| 0 <= k < |at| && at[k] == i;
      assert kept[k] == nodes[i];
    }
  }

  lemma SurvivorsStayDistinct(nodes: seq<NodePtr>, sawExit: seq<bool>, current: seq<string>)
    requires |sawExit| == |nodes| && NoNulls(nodes) && DistinctSerials(nodes)
    ensures DistinctSerials(Survivors(nodes, sawExit, current))
  {
    var at := SurvivorPositions(nodes, sawExit, current);
  }

  lemma {:induction false} MissingMeaning(current: seq<string>, nodes: seq<NodePtr>)
    ensures forall s :: s in Missing(current, nodes) <==> s in current && !Spawned(nodes, s)
    ensures DistinctStrings(current) ==> DistinctStrings(Missing(current, nodes))
  {
    if current != [] {
      var n := |current| - 1;
      MissingMeaning(current[..n], nodes);
      assert current == current[..n] + [current[n]];
    }
  }

  /** A scanned serial is asked for, as often as it was scanned, in its place, exactly when it has no
      node. */
  lemma MissingAt(current: seq<string>, nodes: seq<NodePtr>, i: nat)
    requires i < |current|
    ensures Missing(current, nodes)
            == Missing(current[..i], nodes) + (if Spawned(nodes, current[i]) then [] else [current[i]])
               + Missing(current[i + 1..], nodes)
  {
    assert current == current[..i + 1] + current[i + 1..];
    MissingDistributes(current[..i + 1], current[i + 1..], nodes);
    assert current[..i + 1][..i] == current[..i];
  }

  lemma {:induction false} MissingDistributes(a: seq<string>, b: seq<string>, nodes: seq<NodePtr>)
    ensures Missing(a + b, nodes) == Missing(a, nodes) + Missing(b, nodes)
  {
    if b == [] {
      assert a + b == a;
    } else {
      var front, x := b[..|b| - 1], b[|b| - 1];
      assert (a + b)[..|a + b| - 1] == a + front && (a + b)[|a + b| - 1] == x;
      MissingDistributes(a, front, nodes);
      assert (Missing(a, nodes) + Missing(front, nodes)) + [x] == Missing(a, nodes) + (Missing(front, nodes) + [x]);
    }
  }

  lemma {:induction false} NonNullMeaning(nodes: seq<NodePtr>)
    ensures NoNulls(NonNull(nodes))
    ensures forall p :: p in NonNull(nodes) <==> p in nodes && p.Ptr?
    ensures DistinctSerials(nodes) ==> DistinctSerials(NonNull(nodes))
  {
    if nodes != [] {
      var n := |nodes| - 1;
      NonNullMeaning(nodes[..n]);
      assert nodes == nodes[..n] + [nodes[n]];
      var front := NonNull(nodes[..n]);
      if DistinctSerials(nodes) && nodes[n].Ptr? {
        forall i | 0 <= i < |front|
          ensures front[i].serial != nodes[n].serial
        {
          assert front[i] in nodes[..n];
        }
      }
    }
  }

  /** An update keeps the serials distinct, however old its scan is, and adds no null. */
  lemma UpdateStaysDistinct(
    nodes: seq<NodePtr>, sawExit: seq<bool>, current: seq<string>, spawn: seq<string> -> seq<NodePtr>)
    requires |sawExit| == |nodes| && NoNulls(nodes) && DistinctSerials(nodes)
    requires var request := Missing(current, Survivors(nodes, sawExit, current)); SpawnContract(request, spawn(request))
    ensures NoNulls(AfterUpdate(nodes, sawExit, current, spawn))
    ensures DistinctSerials(AfterUpdate(nodes, sawExit, current, spawn))
  {
    var kept := Survivors(nodes, sawExit, current);
    var request := Missing(current, kept);
    SurvivorsMeaning(nodes, sawExit, current);
    SurvivorsStayDistinct(nodes, sawExit, current);
    MissingMeaning(current, kept);
    NonNullMeaning(spawn(request));
    var added := NonNull(spawn(request));
    forall i, j | 0 <= i < |kept| && 0 <= j < |added|
      ensures kept[i].serial != added[j].serial
    {
      assert added[j] in spawn(request);
      assert Spawned(kept, kept[i].serial);
    }
  }

  predicate FullSuccess(request: seq<string>, result: seq<NodePtr>) {
    && SpawnContract(request, result)
    && forall s :: s in request ==> Spawned(result, s)
  }

  /** Convergence: after one update in which every requested node is spawned, exactly the scanned
      serials have a node. */
  lemma UpdateConverges(
    nodes: seq<NodePtr>, sawExit: seq<bool>, current: seq<string>, spawn: seq<string> -> seq<NodePtr>)
    requires |sawExit| == |nodes| && NoNulls(nodes)
    requires var request := Missing(current, Survivors(nodes, sawExit, current)); FullSuccess(request, spawn(request))
    ensures forall s :: Spawned(AfterUpdate(nodes, sawExit, current, spawn), s) <==> s in current
  {
    var kept := Survivors(nodes, sawExit, current);
    var request := Missing(current, kept);
    var after := AfterUpdate(nodes, sawExit, current, spawn);
    SurvivorsMeaning(nodes, sawExit, current);
    MissingMeaning(current, kept);
    NonNullMeaning(spawn(request));
    forall s
      ensures Spawned(after, s) <==> s in current
    {
      SpawnedInEither(kept, NonNull(spawn(request)), s);
      if Spawned(kept, s) {
        var i :| 0 <= i < |kept| && kept[i].serial == s;
        assert kept[i] in kept;
        var k :| From(nodes, sawExit, current, kept[i], k);
      }
      SpawnedAmongNonNull(spawn(request), s);
    }
  }

  lemma SpawnedInEither(a: seq<NodePtr>, b: seq<NodePtr>, s: string)
    ensures Spawned(a + b, s) <==> Spawned(a, s) || Spawned(b, s)
  {
    if i :| 0 <= i < |a| && a[i].Ptr? && a[i].serial == s {
      assert (a + b)[i] == a[i];
    }
    if i :| 0 <= i < |b| && b[i].Ptr? && b[i].serial == s {
      assert (a + b)[|a| + i] == b[i];
    }
  }

  lemma SpawnedAmongNonNull(nodes: seq<NodePtr>, s: string)
    ensures Spawned(NonNull(nodes), s) <==> Spawned(nodes, s)
  {
    NonNullMeaning(nodes);
    if i :| 0 <= i < |nodes| && nodes[i].Ptr? && nodes[i].serial == s {
      assert nodes[i] in NonNull(nodes);
    }
    if i :| 0 <= i < |NonNull(nodes)| && NonNull(nodes)[i].serial == s {
      assert NonNull(nodes)[i] in nodes;
    }
  }

  /** Idempotence: when exactly the scanned serials have a node and none is seen to have exited, an
      update removes nothing, asks for nothing and changes nothing. */
  lemma {:induction false} UpdateIsIdempotent(
    nodes: seq<NodePtr>, sawExit: seq<bool>, current: seq<string>, spawn: seq<string> -> seq<NodePtr>)
    requires |sawExit| == |nodes| && NoNulls(nodes)
    requires forall i :: 0 <= i < |sawExit| ==> !sawExit[i]
    requires forall s :: Spawned(nodes, s) <==> s in current
    ensures Survivors(nodes, sawExit, current) == nodes
    ensures Missing(current, nodes) == []
    ensures AfterUpdate(nodes, sawExit, current, spawn) == nodes
  {
    forall i | 0 <= i < |nodes|
      ensures nodes[i].serial in current
    {
      assert Spawned(nodes, nodes[i].serial);
    }
    AllSurvive(nodes, sawExit, current);
    MissingMeaning(current, nodes);
    if Missing(current, nodes) != [] {
      assert Missing(current, nodes)[0] in Missing(current, nodes);
    }
  }

  lemma {:induction false} AllSurvive(nodes: seq<NodePtr>, sawExit: seq<bool>, current: seq<string>)
    requires |sawExit| == |nodes| && NoNulls(nodes)
    requires forall i :: 0 <= i < |nodes| ==> !sawExit[i] && nodes[i].serial in current
    ensures Survivors(nodes, sawExit, current) == nodes
  {
    if nodes != [] {
      var n := |nodes| - 1;
      AllSurvive(nodes[..n], sawExit[..n], current);
      assert !sawExit[n] && nodes[n].serial in current;
      assert nodes == nodes[..n] + [nodes[n]];
    }
  }

  /** Replacement: a camera that is plugged in and whose node is seen to have exited loses that node
      and is asked for again in the same update. */
  lemma ExitedNodeIsReplaced(nodes: seq<NodePtr>, sawExit: seq<bool>, current: seq<string>, i: nat)
    requires |sawExit| == |nodes| && NoNulls(nodes) && DistinctSerials(nodes)
    requires i < |nodes| && sawExit[i] && nodes[i].serial in current
    ensures nodes[i] !in Survivors(nodes, sawExit, current)
    ensures nodes[i].serial in Missing(current, Survivors(nodes, sawExit, current))
  {
    var kept := Survivors(nodes, sawExit, current);
    SurvivorsMeaning(nodes, sawExit, current);
    MissingMeaning(current, kept);
    forall k | 0 <= k < |kept|
      ensures kept[k].serial != nodes[i].serial
    {
      assert kept[k] in kept;
      var m :| From(nodes, sawExit, current, kept[k], m);
    }
  }
}
