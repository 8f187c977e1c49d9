/** From the last frame of a Luxonis camera to its replacement: the adapter's liveness timer ends the
    node's executor, the executor's thread raises its exited flag, and the spawner removes the node
    and asks for a new one.

    Timers are ideal; scans, joins and spawns take no time. The model follows one node of a camera
    that stays connected, among any other nodes.
  */
module Recovery {
  import opened Spawner

  /** The adapter's timer and time stamp; the flag stands for the executor's end, the end of its
      thread, and the flag that the thread raises. */
  class LuxonisLiveness {
    var stamp: real
    var exited: bool

    constructor (now: real)
      ensures stamp == now && !exited
    {
      stamp, exited := now, false;
    }

    /** The adapter's part of the state of a run, beside the spawner's nodes. */
    ghost function View(nodes: seq<NodePtr>): Sys
      reads this
    {
      Sys(stamp, exited, nodes)
    }

    /** Callbacks run only while the executor does. */
    method OnImage(now: real)
      requires !exited
      modifies this
      ensures forall p, nodes :: View(nodes) == Next(p, old(View(nodes)), Frame(now))
    {
      stamp := now;
    }

    method OnTick(now: real)
      modifies this
      ensures forall p, nodes :: View(nodes) == Next(p, old(View(nodes)), Tick(now))
    {
      if now - stamp > 30.0 {
        exited := true;
      }
    }
  }

  predicate TimedOut(stamp: real, now: real) {
    now - stamp > 30.0
  }

  datatype Sys = Sys(stamp: real, exited: bool, nodes: seq<NodePtr>)

  datatype Event =
    | Frame(t: real)
    | Tick(t: real)
    | Update(t: real, sawExit: seq<bool>, current: seq<string>, result: seq<NodePtr>)

  ghost predicate Enabled(p: NodePtr, s: Sys, e: Event) {
    e.Update? ==>
      && |e.sawExit| == |s.nodes| && NoNulls(s.nodes)
      && (forall i :: 0 <= i < |s.nodes| && s.nodes[i] == p ==> e.sawExit[i] == s.exited)
      && SpawnContract(Missing(e.current, Survivors(s.nodes, e.sawExit, e.current)), e.result)
      && p !in e.result
  }

  /** A node whose executor has ended handles no more frames and ticks. */
  ghost function Next(p: NodePtr, s: Sys, e: Event): Sys
    requires Enabled(p, s, e)
  {
    match e
    case Frame(t) => if s.exited then s else s.(stamp := t)
    case Tick(t) => s.(exited := s.exited || TimedOut(s.stamp, t))
    case Update(_, sawExit, current, result) =>
      s.(nodes := AfterUpdate(s.nodes, sawExit, current, (request: seq<string>) => result))
  }

  ghost predicate InOrder(t0: real, evs: seq<Event>) {
    && (forall i :: 0 <= i < |evs| ==> t0 <= evs[i].t)
    && (forall i, j :: 0 <= i < j < |evs| ==> evs[i].t <= evs[j].t)
  }

  /** A run that begins when the node p has just started, at t0. */
  ghost predicate Behavior(p: NodePtr, t0: real, states: seq<Sys>, evs: seq<Event>) {
    && p.Ptr?
    && |states| == |evs| + 1
    && states[0].stamp == t0 && !states[0].exited
    && NoNulls(states[0].nodes) && DistinctSerials(states[0].nodes) && p in states[0].nodes
    && InOrder(t0, evs)
    && forall i :: 0 <= i < |evs| ==> Enabled(p, states[i], evs[i]) && states[i + 1] == Next(p, states[i], evs[i])
  }

  lemma {:induction false} NodesStayProper(p: NodePtr, t0: real, states: seq<Sys>, evs: seq<Event>, i: nat)
    requires Behavior(p, t0, states, evs) && i <= |evs|
    ensures NoNulls(states[i].nodes) && DistinctSerials(states[i].nodes)
  {
    if i > 0 {
      NodesStayProper(p, t0, states, evs, i - 1);
      var s, e := states[i - 1], evs[i - 1];
      if e.Update? {
        UpdateStaysDistinct(s.nodes, e.sawExit, e.current, (request: seq<string>) => e.result);
      }
    }
  }

  // ----- The timer -----

  lemma {:induction false} StampIsLastFrame(p: NodePtr, t0: real, states: seq<Sys>, evs: seq<Event>, i: nat)
    requires Behavior(p, t0, states, evs) && i <= |evs| && !states[i].exited
    ensures t0 <= states[i].stamp
    ensures forall k :: 0 <= k < i && evs[k].Frame? ==> evs[k].t <= states[i].stamp
    ensures states[i].stamp == t0 || exists k :: 0 <= k < i && evs[k].Frame? && evs[k].t == states[i].stamp
  {
    if i > 0 {
      StampIsLastFrame(p, t0, states, evs, i - 1);
    }
  }

  /** A tick ends a running node exactly when no frame came in the last 30 seconds and the node ran
      for longer than that. */
  lemma EndsIff(p: NodePtr, t0: real, states: seq<Sys>, evs: seq<Event>, j: nat)
    requires Behavior(p, t0, states, evs) && j < |evs| && evs[j].Tick? && !states[j].exited
    ensures states[j + 1].exited
            <==> evs[j].t - t0 > 30.0 && forall k :: 0 <= k < j && evs[k].Frame? ==> evs[j].t - evs[k].t > 30.0
  {
    StampIsLastFrame(p, t0, states, evs, j);
  }

  ghost predicate TickAfter(evs: seq<Event>, a: real) {
    exists k :: 0 <= k < |evs| && evs[k].Tick? && a < evs[k].t <= a + 1.0
  }

  ghost predicate UpdateAfter(evs: seq<Event>, a: real) {
    exists k :: 0 <= k < |evs| && evs[k].Update? && a < evs[k].t <= a + 20.0
  }

  lemma {:induction false} SilenceKeepsStamp(p: NodePtr, t0: real, states: seq<Sys>, evs: seq<Event>, i: nat, j: nat)
    requires Behavior(p, t0, states, evs) && i <= j <= |evs|
    requires forall k :: i <= k < |evs| ==> !evs[k].Frame?
    ensures states[j].stamp == states[i].stamp
    ensures states[i].exited ==> states[j].exited
  {
    if i < j {
      SilenceKeepsStamp(p, t0, states, evs, i, j - 1);
    }
  }

  /** With a tick in every second, a node without frames ends within 31 seconds of its last one, and
      not before 30 seconds. */
  lemma EndsWithin31(p: NodePtr, t0: real, states: seq<Sys>, evs: seq<Event>, i: nat) returns (x: nat)
    requires Behavior(p, t0, states, evs) && i <= |evs| && !states[i].exited
    requires forall k :: i <= k < |evs| ==> !evs[k].Frame?
    requires forall k :: 0 <= k < i ==> evs[k].t <= states[i].stamp
    requires TickAfter(evs, states[i].stamp + 30.0)
    ensures i <= x < |evs| && !states[x].exited && states[x + 1].exited && evs[x].Tick?
    ensures states[i].stamp + 30.0 < evs[x].t <= states[i].stamp + 31.0
  {
    var last := states[i].stamp;
    var k :| 0 <= k < |evs| && evs[k].Tick? && last + 30.0 < evs[k].t <= last + 30.0 + 1.0;
    SilenceKeepsStamp(p, t0, states, evs, i, k);
    x := FirstExit(p, t0, states, evs, i, k + 1);
    SilenceKeepsStamp(p, t0, states, evs, i, x);
  }

  lemma {:induction false} FirstExit(p: NodePtr, t0: real, states: seq<Sys>, evs: seq<Event>, i: nat, j: nat) returns (x: nat)
    requires Behavior(p, t0, states, evs) && i < j <= |evs| && !states[i].exited && states[j].exited
    ensures i <= x < j && !states[x].exited && states[x + 1].exited
  {
    if states[j - 1].exited {
      x := FirstExit(p, t0, states, evs, i, j - 1);
    } else {
      x := j - 1;
    }
  }

  // ----- The spawner -----

  /** While its thread runs, the node of a connected camera survives every update. */
  lemma {:induction false} RunningNodeStays(p: NodePtr, t0: real, states: seq<Sys>, evs: seq<Event>, i: nat)
    requires Behavior(p, t0, states, evs) && i <= |evs| && !states[i].exited
    requires forall k :: 0 <= k < |evs| && evs[k].Update? ==> p.serial in evs[k].current
    ensures p in states[i].nodes
  {
    if i > 0 {
      RunningNodeStays(p, t0, states, evs, i - 1);
      var s, e := states[i - 1], evs[i - 1];
      if e.Update? {
        SurvivorsMeaning(s.nodes, e.sawExit, e.current);
        var k :| 0 <= k < |s.nodes| && s.nodes[k] == p;
        assert Stays(s.nodes, e.sawExit, e.current, k);
      }
    }
  }

  /** Step k removes the node and asks for its camera again. */
  ghost predicate Replaces(p: NodePtr, states: seq<Sys>, evs: seq<Event>, k: int)
    requires |states| == |evs| + 1 && p.Ptr?
  {
    && 0 <= k < |evs| && evs[k].Update? && NoNulls(states[k].nodes) && |evs[k].sawExit| == |states[k].nodes|
    && p in states[k].nodes && p !in states[k + 1].nodes
    && p.serial in Missing(evs[k].current, Survivors(states[k].nodes, evs[k].sawExit, evs[k].current))
  }

  lemma UpdateReplaces(p: NodePtr, t0: real, states: seq<Sys>, evs: seq<Event>, k: nat)
    requires Behavior(p, t0, states, evs) && k < |evs| && evs[k].Update?
    requires states[k].exited && p in states[k].nodes && p.serial in evs[k].current
    ensures Replaces(p, states, evs, k)
  {
    NodesStayProper(p, t0, states, evs, k);
    var s, e := states[k], evs[k];
    var i :| 0 <= i < |s.nodes| && s.nodes[i] == p;
    ExitedNodeIsReplaced(s.nodes, e.sawExit, e.current, i);
    NonNullMeaning(e.result);
  }

  lemma OnlyUpdatesRemove(p: NodePtr, t0: real, states: seq<Sys>, evs: seq<Event>, k: nat)
    requires Behavior(p, t0, states, evs) && k < |evs|
    ensures !evs[k].Update? ==> states[k + 1].nodes == states[k].nodes
  {
    assert states[k + 1] == Next(p, states[k], evs[k]);
  }

  lemma ReplacedBy(p: NodePtr, t0: real, states: seq<Sys>, evs: seq<Event>, x: nat, j: nat) returns (k: nat)
    requires Behavior(p, t0, states, evs) && x < j < |evs| && evs[j].Update?
    requires states[x + 1].exited && p in states[x + 1].nodes
    requires forall m :: 0 <= m < |evs| && evs[m].Update? ==> p.serial in evs[m].current
    ensures x < k <= j && Replaces(p, states, evs, k)
  {
    if p in states[j].nodes {
      k := j;
    } else {
      k := LastSeen(p, states, x + 1, j);
      OnlyUpdatesRemove(p, t0, states, evs, k);
    }
    ExitedStays(p, t0, states, evs, x + 1, k);
    UpdateReplaces(p, t0, states, evs, k);
  }

  lemma {:induction false} LastSeen(p: NodePtr, states: seq<Sys>, i: nat, j: nat) returns (k: nat)
    requires i < j < |states| && p in states[i].nodes && p !in states[j].nodes
    ensures i <= k < j && p in states[k].nodes && p !in states[k + 1].nodes
  {
    if p in states[j - 1].nodes {
      k := j - 1;
    } else {
      k := LastSeen(p, states, i, j - 1);
    }
  }

  /** Main result. A connected camera that sends no frame after a moment is given up within 31
      seconds of its last frame, and its node is removed and asked for again within 20 seconds more;
      until it is given up, no update removes it. */
  lemma SilentCameraIsReplaced(p: NodePtr, t0: real, states: seq<Sys>, evs: seq<Event>, i: nat)
    returns (x: nat, k: nat)
    requires Behavior(p, t0, states, evs) && i <= |evs| && !states[i].exited
    requires forall m :: i <= m < |evs| ==> !evs[m].Frame?
    requires forall m :: 0 <= m < i ==> evs[m].t <= states[i].stamp
    requires forall m :: 0 <= m < |evs| && evs[m].Update? ==> p.serial in evs[m].current
    requires TickAfter(evs, states[i].stamp + 30.0)
    requires forall m :: 0 <= m < |evs| && evs[m].Tick? ==> UpdateAfter(evs, evs[m].t)
    ensures i <= x < k < |evs|
    ensures states[x + 1].exited && states[i].stamp + 30.0 < evs[x].t <= states[i].stamp + 31.0
    ensures forall m :: 0 <= m <= x ==> !states[m].exited && p in states[m].nodes
    ensures Replaces(p, states, evs, k) && evs[k].t <= states[i].stamp + 51.0
  {
    x := EndsWithin31(p, t0, states, evs, i);
    RunsUpTo(p, t0, states, evs, x);
    k := ReplacedWithin20(p, t0, states, evs, x);
  }

  lemma RunsUpTo(p: NodePtr, t0: real, states: seq<Sys>, evs: seq<Event>, x: nat)
    requires Behavior(p, t0, states, evs) && x < |evs| && !states[x].exited
    requires forall m :: 0 <= m < |evs| && evs[m].Update? ==> p.serial in evs[m].current
    ensures forall m :: 0 <= m <= x ==> !states[m].exited && p in states[m].nodes
  {
    forall m | 0 <= m <= x
      ensures !states[m].exited && p in states[m].nodes
    {
      ExitedStays(p, t0, states, evs, m, x);
      RunningNodeStays(p, t0, states, evs, m);
    }
  }

  lemma NextUpdate(t0: real, evs: seq<Event>, x: nat) returns (j: nat)
    requires InOrder(t0, evs) && x < |evs| && UpdateAfter(evs, evs[x].t)
    ensures x < j < |evs| && evs[j].Update?
    ensures forall k :: x < k <= j ==> evs[k].t <= evs[x].t + 20.0
  {
    j :| 0 <= j < |evs| && evs[j].Update? && evs[x].t < evs[j].t <= evs[x].t + 20.0;
  }

  lemma ReplacedWithin20(p: NodePtr, t0: real, states: seq<Sys>, evs: seq<Event>, x: nat) returns (k: nat)
    requires Behavior(p, t0, states, evs) && x < |evs| && evs[x].Tick?
    requires states[x + 1].exited && p in states[x].nodes
    requires forall m :: 0 <= m < |evs| && evs[m].Update? ==> p.serial in evs[m].current
    requires UpdateAfter(evs, evs[x].t)
    ensures x < k < |evs| && Replaces(p, states, evs, k) && evs[k].t <= evs[x].t + 20.0
  {
    var j := NextUpdate(t0, evs, x);
    OnlyUpdatesRemove(p, t0, states, evs, x);
    k := ReplacedBy(p, t0, states, evs, x, j);
  }

  lemma {:induction false} ExitedStays(p: NodePtr, t0: real, states: seq<Sys>, evs: seq<Event>, i: nat, j: nat)
    requires Behavior(p, t0, states, evs) && i <= j <= |evs|
    ensures states[i].exited ==> states[j].exited
  {
    if i < j {
      ExitedStays(p, t0, states, evs, i, j - 1);
    }
  }
}
