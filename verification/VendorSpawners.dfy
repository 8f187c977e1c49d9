/** What the four vendors put in for the spawner's GetSerials and SpawnNodes, when they meet what the
    spawner expects, and what follows for its runs. New nodes get consecutive numbers, starting at
    `next`.
  */
module VendorSpawners {
  import opened Common
  import opened Spawner
  import opened SpawnerRuns

  datatype Device = Device(serial: string, connection: string)

  function Wanted(xs: seq<string>, keep: set<string>): seq<string> {
    if xs == [] then []
    else Wanted(xs[..|xs| - 1], keep) + if xs[|xs| - 1] in keep then [xs[|xs| - 1]] else []
  }

  function Nodes(serials: seq<string>, next: nat): seq<NodePtr> {
    seq(|serials|, i requires 0 <= i < |serials| => Ptr(next + i, serials[i]))
  }

  function SetOf(xs: seq<string>): set<string> {
    set x | x in xs
  }

  lemma {:induction false} WantedMeaning(xs: seq<string>, keep: set<string>)
    ensures forall x :: x in Wanted(xs, keep) <==> x in xs && x in keep
    ensures DistinctStrings(xs) ==> DistinctStrings(Wanted(xs, keep))
  {
    if xs != [] {
      var n := |xs| - 1;
      WantedMeaning(xs[..n], keep);
      assert xs == xs[..n] + [xs[n]];
    }
  }

  /** A serial is kept, as often as it stands there, in its place, exactly when it is asked for. */
  lemma WantedAt(xs: seq<string>, keep: set<string>, i: nat)
    requires i < |xs|
    ensures Wanted(xs, keep) == Wanted(xs[..i], keep) + (if xs[i] in keep then [xs[i]] else []) + Wanted(xs[i + 1..], keep)
  {
    assert xs == xs[..i + 1] + xs[i + 1..];
    WantedDistributes(xs[..i + 1], xs[i + 1..], keep);
    assert xs[..i + 1][..i] == xs[..i];
  }

  lemma {:induction false} WantedDistributes(a: seq<string>, b: seq<string>, keep: set<string>)
    ensures Wanted(a + b, keep) == Wanted(a, keep) + Wanted(b, keep)
  {
    if b == [] {
      assert a + b == a;
    } else {
      var front, x := b[..|b| - 1], b[|b| - 1];
      assert (a + b)[..|a + b| - 1] == a + front && (a + b)[|a + b| - 1] == x;
      WantedDistributes(a, front, keep);
      assert (Wanted(a, keep) + Wanted(front, keep)) + [x] == Wanted(a, keep) + (Wanted(front, keep) + [x]);
    }
  }

  /** Nodes for serials that were asked for meet the spawner's expectation exactly when no serial
      comes twice; none of them shares its number with another. */
  lemma ContractIffDistinct(serials: seq<string>, next: nat, request: seq<string>)
    requires forall s :: s in serials ==> s in request
    ensures SpawnContract(request, Nodes(serials, next)) <==> DistinctStrings(serials)
    ensures forall i, j :: 0 <= i < j < |serials| ==> Nodes(serials, next)[i].id != Nodes(serials, next)[j].id
  {
    var nodes := Nodes(serials, next);
    if DistinctSerials(nodes) {
      forall i, j | 0 <= i < j < |serials|
        ensures serials[i] != serials[j]
      {
        assert nodes[i].serial != nodes[j].serial;
      }
    }
  }

  /** What the vendors' SpawnNodes can return for a request. Orbbec and Luxonis go through a device
      list, which is taken to name no device twice. */
  datatype Vendor = Ensenso | Zivid | Listed

  ghost predicate Returns(v: Vendor, request: seq<string>, result: seq<NodePtr>) {
    match v
    case Ensenso =>
      exists serials, next :: DistinctStrings(serials) && SetOf(serials) <= SetOf(request) && result == Nodes(serials, next)
    case Zivid => exists buildable, next :: result == Nodes(Wanted(request, buildable), next)
    case Listed =>
      exists devices, next :: DistinctStrings(devices) && result == Nodes(Wanted(devices, SetOf(request)), next)
  }

  // ----- Orbbec and Luxonis -----

  /** Orbbec: the devices on the network, in the order of the device list. `at` tells where in the
      list each serial stands. */
  method OrbbecGetSerials(list: seq<Device>) returns (serials: seq<string>, ghost at: seq<nat>)
    ensures |at| == |serials| && Increasing(at)
    ensures forall k :: 0 <= k < |at| ==>
              at[k] < |list| && list[at[k]] == Device(serials[k], "Ethernet")
    ensures forall i :: 0 <= i < |list| && list[i].connection == "Ethernet" ==> i in at
    ensures forall s :: s in serials <==> Device(s, "Ethernet") in list
    ensures (forall i, j :: 0 <= i < j < |list| ==> list[i].serial != list[j].serial) ==> DistinctStrings(serials)
  {
    serials, at := [], [];
    for i := 0 to |list|
      invariant |at| == |serials| && Increasing(at)
      invariant forall k :: 0 <= k < |at| ==> at[k] < i && list[at[k]] == Device(serials[k], "Ethernet")
      invariant forall m :: 0 <= m < i && list[m].connection == "Ethernet" ==> m in at
    {
      if list[i].connection == "Ethernet" {
        serials := serials + [list[i].serial];
        at := at + [i];
      }
    }
    forall i | 0 <= i < |list| && list[i].connection == "Ethernet"
      ensures list[i].serial in serials
    {
      var k :| 0 <= k < |at| && at[k] == i;
      assert serials[k] == list[i].serial;
    }
  }

  /** Orbbec and Luxonis: a node for each device of the vendor's list that was asked for. The
      expectation is met exactly when no requested serial stands twice in that list. */
  method SpawnListed(devices: seq<string>, request: seq<string>, next: nat) returns (nodes: seq<NodePtr>)
    ensures nodes == Nodes(Wanted(devices, SetOf(request)), next)
    ensures SpawnContract(request, nodes) <==> DistinctStrings(Wanted(devices, SetOf(request)))
    ensures forall s :: Spawned(nodes, s) <==> s in request && s in devices
    ensures DistinctStrings(devices) ==> Returns(Listed, request, nodes)
  {
    nodes := [];
    var serialsToSpawn := SetOf(request);
    for i := 0 to |devices|
      invariant nodes == Nodes(Wanted(devices[..i], serialsToSpawn), next)
    {
      assert devices[..i + 1][..i] == devices[..i];
      if devices[i] in serialsToSpawn {
        nodes := nodes + [Ptr(next + |nodes|, devices[i])];
      }
    }
    assert devices[..|devices|] == devices;
    WantedMeaning(devices, serialsToSpawn);
    ContractIffDistinct(Wanted(devices, serialsToSpawn), next, request);
    SpawnedIffListed(Wanted(devices, serialsToSpawn), next);
  }

  lemma SpawnedIffListed(serials: seq<string>, next: nat)
    ensures forall s :: Spawned(Nodes(serials, next), s) <==> s in serials
  {
    forall s | s in serials
      ensures Spawned(Nodes(serials, next), s)
    {
      var i :| 0 <= i < |serials| && serials[i] == s;
      assert Nodes(serials, next)[i].serial == s;
    }
  }

  // ----- Ensenso -----

  predicate IsCameraName(name: string) {
    name != "BySerialNo" && name != "ByEepromId"
  }

  /** Ensenso: the names under BySerialNo, in order, without the two entries that are no cameras.
      Reading an entry may throw (None); then the names of the n entries read so far are returned.
      `at` tells where each name stands. */
  method EnsensoGetSerials(treeExists: bool, entries: seq<Option<string>>)
    returns (serials: seq<string>, ghost n: nat, ghost at: seq<nat>)
    ensures n <= |entries| && if treeExists then n < |entries| ==> entries[n].None? else n == 0
    ensures forall i :: 0 <= i < n ==> entries[i].Some?
    ensures |at| == |serials| && Increasing(at)
    ensures forall k :: 0 <= k < |at| ==> at[k] < n && entries[at[k]] == Some(serials[k]) && IsCameraName(serials[k])
    ensures forall i :: 0 <= i < n && IsCameraName(entries[i].value) ==> i in at
    ensures !treeExists ==> serials == []
    ensures (forall i :: 0 <= i < |entries| ==> entries[i].Some?) && treeExists ==>
              forall s :: s in serials <==> Some(s) in entries && s != "BySerialNo" && s != "ByEepromId"
  {
    serials, n, at := [], 0, [];
    if treeExists {
      for i := 0 to |entries|
        invariant n == i
        invariant forall k :: 0 <= k < i ==> entries[k].Some?
        invariant |at| == |serials| && Increasing(at)
        invariant forall k :: 0 <= k < |at| ==> at[k] < i && entries[at[k]] == Some(serials[k]) && IsCameraName(serials[k])
        invariant forall m :: 0 <= m < i && IsCameraName(entries[m].value) ==> m in at
      {
        if entries[i].None? {
          return;
        }
        var name := entries[i].value;
        if name != "BySerialNo" && name != "ByEepromId" {
          serials := serials + [name];
          at := at + [i];
        }
        n := n + 1;
      }
    }
    forall i | 0 <= i < n && IsCameraName(entries[i].value)
      ensures entries[i].value in serials
    {
      var k :| 0 <= k < |at| && at[k] == i;
      assert serials[k] == entries[i].value;
    }
  }

  /** Ensenso: the request becomes a set, which is visited in any order; a node for each camera that
      is available. The expectation is met even when the request names a serial twice. */
  method EnsensoSpawnNodes(request: seq<string>, available: set<string>, next: nat) returns (nodes: seq<NodePtr>)
    ensures SpawnContract(request, nodes) && Returns(Ensenso, request, nodes)
    ensures forall s :: Spawned(nodes, s) <==> s in request && s in available
  {
    nodes := [];
    ghost var serials := [];
    var todo := SetOf(request);
    ghost var visited := {};
    while todo != {}
      invariant nodes == Nodes(serials, next)
      invariant visited !! todo && visited + todo == SetOf(request)
      invariant DistinctStrings(serials)
      invariant forall s :: s in serials <==> s in visited && s in available
      decreases todo
    {
      var serial :| serial in todo;
      todo := todo - {serial};
      visited := visited + {serial};
      if serial in available {
        nodes := nodes + [Ptr(next + |nodes|, serial)];
        serials := serials + [serial];
      }
    }
    ContractIffDistinct(serials, next, request);
    SpawnedIffListed(serials, next);
  }

  // ----- Zivid -----

  /** Zivid: a node for each entry of the request, in order; one that cannot be built is left out.
      The expectation is met exactly when no serial that can be built is asked for twice. */
  method ZividSpawnNodes(request: seq<string>, buildable: set<string>, next: nat) returns (nodes: seq<NodePtr>)
    ensures nodes == Nodes(Wanted(request, buildable), next)
    ensures SpawnContract(request, nodes) <==> DistinctStrings(Wanted(request, buildable))
    ensures forall s :: Spawned(nodes, s) <==> s in request && s in buildable
    ensures Returns(Zivid, request, nodes)
  {
    nodes := [];
    for i := 0 to |request|
      invariant nodes == Nodes(Wanted(request[..i], buildable), next)
    {
      assert request[..i + 1][..i] == request[..i];
      if request[i] in buildable {
        nodes := nodes + [Ptr(next + |nodes|, request[i])];
      }
    }
    assert request[..|request|] == request;
    WantedMeaning(request, buildable);
    ContractIffDistinct(Wanted(request, buildable), next, request);
    SpawnedIffListed(Wanted(request, buildable), next);
  }

  /** Together with the spawner's own loop: when the scan names no camera twice, neither does the
      request, and Zivid's nodes meet the expectation whatever fails. */
  lemma DistinctScanIsEnough(current: seq<string>, kept: seq<NodePtr>, buildable: set<string>, next: nat)
    requires DistinctStrings(current)
    ensures var request := Missing(current, kept); SpawnContract(request, Nodes(Wanted(request, buildable), next))
  {
    var request := Missing(current, kept);
    MissingMeaning(current, kept);
    WantedMeaning(request, buildable);
    ContractIffDistinct(Wanted(request, buildable), next, request);
  }

  /** But the spawner does not remove doubles from a scan: a new camera that the scan names twice
      gets two Zivid nodes. */
  lemma DoubleScanSpawnsTwice(serial: string, next: nat)
    ensures var request := Missing([serial, serial], []);
            && request == [serial, serial]
            && !DistinctSerials(AfterUpdate([], [], [serial, serial], (r: seq<string>) => Nodes(Wanted(r, {serial}), next)))
  {
    var current := [serial, serial];
    var nodes := Nodes(current, next);
    TwiceMissing(serial);
    TwiceWanted(serial);
    BothKept(nodes[0], nodes[1]);
    assert nodes == [nodes[0], nodes[1]];
    SpawnedFromNothing(current, (r: seq<string>) => Nodes(Wanted(r, {serial}), next), nodes);
    assert nodes[0].serial == nodes[1].serial;
  }

  lemma SpawnedFromNothing(current: seq<string>, spawn: seq<string> -> seq<NodePtr>, nodes: seq<NodePtr>)
    requires Missing(current, []) == current != [] && NonNull(spawn(current)) == nodes
    ensures AfterUpdate([], [], current, spawn) == nodes
  {
    assert Survivors([], [], current) == [];
    assert [] + nodes == nodes;
  }

  lemma TwiceMissing(serial: string)
    ensures Missing([serial, serial], []) == [serial, serial]
  {
    assert [serial, serial][..1] == [serial] && [serial][..0] == [];
    assert Missing([serial], []) == Missing([], []) + [serial];
  }

  lemma TwiceWanted(serial: string)
    ensures Wanted([serial, serial], {serial}) == [serial, serial]
  {
    assert [serial, serial][..1] == [serial] && [serial][..0] == [];
    assert Wanted([serial], {serial}) == Wanted([], {serial}) + [serial];
  }

  lemma BothKept(a: NodePtr, b: NodePtr)
    requires a.Ptr? && b.Ptr?
    ensures NonNull([a, b]) == [a, b]
  {
    assert [a, b][..1] == [a] && [a][..0] == [];
    assert NonNull([a]) == NonNull([]) + [a];
  }

  // ----- The vendors' runs -----

  lemma VendorMeetsContract(v: Vendor, request: seq<string>, result: seq<NodePtr>)
    requires Returns(v, request, result)
    requires v.Zivid? ==> DistinctStrings(request)
    ensures SpawnContract(request, result)
  {
    match v
    case Ensenso =>
      var serials, next :|
        DistinctStrings(serials) && SetOf(serials) <= SetOf(request) && result == Nodes(serials, next);
      assert forall s :: s in serials ==> s in SetOf(serials);
      ContractIffDistinct(serials, next, request);
    case Zivid =>
      var buildable, next :| result == Nodes(Wanted(request, buildable), next);
      WantedMeaning(request, buildable);
      ContractIffDistinct(Wanted(request, buildable), next, request);
    case Listed =>
      var devices, next :| DistinctStrings(devices) && result == Nodes(Wanted(devices, SetOf(request)), next);
      WantedMeaning(devices, SetOf(request));
      ContractIffDistinct(Wanted(devices, SetOf(request)), next, request);
  }

  /** A run of the spawner with one vendor's SpawnNodes. */
  ghost predicate VendorBehavior(v: Vendor, states: seq<Sys>, evs: seq<Event>) {
    && |states| == |evs| + 1
    && states[0] == START
    && forall i :: 0 <= i < |evs| ==>
         && Possible(states[i], evs[i]) && states[i + 1] == Next(states[i], evs[i])
         && (evs[i].Update? ==> Returns(v, Request(states[i], evs[i].u, evs[i].sawExit), evs[i].result))
  }

  ghost predicate ScansWithoutDoubles(evs: seq<Event>) {
    forall i :: 0 <= i < |evs| && evs[i].Scan? ==> DistinctStrings(evs[i].serials)
  }

  lemma {:induction false} WaitingScansAreDistinct(v: Vendor, states: seq<Sys>, evs: seq<Event>, i: nat, u: nat)
    requires VendorBehavior(v, states, evs) && i <= |evs| && u in states[i].scans && ScansWithoutDoubles(evs)
    ensures DistinctStrings(states[i].scans[u])
  {
    if i > 0 {
      assert states[i] == Next(states[i - 1], evs[i - 1]);
      if u in states[i - 1].scans {
        WaitingScansAreDistinct(v, states, evs, i - 1, u);
      }
    }
  }

  /** What is proved of the spawner's runs holds with each vendor's own SpawnNodes: with Zivid's for
      scans that name no camera twice, with the others' for any scans. */
  lemma VendorRunsAreSafe(v: Vendor, states: seq<Sys>, evs: seq<Event>)
    requires VendorBehavior(v, states, evs)
    requires v.Zivid? ==> ScansWithoutDoubles(evs)
    ensures Behavior(states, evs)
    ensures forall i :: 0 <= i <= |evs| ==> Inv(states[i])
  {
    forall i | 0 <= i < |evs|
      ensures Enabled(states[i], evs[i])
    {
      var s, e := states[i], evs[i];
      if e.Update? {
        if v.Zivid? {
          WaitingScansAreDistinct(v, states, evs, i, e.u);
          MissingMeaning(s.scans[e.u], Survivors(s.nodes, e.sawExit, s.scans[e.u]));
        }
        VendorMeetsContract(v, Request(s, e.u, e.sawExit), e.result);
      }
    }
    forall i | 0 <= i <= |evs|
      ensures Inv(states[i])
    {
      InvHolds(states, evs, i);
    }
  }
}
