/** The Orbbec liveness timer: while streaming, an enabled stream without a frame for more than 30
    seconds leads to one reboot request, and the next time to the end of the node.

    Times are reals. A tick reads the clock twice, once for its tests and once, later, for the new
    time stamps.
  */
module OrbbecWatchdog {
  import opened Common

  const PATIENCE := 30.0

  datatype Watchdog = Watchdog(
    stamp: PerStream<real>, streaming: bool, enabled: PerStream<bool>,
    firings: nat, reboots: nat, cancelled: bool)
  {
    predicate Stalled(s: Stream, t: real) {
      enabled.Get(s) && t - stamp.Get(s) > PATIENCE
    }

    predicate ShouldReboot(t: real) {
      streaming && exists s: Stream :: Stalled(s, t)
    }

    function Tick(t: real, later: real): Watchdog {
      if !ShouldReboot(t) then this
      else if firings < 1 then this.(stamp := All(later), firings := firings + 1, reboots := reboots + 1)
      else this.(stamp := All(later), firings := firings + 1, cancelled := true)
    }
  }

  function Started(t: real): Watchdog {
    Watchdog(All(t), false, All(true), 0, 0, false)
  }

  /** The fields behind timeout_mutex_, with the timer's callback. */
  class LivenessTimer {
    var stamp: PerStream<real>
    var streaming: bool
    var enabled: PerStream<bool>
    var rebootCount: nat
    var rebootRequests: nat
    var cancelled: bool

    ghost function View(): Watchdog
      reads this
    {
      Watchdog(stamp, streaming, enabled, rebootCount, rebootRequests, cancelled)
    }

    constructor (now: real)
      ensures View() == Started(now)
      ensures stamp == PerStream(now, now, now, now) && !streaming && enabled == PerStream(true, true, true, true)
      ensures rebootCount == 0 && rebootRequests == 0 && !cancelled
    {
      stamp, streaming, enabled := All(now), false, All(true);
      rebootCount, rebootRequests, cancelled := 0, 0, false;
    }

    /** A frame of the stream, or a toggle of it. */
    method Touch(s: Stream, now: real)
      modifies this`stamp
      ensures View() == Next(old(View()), Frame(now, s)) == Next(old(View()), Restamp(now, s))
    {
      stamp := Set(stamp, s, now);
    }

    /** A change of the frame rate. */
    method TouchAll(now: real)
      modifies this`stamp
      ensures View() == Next(old(View()), RestampAll(now))
    {
      stamp := PerStream(now, now, now, now);
    }

    method OnTick(now: real, later: real)
      modifies this
      ensures View() == old(View()).Tick(now, later)
    {
      var shouldReboot := false;
      if streaming {
        if enabled.color && now - stamp.color > 30.0 {
          assert View().Stalled(Color, now);
          shouldReboot := true;
        }
        if enabled.leftIr && now - stamp.leftIr > 30.0 {
          assert View().Stalled(LeftIr, now);
          shouldReboot := true;
        }
        if enabled.rightIr && now - stamp.rightIr > 30.0 {
          assert View().Stalled(RightIr, now);
          shouldReboot := true;
        }
        if enabled.depth && now - stamp.depth > 30.0 {
          assert View().Stalled(Depth, now);
          shouldReboot := true;
        }
      }
      if shouldReboot {
        stamp := All(later);
        var before := rebootCount;
        rebootCount := rebootCount + 1;
        if before < 1 {
          rebootRequests := rebootRequests + 1;
        } else {
          cancelled := true;
        }
      }
    }
  }

  // ----- Runs -----

  datatype Event =
    | Frame(t: real, s: Stream)
    | Restamp(t: real, s: Stream)              // a toggle of the stream
    | RestampAll(t: real)                      // a change of the frame rate
    | SetStreaming(t: real, on: bool)
    | SetEnabled(t: real, s: Stream, on: bool)
    | Tick(t: real, later: real)
  {
    function End(): real {
      if Tick? then later else t
    }
  }

  function Next(w: Watchdog, e: Event): Watchdog {
    match e
    case Frame(t, s) => w.(stamp := Set(w.stamp, s, t))
    case Restamp(t, s) => w.(stamp := Set(w.stamp, s, t))
    case RestampAll(t) => w.(stamp := All(t))
    case SetStreaming(_, on) => w.(streaming := on)
    case SetEnabled(_, s, on) => w.(enabled := Set(w.enabled, s, on))
    case Tick(t, later) => w.Tick(t, later)
  }

  ghost predicate InOrder(t0: real, evs: seq<Event>) {
    && (forall i :: 0 <= i < |evs| ==> t0 <= evs[i].t <= evs[i].End())
    && (forall i, j :: 0 <= i < j < |evs| ==> evs[i].End() <= evs[j].t)
  }

  ghost predicate Behavior(t0: real, states: seq<Watchdog>, evs: seq<Event>) {
    && |states| == |evs| + 1
    && states[0] == Started(t0)
    && InOrder(t0, evs)
    && forall i :: 0 <= i < |evs| ==> states[i + 1] == Next(states[i], evs[i])
  }

  ghost predicate Fires(states: seq<Watchdog>, evs: seq<Event>, i: int)
    requires |states| == |evs| + 1
  {
    0 <= i < |evs| && evs[i].Tick? && states[i].ShouldReboot(evs[i].t)
  }

  /** Step i gives stream s a new time stamp. */
  ghost predicate Refreshes(states: seq<Watchdog>, evs: seq<Event>, i: int, s: Stream)
    requires |states| == |evs| + 1
  {
    && 0 <= i < |evs|
    && match evs[i]
       case Frame(_, u) => u == s
       case Restamp(_, u) => u == s
       case RestampAll(_) => true
       case Tick(_, _) => Fires(states, evs, i)
       case _ => false
  }

  /** The first firing asks for a reboot, every later one ends the node; so a node asks for at most
      one reboot in its life. */
  lemma {:induction false} AtMostOneReboot(t0: real, states: seq<Watchdog>, evs: seq<Event>, i: nat)
    requires Behavior(t0, states, evs) && i <= |evs|
    ensures states[i].reboots == (if states[i].firings == 0 then 0 else 1)
    ensures states[i].cancelled <==> states[i].firings >= 2
  {
    if i > 0 {
      AtMostOneReboot(t0, states, evs, i - 1);
    }
  }

  lemma {:induction false} FiringsOnlyRise(t0: real, states: seq<Watchdog>, evs: seq<Event>, i: nat, j: nat)
    requires Behavior(t0, states, evs) && i <= j <= |evs|
    ensures states[i].firings <= states[j].firings
  {
    if i < j {
      FiringsOnlyRise(t0, states, evs, i, j - 1);
    }
  }

  lemma StampOnStep(states: seq<Watchdog>, evs: seq<Event>, i: nat, s: Stream)
    requires |states| == |evs| + 1 && i < |evs| && states[i + 1] == Next(states[i], evs[i])
    ensures states[i + 1].stamp.Get(s)
            == if Refreshes(states, evs, i, s) then evs[i].End() else states[i].stamp.Get(s)
  {
  }

  /** A stamp is the time of the last refresh, or of the start. */
  lemma {:induction false} StampIsLastRefresh(t0: real, states: seq<Watchdog>, evs: seq<Event>, i: nat, s: Stream)
    requires Behavior(t0, states, evs) && i <= |evs|
    ensures t0 <= states[i].stamp.Get(s)
    ensures forall k :: 0 <= k < i && Refreshes(states, evs, k, s) ==> evs[k].End() <= states[i].stamp.Get(s)
    ensures states[i].stamp.Get(s) == t0
            || exists k :: 0 <= k < i && Refreshes(states, evs, k, s) && evs[k].End() == states[i].stamp.Get(s)
  {
    if i > 0 {
      StampIsLastRefresh(t0, states, evs, i - 1, s);
      StampOnStep(states, evs, i - 1, s);
    }
  }

  /** The timer fires exactly when streaming is on and some enabled stream had neither a frame nor
      any other reset of its stamp in the last 30 seconds, and the node ran for that long. */
  lemma FiresIff(t0: real, states: seq<Watchdog>, evs: seq<Event>, j: nat)
    requires Behavior(t0, states, evs) && j < |evs| && evs[j].Tick?
    ensures Fires(states, evs, j)
            <==> && states[j].streaming
                 && evs[j].t - t0 > 30.0
                 && exists s: Stream ::
                      && states[j].enabled.Get(s)
                      && forall k :: 0 <= k < j && Refreshes(states, evs, k, s) ==> evs[j].t - evs[k].End() > 30.0
  {
    forall s: Stream
      ensures states[j].Stalled(s, evs[j].t)
              <==> && states[j].enabled.Get(s)
                   && evs[j].t - t0 > 30.0
                   && forall k :: 0 <= k < j && Refreshes(states, evs, k, s) ==> evs[j].t - evs[k].End() > 30.0
    {
      StampIsLastRefresh(t0, states, evs, j, s);
    }
  }

  /** A tick does nothing at all as long as no enabled stream's stamp is older than 30 seconds, or
      streaming is off. Otherwise it gives every stream a new stamp and asks for a reboot, the first time,
      or ends the node. */
  lemma TickIsQuietIff(w: Watchdog, t: real, later: real)
    ensures var quiet := !w.streaming || forall s: Stream :: w.enabled.Get(s) ==> t - w.stamp.Get(s) <= 30.0;
            && (quiet ==> w.Tick(t, later) == w)
            && (!quiet ==>
                  && w.Tick(t, later).stamp == PerStream(later, later, later, later)
                  && w.Tick(t, later).firings == w.firings + 1
                  && w.Tick(t, later).reboots == w.reboots + (if w.firings == 0 then 1 else 0)
                  && w.Tick(t, later).cancelled == (w.cancelled || w.firings >= 1))
  {
    assert forall s: Stream :: w.Stalled(s, t) <==> w.enabled.Get(s) && t - w.stamp.Get(s) > 30.0;
  }

  /** Between two firings lie more than 30 seconds. */
  lemma FiringsAreFarApart(t0: real, states: seq<Watchdog>, evs: seq<Event>, i: nat, j: nat)
    requires Behavior(t0, states, evs) && i < j
    requires Fires(states, evs, i) && Fires(states, evs, j)
    ensures evs[j].t - evs[i].later > 30.0
  {
    var s: Stream :| states[j].Stalled(s, evs[j].t);
    assert Refreshes(states, evs, i, s);
    StampIsLastRefresh(t0, states, evs, j, s);
  }

  // ----- A silent stream ends the node -----

  /** From step i on, nothing but a firing touches the stream's stamp, and both switches stay on. */
  ghost predicate SilentFrom(evs: seq<Event>, i: int, s: Stream) {
    forall k :: 0 <= i <= k < |evs| ==>
      match evs[k]
      case Frame(_, u) => u != s
      case Restamp(_, u) => u != s
      case RestampAll(_) => false
      case SetStreaming(_, on) => on
      case SetEnabled(_, u, on) => u == s ==> on
      case Tick(t, later) => later == t
  }

  /** A tick comes within one second after the given time. */
  ghost predicate TickAfter(evs: seq<Event>, a: real) {
    exists k :: 0 <= k < |evs| && evs[k].Tick? && a < evs[k].t <= a + 1.0
  }

  lemma {:induction false} SilenceLasts(t0: real, states: seq<Watchdog>, evs: seq<Event>, i: nat, j: nat, s: Stream)
    requires Behavior(t0, states, evs) && i <= j <= |evs| && SilentFrom(evs, i, s)
    requires states[i].streaming && states[i].enabled.Get(s)
    ensures states[j].streaming && states[j].enabled.Get(s)
    ensures (forall k :: i <= k < j ==> !Fires(states, evs, k)) ==> states[j].stamp.Get(s) == states[i].stamp.Get(s)
  {
    if i < j {
      SilenceLasts(t0, states, evs, i, j - 1, s);
      StampOnStep(states, evs, j - 1, s);
    }
  }

  lemma FiresWithin31(t0: real, states: seq<Watchdog>, evs: seq<Event>, i: nat, s: Stream, from: real) returns (f: nat)
    requires Behavior(t0, states, evs) && i <= |evs| && SilentFrom(evs, i, s)
    requires states[i].streaming && states[i].enabled.Get(s) && states[i].stamp.Get(s) <= from
    requires forall k :: 0 <= k < i ==> evs[k].t <= from
    requires TickAfter(evs, from + 30.0)
    ensures i <= f && Fires(states, evs, f) && evs[f].t <= from + 31.0
  {
    var k :| 0 <= k < |evs| && evs[k].Tick? && from + 30.0 < evs[k].t <= from + 30.0 + 1.0;
    if g :| i <= g < k && Fires(states, evs, g) {
      f := g;
    } else {
      SilenceLasts(t0, states, evs, i, k, s);
      assert states[k].Stalled(s, evs[k].t);
      f := k;
    }
  }

  /** A step from i on, at that time or earlier, ends the node, or finds it ended. */
  ghost predicate EndsBy(states: seq<Watchdog>, evs: seq<Event>, i: nat, t: real)
    requires |states| == |evs| + 1
  {
    exists g :: i <= g < |evs| && evs[g].t <= t && states[g + 1].cancelled
  }

  lemma TickingNodeEnds(t0: real, states: seq<Watchdog>, evs: seq<Event>, i: nat, s: Stream, from: real)
    requires Behavior(t0, states, evs) && i <= |evs| && SilentFrom(evs, i, s)
    requires states[i].streaming && states[i].enabled.Get(s) && states[i].stamp.Get(s) <= from
    requires forall k :: 0 <= k < i ==> evs[k].t <= from
    requires forall a: real :: from <= a <= from + 61.0 ==> TickAfter(evs, a)
    ensures EndsBy(states, evs, i, from + 62.0)
  {
    var f := FiresWithin31(t0, states, evs, i, s, from);
    SilenceLasts(t0, states, evs, i, f + 1, s);
    assert SilentFrom(evs, f + 1, s);
    var again := if evs[f].t < from then from else evs[f].t;
    var g := FiresWithin31(t0, states, evs, f + 1, s, again);
    FiringsOnlyRise(t0, states, evs, f + 1, g);
    AtMostOneReboot(t0, states, evs, g + 1);
    assert states[g + 1].firings >= 2;
  }

  /** Main result on the bound. With a tick in every second until the node ends, a stream that is
      silent from a moment on, while it stays enabled and streaming stays on, leads to the end of the
      node within 62 seconds, whatever the other streams do. */
  lemma SilentStreamEndsNode(t0: real, states: seq<Watchdog>, evs: seq<Event>, i: nat, s: Stream, from: real)
    requires Behavior(t0, states, evs) && i <= |evs| && SilentFrom(evs, i, s)
    requires states[i].streaming && states[i].enabled.Get(s) && states[i].stamp.Get(s) <= from
    requires forall k :: 0 <= k < i ==> evs[k].t <= from
    requires forall a: real :: from <= a <= from + 61.0 ==> TickAfter(evs, a) || EndsBy(states, evs, i, a + 1.0)
    ensures EndsBy(states, evs, i, from + 62.0)
  {
    if a: real :| from <= a <= from + 61.0 && !TickAfter(evs, a) {
      var g :| i <= g < |evs| && evs[g].t <= a + 1.0 && states[g + 1].cancelled;
    } else {
      TickingNodeEnds(t0, states, evs, i, s, from);
    }
  }

  // ----- Switching streaming on -----

  /** The run goes on like this, without a change of the enable flags. */
  ghost predicate GoesOn(
    t0: real, states: seq<Watchdog>, evs: seq<Event>, longer: seq<Watchdog>, more: seq<Event>)
  {
    && Behavior(t0, longer, more) && states <= longer && evs <= more
    && forall k :: |evs| <= k < |more| ==> !more[k].SetEnabled?
  }

  /** However the run goes on, no tick within d seconds of the given time fires. */
  ghost predicate QuietFor(t0: real, states: seq<Watchdog>, evs: seq<Event>, t: real, d: real) {
    forall longer: seq<Watchdog>, more: seq<Event>, k: int ::
      GoesOn(t0, states, evs, longer, more) && |evs| <= k < |more| && more[k].t <= t + d ==> !Fires(longer, more, k)
  }

  lemma {:induction false} StampsOnlyRise(
    t0: real, states: seq<Watchdog>, evs: seq<Event>, i: nat, j: nat, s: Stream)
    requires Behavior(t0, states, evs) && i <= j <= |evs|
    requires forall k :: i <= k < j ==> !evs[k].SetEnabled?
    ensures states[i].stamp.Get(s) <= states[j].stamp.Get(s) && states[j].enabled == states[i].enabled
  {
    if i < j {
      StampsOnlyRise(t0, states, evs, i, j - 1, s);
      StampOnStep(states, evs, j - 1, s);
      StampBeforeStep(t0, states, evs, j - 1, s);
    }
  }

  lemma StampBeforeStep(t0: real, states: seq<Watchdog>, evs: seq<Event>, i: nat, s: Stream)
    requires Behavior(t0, states, evs) && i < |evs|
    ensures states[i].stamp.Get(s) <= evs[i].t
  {
    StampIsLastRefresh(t0, states, evs, i, s);
  }

  /** Switching streaming on resets no stamp. So no tick in the d seconds after it fires, whatever
      comes but a change of the enable flags, exactly when the stamp of every stream that is enabled
      at that moment is at most 30 seconds old even d seconds later. */
  lemma QuietAfterStreamingOnIff(t0: real, states: seq<Watchdog>, evs: seq<Event>, d: real)
    requires Behavior(t0, states, evs) && evs != [] && 0.0 <= d
    requires evs[|evs| - 1].SetStreaming? && evs[|evs| - 1].on
    ensures var t, w := evs[|evs| - 1].t, states[|evs|];
            QuietFor(t0, states, evs, t, d) <==> forall s: Stream :: w.enabled.Get(s) ==> t + d - w.stamp.Get(s) <= 30.0
  {
    var n := |evs|;
    var t, w := evs[n - 1].t, states[n];
    if forall s: Stream :: w.enabled.Get(s) ==> t + d - w.stamp.Get(s) <= 30.0 {
      forall longer: seq<Watchdog>, more: seq<Event>, k: int |
        GoesOn(t0, states, evs, longer, more) && n <= k < |more| && more[k].t <= t + d
        ensures !Fires(longer, more, k)
      {
        assert longer[n] == w;
        forall s: Stream
          ensures !longer[k].Stalled(s, more[k].t)
        {
          StampsOnlyRise(t0, longer, more, n, k, s);
        }
      }
    }
    if s: Stream :| w.enabled.Get(s) && t + d - w.stamp.Get(s) > 30.0 {
      var tick := Tick(t + d, t + d);
      var longer, more := states + [Next(w, tick)], evs + [tick];
      assert w == Next(states[n - 1], evs[n - 1]) && w.streaming;
      assert w.Stalled(s, t + d);
      assert Behavior(t0, longer, more);
      assert GoesOn(t0, states, evs, longer, more) && Fires(longer, more, n);
    }
  }

  /** A run in which the first tick after switching streaming on fires, half a second later, although
      no stream had the time to send a frame. */
  lemma StreamingOnMayFireAtOnce() returns (states: seq<Watchdog>, evs: seq<Event>)
    ensures Behavior(0.0, states, evs)
    ensures evs == [Tick(30.5, 30.5), SetStreaming(31.0, true), Tick(31.5, 31.5)]
    ensures !Fires(states, evs, 0) && Fires(states, evs, 2) && states[3].reboots == 1
  {
    evs := [Tick(30.5, 30.5), SetStreaming(31.0, true), Tick(31.5, 31.5)];
    var w := Started(0.0);
    var on := w.(streaming := true);
    assert on.Stalled(Color, 31.5);
    states := [w, w, on, Next(on, evs[2])];
  }
}
