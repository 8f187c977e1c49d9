/** The adapter's copy ("shadow") of the device's automatic white balance. Disabling it twice resets
    the device's white balance, so a disable is sent only while the shadow says it is on; the shadow
    changes only when a reply says so. Requests travel asynchronously, any number at a time, and so
    do white balance values.
  */
module OrbbecWhiteBalance {
  import opened Common
  import opened OrbbecParameters

  /** A request on its way; `served` becomes the device's answer. */
  datatype Request = Request(value: bool, served: Option<bool>)

  /** `pending` holds the requests on automatic white balance that are outstanding, `values` the white
      balance values on their way, which nobody waits for. */
  datatype Sys = Sys(shadow: bool, device: bool, pending: seq<Request>, values: seq<int> := [])

  datatype Event =
    | Post(on: bool)                    // an accepted entry auto_white_balance
    | Serve(k: nat, success: bool)      // the device handles a request
    | Deliver(k: nat)                   // its reply reaches the adapter
    | Lose(k: nat)                      // the adapter gets no valid reply
    | SendValue(kelvin: int)            // an accepted entry white_balance
    | ServeValue(k: nat)                // the device handles a value
    | NewDriver                         // the driver node is created again and starts in automatic mode

  const START := Sys(true, true, [])

  predicate Enabled(s: Sys, e: Event) {
    match e
    case Post(_) => true
    case Serve(k, _) => k < |s.pending| && s.pending[k].served.None?
    case Deliver(k) => k < |s.pending| && s.pending[k].served.Some?
    case Lose(k) => k < |s.pending|
    case SendValue(_) => true
    case ServeValue(k) => k < |s.values|
    case NewDriver => true
  }

  function Without<T>(xs: seq<T>, k: nat): seq<T>
    requires k < |xs|
  {
    xs[..k] + xs[k + 1..]
  }

  function Requests(effects: seq<Effect>): seq<Request> {
    if effects == [] then []
    else Requests(Front(effects))
         + if Last(effects).SetAutoWhiteBalance? then [Request(Last(effects).on, None)] else []
  }

  function Next(s: Sys, e: Event): Sys
    requires Enabled(s, e)
  {
    match e
    case Post(on) => s.(pending := s.pending + Requests(EffectsOf(AutoWhiteBalance(on), false, s.shadow)))
    case Serve(k, success) =>
      s.(device := if success then s.pending[k].value else s.device,
         pending := s.pending[k := s.pending[k].(served := Some(success))])
    case Deliver(k) =>
      s.(shadow := ShadowAfter(s.shadow, true, s.pending[k].served.value, s.pending[k].value),
         pending := Without(s.pending, k))
    case Lose(k) =>
      s.(shadow := ShadowAfter(s.shadow, false, false, s.pending[k].value), pending := Without(s.pending, k))
    case SendValue(kelvin) => s.(values := s.values + [kelvin])
    case ServeValue(k) => s.(values := Without(s.values, k))
    case NewDriver => s.(device := true)
  }

  ghost predicate Behavior(states: seq<Sys>, evs: seq<Event>) {
    && |states| == |evs| + 1
    && states[0] == START
    && forall i :: 0 <= i < |evs| ==> Enabled(states[i], evs[i]) && states[i + 1] == Next(states[i], evs[i])
  }

  lemma SendsWhen(on: bool, shadow: bool)
    ensures Requests(EffectsOf(AutoWhiteBalance(on), false, shadow))
            == if on || shadow then [Request(on, None)] else []
  {
    if on || shadow {
      assert Front([SetAutoWhiteBalance(on)]) == [];
    }
  }

  // ----- The shadow follows the replies -----

  ghost predicate SuccessDelivered(states: seq<Sys>, evs: seq<Event>, i: int, value: bool)
    requires Behavior(states, evs)
  {
    && 0 <= i < |evs| && evs[i].Deliver?
    && states[i].pending[evs[i].k] == Request(value, Some(true))
  }

  ghost predicate AnySuccessDelivered(states: seq<Sys>, evs: seq<Event>, i: int)
    requires Behavior(states, evs)
  {
    SuccessDelivered(states, evs, i, true) || SuccessDelivered(states, evs, i, false)
  }

  /** The shadow is the value of the last delivered success, and true before the first one. */
  lemma {:induction false} ShadowIsLastSuccess(states: seq<Sys>, evs: seq<Event>, i: nat)
    requires Behavior(states, evs) && i <= |evs|
    ensures || (states[i].shadow && forall k :: 0 <= k < i ==> !AnySuccessDelivered(states, evs, k))
            || (exists k :: 0 <= k < i && SuccessDelivered(states, evs, k, states[i].shadow)
                            && forall m :: k < m < i ==> !AnySuccessDelivered(states, evs, m))
  {
    if i > 0 {
      ShadowIsLastSuccess(states, evs, i - 1);
      assert states[i] == Next(states[i - 1], evs[i - 1]);
      if AnySuccessDelivered(states, evs, i - 1) {
        assert SuccessDelivered(states, evs, i - 1, states[i].shadow);
      } else {
        assert states[i].shadow == states[i - 1].shadow;
      }
    }
  }

  // ----- No disable reaches a disabled device -----

  ghost predicate Redisables(states: seq<Sys>, evs: seq<Event>, i: int)
    requires Behavior(states, evs)
  {
    0 <= i < |evs| && evs[i].Serve? && !states[i].pending[evs[i].k].value && !states[i].device
  }

  ghost predicate NeverRedisables(states: seq<Sys>, evs: seq<Event>)
    requires Behavior(states, evs)
  {
    forall i :: 0 <= i < |evs| ==> !Redisables(states, evs, i)
  }

  ghost predicate LosesSuccess(s: Sys, e: Event)
    requires Enabled(s, e)
  {
    e.Lose? && s.pending[e.k].served == Some(true)
  }

  /** At most n requests are outstanding at any time, and, unless `losses` allows it, no reply on a
      success is lost. */
  ghost predicate Orderly(states: seq<Sys>, evs: seq<Event>, n: nat, losses: bool)
    requires Behavior(states, evs)
  {
    && (forall i :: 0 <= i < |states| ==> |states[i].pending| <= n)
    && (losses || forall i :: 0 <= i < |evs| ==> !LosesSuccess(states[i], evs[i]))
  }

  predicate Consistent(s: Sys) {
    if s.pending == [] then s.shadow ==> s.device
    else
      var r := s.pending[0];
      && |s.pending| == 1
      && (r.served != Some(true) ==> (s.shadow ==> s.device))
      && (r.served == None && !r.value ==> s.shadow)
      && (r.served == Some(true) && r.value ==> s.device)
  }

  lemma StepKeepsConsistent(s: Sys, e: Event)
    requires Consistent(s) && Enabled(s, e) && !LosesSuccess(s, e) && |Next(s, e).pending| <= 1
    ensures Consistent(Next(s, e))
  {
    if e.Post? {
      SendsWhen(e.on, s.shadow);
    }
  }

  lemma {:induction false} OrderlyIsConsistent(states: seq<Sys>, evs: seq<Event>, i: nat)
    requires Behavior(states, evs) && i <= |evs| && Orderly(states, evs, 1, false)
    ensures Consistent(states[i])
  {
    if i > 0 {
      OrderlyIsConsistent(states, evs, i - 1);
      assert |states[i].pending| <= 1 && states[i] == Next(states[i - 1], evs[i - 1]);
      StepKeepsConsistent(states[i - 1], evs[i - 1]);
    }
  }

  /** With one request at a time and no success reply lost, the device is never told to disable
      what is disabled already, however often the driver is created again. */
  lemma OneAtATimeNeverRedisables(states: seq<Sys>, evs: seq<Event>)
    requires Behavior(states, evs) && Orderly(states, evs, 1, false)
    ensures NeverRedisables(states, evs)
  {
    forall i | 0 <= i < |evs|
      ensures !Redisables(states, evs, i)
    {
      OrderlyIsConsistent(states, evs, i);
    }
  }

  lemma OneMoreStep(states: seq<Sys>, evs: seq<Event>, n: nat, losses: bool, e: Event, s: Sys)
    returns (longer: seq<Sys>, more: seq<Event>)
    requires Behavior(states, evs) && Orderly(states, evs, n, losses)
    requires Enabled(states[|evs|], e) && s == Next(states[|evs|], e)
    requires |s.pending| <= n && (losses || !e.Lose?)
    ensures more == evs + [e] && longer == states + [s]
    ensures Behavior(longer, more) && Orderly(longer, more, n, losses)
  {
    more, longer := evs + [e], states + [s];
  }

  lemma ServedAndDelivered(shadow: bool, device: bool, r: Request)
    requires r.served == None
    ensures Next(Sys(shadow, device, [r]), Serve(0, true)) == Sys(shadow, r.value, [r.(served := Some(true))])
    ensures Next(Sys(shadow, r.value, [r.(served := Some(true))]), Deliver(0)) == Sys(r.value, r.value, [])
  {
    assert [r][0 := r.(served := Some(true))] == [r.(served := Some(true))];
    assert Without([r.(served := Some(true))], 0) == [];
  }

  ghost predicate SafeWith(n: nat, losses: bool) {
    forall states, evs :: Behavior(states, evs) && Orderly(states, evs, n, losses) ==> NeverRedisables(states, evs)
  }

  /** Two outstanding requests: a second disable is on its way before the reply to the first. */
  lemma TwoAtATimeRedisables() returns (states: seq<Sys>, evs: seq<Event>)
    ensures Behavior(states, evs) && Orderly(states, evs, 2, false) && !NeverRedisables(states, evs)
    ensures evs == [Post(false), Post(false), Serve(0, true), Serve(1, true)]
  {
    var off, done := Request(false, None), Request(false, Some(true));
    TwoDisables(off, done);
    states, evs := OneMoreStep([START], [], 2, false, Post(false), Sys(true, true, [off]));
    states, evs := OneMoreStep(states, evs, 2, false, Post(false), Sys(true, true, [off, off]));
    states, evs := OneMoreStep(states, evs, 2, false, Serve(0, true), Sys(true, false, [done, off]));
    states, evs := OneMoreStep(states, evs, 2, false, Serve(1, true), Sys(true, false, [done, done]));
    assert Redisables(states, evs, 3);
  }

  lemma TwoDisables(off: Request, done: Request)
    requires off == Request(false, None) && done == Request(false, Some(true))
    ensures Next(START, Post(false)) == Sys(true, true, [off])
    ensures Next(Sys(true, true, [off]), Post(false)) == Sys(true, true, [off, off])
    ensures Next(Sys(true, true, [off, off]), Serve(0, true)) == Sys(true, false, [done, off])
    ensures Next(Sys(true, false, [done, off]), Serve(1, true)) == Sys(true, false, [done, done])
  {
    SendsWhen(false, true);
    assert [] + [off] == [off] && [off] + [off] == [off, off];
    assert [off, off][0 := off.(served := Some(true))] == [done, off];
    assert [done, off][1 := off.(served := Some(true))] == [done, done];
  }

  /** One outstanding request, and the reply to a successful disable is lost. */
  lemma LostReplyRedisables() returns (states: seq<Sys>, evs: seq<Event>)
    ensures Behavior(states, evs) && Orderly(states, evs, 1, true) && !NeverRedisables(states, evs)
    ensures evs == [Post(false), Serve(0, true), Lose(0), Post(false), Serve(0, true)]
  {
    states, evs := LostReplyRun();
    var off, done := Request(false, None), Request(false, Some(true));
    SecondDisable(off, done);
    states, evs := OneMoreStep(states, evs, 1, true, Post(false), Sys(true, false, [off]));
    states, evs := OneMoreStep(states, evs, 1, true, Serve(0, true), Sys(true, false, [done]));
    assert states[4] == Sys(true, false, [off]);
    assert Redisables(states, evs, 4);
  }

  lemma SecondDisable(off: Request, done: Request)
    requires off == Request(false, None) && done == Request(false, Some(true))
    ensures Next(Sys(true, false, []), Post(false)) == Sys(true, false, [off])
    ensures Next(Sys(true, false, [off]), Serve(0, true)) == Sys(true, false, [done])
  {
    SendsWhen(false, true);
    ServedAndDelivered(true, false, off);
    assert [] + [off] == [off];
  }

  /** The device switches automatic white balance off, and the adapter does not learn of it. */
  lemma LostReplyRun() returns (states: seq<Sys>, evs: seq<Event>)
    ensures Behavior(states, evs) && Orderly(states, evs, 1, true)
    ensures evs == [Post(false), Serve(0, true), Lose(0)] && states[3] == Sys(true, false, [])
  {
    var off := Request(false, None);
    var done := off.(served := Some(true));
    SendsWhen(false, true);
    ServedAndDelivered(true, true, off);
    assert Without([done], 0) == [];
    states, evs := OneMoreStep([START], [], 1, true, Post(false), Sys(true, true, [off]));
    states, evs := OneMoreStep(states, evs, 1, true, Serve(0, true), Sys(true, false, [done]));
    states, evs := OneMoreStep(states, evs, 1, true, Lose(0), Sys(true, false, []));
  }

  /** The protection holds in all runs exactly when at most one request is outstanding at a time and
      no reply on a success is lost, or when nothing can be sent at all. */
  lemma ProtectionNeedsOneAtATime(n: nat, losses: bool)
    ensures SafeWith(n, losses) <==> n == 0 || (n == 1 && !losses)
  {
    if n == 0 || (n == 1 && !losses) {
      forall states, evs | Behavior(states, evs) && Orderly(states, evs, n, losses)
        ensures NeverRedisables(states, evs)
      {
        if n == 0 {
          NothingSentIsSafe(states, evs, losses);
        } else {
          OneAtATimeNeverRedisables(states, evs);
        }
      }
    } else if n == 1 {
      var states, evs := LostReplyRedisables();
    } else {
      var states, evs := TwoAtATimeRedisables();
      assert Orderly(states, evs, n, losses);
    }
  }

  lemma NothingSentIsSafe(states: seq<Sys>, evs: seq<Event>, losses: bool)
    requires Behavior(states, evs) && Orderly(states, evs, 0, losses)
    ensures NeverRedisables(states, evs)
  {
    forall i | 0 <= i < |evs|
      ensures !Redisables(states, evs, i)
    {
      assert |states[i].pending| <= 0;
    }
  }

  // ----- The shadow and the device -----

  predicate InStep(s: Sys) {
    if s.pending == [] then s.shadow == s.device
    else
      && |s.pending| == 1
      && if s.pending[0].served == Some(true) then s.device == s.pending[0].value else s.shadow == s.device
  }

  lemma StepKeepsInStep(s: Sys, e: Event)
    requires InStep(s) && Enabled(s, e) && e != NewDriver && !LosesSuccess(s, e) && |Next(s, e).pending| <= 1
    ensures InStep(Next(s, e))
  {
    if e.Post? {
      SendsWhen(e.on, s.shadow);
    }
  }

  /** As long as the driver is not created again, shadow and device agree whenever nothing is
      outstanding. */
  lemma {:induction false} ShadowMatchesDevice(states: seq<Sys>, evs: seq<Event>, i: nat)
    requires Behavior(states, evs) && i <= |evs| && Orderly(states, evs, 1, false)
    requires NewDriver !in evs
    ensures InStep(states[i])
    ensures states[i].pending == [] ==> states[i].shadow == states[i].device
  {
    if i > 0 {
      ShadowMatchesDevice(states, evs, i - 1);
      assert evs[i - 1] != NewDriver;
      assert states[i] == Next(states[i - 1], evs[i - 1]);
      assert |states[i].pending| <= 1 && !LosesSuccess(states[i - 1], evs[i - 1]);
      StepKeepsInStep(states[i - 1], evs[i - 1]);
    }
  }

  // ----- After the driver was created again -----

  /** The adapter believes automatic white balance to be off, the device has it on, and nothing is on
      its way. */
  predicate Stuck(s: Sys) {
    !s.shadow && s.device && s.pending == []
  }

  /** From there on, until the user switches automatic white balance on, no disable is sent: the device
      stays in automatic mode, however often the user switches it off. */
  lemma {:induction false} DisableIsNotRepeated(states: seq<Sys>, evs: seq<Event>, i: nat, j: nat)
    requires Behavior(states, evs) && i <= j <= |evs| && Stuck(states[i])
    requires forall k :: i <= k < j ==> evs[k] != Post(true)
    ensures Stuck(states[j])
  {
    if i < j {
      DisableIsNotRepeated(states, evs, i, j - 1);
      assert states[j] == Next(states[j - 1], evs[j - 1]) && evs[j - 1] != Post(true);
      SendsWhen(false, false);
    }
  }

  /** A disable that is acknowledged, and a re-creation, lead there. */
  lemma RecreationLeavesStuck() returns (states: seq<Sys>, evs: seq<Event>)
    ensures Behavior(states, evs) && evs == [Post(false), Serve(0, true), Deliver(0), NewDriver]
    ensures Orderly(states, evs, 1, false) && Stuck(states[4]) && states[4] == Sys(false, true, [])
  {
    states, evs := DisabledRun();
    states, evs := OneMoreStep(states, evs, 1, false, NewDriver, Sys(false, true, []));
  }

  // ----- Does the device do what the user said last? -----

  /** Every request succeeds and every reply arrives. */
  predicate AllSucceed(evs: seq<Event>) {
    forall i :: 0 <= i < |evs| ==> !evs[i].Lose? && (evs[i].Serve? ==> evs[i].success)
  }

  /** The number of the last of the first i steps in which the user set the parameter. */
  function LastPost(evs: seq<Event>, i: nat): (p: Option<nat>)
    requires i <= |evs|
    ensures p.Some? ==> p.value < i && evs[p.value].Post?
    ensures forall k :: (if p.Some? then p.value + 1 else 0) <= k < i ==> !evs[k].Post?
  {
    if i == 0 then None
    else if evs[i - 1].Post? then Some(i - 1)
    else LastPost(evs, i - 1)
  }

  /** Was the driver created again after the last request that the device served? */
  function RecreatedSinceServe(evs: seq<Event>, i: nat): (r: bool)
    requires i <= |evs|
    ensures r <==> exists k :: 0 <= k < i && evs[k] == NewDriver && forall m :: k < m < i ==> !evs[m].Serve?
  {
    if i == 0 then false
    else if evs[i - 1] == NewDriver then true
    else !evs[i - 1].Serve? && RecreatedSinceServe(evs, i - 1)
  }

  /** What holds in an orderly run: the device has what it served last, or automatic mode since a
      re-creation; and the request on its way, or else the shadow, has the value that the user set
      last, unless that was a disable that was dropped because an enable was on its way. */
  ghost predicate Tracks(s: Sys, recreated: bool, posted: bool, value: bool, dropped: bool) {
    && |s.pending| <= 1
    && (s.pending != [] ==> s.pending[0].served != Some(false) && (s.pending[0].value || s.shadow))
    && (s.pending != [] && posted && dropped ==> !s.shadow)
    && s.device == (recreated || if s.pending != [] && s.pending[0].served == Some(true) then s.pending[0].value else s.shadow)
    && var told := if s.pending != [] then s.pending[0].value else s.shadow;
       if !posted then told else if dropped then !value && told else told == value
  }

  ghost predicate DroppedPost(states: seq<Sys>, evs: seq<Event>, p: Option<nat>)
    requires Behavior(states, evs) && (p.Some? ==> p.value < |evs|)
  {
    p.Some? && states[p.value].pending != []
  }

  ghost predicate TracksAt(states: seq<Sys>, evs: seq<Event>, i: nat)
    requires Behavior(states, evs) && i <= |evs|
  {
    var p := LastPost(evs, i);
    Tracks(states[i], RecreatedSinceServe(evs, i), p.Some?, p.Some? && evs[p.value].on, DroppedPost(states, evs, p))
  }

  lemma StepTracks(s: Sys, e: Event, recreated: bool, posted: bool, value: bool, dropped: bool)
    requires Tracks(s, recreated, posted, value, dropped) && Enabled(s, e) && |Next(s, e).pending| <= 1
    requires !e.Lose? && (e.Serve? ==> e.success)
    ensures Tracks(Next(s, e), e == NewDriver || (!e.Serve? && recreated), posted || e.Post?,
                   if e.Post? then e.on else value, if e.Post? then s.pending != [] else dropped)
  {
    if e.Post? {
      SendsWhen(e.on, s.shadow);
    }
  }

  lemma {:induction false} OrderlyTracks(states: seq<Sys>, evs: seq<Event>, i: nat)
    requires Behavior(states, evs) && i <= |evs| && Orderly(states, evs, 1, false) && AllSucceed(evs)
    ensures TracksAt(states, evs, i)
  {
    if i > 0 {
      OrderlyTracks(states, evs, i - 1);
      var p := LastPost(evs, i - 1);
      assert |states[i].pending| <= 1 && states[i] == Next(states[i - 1], evs[i - 1]);
      StepTracks(states[i - 1], evs[i - 1], RecreatedSinceServe(evs, i - 1), p.Some?, p.Some? && evs[p.value].on,
                 DroppedPost(states, evs, p));
    }
  }

  /** In runs with one request at a time, in which every request succeeds and every reply arrives:
      whenever nothing is outstanding, the device has the value that the user set last exactly when
      that value is true, or it was set while nothing was outstanding and the driver has not been
      created again since the last request was served. */
  lemma DeviceHasLastValueIff(states: seq<Sys>, evs: seq<Event>, i: nat)
    requires Behavior(states, evs) && i <= |evs| && Orderly(states, evs, 1, false) && AllSucceed(evs)
    requires states[i].pending == [] && LastPost(evs, i).Some?
    ensures var p := LastPost(evs, i).value;
            states[i].device == evs[p].on
            <==> evs[p].on || (states[p].pending == [] && !RecreatedSinceServe(evs, i))
  {
    OrderlyTracks(states, evs, i);
  }

  /** A disable set while an enable is on its way is dropped for good, without any re-creation: the
      device ends in automatic mode. */
  lemma DisableDuringEnableIsLost() returns (states: seq<Sys>, evs: seq<Event>)
    ensures Behavior(states, evs) && Orderly(states, evs, 1, false) && AllSucceed(evs) && NewDriver !in evs
    ensures evs == [Post(false), Serve(0, true), Deliver(0), Post(true), Post(false), Serve(0, true), Deliver(0)]
    ensures LastPost(evs, 7) == Some(4) && !evs[4].on && states[7] == Sys(true, true, [])
  {
    states, evs := DroppedRun();
    var on := Request(true, None);
    ServedAndDelivered(false, false, on);
    states, evs := OneMoreStep(states, evs, 1, false, Serve(0, true), Sys(false, true, [on.(served := Some(true))]));
    states, evs := OneMoreStep(states, evs, 1, false, Deliver(0), Sys(true, true, []));
    LastPostIs(evs, 7, 4);
  }

  lemma {:induction false} LastPostIs(evs: seq<Event>, i: nat, p: nat)
    requires p < i <= |evs| && evs[p].Post? && forall k :: p < k < i ==> !evs[k].Post?
    ensures LastPost(evs, i) == Some(p)
  {
    if p + 1 < i {
      assert !evs[i - 1].Post?;
      LastPostIs(evs, i - 1, p);
    }
  }

  /** Then it is switched on, and off again before that was served. */
  lemma DroppedRun() returns (states: seq<Sys>, evs: seq<Event>)
    ensures Behavior(states, evs) && Orderly(states, evs, 1, false)
    ensures evs == [Post(false), Serve(0, true), Deliver(0), Post(true), Post(false)]
    ensures states[5] == Sys(false, false, [Request(true, None)])
  {
    states, evs := DisabledRun();
    var on := Request(true, None);
    EnableThenDisable(on);
    states, evs := OneMoreStep(states, evs, 1, false, Post(true), Sys(false, false, [on]));
    states, evs := OneMoreStep(states, evs, 1, false, Post(false), Sys(false, false, [on]));
  }

  lemma EnableThenDisable(on: Request)
    requires on == Request(true, None)
    ensures Next(Sys(false, false, []), Post(true)) == Sys(false, false, [on])
    ensures Next(Sys(false, false, [on]), Post(false)) == Sys(false, false, [on])
  {
    SendsWhen(true, false);
    SendsWhen(false, false);
    assert [] + [on] == [on] && [on] + [] == [on];
  }

  /** Automatic white balance is switched off, with success. */
  lemma DisabledRun() returns (states: seq<Sys>, evs: seq<Event>)
    ensures Behavior(states, evs) && evs == [Post(false), Serve(0, true), Deliver(0)]
    ensures Orderly(states, evs, 1, false) && states[3] == Sys(false, false, [])
  {
    var off := Request(false, None);
    SendsWhen(false, true);
    ServedAndDelivered(true, true, off);
    states, evs := OneMoreStep([START], [], 1, false, Post(false), Sys(true, true, [off]));
    states, evs := OneMoreStep(states, evs, 1, false, Serve(0, true), Sys(true, false, [off.(served := Some(true))]));
    states, evs := OneMoreStep(states, evs, 1, false, Deliver(0), Sys(false, false, []));
  }

  // ----- Does a white balance value reach a device in manual mode? -----

  /** A request on automatic white balance has not been served yet. */
  predicate Unserved(s: Sys) {
    s.pending != [] && s.pending[0].served == None
  }

  /** The disable that goes before a white balance value is there so that the value does not meet a
      device in automatic mode. In orderly runs, when the last setting of automatic white balance was
      a disable, a value meets automatic mode all the same exactly when the driver was created again
      since the device served a request last, or the disable was sent and has not been served yet, or
      it was dropped and the enable that it came too late for has been served. */
  lemma ValueMeetsAutomaticIff(states: seq<Sys>, evs: seq<Event>, j: nat)
    requires Behavior(states, evs) && j < |evs| && Orderly(states, evs, 1, false) && AllSucceed(evs)
    requires evs[j].ServeValue? && LastPost(evs, j).Some? && !evs[LastPost(evs, j).value].on
    ensures var p := LastPost(evs, j).value;
            states[j].device
            <==> RecreatedSinceServe(evs, j) || (Unserved(states[j]) <==> states[p].pending == [])
  {
    OrderlyTracks(states, evs, j);
    var p := LastPost(evs, j);
    ModeAfterDisable(states[j], RecreatedSinceServe(evs, j), DroppedPost(states, evs, p));
  }

  lemma ModeAfterDisable(s: Sys, recreated: bool, dropped: bool)
    requires Tracks(s, recreated, true, false, dropped)
    ensures s.device <==> recreated || (Unserved(s) <==> !dropped)
  {
    if s.pending != [] {
      match s.pending[0].served
      case None =>
      case Some(success) => assert success;
    }
  }

  /** In the stuck state every value meets automatic mode, until the user switches that on. */
  lemma StuckWastesValues(states: seq<Sys>, evs: seq<Event>, i: nat, j: nat)
    requires Behavior(states, evs) && i <= j < |evs| && Stuck(states[i])
    requires forall k :: i <= k < j ==> evs[k] != Post(true)
    requires evs[j].ServeValue?
    ensures states[j].device && states[j + 1].device
  {
    DisableIsNotRepeated(states, evs, i, j);
    assert states[j + 1] == Next(states[j], evs[j]);
  }

  /** It happens: after a re-creation the user sets a white balance, the disable before it is not sent,
      and the value meets a device in automatic mode. */
  lemma RecreationWastesValue(kelvin: int) returns (states: seq<Sys>, evs: seq<Event>)
    ensures Behavior(states, evs) && Orderly(states, evs, 1, false)
    ensures evs == [Post(false), Serve(0, true), Deliver(0), NewDriver, Post(false), SendValue(kelvin), ServeValue(0)]
    ensures states[6].device && states[6].values == [kelvin]
  {
    states, evs := RecreationLeavesStuck();
    var stuck := Sys(false, true, []);
    StuckTakesValue(stuck, kelvin);
    states, evs := OneMoreStep(states, evs, 1, false, Post(false), stuck);
    states, evs := OneMoreStep(states, evs, 1, false, SendValue(kelvin), stuck.(values := [kelvin]));
    states, evs := OneMoreStep(states, evs, 1, false, ServeValue(0), stuck);
  }

  lemma StuckTakesValue(stuck: Sys, kelvin: int)
    requires stuck == Sys(false, true, [])
    ensures Next(stuck, Post(false)) == stuck
    ensures Next(stuck, SendValue(kelvin)) == stuck.(values := [kelvin])
    ensures Next(stuck.(values := [kelvin]), ServeValue(0)) == stuck
  {
    SendsWhen(false, false);
    assert stuck.pending + [] == [] && [] + [kelvin] == [kelvin] && Without([kelvin], 0) == [];
  }
}
