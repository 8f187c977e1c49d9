/** The Orbbec parameter pipeline: a batch of ROS parameters is adjusted, checked, committed by the
    ROS node, and then turned into an ordered log of calls on the vendor's driver node.

    The ROS contract is taken as given: the adjusting callback runs first, then the checking one,
    then the commit, and the last callback only after an accepted batch was committed; parameters
    have their declared types; of two entries with one name, the later one is committed.
  */
module OrbbecParameters {
  import opened Common

  datatype Param =
    | Fps(rate: real)
    | Exposure(seconds: real)
    | AutoExposure(on: bool)
    | WhiteBalance(kelvin: int)
    | AutoWhiteBalance(on: bool)
    | Gain(gain: int)
    | Enable(stream: Stream, on: bool)
    | EnableLaser(on: bool)
    | Streaming(on: bool)

  datatype Name = NExposure | NAutoExposure | NWhiteBalance | NAutoWhiteBalance | NGain | NOther

  function NameOf(p: Param): Name {
    match p
    case Exposure(_) => NExposure
    case AutoExposure(_) => NAutoExposure
    case WhiteBalance(_) => NWhiteBalance
    case AutoWhiteBalance(_) => NAutoWhiteBalance
    case Gain(_) => NGain
    case _ => NOther
  }

  datatype Complaint = BadExposure | BadWhiteBalance | BadGain | BadFps

  /** The stream and laser parameters as the ROS node holds them. */
  datatype Committed = Committed(enabled: PerStream<bool>, laser: bool)

  /** What a new driver node is created with. A stream's frame rate is passed only when the
      stream is enabled. */
  datatype Options = Options(enabled: PerStream<bool>, fps: PerStream<Option<int>>, laser: bool, registration: bool)

  /** What the last callback does, in order. Restamp resets a stream's watchdog time. */
  datatype Effect =
    | Restamp(stream: Stream)
    | Recreate(options: Options)
    | SetExposure(units: int)
    | SetAutoExposure(on: bool)
    | SetWhiteBalance(kelvin: int)
    | SetAutoWhiteBalance(on: bool)
    | SetGain(gain: int)
    | Toggle(stream: Stream, on: bool)
    | SetLaser(on: bool)
    | Trigger

  const DEFAULT_FPS := 10.0
  const DEFAULTS := Committed(All(true), true)

  function Last<T>(xs: seq<T>): T
    requires xs != []
  {
    xs[|xs| - 1]
  }

  function Front<T>(xs: seq<T>): seq<T>
    requires xs != []
  {
    xs[..|xs| - 1]
  }

  // ----- Adjusting and checking -----

  /** Does the batch have an entry with the name of `like`? */
  predicate Names(batch: seq<Param>, like: Name) {
    exists i :: 0 <= i < |batch| && NameOf(batch[i]) == like
  }

  predicate NeedsAutoExposureOff(batch: seq<Param>) {
    (Names(batch, NExposure) || Names(batch, NGain)) && !Names(batch, NAutoExposure)
  }

  predicate NeedsAutoWhiteBalanceOff(batch: seq<Param>) {
    Names(batch, NWhiteBalance) && !Names(batch, NAutoWhiteBalance)
  }

  function InsertedBefore(batch: seq<Param>): seq<Param> {
    (if NeedsAutoWhiteBalanceOff(batch) then [AutoWhiteBalance(false)] else [])
    + (if NeedsAutoExposureOff(batch) then [AutoExposure(false)] else [])
  }

  function Adjusted(batch: seq<Param>): seq<Param> {
    InsertedBefore(batch) + batch
  }

  predicate Acceptable(p: Param) {
    match p
    case Exposure(r) => 0.0001 <= r <= 0.1
    case WhiteBalance(k) => 2800 <= k <= 6500
    case Gain(g) => 0 <= g <= 128
    case Fps(r) => r == 5.0 || r == 10.0 || r == 15.0 || r == 30.0
    case _ => true
  }

  predicate AllAcceptable(batch: seq<Param>) {
    forall i :: 0 <= i < |batch| ==> Acceptable(batch[i])
  }

  /** The vector that the ROS node hands to the adjusting callback by reference. */
  class Batch {
    var items: seq<Param>

    constructor (items: seq<Param>)
      ensures this.items == items
    {
      this.items := items;
    }

    method PreSet()
      modifies this
      ensures items == Adjusted(old(items))
    {
      var setsExposure := Names(items, NExposure);
      var setsGain := Names(items, NGain);
      var setsAutoExposure := Names(items, NAutoExposure);
      ghost var user := items;
      if (setsExposure || setsGain) && !setsAutoExposure {
        items := [AutoExposure(false)] + items;
        NamesBehind([AutoExposure(false)], user, NWhiteBalance);
        NamesBehind([AutoExposure(false)], user, NAutoWhiteBalance);
      }
      var setsWhiteBalance := Names(items, NWhiteBalance);
      var setsAutoWhiteBalance := Names(items, NAutoWhiteBalance);
      if setsWhiteBalance && !setsAutoWhiteBalance {
        items := [AutoWhiteBalance(false)] + items;
      }
    }
  }

  lemma NamesBehind(prefix: seq<Param>, batch: seq<Param>, n: Name)
    ensures Names(prefix + batch, n) <==> Names(prefix, n) || Names(batch, n)
  {
    if i :| 0 <= i < |prefix| && NameOf(prefix[i]) == n {
      assert (prefix + batch)[i] == prefix[i];
    }
    if i :| 0 <= i < |batch| && NameOf(batch[i]) == n {
      assert (prefix + batch)[|prefix| + i] == batch[i];
    }
  }

  lemma AdjustedNames(batch: seq<Param>, n: Name)
    ensures Names(Adjusted(batch), n)
            <==> || Names(batch, n)
                 || (n == NAutoExposure && NeedsAutoExposureOff(batch))
                 || (n == NAutoWhiteBalance && NeedsAutoWhiteBalanceOff(batch))
  {
    NamesBehind(InsertedBefore(batch), batch, n);
    if NeedsAutoExposureOff(batch) {
      assert NameOf(Last(InsertedBefore(batch))) == NAutoExposure;
    }
    if NeedsAutoWhiteBalanceOff(batch) {
      assert NameOf(InsertedBefore(batch)[0]) == NAutoWhiteBalance;
    }
  }

  /** The names that the adjusting callback looks for. */
  lemma NamesByName(batch: seq<Param>)
    ensures Names(batch, NExposure) <==> exists i :: 0 <= i < |batch| && batch[i].Exposure?
    ensures Names(batch, NGain) <==> exists i :: 0 <= i < |batch| && batch[i].Gain?
    ensures Names(batch, NAutoExposure) <==> exists i :: 0 <= i < |batch| && batch[i].AutoExposure?
    ensures Names(batch, NWhiteBalance) <==> exists i :: 0 <= i < |batch| && batch[i].WhiteBalance?
    ensures Names(batch, NAutoWhiteBalance) <==> exists i :: 0 <= i < |batch| && batch[i].AutoWhiteBalance?
  {
    assert forall i :: 0 <= i < |batch| ==> (NameOf(batch[i]) == NExposure <==> batch[i].Exposure?);
    assert forall i :: 0 <= i < |batch| ==> (NameOf(batch[i]) == NGain <==> batch[i].Gain?);
    assert forall i :: 0 <= i < |batch| ==> (NameOf(batch[i]) == NAutoExposure <==> batch[i].AutoExposure?);
    assert forall i :: 0 <= i < |batch| ==> (NameOf(batch[i]) == NWhiteBalance <==> batch[i].WhiteBalance?);
    assert forall i :: 0 <= i < |batch| ==> (NameOf(batch[i]) == NAutoWhiteBalance <==> batch[i].AutoWhiteBalance?);
  }

  /** What is inserted: an entry that switches auto exposure off exactly when the user sets exposure or
      gain and not auto exposure, and before it one that switches automatic white balance off exactly
      when the user sets white balance and not automatic white balance. */
  lemma InsertionsByName(batch: seq<Param>)
    ensures var exposure := exists i :: 0 <= i < |batch| && (batch[i].Exposure? || batch[i].Gain?);
            var autoExposure := exists i :: 0 <= i < |batch| && batch[i].AutoExposure?;
            var whiteBalance := exists i :: 0 <= i < |batch| && batch[i].WhiteBalance?;
            var autoWhiteBalance := exists i :: 0 <= i < |batch| && batch[i].AutoWhiteBalance?;
            Adjusted(batch)
            == (if whiteBalance && !autoWhiteBalance then [AutoWhiteBalance(false)] else [])
               + (if exposure && !autoExposure then [AutoExposure(false)] else [])
               + batch
  {
    NamesByName(batch);
  }

  /** Adjusting an adjusted batch changes nothing, and adjusting keeps the user's entries, in
      order, behind at most two entries that switch an automatic mode off. */
  lemma AdjustingIsIdempotent(batch: seq<Param>)
    ensures Adjusted(Adjusted(batch)) == Adjusted(batch)
    ensures Adjusted(batch)[|Adjusted(batch)| - |batch|..] == batch
    ensures forall p :: p in InsertedBefore(batch) ==> p == AutoExposure(false) || p == AutoWhiteBalance(false)
  {
    AdjustedNames(batch, NAutoExposure);
    AdjustedNames(batch, NAutoWhiteBalance);
    AdjustedNames(batch, NWhiteBalance);
    AdjustedNames(batch, NExposure);
    AdjustedNames(batch, NGain);
    assert InsertedBefore(Adjusted(batch)) == [];
  }

  /** What is inserted is never a reason to reject a batch. */
  lemma AdjustingKeepsAcceptance(batch: seq<Param>)
    ensures AllAcceptable(Adjusted(batch)) <==> AllAcceptable(batch)
  {
    var pre := InsertedBefore(batch);
    assert forall i :: 0 <= i < |batch| ==> Adjusted(batch)[|pre| + i] == batch[i];
    assert forall i :: 0 <= i < |pre| ==> Adjusted(batch)[i] == pre[i];
  }

  function ComplaintAbout(p: Param): Complaint
    requires !Acceptable(p)
  {
    match p
    case Exposure(_) => BadExposure
    case WhiteBalance(_) => BadWhiteBalance
    case Gain(_) => BadGain
    case Fps(_) => BadFps
  }

  lemma AcceptableByName(batch: seq<Param>)
    ensures AllAcceptable(batch)
            <==> forall p :: p in batch ==>
                   && (p.Exposure? ==> 0.0001 <= p.seconds <= 0.1)
                   && (p.WhiteBalance? ==> 2800 <= p.kelvin <= 6500)
                   && (p.Gain? ==> 0 <= p.gain <= 128)
                   && (p.Fps? ==> p.rate in {5.0, 10.0, 15.0, 30.0})
  {
  }

  /** The checking callback stops at the first entry it cannot accept. */
  method CheckParameters(batch: seq<Param>) returns (ok: bool, reason: Option<Complaint>)
    ensures ok <==> AllAcceptable(batch)
    ensures ok <==> forall p :: p in batch ==>
                      && (p.Exposure? ==> 0.0001 <= p.seconds <= 0.1)
                      && (p.WhiteBalance? ==> 2800 <= p.kelvin <= 6500)
                      && (p.Gain? ==> 0 <= p.gain <= 128)
                      && (p.Fps? ==> p.rate in {5.0, 10.0, 15.0, 30.0})
    ensures ok ==> reason == None
    ensures !ok ==> exists i :: 0 <= i < |batch| && !Acceptable(batch[i]) && AllAcceptable(batch[..i])
                                && reason == Some(ComplaintAbout(batch[i]))
                                && (reason.value == BadExposure <==> batch[i].Exposure?)
                                && (reason.value == BadWhiteBalance <==> batch[i].WhiteBalance?)
                                && (reason.value == BadGain <==> batch[i].Gain?)
                                && (reason.value == BadFps <==> batch[i].Fps?)
  {
    AcceptableByName(batch);
    ok, reason := true, None;
    for i := 0 to |batch|
      invariant ok && reason == None && AllAcceptable(batch[..i])
    {
      var p := batch[i];
      if p.Exposure? {
        if p.seconds < 0.0001 || p.seconds > 0.1 {
          return false, Some(BadExposure);
        }
      } else if p.WhiteBalance? {
        if p.kelvin < 2800 || p.kelvin > 6500 {
          return false, Some(BadWhiteBalance);
        }
      } else if p.Gain? {
        if p.gain < 0 || p.gain > 128 {
          return false, Some(BadGain);
        }
      } else if p.Fps? {
        if p.rate != 5.0 && p.rate != 10.0 && p.rate != 15.0 && p.rate != 30.0 {
          return false, Some(BadFps);
        }
      }
      assert batch[..i + 1] == batch[..i] + [p];
    }
  }

  // ----- Committing and applying -----

  function CommitOne(c: Committed, p: Param): Committed {
    match p
    case Enable(s, on) => c.(enabled := Set(c.enabled, s, on))
    case EnableLaser(on) => c.(laser := on)
    case _ => c
  }

  function Commit(c: Committed, batch: seq<Param>): Committed {
    if batch == [] then c else CommitOne(Commit(c, Front(batch)), Last(batch))
  }

  function OptionsFor(fps: real, c: Committed): Options {
    var rate := (on: bool) => if on then Some(Truncate(fps)) else None;
    Options(
      c.enabled,
      PerStream(rate(c.enabled.color), rate(c.enabled.leftIr), rate(c.enabled.rightIr), rate(c.enabled.depth)),
      c.laser,
      c.enabled.depth && c.enabled.color)
  }

  /** What a driver is created with, by name. */
  lemma OptionsByName(fps: real, c: Committed)
    ensures var o := OptionsFor(fps, c);
            && o.enabled == c.enabled && o.laser == c.laser
            && o.fps.color == (if c.enabled.color then Some(Truncate(fps)) else None)
            && o.fps.leftIr == (if c.enabled.leftIr then Some(Truncate(fps)) else None)
            && o.fps.rightIr == (if c.enabled.rightIr then Some(Truncate(fps)) else None)
            && o.fps.depth == (if c.enabled.depth then Some(Truncate(fps)) else None)
            && (o.registration <==> c.enabled.depth && c.enabled.color)
  {
  }

  function FpsAfter(fps: real, batch: seq<Param>): real {
    if batch == [] then fps
    else if Last(batch).Fps? then Last(batch).rate
    else FpsAfter(fps, Front(batch))
  }

  function ResetWith(o: Options): seq<Effect> {
    [Restamp(Color), Restamp(LeftIr), Restamp(RightIr), Restamp(Depth), Recreate(o)]
  }

  /** The first pass of the last callback: every change of the frame rate recreates the driver. */
  function FpsPass(fps: real, c: Committed, batch: seq<Param>): seq<Effect> {
    if batch == [] then []
    else
      FpsPass(fps, c, Front(batch))
      + if Last(batch).Fps? && Last(batch).rate != FpsAfter(fps, Front(batch))
        then ResetWith(OptionsFor(Last(batch).rate, c))
        else []
  }

  /** The second pass, for one entry. Toggles are skipped when the driver was just recreated. */
  function EffectsOf(p: Param, reset: bool, autoWhiteBalance: bool): seq<Effect> {
    match p
    case Exposure(r) => [SetExposure(Truncate(10000.0 * r))]
    case AutoExposure(on) => [SetAutoExposure(on)]
    case AutoWhiteBalance(on) => if on != autoWhiteBalance || on then [SetAutoWhiteBalance(on)] else []
    case WhiteBalance(k) => [SetWhiteBalance(k)]
    case Gain(g) => [SetGain(g)]
    case Enable(s, on) => if reset then [] else [Restamp(s), Toggle(s, on)]
    case EnableLaser(on) => [SetLaser(on)]
    case Streaming(on) => if on then [Trigger] else []
    case Fps(_) => []
  }

  function OtherPass(batch: seq<Param>, reset: bool, autoWhiteBalance: bool): seq<Effect> {
    if batch == [] then []
    else OtherPass(Front(batch), reset, autoWhiteBalance) + EffectsOf(Last(batch), reset, autoWhiteBalance)
  }

  function StreamingAfter(streaming: bool, batch: seq<Param>): bool {
    if batch == [] then streaming
    else if Last(batch).Streaming? then Last(batch).on
    else StreamingAfter(streaming, Front(batch))
  }

  lemma OtherPassGrows(before: seq<Effect>, batch: seq<Param>, i: nat, reset: bool, awb: bool)
    requires i < |batch|
    ensures before + OtherPass(batch[..i + 1], reset, awb)
            == before + OtherPass(batch[..i], reset, awb) + EffectsOf(batch[i], reset, awb)
  {
    assert Front(batch[..i + 1]) == batch[..i];
    Regroup(before, OtherPass(batch[..i], reset, awb), EffectsOf(batch[i], reset, awb));
  }

  /** One more entry of the first pass. */
  lemma FpsPassGrows(before: seq<Effect>, fps: real, c: Committed, batch: seq<Param>, i: nat)
    requires i < |batch|
    ensures var now := FpsAfter(fps, batch[..i]);
            var changes := batch[i].Fps? && batch[i].rate != now;
            && FpsAfter(fps, batch[..i + 1]) == (if changes then batch[i].rate else now)
            && before + FpsPass(fps, c, batch[..i + 1])
               == before + FpsPass(fps, c, batch[..i])
                  + (if changes then ResetWith(OptionsFor(batch[i].rate, c)) else [])
            && (FpsPass(fps, c, batch[..i + 1]) != [] <==> FpsPass(fps, c, batch[..i]) != [] || changes)
  {
    assert Front(batch[..i + 1]) == batch[..i] && Last(batch[..i + 1]) == batch[i];
    var changes := batch[i].Fps? && batch[i].rate != FpsAfter(fps, batch[..i]);
    Regroup(before, FpsPass(fps, c, batch[..i]), if changes then ResetWith(OptionsFor(batch[i].rate, c)) else []);
  }

  lemma Regroup<T>(a: seq<T>, b: seq<T>, c: seq<T>)
    ensures (a + b) + c == a + (b + c)
  {
  }

  datatype Adapter = Adapter(
    fps: real, streaming: bool, autoWhiteBalance: bool, committed: Committed, log: seq<Effect>)
  {
    function Post(batch: seq<Param>): Adapter {
      var resets := FpsPass(fps, committed, batch);
      this.(fps := FpsAfter(fps, batch), streaming := StreamingAfter(streaming, batch),
            log := log + resets + OtherPass(batch, resets != [], autoWhiteBalance))
    }

    /** A whole batch; `true` tells that it was accepted. */
    function SetParameters(batch: seq<Param>): (Adapter, bool) {
      var adjusted := Adjusted(batch);
      if AllAcceptable(adjusted) then (this.(committed := Commit(committed, adjusted)).Post(adjusted), true)
      else (this, false)
    }
  }

  /** The adapter's copy of automatic white balance after a reply to a request that set it. */
  function ShadowAfter(shadow: bool, valid: bool, success: bool, value: bool): bool {
    if valid && success then value else shadow
  }

  /** What happens to an adapter: a batch arrives, or a reply on automatic white balance does. */
  datatype Event =
    | SetBatch(batch: seq<Param>)
    | Reply(valid: bool, success: bool, value: bool)

  function Step(a: Adapter, e: Event): Adapter {
    match e
    case SetBatch(batch) => a.SetParameters(batch).0
    case Reply(valid, success, value) => a.(autoWhiteBalance := ShadowAfter(a.autoWhiteBalance, valid, success, value))
  }

  /** The adapter as its constructor leaves it. */
  const CONSTRUCTED := Adapter(
    DEFAULT_FPS, false, true, DEFAULTS, [Recreate(OptionsFor(DEFAULT_FPS, DEFAULTS))])

  class OrbbecAdapter {
    var fps: real
    var streaming: bool
    var autoWhiteBalance: bool
    var committed: Committed
    var log: seq<Effect>

    ghost function View(): Adapter
      reads this
    {
      Adapter(fps, streaming, autoWhiteBalance, committed, log)
    }

    constructor ()
      ensures View() == CONSTRUCTED
      ensures fps == 10.0 && !streaming && autoWhiteBalance
      ensures committed == Committed(PerStream(true, true, true, true), true)
      ensures log == [Recreate(Options(PerStream(true, true, true, true), PerStream(Some(10), Some(10), Some(10), Some(10)),
                                       true, true))]
    {
      fps, streaming, autoWhiteBalance, committed := DEFAULT_FPS, false, true, DEFAULTS;
      log := [];
      new;
      CreateOrbbecNode();
      assert Truncate(10.0) == 10;
    }

    method CreateOrbbecNode()
      modifies this`log
      ensures log == old(log) + [Recreate(OptionsFor(fps, committed))]
      ensures var o := log[|old(log)|].options;
              && o.enabled == committed.enabled && o.laser == committed.laser
              && (o.registration <==> committed.enabled.depth && committed.enabled.color)
              && forall s: Stream :: o.fps.Get(s) == if committed.enabled.Get(s) then Some(Truncate(fps)) else None
    {
      var rate := Truncate(fps);
      var e := committed.enabled;
      var color := if e.color then Some(rate) else None;
      var depth := if e.depth then Some(rate) else None;
      var leftIr := if e.leftIr then Some(rate) else None;
      var rightIr := if e.rightIr then Some(rate) else None;
      log := log + [Recreate(Options(e, PerStream(color, leftIr, rightIr, depth),
                                     committed.laser, e.depth && e.color))];
    }

    /** The reply to a request that set automatic white balance. */
    method OnAutoWhiteBalanceReply(valid: bool, success: bool, value: bool)
      modifies this`autoWhiteBalance
      ensures View() == Step(old(View()), Reply(valid, success, value))
    {
      if valid {
        if success {
          autoWhiteBalance := value;
        }
      }
    }

    /** The loop over the frame rates. */
    method ApplyFps(batch: seq<Param>) returns (reset: bool)
      modifies this`fps, this`log
      ensures fps == FpsAfter(old(fps), batch)
      ensures log == old(log) + FpsPass(old(fps), committed, batch)
      ensures reset == (FpsPass(old(fps), committed, batch) != [])
    {
      reset := false;
      for i := 0 to |batch|
        invariant fps == FpsAfter(old(fps), batch[..i])
        invariant log == old(log) + FpsPass(old(fps), committed, batch[..i])
        invariant reset == (FpsPass(old(fps), committed, batch[..i]) != [])
      {
        FpsPassGrows(old(log), old(fps), committed, batch, i);
        if batch[i].Fps? {
          if fps == batch[i].rate {
            continue;
          }
          fps := batch[i].rate;
          log := log + [Restamp(Color), Restamp(LeftIr), Restamp(RightIr), Restamp(Depth)];
          CreateOrbbecNode();
          reset := true;
        }
      }
      assert batch[..|batch|] == batch;
    }

    /** The body of the loop over everything else. */
    method ApplyOther(p: Param, reset: bool)
      modifies this`streaming, this`log
      ensures log == old(log) + EffectsOf(p, reset, autoWhiteBalance)
      ensures streaming == if p.Streaming? then p.on else old(streaming)
    {
      match p
      case Exposure(r) => log := log + [SetExposure(Truncate(10000.0 * r))];
      case AutoExposure(on) => log := log + [SetAutoExposure(on)];
      case AutoWhiteBalance(on) =>
        if on != autoWhiteBalance || on {
          log := log + [SetAutoWhiteBalance(on)];
        }
      case WhiteBalance(k) => log := log + [SetWhiteBalance(k)];
      case Gain(g) => log := log + [SetGain(g)];
      case Enable(s, on) =>
        if !reset {
          log := log + [Restamp(s)];
          log := log + [Toggle(s, on)];
        }
      case EnableLaser(on) => log := log + [SetLaser(on)];
      case Streaming(on) =>
        streaming := on;
        if streaming {
          log := log + [Trigger];
        }
      case Fps(_) =>
    }

    method PostSetParameters(batch: seq<Param>)
      modifies this`fps, this`streaming, this`log
      ensures View() == old(View()).Post(batch)
    {
      var reset := ApplyFps(batch);
      ghost var afterFps := log;
      for i := 0 to |batch|
        invariant fps == FpsAfter(old(fps), batch)
        invariant streaming == StreamingAfter(old(streaming), batch[..i])
        invariant log == afterFps + OtherPass(batch[..i], reset, autoWhiteBalance)
      {
        ApplyOther(batch[i], reset);
        OtherPassGrows(afterFps, batch, i, reset, autoWhiteBalance);
        assert Front(batch[..i + 1]) == batch[..i];
      }
      assert batch[..|batch|] == batch;
    }

    /** A batch on its way through the ROS node. */
    method SetParameters(batch: seq<Param>) returns (ok: bool)
      modifies this
      ensures (View(), ok) == old(View()).SetParameters(batch)
      ensures View() == Step(old(View()), SetBatch(batch))
      ensures ok <==> AllAcceptable(batch)
      ensures !ok ==> View() == old(View())
    {
      AdjustingKeepsAcceptance(batch);
      var parameters := new Batch(batch);
      parameters.PreSet();
      var reason;
      ok, reason := CheckParameters(parameters.items);
      if ok {
        committed := Commit(committed, parameters.items);
        PostSetParameters(parameters.items);
      }
    }
  }

  // ----- Order of the calls -----

  lemma {:induction false} OtherPassDistributes(a: seq<Param>, b: seq<Param>, reset: bool, awb: bool)
    ensures OtherPass(a + b, reset, awb) == OtherPass(a, reset, awb) + OtherPass(b, reset, awb)
  {
    if b == [] {
      assert a + b == a;
    } else {
      assert Front(a + b) == a + Front(b) && Last(a + b) == Last(b);
      OtherPassDistributes(a, Front(b), reset, awb);
      Regroup(OtherPass(a, reset, awb), OtherPass(Front(b), reset, awb), EffectsOf(Last(b), reset, awb));
    }
  }

  lemma {:induction false} EffectsHaveAnOrigin(batch: seq<Param>, reset: bool, awb: bool, k: nat)
    requires k < |OtherPass(batch, reset, awb)|
    ensures exists i :: 0 <= i < |batch| && OtherPass(batch, reset, awb)[k] in EffectsOf(batch[i], reset, awb)
  {
    var front := OtherPass(Front(batch), reset, awb);
    if k < |front| {
      EffectsHaveAnOrigin(Front(batch), reset, awb, k);
      var i :| 0 <= i < |Front(batch)| && front[k] in EffectsOf(Front(batch)[i], reset, awb);
      assert batch[i] == Front(batch)[i];
    } else {
      assert OtherPass(batch, reset, awb)[k] in EffectsOf(batch[|batch| - 1], reset, awb);
    }
  }

  /** Calls follow the order of the batch: what an entry causes stands after everything the
      entries before it cause, and before everything the entries behind it cause. */
  lemma CallsFollowTheBatch(batch: seq<Param>, i: nat, reset: bool, awb: bool)
    requires i < |batch|
    ensures OtherPass(batch, reset, awb)
            == OtherPass(batch[..i], reset, awb) + EffectsOf(batch[i], reset, awb) + OtherPass(batch[i + 1..], reset, awb)
  {
    assert batch == batch[..i + 1] + batch[i + 1..];
    assert Front(batch[..i + 1]) == batch[..i];
    OtherPassDistributes(batch[..i + 1], batch[i + 1..], reset, awb);
  }

  predicate IsReset(e: Effect) {
    e.Restamp? || e.Recreate?
  }

  lemma {:induction false} FpsPassOnlyResets(fps: real, c: Committed, batch: seq<Param>)
    ensures forall e :: e in FpsPass(fps, c, batch) ==> IsReset(e)
  {
    if batch != [] {
      FpsPassOnlyResets(fps, c, Front(batch));
    }
  }

  /** The calls that one accepted batch adds to the log. */
  function CallsOf(a: Adapter, batch: seq<Param>): seq<Effect>
    requires AllAcceptable(batch)
  {
    var adjusted := Adjusted(batch);
    var resets := FpsPass(a.fps, Commit(a.committed, adjusted), adjusted);
    resets + OtherPass(adjusted, resets != [], a.autoWhiteBalance)
  }

  lemma SetParametersAddsCalls(a: Adapter, batch: seq<Param>)
    requires AllAcceptable(batch)
    ensures a.SetParameters(batch).0.log == a.log + CallsOf(a, batch)
  {
    AdjustingKeepsAcceptance(batch);
    var adjusted := Adjusted(batch);
    var resets := FpsPass(a.fps, Commit(a.committed, adjusted), adjusted);
    var other := OtherPass(adjusted, resets != [], a.autoWhiteBalance);
    Regroup(a.log, resets, other);
  }

  lemma OffComesFirst(resets: seq<Effect>, pre: seq<Effect>, off: Effect, rest: seq<Effect>, k: nat)
    requires k < |resets + (pre + [off] + rest)|
    requires var e := (resets + (pre + [off] + rest))[k]; e !in resets && e !in pre && e != off
    ensures |resets| + |pre| < k && (resets + (pre + [off] + rest))[|resets| + |pre|] == off
  {
  }

  ghost predicate Stems(a: Adapter, batch: seq<Param>, e: Effect) {
    exists p, reset :: p in Adjusted(batch) && e in EffectsOf(p, reset, a.autoWhiteBalance)
  }

  /** An effect of a batch is a reset or stems from one entry of the adjusted batch. */
  lemma CallsHaveAnOrigin(a: Adapter, batch: seq<Param>, k: nat)
    requires AllAcceptable(batch) && k < |CallsOf(a, batch)|
    ensures IsReset(CallsOf(a, batch)[k]) || Stems(a, batch, CallsOf(a, batch)[k])
  {
    var adjusted := Adjusted(batch);
    var c := Commit(a.committed, adjusted);
    var resets := FpsPass(a.fps, c, adjusted);
    FpsPassOnlyResets(a.fps, c, adjusted);
    if k < |resets| {
      assert CallsOf(a, batch)[k] == resets[k];
    } else {
      OtherCallStems(a, batch, resets != [], k - |resets|);
    }
  }

  lemma OtherCallStems(a: Adapter, batch: seq<Param>, reset: bool, k: nat)
    requires k < |OtherPass(Adjusted(batch), reset, a.autoWhiteBalance)|
    ensures Stems(a, batch, OtherPass(Adjusted(batch), reset, a.autoWhiteBalance)[k])
  {
    var adjusted, awb := Adjusted(batch), a.autoWhiteBalance;
    EffectsHaveAnOrigin(adjusted, reset, awb, k);
    var i :| 0 <= i < |adjusted| && OtherPass(adjusted, reset, awb)[k] in EffectsOf(adjusted[i], reset, awb);
    assert adjusted[i] in adjusted;
  }

  lemma InAdjusted(batch: seq<Param>, p: Param)
    requires p in Adjusted(batch)
    ensures p in batch || p == AutoExposure(false) || p == AutoWhiteBalance(false)
    ensures p in batch ==> Names(batch, NameOf(p))
  {
    AdjustingIsIdempotent(batch);
  }

  /** What an entry of the batch switches off is off before any call that neither a reset nor an
      earlier entry causes. */
  lemma OffStandsBefore(
      resets: seq<Effect>, batch: seq<Param>, m: nat, off: Effect, reset: bool, awb: bool, k: nat)
    requires m < |batch| && EffectsOf(batch[m], reset, awb) == [off]
    requires k < |resets + OtherPass(batch, reset, awb)|
    requires var e := (resets + OtherPass(batch, reset, awb))[k];
             e !in resets && e != off && forall i :: 0 <= i < m ==> e !in EffectsOf(batch[i], reset, awb)
    ensures exists i :: 0 <= i < k && (resets + OtherPass(batch, reset, awb))[i] == off
  {
    CallsFollowTheBatch(batch, m, reset, awb);
    var e, pre := (resets + OtherPass(batch, reset, awb))[k], OtherPass(batch[..m], reset, awb);
    if e in pre {
      var j :| 0 <= j < |pre| && pre[j] == e;
      EffectsHaveAnOrigin(batch[..m], reset, awb, j);
    }
    OffComesFirst(resets, pre, off, OtherPass(batch[m + 1..], reset, awb), k);
  }

  lemma AutoExposureOffPosition(a: Adapter, batch: seq<Param>, k: nat)
    requires AllAcceptable(batch) && NeedsAutoExposureOff(batch)
    requires k < |CallsOf(a, batch)| && (CallsOf(a, batch)[k].SetExposure? || CallsOf(a, batch)[k].SetGain?)
    ensures exists i :: 0 <= i < k && CallsOf(a, batch)[i] == SetAutoExposure(false)
  {
    var adjusted, n := Adjusted(batch), |InsertedBefore(batch)|;
    var c := Commit(a.committed, adjusted);
    FpsPassOnlyResets(a.fps, c, adjusted);
    assert adjusted[n - 1] == AutoExposure(false);
    assert n == 2 ==> adjusted[0] == AutoWhiteBalance(false);
    var resets := FpsPass(a.fps, c, adjusted);
    OffStandsBefore(resets, adjusted, n - 1, SetAutoExposure(false), resets != [], a.autoWhiteBalance, k);
  }

  lemma NameOfCause(p: Param, reset: bool, awb: bool, e: Effect)
    requires e in EffectsOf(p, reset, awb)
    ensures e.SetExposure? ==> NameOf(p) == NExposure
    ensures e.SetGain? ==> NameOf(p) == NGain
    ensures e.SetWhiteBalance? ==> NameOf(p) == NWhiteBalance
    ensures e.SetAutoExposure? ==> p == AutoExposure(e.on)
    ensures e.SetAutoWhiteBalance? ==> p == AutoWhiteBalance(e.on) && (e.on || awb)
  {
  }

  /** A batch that sets neither exposure, gain nor auto exposure makes no call on auto exposure, and one
      that sets neither white balance nor automatic white balance none on the latter. */
  lemma UnrelatedBatchLeavesModes(a: Adapter, batch: seq<Param>, k: nat)
    requires AllAcceptable(batch) && k < |CallsOf(a, batch)|
    ensures (forall p :: p in batch ==> !p.Exposure? && !p.Gain? && !p.AutoExposure?) ==>
              !CallsOf(a, batch)[k].SetAutoExposure?
    ensures (forall p :: p in batch ==> !p.WhiteBalance? && !p.AutoWhiteBalance?) ==>
              !CallsOf(a, batch)[k].SetAutoWhiteBalance?
  {
    var e := CallsOf(a, batch)[k];
    CallsHaveAnOrigin(a, batch, k);
    if !IsReset(e) {
      var p, r :| p in Adjusted(batch) && e in EffectsOf(p, r, a.autoWhiteBalance);
      NameOfCause(p, r, a.autoWhiteBalance, e);
      InsertionsByName(batch);
    }
  }

  /** Which entry a call on the automatic modes, or a call that needs one off, stems from. */
  lemma NamedOrigin(a: Adapter, batch: seq<Param>, k: nat)
    requires AllAcceptable(batch) && k < |CallsOf(a, batch)|
    ensures var e := CallsOf(a, batch)[k];
            && (e.SetExposure? ==> Names(batch, NExposure))
            && (e.SetGain? ==> Names(batch, NGain))
            && (e.SetWhiteBalance? ==> Names(batch, NWhiteBalance))
            && (e == SetAutoExposure(true) ==> Names(batch, NAutoExposure))
            && (e == SetAutoWhiteBalance(true) ==> Names(batch, NAutoWhiteBalance))
            && (e == SetAutoWhiteBalance(false) ==> a.autoWhiteBalance)
  {
    var e := CallsOf(a, batch)[k];
    CallsHaveAnOrigin(a, batch, k);
    if !IsReset(e) {
      var p, r :| p in Adjusted(batch) && e in EffectsOf(p, r, a.autoWhiteBalance);
      InAdjusted(batch, p);
      NameOfCause(p, r, a.autoWhiteBalance, e);
    }
  }

  /** A user who sets exposure or gain and does not mention auto exposure gets it switched off
      before the first of these calls, and not on again in that batch. */
  lemma AutoExposureOffComesFirst(a: Adapter, batch: seq<Param>, k: nat)
    requires AllAcceptable(batch) && !Names(batch, NAutoExposure)
    requires k < |CallsOf(a, batch)|
    ensures CallsOf(a, batch)[k] != SetAutoExposure(true)
    ensures CallsOf(a, batch)[k].SetExposure? || CallsOf(a, batch)[k].SetGain? ==>
              exists i :: 0 <= i < k && CallsOf(a, batch)[i] == SetAutoExposure(false)
  {
    NamedOrigin(a, batch, k);
    if CallsOf(a, batch)[k].SetExposure? || CallsOf(a, batch)[k].SetGain? {
      AutoExposureOffPosition(a, batch, k);
    }
  }

  lemma AutoWhiteBalanceOffPosition(a: Adapter, batch: seq<Param>, k: nat)
    requires AllAcceptable(batch) && NeedsAutoWhiteBalanceOff(batch) && a.autoWhiteBalance
    requires k < |CallsOf(a, batch)| && CallsOf(a, batch)[k].SetWhiteBalance?
    ensures exists i :: 0 <= i < k && CallsOf(a, batch)[i] == SetAutoWhiteBalance(false)
  {
    var adjusted := Adjusted(batch);
    var c := Commit(a.committed, adjusted);
    FpsPassOnlyResets(a.fps, c, adjusted);
    assert adjusted[0] == AutoWhiteBalance(false);
    var resets := FpsPass(a.fps, c, adjusted);
    OffStandsBefore(resets, adjusted, 0, SetAutoWhiteBalance(false), resets != [], true, k);
  }

  /** The same for white balance; but when the adapter believes automatic white balance to be off
      already, no second request is sent. */
  lemma AutoWhiteBalanceOffComesFirst(a: Adapter, batch: seq<Param>, k: nat)
    requires AllAcceptable(batch) && !Names(batch, NAutoWhiteBalance)
    requires k < |CallsOf(a, batch)|
    ensures CallsOf(a, batch)[k] != SetAutoWhiteBalance(true)
    ensures CallsOf(a, batch)[k].SetAutoWhiteBalance? ==> a.autoWhiteBalance
    ensures CallsOf(a, batch)[k].SetWhiteBalance? && a.autoWhiteBalance ==>
              exists i :: 0 <= i < k && CallsOf(a, batch)[i] == SetAutoWhiteBalance(false)
  {
    NamedOrigin(a, batch, k);
    if CallsOf(a, batch)[k].SetWhiteBalance? && a.autoWhiteBalance {
      AutoWhiteBalanceOffPosition(a, batch, k);
    }
  }
}
