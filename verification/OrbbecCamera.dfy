/** What a batch of parameters means for the camera behind the driver, and for the adapter: the last
    entry of each kind decides, with the value that the user gave.
  */
module OrbbecCamera {
  import opened Common
  import opened OrbbecParameters

  /** The camera's sensor settings. Exposure is in units of 0.1 ms. */
  datatype Camera = Camera(exposure: int, autoExposure: bool, gain: int, whiteBalance: int) {
    function Serve(e: Effect): Camera {
      match e
      case SetExposure(units) => this.(exposure := units)
      case SetAutoExposure(on) => this.(autoExposure := on)
      case SetGain(g) => this.(gain := g)
      case SetWhiteBalance(k) => this.(whiteBalance := k)
      case _ => this
    }

    function ServeAll(effects: seq<Effect>): Camera {
      if effects == [] then this else ServeAll(Front(effects)).Serve(Last(effects))
    }
  }

  lemma {:induction false} ServeAllDistributes(cam: Camera, a: seq<Effect>, b: seq<Effect>)
    ensures cam.ServeAll(a + b) == cam.ServeAll(a).ServeAll(b)
  {
    if b == [] {
      assert a + b == a;
    } else {
      assert Front(a + b) == a + Front(b);
      ServeAllDistributes(cam, a, Front(b));
    }
  }

  lemma {:induction false} ResetsLeaveCamera(cam: Camera, effects: seq<Effect>)
    requires forall e :: e in effects ==> IsReset(e)
    ensures cam.ServeAll(effects) == cam
  {
    if effects != [] {
      assert Last(effects) in effects;
      ResetsLeaveCamera(cam, Front(effects));
    }
  }

  lemma ServeShort(cam: Camera, e: Effect, f: Effect)
    ensures cam.ServeAll([e]) == cam.Serve(e)
    ensures cam.ServeAll([e, f]) == cam.Serve(e).Serve(f)
  {
    assert Front([e]) == [] && Front([e, f]) == [e];
  }

  /** One entry sends its own value, and nothing to the other settings. */
  lemma EntryOnCamera(cam: Camera, p: Param, reset: bool, awb: bool)
    ensures cam.ServeAll(EffectsOf(p, reset, awb))
            == match p
               case Exposure(r) => cam.(exposure := Truncate(10000.0 * r))
               case AutoExposure(on) => cam.(autoExposure := on)
               case Gain(g) => cam.(gain := g)
               case WhiteBalance(k) => cam.(whiteBalance := k)
               case _ => cam
  {
    var effects := EffectsOf(p, reset, awb);
    if p.Enable? && !reset {
      ServeShort(cam, Restamp(p.stream), Toggle(p.stream, p.on));
    } else if effects != [] {
      assert effects == [effects[0]];
      ServeShort(cam, effects[0], effects[0]);
    }
  }

  /** Two entries for the same parameter. */
  predicate SameParameter(p: Param, q: Param) {
    match p
    case Fps(_) => q.Fps?
    case Exposure(_) => q.Exposure?
    case AutoExposure(_) => q.AutoExposure?
    case WhiteBalance(_) => q.WhiteBalance?
    case AutoWhiteBalance(_) => q.AutoWhiteBalance?
    case Gain(_) => q.Gain?
    case Enable(s, _) => q.Enable? && q.stream == s
    case EnableLaser(_) => q.EnableLaser?
    case Streaming(_) => q.Streaming?
  }

  ghost predicate IsLastOfItsKind(batch: seq<Param>, i: int) {
    0 <= i < |batch| && forall j :: i < j < |batch| ==> !SameParameter(batch[i], batch[j])
  }

  lemma FrontLast(batch: seq<Param>, i: int)
    requires IsLastOfItsKind(batch, i) && i < |batch| - 1
    ensures IsLastOfItsKind(Front(batch), i) && Front(batch)[i] == batch[i] && !SameParameter(batch[i], Last(batch))
  {
  }

  lemma {:induction false} OtherPassOnCamera(cam: Camera, batch: seq<Param>, i: nat, reset: bool, awb: bool)
    requires IsLastOfItsKind(batch, i)
    ensures var after := cam.ServeAll(OtherPass(batch, reset, awb));
            match batch[i]
            case Exposure(r) => after.exposure == Truncate(10000.0 * r)
            case AutoExposure(on) => after.autoExposure == on
            case Gain(g) => after.gain == g
            case WhiteBalance(k) => after.whiteBalance == k
            case _ => true
  {
    var before := cam.ServeAll(OtherPass(Front(batch), reset, awb));
    ServeAllDistributes(cam, OtherPass(Front(batch), reset, awb), EffectsOf(Last(batch), reset, awb));
    EntryOnCamera(before, Last(batch), reset, awb);
    if i < |batch| - 1 {
      FrontLast(batch, i);
      OtherPassOnCamera(cam, Front(batch), i, reset, awb);
    }
  }

  lemma {:induction false} OtherPassLeavesCamera(cam: Camera, batch: seq<Param>, reset: bool, awb: bool)
    ensures var after := cam.ServeAll(OtherPass(batch, reset, awb));
            && ((forall p :: p in batch ==> !p.Exposure?) ==> after.exposure == cam.exposure)
            && ((forall p :: p in batch ==> !p.AutoExposure?) ==> after.autoExposure == cam.autoExposure)
            && ((forall p :: p in batch ==> !p.Gain?) ==> after.gain == cam.gain)
            && ((forall p :: p in batch ==> !p.WhiteBalance?) ==> after.whiteBalance == cam.whiteBalance)
  {
    if batch != [] {
      var before := cam.ServeAll(OtherPass(Front(batch), reset, awb));
      OtherPassLeavesCamera(cam, Front(batch), reset, awb);
      ServeAllDistributes(cam, OtherPass(Front(batch), reset, awb), EffectsOf(Last(batch), reset, awb));
      EntryOnCamera(before, Last(batch), reset, awb);
      assert Last(batch) in batch;
    }
  }

  lemma CallsOnCamera(cam: Camera, a: Adapter, batch: seq<Param>) returns (reset: bool)
    requires AllAcceptable(batch)
    ensures cam.ServeAll(CallsOf(a, batch)) == cam.ServeAll(OtherPass(Adjusted(batch), reset, a.autoWhiteBalance))
  {
    var adjusted := Adjusted(batch);
    var c := Commit(a.committed, adjusted);
    var resets := FpsPass(a.fps, c, adjusted);
    FpsPassOnlyResets(a.fps, c, adjusted);
    ServeAllDistributes(cam, resets, OtherPass(adjusted, resets != [], a.autoWhiteBalance));
    ResetsLeaveCamera(cam, resets);
    reset := resets != [];
  }

  /** Main result. After an accepted batch each setting that the adjusted batch names has the value of
      its last entry there, whatever else the batch holds. */
  lemma CameraHasLastValue(cam: Camera, a: Adapter, batch: seq<Param>, i: nat)
    requires AllAcceptable(batch) && IsLastOfItsKind(Adjusted(batch), i)
    ensures var after := cam.ServeAll(CallsOf(a, batch));
            match Adjusted(batch)[i]
            case Exposure(r) => after.exposure == Truncate(10000.0 * r)
            case AutoExposure(on) => after.autoExposure == on
            case Gain(g) => after.gain == g
            case WhiteBalance(k) => after.whiteBalance == k
            case _ => true
  {
    var reset := CallsOnCamera(cam, a, batch);
    OtherPassOnCamera(cam, Adjusted(batch), i, reset, a.autoWhiteBalance);
  }

  /** And each setting that it does not name stays. */
  lemma CameraKeepsTheRest(cam: Camera, a: Adapter, batch: seq<Param>)
    requires AllAcceptable(batch)
    ensures var q, after := Adjusted(batch), cam.ServeAll(CallsOf(a, batch));
            && ((forall p :: p in q ==> !p.Exposure?) ==> after.exposure == cam.exposure)
            && ((forall p :: p in q ==> !p.AutoExposure?) ==> after.autoExposure == cam.autoExposure)
            && ((forall p :: p in q ==> !p.Gain?) ==> after.gain == cam.gain)
            && ((forall p :: p in q ==> !p.WhiteBalance?) ==> after.whiteBalance == cam.whiteBalance)
  {
    var reset := CallsOnCamera(cam, a, batch);
    OtherPassLeavesCamera(cam, Adjusted(batch), reset, a.autoWhiteBalance);
  }

  /** In the user's terms: a batch that sets exposure or gain and does not mention auto exposure leaves
      the camera with auto exposure off. */
  lemma ManualSettingHolds(cam: Camera, a: Adapter, batch: seq<Param>)
    requires AllAcceptable(batch)
    requires exists p :: p in batch && (p.Exposure? || p.Gain?)
    requires forall p :: p in batch ==> !p.AutoExposure?
    ensures !cam.ServeAll(CallsOf(a, batch)).autoExposure
  {
    var i := InsertedOff(batch);
    CameraHasLastValue(cam, a, batch, i);
  }

  lemma InsertedOff(batch: seq<Param>) returns (n: nat)
    requires exists p :: p in batch && (p.Exposure? || p.Gain?)
    requires forall p :: p in batch ==> !p.AutoExposure?
    ensures IsLastOfItsKind(Adjusted(batch), n) && Adjusted(batch)[n] == AutoExposure(false)
  {
    InsertionsByName(batch);
    var p :| p in batch && (p.Exposure? || p.Gain?);
    var i :| 0 <= i < |batch| && batch[i] == p;
    assert batch[i].Exposure? || batch[i].Gain?;
    var q := Adjusted(batch);
    n := |q| - |batch| - 1;
    assert q[n] == AutoExposure(false);
    forall j | n < j < |q|
      ensures !q[j].AutoExposure?
    {
      assert q[j] == batch[j - n - 1];
    }
  }

  // ----- The adapter's own state -----

  lemma {:induction false} LastEntryInBatch(fps: real, streaming: bool, c: Committed, batch: seq<Param>, i: nat)
    requires IsLastOfItsKind(batch, i)
    ensures match batch[i]
            case Fps(r) => FpsAfter(fps, batch) == r
            case Streaming(on) => StreamingAfter(streaming, batch) == on
            case Enable(s, on) => Commit(c, batch).enabled.Get(s) == on
            case EnableLaser(on) => Commit(c, batch).laser == on
            case _ => true
  {
    if i < |batch| - 1 {
      FrontLast(batch, i);
      LastEntryInBatch(fps, streaming, c, Front(batch), i);
    }
  }

  lemma {:induction false} UnnamedInBatch(fps: real, streaming: bool, c: Committed, batch: seq<Param>)
    ensures (forall p :: p in batch ==> !p.Fps?) ==> FpsAfter(fps, batch) == fps
    ensures (forall p :: p in batch ==> !p.Streaming?) ==> StreamingAfter(streaming, batch) == streaming
    ensures (forall p :: p in batch ==> !p.EnableLaser?) ==> Commit(c, batch).laser == c.laser
    ensures forall s: Stream :: (forall p :: p in batch ==> !(p.Enable? && p.stream == s)) ==>
              Commit(c, batch).enabled.Get(s) == c.enabled.Get(s)
  {
    if batch != [] {
      UnnamedInBatch(fps, streaming, c, Front(batch));
      assert Last(batch) in batch;
      forall s: Stream | forall p :: p in batch ==> !(p.Enable? && p.stream == s)
        ensures Commit(c, batch).enabled.Get(s) == c.enabled.Get(s)
      {
        assert forall p :: p in Front(batch) ==> !(p.Enable? && p.stream == s);
      }
    }
  }

  /** After an accepted batch fps_, streaming_, the four committed switches and the committed laser have
      the value of their last entry. */
  lemma AdapterHasLastValue(a: Adapter, batch: seq<Param>, i: nat)
    requires AllAcceptable(batch) && IsLastOfItsKind(Adjusted(batch), i)
    ensures var after := a.SetParameters(batch).0;
            match Adjusted(batch)[i]
            case Fps(r) => after.fps == r
            case Streaming(on) => after.streaming == on
            case Enable(s, on) => after.committed.enabled.Get(s) == on
            case EnableLaser(on) => after.committed.laser == on
            case _ => true
  {
    AdjustingKeepsAcceptance(batch);
    LastEntryInBatch(a.fps, a.streaming, a.committed, Adjusted(batch), i);
  }

  lemma AdapterKeepsTheRest(a: Adapter, batch: seq<Param>)
    requires AllAcceptable(batch)
    ensures var q, after := Adjusted(batch), a.SetParameters(batch).0;
            && ((forall p :: p in q ==> !p.Fps?) ==> after.fps == a.fps)
            && ((forall p :: p in q ==> !p.Streaming?) ==> after.streaming == a.streaming)
            && ((forall p :: p in q ==> !p.EnableLaser?) ==> after.committed.laser == a.committed.laser)
            && after.autoWhiteBalance == a.autoWhiteBalance
            && forall s: Stream :: (forall p :: p in q ==> !(p.Enable? && p.stream == s)) ==>
                 after.committed.enabled.Get(s) == a.committed.enabled.Get(s)
  {
    AdjustingKeepsAcceptance(batch);
    UnnamedInBatch(a.fps, a.streaming, a.committed, Adjusted(batch));
  }

  // ----- Triggers -----

  function Triggers(effects: seq<Effect>): nat {
    if effects == [] then 0 else Triggers(Front(effects)) + if Last(effects) == Trigger then 1 else 0
  }

  function TimesSwitchedOn(batch: seq<Param>): nat {
    if batch == [] then 0 else TimesSwitchedOn(Front(batch)) + if Last(batch) == Streaming(true) then 1 else 0
  }

  lemma {:induction false} TriggersAddUp(a: seq<Effect>, b: seq<Effect>)
    ensures Triggers(a + b) == Triggers(a) + Triggers(b)
  {
    if b == [] {
      assert a + b == a;
    } else {
      assert Front(a + b) == a + Front(b);
      TriggersAddUp(a, Front(b));
    }
  }

  lemma {:induction false} NoTriggers(effects: seq<Effect>)
    requires Trigger !in effects
    ensures Triggers(effects) == 0
  {
    if effects != [] {
      NoTriggers(Front(effects));
    }
  }

  lemma EntryTriggers(p: Param, reset: bool, awb: bool)
    ensures Triggers(EffectsOf(p, reset, awb)) == if p == Streaming(true) then 1 else 0
  {
    if p == Streaming(true) {
      assert Front([Trigger]) == [];
    } else {
      NoTriggers(EffectsOf(p, reset, awb));
    }
  }

  lemma {:induction false} OtherPassTriggers(batch: seq<Param>, reset: bool, awb: bool)
    ensures Triggers(OtherPass(batch, reset, awb)) == TimesSwitchedOn(batch)
  {
    if batch != [] {
      OtherPassTriggers(Front(batch), reset, awb);
      TriggersAddUp(OtherPass(Front(batch), reset, awb), EffectsOf(Last(batch), reset, awb));
      EntryTriggers(Last(batch), reset, awb);
    }
  }

  /** A batch triggers once for each entry that switches streaming on, and not otherwise. */
  lemma OneTriggerPerSwitch(a: Adapter, batch: seq<Param>)
    requires AllAcceptable(batch)
    ensures Triggers(CallsOf(a, batch)) == TimesSwitchedOn(Adjusted(batch))
  {
    var adjusted := Adjusted(batch);
    var c := Commit(a.committed, adjusted);
    var resets := FpsPass(a.fps, c, adjusted);
    FpsPassOnlyResets(a.fps, c, adjusted);
    NoTriggers(resets);
    TriggersAddUp(resets, OtherPass(adjusted, resets != [], a.autoWhiteBalance));
    OtherPassTriggers(adjusted, resets != [], a.autoWhiteBalance);
  }
}
