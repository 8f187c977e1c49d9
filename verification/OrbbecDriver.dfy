/** What the calls of the parameter pipeline do to the vendor's driver node, over whole runs: the
    path that toggles streams and the path that recreates the driver lead to the same place, and
    nothing out of range is ever sent. Every call is taken to succeed and to be served in order.
  */
module OrbbecDriver {
  import opened Common
  import opened OrbbecParameters

  /** The vendor's node: the streams it runs, the streams that were enabled when it was created,
      the frame rates it was created with, and the laser. */
  datatype Driver = Driver(
    enabled: PerStream<bool>, created: PerStream<bool>, fps: PerStream<Option<int>>, laser: bool)
  {
    function Serve(e: Effect): Driver {
      match e
      case Recreate(o) => Driver(o.enabled, o.enabled, o.fps, o.laser)
      case Toggle(s, on) => this.(enabled := Set(enabled, s, on))
      case SetLaser(on) => this.(laser := on)
      case _ => this
    }

    function ServeAll(effects: seq<Effect>): Driver {
      if effects == [] then this else ServeAll(Front(effects)).Serve(Last(effects))
    }
  }

  const NO_DRIVER := Driver(All(false), All(false), All(None), false)

  lemma {:induction false} ServeAllDistributes(d: Driver, a: seq<Effect>, b: seq<Effect>)
    ensures d.ServeAll(a + b) == d.ServeAll(a).ServeAll(b)
  {
    if b == [] {
      assert a + b == a;
    } else {
      assert Front(a + b) == a + Front(b);
      ServeAllDistributes(d, a, Front(b));
    }
  }

  function CreatedWith(o: Options): Driver {
    Driver(o.enabled, o.enabled, o.fps, o.laser)
  }

  lemma ResetCreates(d: Driver, o: Options)
    ensures d.ServeAll(ResetWith(o)) == CreatedWith(o)
  {
    assert Front(ResetWith(o)) == [Restamp(Color), Restamp(LeftIr), Restamp(RightIr), Restamp(Depth)];
  }

  /** However often a batch changes the frame rate, the driver ends up as if it had been created
      once, with the last rate. */
  lemma {:induction false} FpsPassCreates(d: Driver, fps: real, c: Committed, batch: seq<Param>)
    ensures var resets := FpsPass(fps, c, batch);
            if resets == [] then FpsAfter(fps, batch) == fps
            else d.ServeAll(resets) == CreatedWith(OptionsFor(FpsAfter(fps, batch), c))
  {
    if batch != [] {
      FpsPassCreates(d, fps, c, Front(batch));
      var p := Last(batch);
      if p.Fps? && p.rate != FpsAfter(fps, Front(batch)) {
        var o := OptionsFor(p.rate, c);
        ServeAllDistributes(d, FpsPass(fps, c, Front(batch)), ResetWith(o));
        ResetCreates(d.ServeAll(FpsPass(fps, c, Front(batch))), o);
      } else {
        assert FpsPass(fps, c, batch) == FpsPass(fps, c, Front(batch));
      }
    }
  }

  lemma ServeShort(d: Driver, e: Effect, f: Effect)
    ensures d.ServeAll([e]) == d.Serve(e)
    ensures d.ServeAll([e, f]) == d.Serve(e).Serve(f)
  {
    assert Front([e]) == [] && Front([e, f]) == [e];
  }

  lemma ServeOne(d: Driver, p: Param, reset: bool, awb: bool)
    ensures var d' := d.ServeAll(EffectsOf(p, reset, awb));
            && d'.created == d.created && d'.fps == d.fps
            && d'.enabled == (if p.Enable? && !reset then Set(d.enabled, p.stream, p.on) else d.enabled)
            && d'.laser == (if p.EnableLaser? then p.on else d.laser)
  {
    var effects := EffectsOf(p, reset, awb);
    if p.Enable? && !reset {
      ServeShort(d, Restamp(p.stream), Toggle(p.stream, p.on));
    } else if effects != [] {
      assert effects == [effects[0]];
      ServeShort(d, effects[0], effects[0]);
    } else {
      assert d.ServeAll(effects) == d;
    }
  }

  function LaserAfter(laser: bool, batch: seq<Param>): bool {
    if batch == [] then laser
    else if Last(batch).EnableLaser? then Last(batch).on
    else LaserAfter(laser, Front(batch))
  }

  lemma {:induction false} LaserOfCommit(c: Committed, batch: seq<Param>)
    ensures Commit(c, batch).laser == LaserAfter(c.laser, batch)
  {
    if batch != [] {
      LaserOfCommit(c, Front(batch));
    }
  }

  lemma {:induction false} LaserAfterTwice(laser: bool, batch: seq<Param>, x: bool)
    ensures LaserAfter(x, batch) == LaserAfter(laser, batch) || LaserAfter(x, batch) == x
    ensures LaserAfter(LaserAfter(laser, batch), batch) == LaserAfter(laser, batch)
  {
    if batch != [] && !Last(batch).EnableLaser? {
      LaserAfterTwice(laser, Front(batch), x);
    }
  }

  lemma {:induction false} OtherPassServed(d: Driver, c: Committed, batch: seq<Param>, reset: bool, awb: bool)
    ensures var d' := d.ServeAll(OtherPass(batch, reset, awb));
            && d'.created == d.created && d'.fps == d.fps
            && (reset ==> d'.enabled == d.enabled)
            && (!reset && d.enabled == c.enabled ==> d'.enabled == Commit(c, batch).enabled)
            && d'.laser == LaserAfter(d.laser, batch)
  {
    if batch != [] {
      OtherPassServed(d, c, Front(batch), reset, awb);
      var front := OtherPass(Front(batch), reset, awb);
      ServeAllDistributes(d, front, EffectsOf(Last(batch), reset, awb));
      ServeOne(d.ServeAll(front), Last(batch), reset, awb);
    }
  }

  // ----- Runs -----

  function Run(evs: seq<Event>): Adapter {
    if evs == [] then CONSTRUCTED else Step(Run(Front(evs)), Last(evs))
  }

  /** The driver does what the committed parameters say. Its frame rates are those of fps_ for the
      streams that were enabled when it was created, and not set for the others. */
  predicate Agrees(d: Driver, a: Adapter) {
    && d.enabled == a.committed.enabled
    && d.laser == a.committed.laser
    && forall s: Stream :: d.fps.Get(s) == if d.created.Get(s) then Some(Truncate(a.fps)) else None
  }

  lemma OptionsAgree(fps: real, c: Committed)
    ensures forall s: Stream :: OptionsFor(fps, c).fps.Get(s) == if c.enabled.Get(s) then Some(Truncate(fps)) else None
  {
  }

  lemma BatchKeepsAgreement(d: Driver, a: Adapter, batch: seq<Param>)
    requires Agrees(d, a) && AllAcceptable(batch)
    ensures Agrees(d.ServeAll(CallsOf(a, batch)), a.SetParameters(batch).0)
  {
    AdjustingKeepsAcceptance(batch);
    var adjusted := Adjusted(batch);
    var c := Commit(a.committed, adjusted);
    var resets := FpsPass(a.fps, c, adjusted);
    var others := OtherPass(adjusted, resets != [], a.autoWhiteBalance);
    FpsPassCreates(d, a.fps, c, adjusted);
    ServeAllDistributes(d, resets, others);
    LaserOfCommit(a.committed, adjusted);
    LaserAfterTwice(a.committed.laser, adjusted, true);
    OptionsAgree(FpsAfter(a.fps, adjusted), c);
    OtherPassServed(d.ServeAll(resets), a.committed, adjusted, resets != [], a.autoWhiteBalance);
  }

  /** Main result. In every run, whether or not a batch changed the frame rate, the driver's four
      stream switches and its laser are the committed ones. */
  lemma {:induction false} DriverFollowsParameters(evs: seq<Event>)
    ensures Agrees(NO_DRIVER.ServeAll(Run(evs).log), Run(evs))
  {
    if evs == [] {
      var o := OptionsFor(DEFAULT_FPS, DEFAULTS);
      assert Front([Recreate(o)]) == [];
      assert NO_DRIVER.ServeAll([Recreate(o)]) == CreatedWith(o);
      OptionsAgree(DEFAULT_FPS, DEFAULTS);
    } else {
      DriverFollowsParameters(Front(evs));
      var a, e := Run(Front(evs)), Last(evs);
      if e.SetBatch? && AllAcceptable(e.batch) {
        SetParametersAddsCalls(a, e.batch);
        ServeAllDistributes(NO_DRIVER, a.log, CallsOf(a, e.batch));
        BatchKeepsAgreement(NO_DRIVER.ServeAll(a.log), a, e.batch);
      } else if e.SetBatch? {
        AdjustingKeepsAcceptance(e.batch);
      }
    }
  }

  // ----- Frame rates of running streams -----

  /** Entry i asks for another frame rate than the one that holds before it. */
  ghost predicate ChangesRateAt(fps: real, batch: seq<Param>, i: int) {
    0 <= i < |batch| && batch[i].Fps? && batch[i].rate != FpsAfter(fps, batch[..i])
  }

  ghost predicate ChangesRate(fps: real, batch: seq<Param>) {
    exists i :: ChangesRateAt(fps, batch, i)
  }

  lemma {:induction false} ResetsIff(fps: real, c: Committed, batch: seq<Param>)
    ensures FpsPass(fps, c, batch) != [] <==> ChangesRate(fps, batch)
  {
    if batch != [] {
      var n := |batch| - 1;
      ResetsIff(fps, c, Front(batch));
      forall i | i < n
        ensures ChangesRateAt(fps, batch, i) <==> ChangesRateAt(fps, Front(batch), i)
      {
        if 0 <= i {
          assert Front(batch)[..i] == batch[..i];
        }
      }
      assert ChangesRateAt(fps, batch, n) <==> batch[n].Fps? && batch[n].rate != FpsAfter(fps, Front(batch));
      assert FpsPass(fps, c, Front(batch)) != [] ==> FpsPass(fps, c, batch) != [];
    }
  }

  /** The streams that were enabled when the driver was created last: at construction, or by the last
      accepted batch that changed the frame rate. */
  ghost function EnabledAtCreation(evs: seq<Event>): PerStream<bool> {
    if evs == [] then DEFAULTS.enabled
    else
      match Last(evs)
      case SetBatch(batch) =>
        if AllAcceptable(batch) && ChangesRate(Run(Front(evs)).fps, Adjusted(batch)) then Run(evs).committed.enabled
        else EnabledAtCreation(Front(evs))
      case Reply(_, _, _) => EnabledAtCreation(Front(evs))
  }

  lemma BatchCreates(d: Driver, a: Adapter, batch: seq<Param>)
    requires AllAcceptable(batch)
    ensures d.ServeAll(CallsOf(a, batch)).created
            == if ChangesRate(a.fps, Adjusted(batch)) then a.SetParameters(batch).0.committed.enabled else d.created
  {
    AdjustingKeepsAcceptance(batch);
    var adjusted := Adjusted(batch);
    var c := Commit(a.committed, adjusted);
    var resets := FpsPass(a.fps, c, adjusted);
    ResetsIff(a.fps, c, adjusted);
    FpsPassCreates(d, a.fps, c, adjusted);
    ServeAllDistributes(d, resets, OtherPass(adjusted, resets != [], a.autoWhiteBalance));
    OtherPassServed(d.ServeAll(resets), a.committed, adjusted, resets != [], a.autoWhiteBalance);
  }

  lemma {:induction false} CreatedIsLastCreation(evs: seq<Event>)
    ensures NO_DRIVER.ServeAll(Run(evs).log).created == EnabledAtCreation(evs)
  {
    if evs == [] {
      ServeShort(NO_DRIVER, CONSTRUCTED.log[0], CONSTRUCTED.log[0]);
    } else {
      CreatedIsLastCreation(Front(evs));
      var a, e := Run(Front(evs)), Last(evs);
      if e.SetBatch? && AllAcceptable(e.batch) {
        SetParametersAddsCalls(a, e.batch);
        ServeAllDistributes(NO_DRIVER, a.log, CallsOf(a, e.batch));
        BatchCreates(NO_DRIVER.ServeAll(a.log), a, e.batch);
      } else if e.SetBatch? {
        AdjustingKeepsAcceptance(e.batch);
      }
    }
  }

  /** The two paths differ in one respect: an enabled stream runs with the frame rate that
      recreating the driver would give it exactly when it was enabled at the last creation. One that
      was toggled on later has no frame rate set. */
  lemma RunningRateIff(evs: seq<Event>, s: Stream)
    requires Run(evs).committed.enabled.Get(s)
    ensures var d := NO_DRIVER.ServeAll(Run(evs).log);
            && (d.fps.Get(s) == OptionsFor(Run(evs).fps, Run(evs).committed).fps.Get(s) <==> EnabledAtCreation(evs).Get(s))
            && (!EnabledAtCreation(evs).Get(s) ==> d.fps.Get(s) == None)
  {
    DriverFollowsParameters(evs);
    CreatedIsLastCreation(evs);
    OptionsAgree(Run(evs).fps, Run(evs).committed);
  }

  lemma NothingInserted(batch: seq<Param>)
    requires forall i :: 0 <= i < |batch| ==> NameOf(batch[i]) == NOther
    ensures Adjusted(batch) == batch
  {
    assert InsertedBefore(batch) == [];
  }

  lemma OneBatch(a: Adapter, p: Param)
    requires NameOf(p) == NOther && Acceptable(p)
    ensures a.SetParameters([p]).0.committed == CommitOne(a.committed, p)
    ensures a.SetParameters([p]).0.fps == if p.Fps? then p.rate else a.fps
    ensures ChangesRate(a.fps, Adjusted([p])) <==> p.Fps? && p.rate != a.fps
  {
    NothingInserted([p]);
    assert Adjusted([p]) == [p] && AllAcceptable([p]);
    assert Front([p]) == [] && Last([p]) == p && [p][..0] == [];
    assert Commit(a.committed, [p]) == CommitOne(Commit(a.committed, []), p);
    assert FpsAfter(a.fps, [p]) == if p.Fps? then p.rate else FpsAfter(a.fps, []);
    assert ChangesRateAt(a.fps, [p], 0) <==> p.Fps? && p.rate != a.fps;
  }

  /** It happens: depth is switched off, the frame rate is changed, and depth is switched on again; it
      then runs without the frame rate that a re-creation would give it. */
  lemma ToggledStreamHasNoRate() returns (evs: seq<Event>)
    ensures evs == [SetBatch([Enable(Depth, false)]), SetBatch([Fps(15.0)]), SetBatch([Enable(Depth, true)])]
    ensures var d := NO_DRIVER.ServeAll(Run(evs).log);
            d.enabled.depth && d.fps.depth == None && OptionsFor(Run(evs).fps, Run(evs).committed).fps.depth == Some(15)
  {
    var before := DepthOffAndRate();
    var e := SetBatch([Enable(Depth, true)]);
    evs := before + [e];
    RunGrows(before, e);
    OneBatch(Run(before), Enable(Depth, true));
    assert Run(evs).committed.enabled.Get(Depth) && Run(evs).fps == 15.0;
    RunningRateIff(evs, Depth);
    DriverFollowsParameters(evs);
  }

  lemma RunGrows(evs: seq<Event>, e: Event)
    ensures Run(evs + [e]) == Step(Run(evs), e)
    ensures EnabledAtCreation(evs + [e])
            == if e.SetBatch? && AllAcceptable(e.batch) && ChangesRate(Run(evs).fps, Adjusted(e.batch))
               then Step(Run(evs), e).committed.enabled else EnabledAtCreation(evs)
  {
    assert Front(evs + [e]) == evs && Last(evs + [e]) == e;
  }

  lemma DepthOffAndRate() returns (evs: seq<Event>)
    ensures evs == [SetBatch([Enable(Depth, false)]), SetBatch([Fps(15.0)])]
    ensures Run(evs).fps == 15.0 && !EnabledAtCreation(evs).Get(Depth)
  {
    var e1, e2 := SetBatch([Enable(Depth, false)]), SetBatch([Fps(15.0)]);
    RunGrows([], e1);
    OneBatch(Run([]), Enable(Depth, false));
    assert [] + [e1] == [e1];
    assert !Run([e1]).committed.enabled.Get(Depth) && Run([e1]).fps == DEFAULT_FPS;
    RunGrows([e1], e2);
    OneBatch(Run([e1]), Fps(15.0));
    evs := [e1] + [e2];
  }

  // ----- Recreations -----

  function Recreations(effects: seq<Effect>): nat {
    if effects == [] then 0 else Recreations(Front(effects)) + if Last(effects).Recreate? then 1 else 0
  }

  lemma {:induction false} RecreationsAddUp(a: seq<Effect>, b: seq<Effect>)
    ensures Recreations(a + b) == Recreations(a) + Recreations(b)
  {
    if b == [] {
      assert a + b == a;
    } else {
      assert Front(a + b) == a + Front(b);
      RecreationsAddUp(a, Front(b));
    }
  }

  lemma {:induction false} NoneRecreates(effects: seq<Effect>)
    requires forall e :: e in effects ==> !e.Recreate?
    ensures Recreations(effects) == 0
  {
    if effects != [] {
      NoneRecreates(Front(effects));
    }
  }

  /** The frame rates that a batch asks for, behind the one that holds when it arrives. */
  function RatePath(fps: real, batch: seq<Param>): (path: seq<real>)
    ensures path != []
  {
    if batch == [] then [fps]
    else RatePath(fps, Front(batch)) + if Last(batch).Fps? then [Last(batch).rate] else []
  }

  predicate Changes(path: seq<real>, i: nat) {
    i + 1 < |path| && path[i] != path[i + 1]
  }

  ghost function ChangePoints(path: seq<real>): set<int> {
    set i | 0 <= i < |path| && Changes(path, i)
  }

  lemma ChangePointsOfLonger(path: seq<real>, rate: real)
    requires path != []
    ensures |ChangePoints(path + [rate])| == |ChangePoints(path)| + if rate != Last(path) then 1 else 0
  {
    var longer := path + [rate];
    if rate != Last(path) {
      assert ChangePoints(longer) == ChangePoints(path) + {|path| - 1};
    } else {
      assert ChangePoints(longer) == ChangePoints(path);
    }
  }

  lemma {:induction false} RecreationsInFpsPass(fps: real, c: Committed, batch: seq<Param>)
    ensures Last(RatePath(fps, batch)) == FpsAfter(fps, batch)
    ensures Recreations(FpsPass(fps, c, batch)) == |ChangePoints(RatePath(fps, batch))|
  {
    if batch == [] {
      assert ChangePoints([fps]) == {};
    } else {
      RecreationsInFpsPass(fps, c, Front(batch));
      var p, path := Last(batch), RatePath(fps, Front(batch));
      if p.Fps? {
        ChangePointsOfLonger(path, p.rate);
        if p.rate != Last(path) {
          var o := OptionsFor(p.rate, c);
          RecreationsAddUp(FpsPass(fps, c, Front(batch)), ResetWith(o));
          RecreationsAddUp([Restamp(Color), Restamp(LeftIr), Restamp(RightIr), Restamp(Depth)], [Recreate(o)]);
          NoneRecreates([Restamp(Color), Restamp(LeftIr), Restamp(RightIr), Restamp(Depth)]);
          assert Front([Recreate(o)]) == [];
          assert ResetWith(o) == [Restamp(Color), Restamp(LeftIr), Restamp(RightIr), Restamp(Depth)] + [Recreate(o)];
        } else {
          assert FpsPass(fps, c, batch) == FpsPass(fps, c, Front(batch));
        }
      } else {
        assert path + [] == path;
        assert FpsPass(fps, c, batch) == FpsPass(fps, c, Front(batch));
      }
    }
  }

  lemma {:induction false} NoRecreationElsewhere(batch: seq<Param>, reset: bool, awb: bool)
    ensures Recreations(OtherPass(batch, reset, awb)) == 0
  {
    if batch != [] {
      NoRecreationElsewhere(Front(batch), reset, awb);
      var effects := EffectsOf(Last(batch), reset, awb);
      NoneRecreates(effects);
      RecreationsAddUp(OtherPass(Front(batch), reset, awb), effects);
      assert OtherPass(batch, reset, awb) == OtherPass(Front(batch), reset, awb) + effects;
    }
  }

  /** An accepted batch recreates the driver once for each actual change along its frame rates,
      and leaves fps_ at the last of them. */
  lemma OneRecreationPerChange(a: Adapter, batch: seq<Param>)
    requires AllAcceptable(batch)
    ensures Recreations(CallsOf(a, batch)) == |ChangePoints(RatePath(a.fps, Adjusted(batch)))|
    ensures a.SetParameters(batch).0.fps == Last(RatePath(a.fps, Adjusted(batch)))
  {
    AdjustingKeepsAcceptance(batch);
    var adjusted := Adjusted(batch);
    var c := Commit(a.committed, adjusted);
    var resets := FpsPass(a.fps, c, adjusted);
    RecreationsInFpsPass(a.fps, c, adjusted);
    NoRecreationElsewhere(adjusted, resets != [], a.autoWhiteBalance);
    RecreationsAddUp(resets, OtherPass(adjusted, resets != [], a.autoWhiteBalance));
  }

  /** Within a batch every re-creation comes before every other call, and a batch that re-creates the
      driver toggles nothing. */
  lemma RecreationsComeFirst(a: Adapter, batch: seq<Param>, k: nat, m: nat)
    requires AllAcceptable(batch) && k < |CallsOf(a, batch)| && m < |CallsOf(a, batch)|
    requires CallsOf(a, batch)[m].Recreate?
    ensures k < m ==> CallsOf(a, batch)[k].Recreate? || CallsOf(a, batch)[k].Restamp?
    ensures !CallsOf(a, batch)[k].Toggle?
  {
    var adjusted := Adjusted(batch);
    var c := Commit(a.committed, adjusted);
    var resets := FpsPass(a.fps, c, adjusted);
    var others := OtherPass(adjusted, resets != [], a.autoWhiteBalance);
    FpsPassOnlyResets(a.fps, c, adjusted);
    assert CallsOf(a, batch) == resets + others;
    if |resets| <= m {
      OtherCallKind(adjusted, resets != [], a.autoWhiteBalance, m - |resets|);
    }
    if |resets| <= k {
      OtherCallKind(adjusted, resets != [], a.autoWhiteBalance, k - |resets|);
    } else {
      assert CallsOf(a, batch)[k] in resets;
    }
  }

  lemma OtherCallKind(batch: seq<Param>, reset: bool, awb: bool, k: nat)
    requires k < |OtherPass(batch, reset, awb)|
    ensures !OtherPass(batch, reset, awb)[k].Recreate?
    ensures reset ==> !OtherPass(batch, reset, awb)[k].Toggle?
  {
    EffectsHaveAnOrigin(batch, reset, awb, k);
    var i :| 0 <= i < |batch| && OtherPass(batch, reset, awb)[k] in EffectsOf(batch[i], reset, awb);
    EntryCallKind(batch[i], reset, awb, OtherPass(batch, reset, awb)[k]);
  }

  lemma EntryCallKind(p: Param, reset: bool, awb: bool, e: Effect)
    requires e in EffectsOf(p, reset, awb)
    ensures !e.Recreate? && (reset ==> !e.Toggle?)
  {
  }

  // ----- Time stamps -----

  const ALL_STAMPS := [Restamp(Color), Restamp(LeftIr), Restamp(RightIr), Restamp(Depth)]

  /** Right before a toggle the stream's watchdog time is reset, and right before a recreation all
      four are, so that no stream is blamed for the time it was off. */
  predicate StampedFirst(effects: seq<Effect>) {
    forall k :: 0 <= k < |effects| ==> StampedAt(effects, k)
  }

  predicate StampedAt(effects: seq<Effect>, k: nat)
    requires k < |effects|
  {
    match effects[k]
    case Toggle(s, _) => 1 <= k && effects[k - 1] == Restamp(s)
    case Recreate(_) => 4 <= k && effects[k - 4..k] == ALL_STAMPS
    case _ => true
  }

  lemma StampedFirstAddsUp(a: seq<Effect>, b: seq<Effect>)
    requires StampedFirst(a) && StampedFirst(b)
    ensures StampedFirst(a + b)
  {
    var c := a + b;
    forall k | 0 <= k < |c|
      ensures StampedAt(c, k)
    {
      if k < |a| {
        assert StampedAt(a, k);
        assert 4 <= k ==> c[k - 4..k] == a[k - 4..k];
      } else {
        assert StampedAt(b, k - |a|);
        assert 4 <= k - |a| ==> c[k - 4..k] == b[k - |a| - 4..k - |a|];
      }
    }
  }

  lemma {:induction false} FpsPassIsStamped(fps: real, c: Committed, batch: seq<Param>)
    ensures StampedFirst(FpsPass(fps, c, batch))
  {
    if batch != [] {
      FpsPassIsStamped(fps, c, Front(batch));
      var p := Last(batch);
      if p.Fps? && p.rate != FpsAfter(fps, Front(batch)) {
        assert ResetWith(OptionsFor(p.rate, c))[0..4] == ALL_STAMPS;
        StampedFirstAddsUp(FpsPass(fps, c, Front(batch)), ResetWith(OptionsFor(p.rate, c)));
      } else {
        assert FpsPass(fps, c, batch) == FpsPass(fps, c, Front(batch));
      }
    }
  }

  lemma {:induction false} OtherPassIsStamped(batch: seq<Param>, reset: bool, awb: bool)
    ensures StampedFirst(OtherPass(batch, reset, awb))
  {
    if batch != [] {
      OtherPassIsStamped(Front(batch), reset, awb);
      StampedFirstAddsUp(OtherPass(Front(batch), reset, awb), EffectsOf(Last(batch), reset, awb));
    }
  }

  lemma BatchIsStamped(a: Adapter, batch: seq<Param>)
    requires AllAcceptable(batch)
    ensures StampedFirst(CallsOf(a, batch))
  {
    var adjusted := Adjusted(batch);
    var c := Commit(a.committed, adjusted);
    var resets := FpsPass(a.fps, c, adjusted);
    FpsPassIsStamped(a.fps, c, adjusted);
    OtherPassIsStamped(adjusted, resets != [], a.autoWhiteBalance);
    StampedFirstAddsUp(resets, OtherPass(adjusted, resets != [], a.autoWhiteBalance));
  }

  // ----- Ranges -----

  predicate InRange(e: Effect) {
    match e
    case SetExposure(units) => 1 <= units <= 1000
    case SetWhiteBalance(k) => 2800 <= k <= 6500
    case SetGain(g) => 0 <= g <= 128
    case Recreate(o) =>
      forall s: Stream :: o.fps.Get(s).Some? ==> o.fps.Get(s).value in {5, 10, 15, 30}
    case _ => true
  }

  /** Seconds become units of 0.1 ms: within 1..1000, in order, and off by less than one unit. */
  lemma ExposureUnits(x: real, y: real)
    requires 0.0001 <= x <= y <= 0.1
    ensures 1 <= Truncate(10000.0 * x) <= Truncate(10000.0 * y) <= 1000
    ensures 0.0 <= 10000.0 * x - Truncate(10000.0 * x) as real < 1.0
  {
    FloorBounds(10000.0 * x);
    FloorBounds(10000.0 * y);
  }

  lemma FloorBounds(x: real)
    ensures x.Floor as real <= x < x.Floor as real + 1.0
  {
  }

  lemma EffectsInRange(p: Param, reset: bool, awb: bool, e: Effect)
    requires Acceptable(p) && e in EffectsOf(p, reset, awb)
    ensures InRange(e)
  {
    if p.Exposure? {
      ExposureUnits(p.seconds, p.seconds);
    }
  }

  lemma {:induction false} OtherPassInRange(batch: seq<Param>, reset: bool, awb: bool, k: nat)
    requires AllAcceptable(batch) && k < |OtherPass(batch, reset, awb)|
    ensures InRange(OtherPass(batch, reset, awb)[k])
  {
    EffectsHaveAnOrigin(batch, reset, awb, k);
    var i :| 0 <= i < |batch| && OtherPass(batch, reset, awb)[k] in EffectsOf(batch[i], reset, awb);
    EffectsInRange(batch[i], reset, awb, OtherPass(batch, reset, awb)[k]);
  }

  predicate AllowedRate(fps: real) {
    fps == 5.0 || fps == 10.0 || fps == 15.0 || fps == 30.0
  }

  lemma ResetInRange(fps: real, c: Committed, e: Effect)
    requires AllowedRate(fps) && e in ResetWith(OptionsFor(fps, c))
    ensures InRange(e)
  {
    OptionsAgree(fps, c);
  }

  lemma {:induction false} FpsPassInRange(fps: real, c: Committed, batch: seq<Param>)
    requires AllowedRate(fps) && AllAcceptable(batch)
    ensures AllowedRate(FpsAfter(fps, batch))
    ensures forall e :: e in FpsPass(fps, c, batch) ==> InRange(e)
  {
    if batch != [] {
      FpsPassInRange(fps, c, Front(batch));
      var p := Last(batch);
      assert Acceptable(p);
      forall e | e in FpsPass(fps, c, batch)
        ensures InRange(e)
      {
        if e !in FpsPass(fps, c, Front(batch)) {
          ResetInRange(p.rate, c, e);
        }
      }
    }
  }

  /** In every run of accepted and rejected batches, everything ever sent is in range, and fps_ is
      one of the four allowed rates. */
  lemma {:induction false} EverythingSentIsInRange(evs: seq<Event>)
    ensures AllowedRate(Run(evs).fps)
    ensures forall e :: e in Run(evs).log ==> InRange(e)
  {
    if evs == [] {
      OptionsAgree(DEFAULT_FPS, DEFAULTS);
    } else {
      EverythingSentIsInRange(Front(evs));
      var a, e := Run(Front(evs)), Last(evs);
      if e.SetBatch? {
        AdjustingKeepsAcceptance(e.batch);
        if AllAcceptable(e.batch) {
          BatchInRange(a, e.batch);
          SetParametersAddsCalls(a, e.batch);
        }
      }
    }
  }

  lemma BatchInRange(a: Adapter, batch: seq<Param>)
    requires AllowedRate(a.fps) && AllAcceptable(batch)
    ensures AllowedRate(a.SetParameters(batch).0.fps)
    ensures forall e :: e in CallsOf(a, batch) ==> InRange(e)
  {
    AdjustingKeepsAcceptance(batch);
    var adjusted := Adjusted(batch);
    var c := Commit(a.committed, adjusted);
    FpsPassInRange(a.fps, c, adjusted);
    var resets := FpsPass(a.fps, c, adjusted);
    var others := OtherPass(adjusted, resets != [], a.autoWhiteBalance);
    forall e | e in CallsOf(a, batch)
      ensures InRange(e)
    {
      if e !in resets {
        var k :| 0 <= k < |others| && others[k] == e;
        OtherPassInRange(adjusted, resets != [], a.autoWhiteBalance, k);
      }
    }
  }

  /** A rejected batch changes nothing and sends nothing; it is rejected exactly when one of the
      user's own entries is out of range. */
  lemma RejectedBatchSendsNothing(a: Adapter, batch: seq<Param>)
    ensures a.SetParameters(batch).1
            <==> forall p :: p in batch ==>
                   && (p.Exposure? ==> 0.0001 <= p.seconds <= 0.1)
                   && (p.WhiteBalance? ==> 2800 <= p.kelvin <= 6500)
                   && (p.Gain? ==> 0 <= p.gain <= 128)
                   && (p.Fps? ==> p.rate in {5.0, 10.0, 15.0, 30.0})
    ensures !a.SetParameters(batch).1 ==> a.SetParameters(batch).0 == a
  {
    AdjustingKeepsAcceptance(batch);
    AcceptableByName(batch);
  }
}
