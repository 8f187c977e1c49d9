/** The Ensenso adapter: a batch of parameters becomes one goal for the camera's action server, and
    the two CameraInfos of a capture are cached as a pair.

    A goal's entries take effect from left to right. Parameters have their declared types.
  */
module Ensenso {
  import opened Common

  datatype Param =
    | ExposureTime(seconds: real)
    | Gain(gain: real)
    | Gamma(gamma: real)
    | Projector(on: bool)
    | Unknown(name: string)

  datatype Kind = KExposure | KGain | KGamma | KProjector

  function KindOf(p: Param): Option<Kind> {
    match p
    case ExposureTime(_) => Some(KExposure)
    case Gain(_) => Some(KGain)
    case Gamma(_) => Some(KGamma)
    case Projector(_) => Some(KProjector)
    case Unknown(_) => None
  }

  datatype Setting = Real(r: real) | Bool(b: bool)

  function SettingOf(p: Param): Setting
    requires KindOf(p).Some?
  {
    match p
    case ExposureTime(r) => Real(r)
    case Gain(r) => Real(r)
    case Gamma(r) => Real(r)
    case Projector(b) => Bool(b)
  }

  /** The adapter's capture_params_. */
  datatype CaptureParameters = CaptureParameters(exposureTime: real, gain: real, gamma: real, projector: bool) {
    function Get(k: Kind): Setting {
      match k
      case KExposure => Real(exposureTime)
      case KGain => Real(gain)
      case KGamma => Real(gamma)
      case KProjector => Bool(projector)
    }
  }

  const DEFAULTS := CaptureParameters(0.01, 1.0, 1.0, true)

  datatype GoalKey = Exposure | AutoExposure | GainKey | AutoGain | GammaKey | ProjectorKey

  datatype GoalEntry = FloatEntry(key: GoalKey, x: real) | BoolEntry(key: GoalKey, on: bool)

  /** What the camera holds. */
  datatype Device = Device(
    exposure: real, autoExposure: bool, gain: real, autoGain: bool, gamma: real, projector: bool)
  {
    function Serve(e: GoalEntry): Device {
      match e
      case FloatEntry(Exposure, x) => this.(exposure := x)
      case FloatEntry(GainKey, x) => this.(gain := x)
      case FloatEntry(GammaKey, x) => this.(gamma := x)
      case BoolEntry(AutoExposure, on) => this.(autoExposure := on)
      case BoolEntry(AutoGain, on) => this.(autoGain := on)
      case BoolEntry(ProjectorKey, on) => this.(projector := on)
      case _ => this
    }

    function ServeAll(goal: seq<GoalEntry>): Device {
      if goal == [] then this else ServeAll(goal[..|goal| - 1]).Serve(goal[|goal| - 1])
    }

    function Get(k: Kind): Setting {
      match k
      case KExposure => Real(exposure)
      case KGain => Real(gain)
      case KGamma => Real(gamma)
      case KProjector => Bool(projector)
    }

    /** The automatic mode that would override a value of this kind. */
    predicate Automatic(k: Kind) {
      (k == KExposure && autoExposure) || (k == KGain && autoGain)
    }
  }

  function Assign(c: CaptureParameters, p: Param): CaptureParameters {
    match p
    case ExposureTime(r) => c.(exposureTime := r)
    case Gain(r) => c.(gain := r)
    case Gamma(r) => c.(gamma := r)
    case Projector(b) => c.(projector := b)
    case Unknown(_) => c
  }

  function Fold(c: CaptureParameters, batch: seq<Param>): CaptureParameters {
    if batch == [] then c else Assign(Fold(c, batch[..|batch| - 1]), batch[|batch| - 1])
  }

  function EntriesFor(p: Param): seq<GoalEntry> {
    match p
    case ExposureTime(r) => [BoolEntry(AutoExposure, false), FloatEntry(Exposure, r)]
    case Gain(r) => [BoolEntry(AutoGain, false), FloatEntry(GainKey, r)]
    case Gamma(r) => [FloatEntry(GammaKey, r)]
    case Projector(b) => [BoolEntry(ProjectorKey, b)]
    case Unknown(_) => []
  }

  function GoalOf(batch: seq<Param>): seq<GoalEntry> {
    if batch == [] then [] else GoalOf(batch[..|batch| - 1]) + EntriesFor(batch[|batch| - 1])
  }

  class EnsensoAdapter {
    var params: CaptureParameters
    var sent: seq<seq<GoalEntry>>

    constructor ()
      ensures params == DEFAULTS == CaptureParameters(0.01, 1.0, 1.0, true) && sent == []
    {
      params, sent := DEFAULTS, [];
    }

    /** The parameters are stored even when the server is not ready and the batch is refused. */
    method SetParameters(batch: seq<Param>, serverReady: bool) returns (successful: bool)
      modifies this
      ensures params == Fold(old(params), batch)
      ensures successful <==> serverReady || GoalOf(batch) == []
      ensures sent == if GoalOf(batch) != [] && serverReady then old(sent) + [GoalOf(batch)] else old(sent)
    {
      var goal := [];
      var requiresCameraUpdate := false;
      for i := 0 to |batch|
        invariant params == Fold(old(params), batch[..i]) && sent == old(sent)
        invariant goal == GoalOf(batch[..i]) && requiresCameraUpdate == (goal != [])
      {
        assert batch[..i + 1][..i] == batch[..i];
        match batch[i]
        case ExposureTime(r) =>
          params := params.(exposureTime := r);
          goal := goal + [BoolEntry(AutoExposure, false), FloatEntry(Exposure, params.exposureTime)];
          requiresCameraUpdate := true;
        case Gain(r) =>
          params := params.(gain := r);
          goal := goal + [BoolEntry(AutoGain, false), FloatEntry(GainKey, params.gain)];
          requiresCameraUpdate := true;
        case Gamma(r) =>
          params := params.(gamma := r);
          goal := goal + [FloatEntry(GammaKey, params.gamma)];
          requiresCameraUpdate := true;
        case Projector(b) =>
          params := params.(projector := b);
          goal := goal + [BoolEntry(ProjectorKey, params.projector)];
          requiresCameraUpdate := true;
        case Unknown(_) =>
      }
      assert batch[..|batch|] == batch;
      if requiresCameraUpdate {
        if !serverReady {
          return false;
        }
        sent := sent + [goal];
      }
      return true;
    }
  }

  lemma {:induction false} ServeAllDistributes(d: Device, a: seq<GoalEntry>, b: seq<GoalEntry>)
    ensures d.ServeAll(a + b) == d.ServeAll(a).ServeAll(b)
  {
    if b == [] {
      assert a + b == a;
    } else {
      assert (a + b)[..|a + b| - 1] == a + b[..|b| - 1];
      ServeAllDistributes(d, a, b[..|b| - 1]);
    }
  }

  lemma ServeShort(d: Device, e: GoalEntry, f: GoalEntry)
    ensures d.ServeAll([e]) == d.Serve(e)
    ensures d.ServeAll([e, f]) == d.Serve(e).Serve(f)
  {
    assert [e][..0] == [] && [e, f][..1] == [e];
  }

  lemma ServeOne(d: Device, p: Param, k: Kind)
    ensures var d' := d.ServeAll(EntriesFor(p));
            && d'.Get(k) == (if KindOf(p) == Some(k) then SettingOf(p) else d.Get(k))
            && d'.Automatic(k) == (d.Automatic(k) && KindOf(p) != Some(k))
  {
    match p
    case ExposureTime(r) => ServeShort(d, BoolEntry(AutoExposure, false), FloatEntry(Exposure, r));
    case Gain(r) => ServeShort(d, BoolEntry(AutoGain, false), FloatEntry(GainKey, r));
    case Gamma(r) => ServeShort(d, FloatEntry(GammaKey, r), FloatEntry(GammaKey, r));
    case Projector(b) => ServeShort(d, BoolEntry(ProjectorKey, b), BoolEntry(ProjectorKey, b));
    case Unknown(_) =>
  }

  lemma AssignOne(c: CaptureParameters, p: Param, k: Kind)
    ensures Assign(c, p).Get(k) == if KindOf(p) == Some(k) then SettingOf(p) else c.Get(k)
  {
  }

  ghost predicate SetsKind(batch: seq<Param>, i: int, k: Kind) {
    0 <= i < |batch| && KindOf(batch[i]) == Some(k)
  }

  lemma FrontSets(front: seq<Param>, batch: seq<Param>, k: Kind, j: int)
    requires batch != [] && front == batch[..|batch| - 1] && j < |front|
    ensures SetsKind(front, j, k) <==> SetsKind(batch, j, k)
  {
  }

  /** One more entry: the camera and the copy take its value, and nothing else changes. */
  lemma OneMoreEntry(d: Device, c: CaptureParameters, batch: seq<Param>, k: Kind)
    requires batch != []
    ensures var front, p := batch[..|batch| - 1], batch[|batch| - 1];
            var d0, d1 := d.ServeAll(GoalOf(front)), d.ServeAll(GoalOf(batch));
            && d1.Get(k) == (if KindOf(p) == Some(k) then SettingOf(p) else d0.Get(k))
            && d1.Automatic(k) == (d0.Automatic(k) && KindOf(p) != Some(k))
            && Fold(c, batch).Get(k) == (if KindOf(p) == Some(k) then SettingOf(p) else Fold(c, front).Get(k))
  {
    var front, p := batch[..|batch| - 1], batch[|batch| - 1];
    ServeAllDistributes(d, GoalOf(front), EntriesFor(p));
    ServeOne(d.ServeAll(GoalOf(front)), p, k);
    AssignOne(Fold(c, front), p, k);
  }

  /** Running a batch's goal on a camera, from left to right, leaves each setting at the last value
      that the batch gives it, with its automatic mode off; and the adapter's own copy says the same. */
  lemma {:induction false} GoalSetsLastValue(d: Device, c: CaptureParameters, batch: seq<Param>, k: Kind, i: nat)
    requires SetsKind(batch, i, k) && forall j :: i < j < |batch| ==> !SetsKind(batch, j, k)
    ensures d.ServeAll(GoalOf(batch)).Get(k) == SettingOf(batch[i])
    ensures !d.ServeAll(GoalOf(batch)).Automatic(k)
    ensures Fold(c, batch).Get(k) == SettingOf(batch[i])
  {
    var front := batch[..|batch| - 1];
    OneMoreEntry(d, c, batch, k);
    if i < |front| {
      assert !SetsKind(batch, |front|, k);
      forall j | i <= j < |front|
        ensures SetsKind(front, j, k) <==> SetsKind(batch, j, k)
      {
        FrontSets(front, batch, k, j);
      }
      GoalSetsLastValue(d, c, front, k, i);
    }
  }

  /** What a batch does not mention stays as it is, in the camera and in the copy. */
  lemma {:induction false} GoalLeavesTheRest(d: Device, c: CaptureParameters, batch: seq<Param>, k: Kind)
    requires forall j :: 0 <= j < |batch| ==> !SetsKind(batch, j, k)
    ensures d.ServeAll(GoalOf(batch)).Get(k) == d.Get(k)
    ensures d.ServeAll(GoalOf(batch)).Automatic(k) == d.Automatic(k)
    ensures Fold(c, batch).Get(k) == c.Get(k)
  {
    if batch != [] {
      var front := batch[..|batch| - 1];
      assert !SetsKind(batch, |front|, k);
      forall j | 0 <= j < |front|
        ensures !SetsKind(front, j, k)
      {
        FrontSets(front, batch, k, j);
      }
      GoalLeavesTheRest(d, c, front, k);
      OneMoreEntry(d, c, batch, k);
    }
  }

  /** The same by name: what each parameter does to the camera and to the record. */
  lemma LastSettingByName(d: Device, c: CaptureParameters, batch: seq<Param>, i: nat)
    requires i < |batch|
    ensures var d', c' := d.ServeAll(GoalOf(batch)), Fold(c, batch);
            match batch[i]
            case ExposureTime(r) =>
              (forall j :: i < j < |batch| ==> !batch[j].ExposureTime?) ==>
                d'.exposure == r && !d'.autoExposure && c'.exposureTime == r
            case Gain(r) =>
              (forall j :: i < j < |batch| ==> !batch[j].Gain?) ==> d'.gain == r && !d'.autoGain && c'.gain == r
            case Gamma(r) => (forall j :: i < j < |batch| ==> !batch[j].Gamma?) ==> d'.gamma == r && c'.gamma == r
            case Projector(b) =>
              (forall j :: i < j < |batch| ==> !batch[j].Projector?) ==> d'.projector == b && c'.projector == b
            case Unknown(_) => true
  {
    match batch[i]
    case ExposureTime(r) =>
      if forall j :: i < j < |batch| ==> !batch[j].ExposureTime? {
        GoalSetsLastValue(d, c, batch, KExposure, i);
      }
    case Gain(r) =>
      if forall j :: i < j < |batch| ==> !batch[j].Gain? {
        GoalSetsLastValue(d, c, batch, KGain, i);
      }
    case Gamma(r) =>
      if forall j :: i < j < |batch| ==> !batch[j].Gamma? {
        GoalSetsLastValue(d, c, batch, KGamma, i);
      }
    case Projector(b) =>
      if forall j :: i < j < |batch| ==> !batch[j].Projector? {
        GoalSetsLastValue(d, c, batch, KProjector, i);
      }
    case Unknown(_) =>
  }

  lemma UnnamedByName(d: Device, c: CaptureParameters, batch: seq<Param>)
    ensures var d', c' := d.ServeAll(GoalOf(batch)), Fold(c, batch);
            && ((forall p :: p in batch ==> !p.ExposureTime?) ==>
                  d'.exposure == d.exposure && d'.autoExposure == d.autoExposure && c'.exposureTime == c.exposureTime)
            && ((forall p :: p in batch ==> !p.Gain?) ==>
                  d'.gain == d.gain && d'.autoGain == d.autoGain && c'.gain == c.gain)
            && ((forall p :: p in batch ==> !p.Gamma?) ==> d'.gamma == d.gamma && c'.gamma == c.gamma)
            && ((forall p :: p in batch ==> !p.Projector?) ==> d'.projector == d.projector && c'.projector == c.projector)
  {
    if forall p :: p in batch ==> !p.ExposureTime? {
      GoalLeavesTheRest(d, c, batch, KExposure);
    }
    if forall p :: p in batch ==> !p.Gain? {
      GoalLeavesTheRest(d, c, batch, KGain);
    }
    if forall p :: p in batch ==> !p.Gamma? {
      GoalLeavesTheRest(d, c, batch, KGamma);
    }
    if forall p :: p in batch ==> !p.Projector? {
      GoalLeavesTheRest(d, c, batch, KProjector);
    }
  }

  /** In a goal, an exposure or gain value stands right behind the entry that switches its automatic
      mode off. */
  lemma {:induction false} OffRightBefore(batch: seq<Param>, k: nat)
    requires k < |GoalOf(batch)| && GoalOf(batch)[k].FloatEntry?
    ensures GoalOf(batch)[k].key == Exposure ==> 0 < k && GoalOf(batch)[k - 1] == BoolEntry(AutoExposure, false)
    ensures GoalOf(batch)[k].key == GainKey ==> 0 < k && GoalOf(batch)[k - 1] == BoolEntry(AutoGain, false)
  {
    if batch != [] && k < |GoalOf(batch[..|batch| - 1])| {
      OffRightBefore(batch[..|batch| - 1], k);
    }
  }

  /** There is nothing to send exactly when the batch names no camera parameter. */
  lemma {:induction false} NothingToSendIff(batch: seq<Param>)
    ensures GoalOf(batch) == [] <==> forall p :: p in batch ==> p.Unknown?
  {
    if batch != [] {
      var front, p := batch[..|batch| - 1], batch[|batch| - 1];
      NothingToSendIff(front);
      assert batch == front + [p];
      assert EntriesFor(p) == [] <==> p.Unknown?;
      assert GoalOf(batch) == [] <==> GoalOf(front) == [] && EntriesFor(p) == [];
    }
  }

  ghost predicate InStep(d: Device, c: CaptureParameters) {
    forall k: Kind :: d.Get(k) == c.Get(k)
  }

  lemma {:induction false} LastSetting(batch: seq<Param>, k: Kind) returns (i: int)
    ensures i == -1 ==> forall j :: 0 <= j < |batch| ==> !SetsKind(batch, j, k)
    ensures i != -1 ==> 0 <= i && SetsKind(batch, i, k) && forall j :: i < j < |batch| ==> !SetsKind(batch, j, k)
  {
    i := |batch| - 1;
    while 0 <= i && !SetsKind(batch, i, k)
      invariant -1 <= i < |batch|
      invariant forall j :: i < j < |batch| ==> !SetsKind(batch, j, k)
    {
      i := i - 1;
    }
  }

  /** A camera that is in step with the adapter's copy stays so under a batch exactly when the goal is
      sent and the camera accepts it, or the batch changes nothing: a refused batch is remembered but
      not applied, and the code never looks at what became of a goal that it sent. */
  lemma StaysInStepIff(d: Device, c: CaptureParameters, batch: seq<Param>, serverReady: bool, accepted: bool)
    requires InStep(d, c)
    ensures var d' := if serverReady && accepted then d.ServeAll(GoalOf(batch)) else d;
            InStep(d', Fold(c, batch)) <==> (serverReady && accepted) || Fold(c, batch) == c
  {
    if serverReady && accepted {
      forall k: Kind
        ensures d.ServeAll(GoalOf(batch)).Get(k) == Fold(c, batch).Get(k)
      {
        var i := LastSetting(batch, k);
        if i == -1 {
          GoalLeavesTheRest(d, c, batch, k);
        } else {
          GoalSetsLastValue(d, c, batch, k, i);
        }
      }
    } else if InStep(d, Fold(c, batch)) {
      var c' := Fold(c, batch);
      assert c'.Get(KExposure) == c.Get(KExposure) && c'.Get(KGain) == c.Get(KGain);
      assert c'.Get(KGamma) == c.Get(KGamma) && c'.Get(KProjector) == c.Get(KProjector);
    }
  }

  // ----- Runs -----

  /** A batch, whether the server was ready for it, and whether the camera accepted the goal. */
  datatype Call = Call(batch: seq<Param>, serverReady: bool, accepted: bool) {
    predicate Applied() {
      serverReady && accepted
    }
  }

  /** The camera and the adapter's copy. */
  datatype Pair = Pair(device: Device, copy: CaptureParameters)

  function After(start: Pair, calls: seq<Call>): Pair {
    if calls == [] then start
    else
      var before, call := After(start, calls[..|calls| - 1]), calls[|calls| - 1];
      Pair(if call.Applied() then before.device.ServeAll(GoalOf(call.batch)) else before.device,
           Fold(before.copy, call.batch))
  }

  /** Entry i of call b is the last one in the whole run that sets k. */
  ghost predicate SetsLast(calls: seq<Call>, b: int, i: int, k: Kind) {
    && 0 <= b < |calls| && IsLastSetting(calls[b].batch, i, k)
    && forall m :: b < m < |calls| ==> !CallSets(calls[m], k)
  }

  ghost predicate CallSets(call: Call, k: Kind) {
    exists j :: SetsKind(call.batch, j, k)
  }

  ghost predicate IsLastSetting(batch: seq<Param>, i: int, k: Kind) {
    SetsKind(batch, i, k) && forall j :: i < j ==> !SetsKind(batch, j, k)
  }

  lemma FrontSetsLast(calls: seq<Call>, b: int, i: int, k: Kind)
    requires SetsLast(calls, b, i, k) && b < |calls| - 1
    ensures SetsLast(calls[..|calls| - 1], b, i, k)
    ensures !CallSets(calls[|calls| - 1], k)
  {
  }

  /** What the run did to a kind that its last call does not set. */
  lemma LastCallLeaves(start: Pair, calls: seq<Call>, k: Kind)
    requires calls != [] && !CallSets(calls[|calls| - 1], k)
    ensures var before := After(start, calls[..|calls| - 1]);
            After(start, calls).device.Get(k) == before.device.Get(k) && After(start, calls).copy.Get(k) == before.copy.Get(k)
  {
    var before := After(start, calls[..|calls| - 1]);
    GoalLeavesTheRest(before.device, before.copy, calls[|calls| - 1].batch, k);
  }

  /** Over a whole run, camera and copy agree on a kind exactly when the goal of the last call that
      set it was sent and accepted, or that call set it to the value that the camera had before. */
  lemma {:induction false} AgreeOnIff(start: Pair, calls: seq<Call>, b: int, i: int, k: Kind)
    requires SetsLast(calls, b, i, k)
    ensures var end, before := After(start, calls), After(start, calls[..b]);
            end.device.Get(k) == end.copy.Get(k)
            <==> calls[b].Applied() || before.device.Get(k) == SettingOf(calls[b].batch[i])
  {
    var n := |calls| - 1;
    if b < n {
      FrontSetsLast(calls, b, i, k);
      AgreeOnIff(start, calls[..n], b, i, k);
      LastCallLeaves(start, calls, k);
      assert calls[..n][..b] == calls[..b];
    } else {
      var before := After(start, calls[..n]);
      GoalSetsLastValue(before.device, before.copy, calls[b].batch, k, i);
    }
  }

  /** A kind that no call sets stays as it was at the start, in the camera and in the copy. */
  lemma {:induction false} UnsetKindStays(start: Pair, calls: seq<Call>, k: Kind)
    requires forall m :: 0 <= m < |calls| ==> !CallSets(calls[m], k)
    ensures After(start, calls).device.Get(k) == start.device.Get(k) && After(start, calls).copy.Get(k) == start.copy.Get(k)
  {
    if calls != [] {
      UnsetKindStays(start, calls[..|calls| - 1], k);
      LastCallLeaves(start, calls, k);
    }
  }

  // ----- The cached pair -----

  /** A CameraInfo, with the number of the capture it comes from. */
  datatype Info = Info(capture: nat, content: int)

  datatype DescribeResult = Sensors(left: Info, depth: Info) | CaptureError | MissingInfo

  class InfoCache {
    var left: Option<Info>
    var depth: Option<Info>
    /** The pairs that captures brought so far. */
    ghost var brought: seq<(Info, Info)>

    /** The cache holds the last pair that a capture brought, or nothing. */
    ghost predicate Valid()
      reads this
    {
      && (forall i :: 0 <= i < |brought| ==> brought[i].0.capture == brought[i].1.capture)
      && left == (if brought == [] then None else Some(brought[|brought| - 1].0))
      && depth == (if brought == [] then None else Some(brought[|brought| - 1].1))
    }

    constructor ()
      ensures Valid() && brought == []
    {
      left, depth, brought := None, None, [];
    }

    /** The end of a capture. */
    method Store(l: Info, d: Info)
      requires Valid() && l.capture == d.capture
      modifies this
      ensures Valid() && brought == old(brought) + [(l, d)]
    {
      left := Some(l);
      depth := Some(d);
      brought := brought + [(l, d)];
    }

    /** Captures of other calls, while the mutex is free. */
    method LetCapturesRun()
      requires Valid()
      modifies this
      ensures Valid() && old(brought) <= brought
    {
      var n: int := *;
      while 0 < n
        invariant Valid() && old(brought) <= brought
      {
        var capture: int, l: int, d: int := *, *, *;
        var number := if capture < 0 then 0 else capture;
        Store(Info(number, l), Info(number, d));
        n := n - 1;
      }
    }

    /** A describe call. `capture` is what its own capture, if it needs one, would give. Whatever
        other calls do meanwhile, the two infos it returns are a pair that one capture brought; it
        fails only when nothing is cached and its own capture fails, and the error for a missing info
        cannot occur. */
    method Describe(capture: Option<(Info, Info)>) returns (r: DescribeResult)
      requires Valid()
      requires capture.Some? ==> capture.value.0.capture == capture.value.1.capture
      modifies this
      ensures Valid() && old(brought) <= brought
      ensures !r.MissingInfo?
      ensures r.Sensors? ==> (r.left, r.depth) in brought && r.left.capture == r.depth.capture
      ensures old(brought) != [] || capture.Some? ==> r.Sensors?
      ensures r.CaptureError? ==> capture.None?
    {
      LetCapturesRun();
      var infoCopy, depthCopy := left, depth;
      if infoCopy.None? || depthCopy.None? {
        LetCapturesRun();
        if capture.None? {
          return CaptureError;
        }
        Store(capture.value.0, capture.value.1);
        infoCopy, depthCopy := Some(capture.value.0), Some(capture.value.1);
      }
      assert (infoCopy.value, depthCopy.value) == brought[|brought| - 1];
      LetCapturesRun();
      if infoCopy.None? || depthCopy.None? {
        return MissingInfo;
      }
      return Sensors(infoCopy.value, depthCopy.value);
    }
  }
}
