/** The Zivid adapter's capture mailbox: one slot for each of the three payloads of a capture and one
    for the CameraInfo, filled by callbacks and emptied, all at once, by waiting captures.

    A message is represented by a number. In the runs below, the n-th message of a kind has number n.
  */
module ZividCapture {
  import opened Common

  /** The three payloads of a capture. */
  datatype Kind = KColor | KDepth | KNormal

  datatype CaptureData = CaptureData(color: nat, depth: nat, normal: nat, info: nat) {
    function Number(k: Kind): nat {
      match k
      case KColor => color
      case KDepth => depth
      case KNormal => normal
    }
  }

  datatype Item = ColorImage | DepthImage | NormalCloud | Info {
    function Rank(): nat {
      match this
      case ColorImage => 0
      case DepthImage => 1
      case NormalCloud => 2
      case Info => 3
    }
  }

  datatype Result =
    | Captured(data: CaptureData)
    | ServiceNotReady
    | RequestTimedOut
    | CaptureFailed
    | Missing(items: seq<Item>)

  /** What a describe call returns; its three sensors share one CameraInfo. */
  datatype Description = Described(info: nat) | Failed(error: Result)

  datatype Mailbox = Mailbox(color: Option<nat>, depth: Option<nat>, normal: Option<nat>, info: Option<nat>) {
    predicate AllAvailable() {
      color.Some? && depth.Some? && normal.Some? && info.Some?
    }

    function Slot(k: Kind): Option<nat> {
      match k
      case KColor => color
      case KDepth => depth
      case KNormal => normal
    }

    predicate Has(i: Item) {
      match i
      case ColorImage => color.Some?
      case DepthImage => depth.Some?
      case NormalCloud => normal.Some?
      case Info => info.Some?
    }

    function Contents(): CaptureData
      requires AllAvailable()
    {
      CaptureData(color.value, depth.value, normal.value, info.value)
    }

    /** What a capture that times out reports. */
    function MissingItems(): (items: seq<Item>)
      ensures forall i: Item :: i in items <==> !Has(i)
      ensures forall m, n :: 0 <= m < n < |items| ==> items[m].Rank() < items[n].Rank()
    {
      (if color.None? then [ColorImage] else []) + (if depth.None? then [DepthImage] else [])
      + (if normal.None? then [NormalCloud] else []) + (if info.None? then [Info] else [])
    }

    /** The CameraInfo stays for later describe calls. */
    function Emptied(): Mailbox {
      this.(color := None, depth := None, normal := None)
    }
  }

  const EMPTY := Mailbox(None, None, None, None)

  /** The adapter's data_ behind data_mutex_. */
  class CaptureSlots {
    var color: Option<nat>
    var depth: Option<nat>
    var normal: Option<nat>
    var info: Option<nat>

    ghost function View(): Mailbox
      reads this
    {
      Mailbox(color, depth, normal, info)
    }

    /** An image never comes without its CameraInfo. */
    ghost predicate Valid()
      reads this
    {
      color.Some? ==> info.Some?
    }

    constructor ()
      ensures Valid() && View() == EMPTY
    {
      color, depth, normal, info := None, None, None, None;
    }

    method OnColor(image: nat, cameraInfo: nat)
      modifies this
      ensures Valid() && View() == old(View()).(color := Some(image), info := Some(cameraInfo))
    {
      color := Some(image);
      info := Some(cameraInfo);
    }

    method OnDepth(msg: nat)
      modifies this`depth
      ensures View() == old(View()).(depth := Some(msg))
    {
      depth := Some(msg);
    }

    method OnNormal(msg: nat)
      modifies this`normal
      ensures View() == old(View()).(normal := Some(msg))
    {
      normal := Some(msg);
    }

    /** The locked part of a capture, once its wait has ended. */
    method TakeOrReport() returns (r: Result)
      modifies this
      ensures if old(View()).AllAvailable()
              then r == Captured(old(View()).Contents()) && View() == old(View()).Emptied()
              else r == Missing(old(View()).MissingItems()) && View() == old(View())
    {
      if color.Some? && depth.Some? && normal.Some? && info.Some? {
        r := Captured(CaptureData(color.value, depth.value, normal.value, info.value));
        color, depth, normal := None, None, None;
      } else {
        var items := [];
        if color.None? { items := items + [ColorImage]; }
        if depth.None? { items := items + [DepthImage]; }
        if normal.None? { items := items + [NormalCloud]; }
        if info.None? { items := items + [Info]; }
        r := Missing(items);
      }
    }

    /** Callbacks and other captures, while the mutex is free. */
    method LetOthersRun()
      requires Valid()
      modifies this
      ensures Valid() && (old(info).Some? ==> info.Some?)
    {
      var n: int := *;
      while 0 < n
        invariant Valid() && (old(info).Some? ==> info.Some?)
      {
        var kind: int, a: int, b: int := *, *, *;
        var msg, cameraInfo := if a < 0 then 0 else a, if b < 0 then 0 else b;
        if kind == 0 {
          OnColor(msg, cameraInfo);
        } else if kind == 1 {
          OnDepth(msg);
        } else if kind == 2 {
          OnNormal(msg);
        } else {
          var taken := TakeOrReport();
        }
        n := n - 1;
      }
    }

    /** One capture. `found` is the mailbox when the wait ended, with success or by its timeout.
        Either everything is there and all of it is taken, or nothing is and the error names exactly
        what is missing; the CameraInfo is never missing alone. */
    method Capture(serviceReady: bool, answered: bool, success: bool) returns (r: Result, ghost found: Mailbox)
      requires Valid()
      modifies this
      ensures Valid() && (old(info).Some? ==> info.Some?)
      ensures r.ServiceNotReady? <==> !serviceReady
      ensures r.RequestTimedOut? <==> serviceReady && !answered
      ensures r.CaptureFailed? <==> serviceReady && answered && !success
      ensures r.Captured? <==> serviceReady && answered && success && found.AllAvailable()
      ensures r.Captured? ==> r.data == found.Contents() && View() == found.Emptied()
      ensures !r.Captured? ==> View() == found
      ensures r.Missing? ==> r.items == found.MissingItems() && r.items != [] && (Info in r.items ==> ColorImage in r.items)
    {
      if !serviceReady {
        return ServiceNotReady, View();
      }
      LetOthersRun();
      if !answered {
        return RequestTimedOut, View();
      }
      if !success {
        return CaptureFailed, View();
      }
      LetOthersRun();
      found := View();
      r := TakeOrReport();
    }

    /** A describe call returns the cached CameraInfo. With one at hand it cannot fail; so once one call
        succeeded no later one fails, whatever the camera does and whatever other calls take. */
    method Describe(serviceReady: bool, answered: bool, success: bool) returns (r: Description)
      requires Valid()
      modifies this
      ensures Valid()
      ensures old(info).Some? ==> r.Described?
      ensures r.Described? ==> info == Some(r.info)
      ensures r.Failed? ==> !r.error.Captured?
    {
      LetOthersRun();
      var infoCopy := info;
      if infoCopy.None? {
        var captured, _ := Capture(serviceReady, answered, success);
        if !captured.Captured? {
          return Failed(captured);
        }
        infoCopy := Some(captured.data.info);
      }
      return Described(infoCopy.value);
    }
  }

  // ----- Overlapping captures -----

  datatype Counts = Counts(color: nat, depth: nat, normal: nat) {
    function Of(k: Kind): nat {
      match k
      case KColor => color
      case KDepth => depth
      case KNormal => normal
    }
  }

  datatype Call = Waiting | Done(result: Result)

  datatype Event =
    | ColorArrives
    | DepthArrives
    | NormalArrives
    | Begin(c: nat)
    | FailEarly(c: nat, error: Result)
    | Take(c: nat)
    | TimeOut(c: nat)

  /** The mailbox, the calls, and what happened so far: the messages received, those that a later
      message pushed out of their slot, and the captures delivered. */
  datatype Sys = Sys(
    mail: Mailbox, calls: map<nat, Call>, received: Counts, overwritten: Counts, delivered: seq<CaptureData>)

  const START := Sys(EMPTY, map[], Counts(0, 0, 0), Counts(0, 0, 0), [])

  function ArrivalOf(k: Kind): Event {
    match k
    case KColor => ColorArrives
    case KDepth => DepthArrives
    case KNormal => NormalArrives
  }

  predicate Enabled(s: Sys, e: Event) {
    match e
    case Begin(c) => c !in s.calls
    case FailEarly(c, error) =>
      c in s.calls && s.calls[c].Waiting? && (error.ServiceNotReady? || error.RequestTimedOut? || error.CaptureFailed?)
    case Take(c) => c in s.calls && s.calls[c].Waiting? && s.mail.AllAvailable()
    case TimeOut(c) => c in s.calls && s.calls[c].Waiting? && !s.mail.AllAvailable()
    case _ => true
  }

  function Occupied(slot: Option<nat>): nat {
    if slot.Some? then 1 else 0
  }

  function Next(s: Sys, e: Event): Sys
    requires Enabled(s, e)
  {
    match e
    case ColorArrives =>
      var n := s.received.color + 1;
      s.(mail := s.mail.(color := Some(n), info := Some(n)),
         received := s.received.(color := n),
         overwritten := s.overwritten.(color := s.overwritten.color + Occupied(s.mail.color)))
    case DepthArrives =>
      var n := s.received.depth + 1;
      s.(mail := s.mail.(depth := Some(n)),
         received := s.received.(depth := n),
         overwritten := s.overwritten.(depth := s.overwritten.depth + Occupied(s.mail.depth)))
    case NormalArrives =>
      var n := s.received.normal + 1;
      s.(mail := s.mail.(normal := Some(n)),
         received := s.received.(normal := n),
         overwritten := s.overwritten.(normal := s.overwritten.normal + Occupied(s.mail.normal)))
    case Begin(c) => s.(calls := s.calls[c := Waiting])
    case FailEarly(c, error) => s.(calls := s.calls[c := Done(error)])
    case Take(c) =>
      s.(mail := s.mail.Emptied(),
         calls := s.calls[c := Done(Captured(s.mail.Contents()))],
         delivered := s.delivered + [s.mail.Contents()])
    case TimeOut(c) => s.(calls := s.calls[c := Done(Missing(s.mail.MissingItems()))])
  }

  ghost predicate Behavior(states: seq<Sys>, evs: seq<Event>) {
    && |states| == |evs| + 1
    && states[0] == START
    && forall i :: 0 <= i < |evs| ==> Enabled(states[i], evs[i]) && states[i + 1] == Next(states[i], evs[i])
  }

  /** Every message was delivered, pushed out, or is still in its slot. */
  ghost predicate Conserved(s: Sys) {
    && s.received.color == |s.delivered| + s.overwritten.color + Occupied(s.mail.color)
    && s.received.depth == |s.delivered| + s.overwritten.depth + Occupied(s.mail.depth)
    && s.received.normal == |s.delivered| + s.overwritten.normal + Occupied(s.mail.normal)
  }

  /** A slot holds the newest message of its kind or nothing, and a CameraInfo came together with
      the newest color image. */
  ghost predicate SlotsAreNewest(s: Sys) {
    && (s.mail.color.Some? ==> s.mail.color.value == s.received.color)
    && (s.mail.depth.Some? ==> s.mail.depth.value == s.received.depth)
    && (s.mail.normal.Some? ==> s.mail.normal.value == s.received.normal)
    && s.mail.info == (if s.received.color == 0 then None else Some(s.received.color))
  }

  /** A capture delivered only messages older than what is in the slots now. */
  ghost predicate DeliveredEarlier(s: Sys, d: CaptureData) {
    && d.color <= s.received.color && (s.mail.color.Some? ==> d.color < s.received.color)
    && d.depth <= s.received.depth && (s.mail.depth.Some? ==> d.depth < s.received.depth)
    && d.normal <= s.received.normal && (s.mail.normal.Some? ==> d.normal < s.received.normal)
  }

  predicate Before(a: CaptureData, b: CaptureData) {
    a.color < b.color && a.depth < b.depth && a.normal < b.normal
  }

  ghost predicate Inv(s: Sys) {
    && Conserved(s)
    && SlotsAreNewest(s)
    && (forall i :: 0 <= i < |s.delivered| ==> DeliveredEarlier(s, s.delivered[i]))
    && (forall i :: 0 <= i < |s.delivered| ==> s.delivered[i].info == s.delivered[i].color)
    && (forall i, j :: 0 <= i < j < |s.delivered| ==> Before(s.delivered[i], s.delivered[j]))
  }

  lemma StepKeepsSlots(s: Sys, e: Event)
    requires Conserved(s) && SlotsAreNewest(s) && Enabled(s, e)
    ensures Conserved(Next(s, e)) && SlotsAreNewest(Next(s, e))
  {
  }

  lemma StepKeepsEarlier(s: Sys, e: Event, d: CaptureData)
    requires DeliveredEarlier(s, d) && SlotsAreNewest(s) && Enabled(s, e)
    ensures DeliveredEarlier(Next(s, e), d)
    ensures e.Take? ==> Before(d, s.mail.Contents())
  {
  }

  lemma TakenIsNew(s: Sys, c: nat)
    requires SlotsAreNewest(s) && Enabled(s, Take(c))
    ensures DeliveredEarlier(Next(s, Take(c)), s.mail.Contents()) && s.mail.Contents().info == s.mail.Contents().color
  {
  }

  lemma StepKeepsInv(s: Sys, e: Event)
    requires Inv(s) && Enabled(s, e)
    ensures Inv(Next(s, e))
  {
    var s' := Next(s, e);
    StepKeepsSlots(s, e);
    if e.Take? {
      TakenIsNew(s, e.c);
    }
    forall i | 0 <= i < |s.delivered|
      ensures DeliveredEarlier(s', s.delivered[i]) && (e.Take? ==> Before(s.delivered[i], s.mail.Contents()))
    {
      StepKeepsEarlier(s, e, s.delivered[i]);
    }
    assert s'.delivered == s.delivered + if e.Take? then [s.mail.Contents()] else [];
  }

  lemma {:induction false} InvHolds(states: seq<Sys>, evs: seq<Event>, i: nat)
    requires Behavior(states, evs) && i <= |evs|
    ensures Inv(states[i])
  {
    if i > 0 {
      InvHolds(states, evs, i - 1);
      StepKeepsInv(states[i - 1], evs[i - 1]);
    }
  }

  /** Main result. At any time in any run, for each kind of message: received = delivered + pushed
      out + in the slot; the numbers delivered strictly increase, so that no message is delivered
      twice; and every delivered color image comes with the CameraInfo of its own callback. */
  lemma EveryMessageOnce(states: seq<Sys>, evs: seq<Event>, i: nat)
    requires Behavior(states, evs) && i <= |evs|
    ensures Conserved(states[i])
    ensures forall m, n :: 0 <= m < n < |states[i].delivered| ==> Before(states[i].delivered[m], states[i].delivered[n])
    ensures forall m :: 0 <= m < |states[i].delivered| ==> states[i].delivered[m].info == states[i].delivered[m].color
    ensures states[i].mail.color.Some? ==> states[i].mail.info == states[i].mail.color
  {
    InvHolds(states, evs, i);
  }

  predicate Loses(before: Mailbox, after: Mailbox) {
    || (before.color.Some? && after.color.None?)
    || (before.depth.Some? && after.depth.None?)
    || (before.normal.Some? && after.normal.None?)
  }

  /** A slot is emptied only by a capture that takes all three and returns them; every call that
      fails leaves all slots alone. */
  lemma AllOrNothing(states: seq<Sys>, evs: seq<Event>, i: nat)
    requires Behavior(states, evs) && i < |evs|
    ensures Loses(states[i].mail, states[i + 1].mail) <==> evs[i].Take?
    ensures evs[i].Take? ==>
              && states[i + 1].mail == Mailbox(None, None, None, states[i].mail.info)
              && states[i + 1].calls[evs[i].c] == Done(Captured(states[i].mail.Contents()))
              && states[i + 1].delivered == states[i].delivered + [states[i].mail.Contents()]
    ensures evs[i].FailEarly? || evs[i].TimeOut? ==>
              states[i + 1].mail == states[i].mail && states[i + 1].delivered == states[i].delivered
  {
    assert states[i + 1] == Next(states[i], evs[i]);
  }

  // ----- What a capture promises about time -----

  lemma KindOnStep(s: Sys, e: Event, k: Kind)
    requires Enabled(s, e)
    ensures Next(s, e).received.Of(k) == s.received.Of(k) + if e == ArrivalOf(k) then 1 else 0
    ensures e != ArrivalOf(k) && s.mail.Slot(k) == None ==> Next(s, e).mail.Slot(k) == None
  {
  }

  /** A capture returns the newest message of each kind. */
  lemma CaptureReturnsNewest(s: Sys)
    requires Inv(s) && s.mail.AllAvailable()
    ensures forall k: Kind :: s.mail.Contents().Number(k) == s.received.Of(k)
    ensures s.mail.Contents().info == s.received.color
  {
  }

  lemma {:induction false} KindOverTime(states: seq<Sys>, evs: seq<Event>, i: nat, j: nat, k: Kind)
    requires Behavior(states, evs) && i <= j <= |evs|
    ensures states[i].received.Of(k) <= states[j].received.Of(k)
    ensures states[i].received.Of(k) < states[j].received.Of(k) <==> exists m :: i <= m < j && evs[m] == ArrivalOf(k)
  {
    if i < j {
      KindOverTime(states, evs, i, j - 1, k);
      KindOnStep(states[j - 1], evs[j - 1], k);
    }
  }

  /** The message of a kind that a call returns arrived after the call began exactly when any of that
      kind did. */
  lemma FreshIffArrivedSince(states: seq<Sys>, evs: seq<Event>, i: nat, j: nat, k: Kind)
    requires Behavior(states, evs) && i < j < |evs|
    requires evs[i].Begin? && evs[j] == Take(evs[i].c)
    ensures states[j].mail.Contents().Number(k) > states[i].received.Of(k)
            <==> exists m :: i <= m < j && evs[m] == ArrivalOf(k)
  {
    KindOverTime(states, evs, i, j, k);
    InvHolds(states, evs, j);
    CaptureReturnsNewest(states[j]);
  }

  // ----- What a call can rely on when it begins -----

  /** The state after further events, if they can happen. */
  function Outcome(s: Sys, evs: seq<Event>): Option<Sys> {
    if evs == [] then Some(s)
    else
      match Outcome(s, evs[..|evs| - 1])
      case None => None
      case Some(t) => if Enabled(t, evs[|evs| - 1]) then Some(Next(t, evs[|evs| - 1])) else None
  }

  function HowMany(evs: seq<Event>, k: Kind): nat {
    if evs == [] then 0 else HowMany(evs[..|evs| - 1], k) + if evs[|evs| - 1] == ArrivalOf(k) then 1 else 0
  }

  lemma OneMoreEvent(s: Sys, evs: seq<Event>, e: Event)
    requires Outcome(s, evs).Some? && Enabled(Outcome(s, evs).value, e)
    ensures Outcome(s, evs + [e]) == Some(Next(Outcome(s, evs).value, e))
    ensures forall k: Kind :: HowMany(evs + [e], k) == HowMany(evs, k) + if e == ArrivalOf(k) then 1 else 0
  {
    assert (evs + [e])[..|evs|] == evs;
  }

  lemma {:induction false} OutcomeOfKind(s: Sys, evs: seq<Event>, k: Kind)
    requires Inv(s) && Outcome(s, evs).Some?
    ensures var t := Outcome(s, evs).value;
            && Inv(t)
            && t.received.Of(k) == s.received.Of(k) + HowMany(evs, k)
            && (s.mail.Slot(k) == None && HowMany(evs, k) == 0 ==> t.mail.Slot(k) == None)
  {
    if evs != [] {
      var front, e := evs[..|evs| - 1], evs[|evs| - 1];
      OutcomeOfKind(s, front, k);
      var t := Outcome(s, front).value;
      StepKeepsInv(t, e);
      KindOnStep(t, e, k);
    }
  }

  /** After these events the waiting call c can take its capture. */
  predicate CanTake(s: Sys, c: nat, evs: seq<Event>) {
    Outcome(s, evs).Some? && Enabled(Outcome(s, evs).value, Take(c))
  }

  function Taken(s: Sys, c: nat, evs: seq<Event>): CaptureData
    requires CanTake(s, c, evs)
  {
    Outcome(s, evs).value.mail.Contents()
  }

  /** The messages of a kind are numbered, and a driver publishes one of each kind for each shot; so
      equal numbers mean one shot. */
  predicate OneShot(d: CaptureData) {
    d.color == d.depth == d.normal
  }

  /** Whatever happens, as long as at most one message of each kind comes before c takes its capture,
      the capture is from one shot. */
  ghost predicate SameShotAssured(s: Sys, c: nat) {
    forall evs :: CanTake(s, c, evs) && (forall k: Kind :: HowMany(evs, k) <= 1) ==> OneShot(Taken(s, c, evs))
  }

  /** Whatever happens, the message of this kind that c takes is one that had not come yet. */
  ghost predicate FreshAssured(s: Sys, c: nat, k: Kind) {
    forall evs :: CanTake(s, c, evs) ==> Taken(s, c, evs).Number(k) > s.received.Of(k)
  }

  predicate Waits(s: Sys, c: nat) {
    c in s.calls && s.calls[c] == Waiting
  }

  /** One message of each kind in `come` arrives. */
  lemma LetCome(s: Sys, c: nat, come: set<Kind>) returns (evs: seq<Event>)
    requires Inv(s) && Waits(s, c)
    requires forall k: Kind :: k in come || s.mail.Slot(k).Some?
    ensures CanTake(s, c, evs)
    ensures forall k: Kind :: HowMany(evs, k) == if k in come then 1 else 0
    ensures forall k: Kind :: Taken(s, c, evs).Number(k) == s.received.Of(k) + if k in come then 1 else 0
  {
    evs := [];
    var t := s;
    t, evs := ComesIf(s, evs, KColor in come, KColor);
    t, evs := ComesIf(s, evs, KDepth in come, KDepth);
    t, evs := ComesIf(s, evs, KNormal in come, KNormal);
    forall k: Kind
      ensures t.mail.Slot(k).Some? && HowMany(evs, k) == if k in come then 1 else 0
      ensures Inv(t) && t.received.Of(k) == s.received.Of(k) + HowMany(evs, k)
    {
      assert k == KColor || k == KDepth || k == KNormal;
      OutcomeOfKind(s, evs, k);
    }
    assert Inv(t) by {
      OutcomeOfKind(s, evs, KColor);
    }
    AllSlotsFilled(t);
    CaptureReturnsNewest(t);
  }

  lemma AllSlotsFilled(t: Sys)
    requires Inv(t) && forall k: Kind :: t.mail.Slot(k).Some?
    ensures t.mail.AllAvailable()
  {
    assert t.mail.Slot(KColor).Some? && t.mail.Slot(KDepth).Some? && t.mail.Slot(KNormal).Some?;
  }

  lemma ComesIf(s: Sys, evs: seq<Event>, comes: bool, k: Kind) returns (t: Sys, longer: seq<Event>)
    requires Outcome(s, evs).Some?
    ensures Outcome(s, longer) == Some(t)
    ensures t.calls == Outcome(s, evs).value.calls
    ensures forall u: Kind :: Outcome(s, evs).value.mail.Slot(u).Some? || (comes && u == k) ==> t.mail.Slot(u).Some?
    ensures forall u: Kind :: HowMany(longer, u) == HowMany(evs, u) + if comes && u == k then 1 else 0
  {
    t, longer := Outcome(s, evs).value, evs;
    if comes {
      OneMoreEvent(s, evs, ArrivalOf(k));
      ArrivalFills(t, k);
      t, longer := Next(t, ArrivalOf(k)), evs + [ArrivalOf(k)];
      forall u: Kind
        ensures ArrivalOf(u) == ArrivalOf(k) <==> u == k
      {
      }
    }
  }

  lemma ArrivalFills(t: Sys, k: Kind)
    ensures var t' := Next(t, ArrivalOf(k));
            && t'.calls == t.calls
            && forall u: Kind :: t.mail.Slot(u).Some? || u == k ==> t'.mail.Slot(u).Some?
  {
  }

  predicate Empty(m: Mailbox) {
    forall k: Kind :: m.Slot(k) == None
  }

  predicate EquallyMany(n: Counts) {
    n.color == n.depth == n.normal
  }

  lemma DifferentNumbers(d: CaptureData, k: Kind, u: Kind)
    requires d.Number(k) != d.Number(u)
    ensures !OneShot(d)
  {
  }

  lemma UnequalCounts(n: Counts) returns (k: Kind, u: Kind)
    requires !EquallyMany(n)
    ensures n.Of(k) != n.Of(u)
  {
    k := KColor;
    u := if n.color != n.depth then KDepth else KNormal;
  }

  /** How a capture can come to mix two shots: if the counts differ, one more message of each kind
      arrives; if a slot is filled, only messages for the empty ones do, or one for a full mailbox. */
  lemma MixedOutcome(s: Sys, c: nat) returns (evs: seq<Event>)
    requires Inv(s) && Waits(s, c) && !(EquallyMany(s.received) && Empty(s.mail))
    ensures CanTake(s, c, evs) && (forall k: Kind :: HowMany(evs, k) <= 1) && !OneShot(Taken(s, c, evs))
  {
    if !EquallyMany(s.received) {
      evs := LetCome(s, c, {KColor, KDepth, KNormal});
      var k, u := UnequalCounts(s.received);
      DifferentNumbers(Taken(s, c, evs), k, u);
    } else {
      var filled: Kind :| s.mail.Slot(filled).Some?;
      var empty := set k: Kind | s.mail.Slot(k) == None;
      assert s.received.Of(KColor) == s.received.Of(KDepth) == s.received.Of(KNormal);
      if empty == {} {
        evs := LetCome(s, c, {KColor});
        DifferentNumbers(Taken(s, c, evs), KColor, KDepth);
      } else {
        var k: Kind :| k in empty;
        evs := LetCome(s, c, empty);
        DifferentNumbers(Taken(s, c, evs), k, filled);
      }
    }
  }

  lemma EmptySlotIsFresh(s: Sys, c: nat, evs: seq<Event>, k: Kind)
    requires Inv(s) && s.mail.Slot(k) == None && CanTake(s, c, evs)
    ensures HowMany(evs, k) >= 1 && Taken(s, c, evs).Number(k) == s.received.Of(k) + HowMany(evs, k)
  {
    OutcomeOfKind(s, evs, k);
    var t := Outcome(s, evs).value;
    CaptureReturnsNewest(t);
    assert t.mail.Slot(k).Some?;
  }

  /** When a call begins, it is sure to get one shot, with at most one message of each kind coming
      before it takes its capture, exactly when equally many messages of each kind have come so far
      and all three slots are empty. Nothing in the code sees to either. */
  lemma SameShotIff(states: seq<Sys>, evs: seq<Event>, i: nat)
    requires Behavior(states, evs) && i < |evs| && evs[i].Begin?
    ensures var s := states[i + 1];
            SameShotAssured(s, evs[i].c) <==> EquallyMany(s.received) && Empty(s.mail)
  {
    var s, c := states[i + 1], evs[i].c;
    InvHolds(states, evs, i + 1);
    assert s == Next(states[i], evs[i]);
    if EquallyMany(s.received) && Empty(s.mail) {
      forall more | CanTake(s, c, more) && forall k: Kind :: HowMany(more, k) <= 1
        ensures OneShot(Taken(s, c, more))
      {
        EmptySlotIsFresh(s, c, more, KColor);
        EmptySlotIsFresh(s, c, more, KDepth);
        EmptySlotIsFresh(s, c, more, KNormal);
      }
    }
    if !(EquallyMany(s.received) && Empty(s.mail)) {
      var more := MixedOutcome(s, c);
    }
  }

  /** Without the bound on the messages nothing assures one shot: whatever the state, things can go on
      so that a waiting call gets a mixed capture. */
  lemma NothingAssuresOneShot(states: seq<Sys>, evs: seq<Event>, i: nat, c: nat) returns (more: seq<Event>)
    requires Behavior(states, evs) && i <= |evs| && Waits(states[i], c)
    ensures CanTake(states[i], c, more) && !OneShot(Taken(states[i], c, more))
  {
    var s := states[i];
    InvHolds(states, evs, i);
    if EquallyMany(s.received) && Empty(s.mail) {
      var front := LetCome(s, c, {KColor, KDepth, KNormal});
      OneMoreEvent(s, front, ColorArrives);
      more := front + [ColorArrives];
      OutcomeOfKind(s, more, KColor);
      OutcomeOfKind(s, more, KDepth);
      CaptureReturnsNewest(Outcome(s, more).value);
      DifferentNumbers(Taken(s, c, more), KColor, KDepth);
    } else {
      more := MixedOutcome(s, c);
    }
  }

  /** When a call begins, it is sure to get a message of a kind that came after that exactly when the
      kind's slot is empty. Nothing empties the slots before a capture. */
  lemma FreshIffSlotEmpty(states: seq<Sys>, evs: seq<Event>, i: nat, k: Kind)
    requires Behavior(states, evs) && i < |evs| && evs[i].Begin?
    ensures FreshAssured(states[i + 1], evs[i].c, k) <==> states[i + 1].mail.Slot(k) == None
  {
    var s, c := states[i + 1], evs[i].c;
    InvHolds(states, evs, i + 1);
    assert s == Next(states[i], evs[i]);
    if s.mail.Slot(k) == None {
      forall more | CanTake(s, c, more)
        ensures Taken(s, c, more).Number(k) > s.received.Of(k)
      {
        EmptySlotIsFresh(s, c, more, k);
      }
    } else {
      var stale := LetCome(s, c, set u: Kind | s.mail.Slot(u) == None);
      assert Taken(s, c, stale).Number(k) == s.received.Of(k);
    }
  }

  /** A capture of two shots: a second color image arrives before the call takes what it waits for. */
  lemma MixedCapture() returns (states: seq<Sys>, evs: seq<Event>)
    ensures Behavior(states, evs)
    ensures evs == [Begin(0), ColorArrives, DepthArrives, NormalArrives, ColorArrives, Take(0)]
    ensures states[6].delivered == [CaptureData(2, 1, 1, 2)]
  {
    var s1 := START.(calls := map[0 := Waiting]);
    states, evs := OneMoreStep([START], [], Begin(0), s1);
    var s4;
    states, evs, s4 := OneShotArrives(states, evs, s1);
    var s5 := s4.(mail := Mailbox(Some(2), Some(1), Some(1), Some(2)), received := Counts(2, 1, 1),
                  overwritten := Counts(1, 0, 0));
    var s6 := s5.(mail := Mailbox(None, None, None, Some(2)), calls := map[0 := Done(Captured(CaptureData(2, 1, 1, 2)))],
                  delivered := [CaptureData(2, 1, 1, 2)]);
    states, evs := OneMoreStep(states, evs, ColorArrives, s5);
    states, evs := OneMoreStep(states, evs, Take(0), s6);
  }

  lemma OneMoreStep(states: seq<Sys>, evs: seq<Event>, e: Event, s: Sys) returns (longer: seq<Sys>, more: seq<Event>)
    requires Behavior(states, evs) && Enabled(states[|evs|], e) && s == Next(states[|evs|], e)
    ensures more == evs + [e] && longer == states + [s] && Behavior(longer, more)
  {
    more, longer := evs + [e], states + [s];
  }

  /** The messages of the first shot arrive. */
  lemma OneShotArrives(states: seq<Sys>, evs: seq<Event>, s: Sys) returns (longer: seq<Sys>, more: seq<Event>, t: Sys)
    requires Behavior(states, evs) && states[|evs|] == s && s.mail == EMPTY
    requires s.received == s.overwritten == Counts(0, 0, 0)
    ensures Behavior(longer, more) && more == evs + [ColorArrives, DepthArrives, NormalArrives]
    ensures longer[..|states|] == states && longer[|more|] == t
    ensures t == s.(mail := Mailbox(Some(1), Some(1), Some(1), Some(1)), received := Counts(1, 1, 1))
  {
    var s1 := s.(mail := Mailbox(Some(1), None, None, Some(1)), received := Counts(1, 0, 0));
    var s2 := s1.(mail := s1.mail.(depth := Some(1)), received := Counts(1, 1, 0));
    t := s2.(mail := s2.mail.(normal := Some(1)), received := Counts(1, 1, 1));
    longer, more := OneMoreStep(states, evs, ColorArrives, s1);
    longer, more := OneMoreStep(longer, more, DepthArrives, s2);
    longer, more := OneMoreStep(longer, more, NormalArrives, t);
  }

  /** An old capture: the mailbox is full when the call begins, and the call returns at once what had
      come before. */
  lemma FullMailboxAnswersAtOnce() returns (states: seq<Sys>, evs: seq<Event>)
    ensures Behavior(states, evs)
    ensures evs == [ColorArrives, DepthArrives, NormalArrives, Begin(0), Take(0)]
    ensures states[5].calls == map[0 := Done(Captured(CaptureData(1, 1, 1, 1)))]
  {
    var s3;
    states, evs, s3 := OneShotArrives([START], [], START);
    var s4 := s3.(calls := map[0 := Waiting]);
    var s5 := s4.(mail := Mailbox(None, None, None, Some(1)), calls := map[0 := Done(Captured(CaptureData(1, 1, 1, 1)))],
                  delivered := [CaptureData(1, 1, 1, 1)]);
    states, evs := OneMoreStep(states, evs, Begin(0), s4);
    states, evs := OneMoreStep(states, evs, Take(0), s5);
  }
}
