/** The Orbbec snapshot handshake: record the frame counters, trigger, wait for newer frames,
    let go of the lock, take it again and copy the latest images.

    FrameStore is the adapter's guarded data. The second half of the module lets any number of
    calls overlap with the frame callbacks, one step for each critical section, and proves what a
    reply can contain. The enable flags are ROS parameters: nothing keeps them fixed while a
    critical section reads them, so each step carries the values it happened to read.
  */
module OrbbecSnapshot {
  import opened Common

  /** The counters are of type uint64_t. */
  const COUNTER_RANGE: nat := 0x1_0000_0000_0000_0000

  datatype Image = Image(stamp: int)
  datatype CameraInfo = CameraInfo(content: int)
  datatype Snapshot = Snapshot(stream: Stream, info: CameraInfo, image: Image)

  datatype Reply =
    | Images(images: seq<Snapshot>)
    | NoInfo(stream: Stream)
    | NoImage(stream: Stream)

  /** Depth images are registered to the color camera and use its CameraInfo. */
  function InfoSource(s: Stream): Stream {
    if s == Depth then Color else s
  }

  datatype Frames = Frames(
    count: PerStream<nat>, image: PerStream<Option<Image>>, info: PerStream<Option<CameraInfo>>)
  {
    function Arrive(s: Stream, img: Image): Frames {
      this.(image := Set(image, s, Some(img)), count := Set(count, s, Advanced(count.Get(s), 1)))
    }

    function LatchInfo(s: Stream, i: CameraInfo): Frames {
      this.(info := Set(info, s, Some(i)))
    }

    /** What an enabled stream needs before a waiting call may go on. */
    predicate NewFrame(targets: PerStream<nat>, s: Stream) {
      info.Get(InfoSource(s)).Some? && count.Get(s) != targets.Get(s)
    }

    predicate AllNewFrames(targets: PerStream<nat>, seen: PerStream<bool>) {
      forall s: Stream :: seen.Get(s) ==> NewFrame(targets, s)
    }

    predicate Available(s: Stream) {
      info.Get(InfoSource(s)).Some? && image.Get(s).Some?
    }

    /** One block of the copy phase. */
    function Append(r: Reply, seen: PerStream<bool>, s: Stream): Reply {
      if !r.Images? || !seen.Get(s) then r
      else if info.Get(InfoSource(s)).None? then NoInfo(s)
      else if image.Get(s).None? then NoImage(s)
      else Images(r.images + [Snapshot(s, info.Get(InfoSource(s)).value, image.Get(s).value)])
    }

    function CopyReply(seen: PerStream<bool>): Reply {
      Append(Append(Append(Append(Images([]), seen, Color), seen, LeftIr), seen, RightIr), seen, Depth)
    }
  }

  const NOTHING_YET := Frames(All(0), All(None), All(None))

  /** A list of snapshots in handling order, each an enabled stream's stored image with the
      CameraInfo it is registered to, of streams with a rank below `handled`. */
  ghost predicate Faithful(f: Frames, seen: PerStream<bool>, images: seq<Snapshot>, handled: nat) {
    && (forall i :: 0 <= i < |images| ==>
          && images[i].stream.Rank() < handled && seen.Get(images[i].stream)
          && f.image.Get(images[i].stream) == Some(images[i].image)
          && f.info.Get(InfoSource(images[i].stream)) == Some(images[i].info))
    && (forall i, j :: 0 <= i < j < |images| ==> images[i].stream.Rank() < images[j].stream.Rank())
  }

  ghost predicate Shows(images: seq<Snapshot>, s: Stream) {
    exists i :: 0 <= i < |images| && images[i].stream == s
  }

  /** What a reply says about the streams handled so far: it shows exactly the enabled ones, or it
      names the first enabled one that lacks its image or its CameraInfo. */
  ghost predicate Answers(f: Frames, seen: PerStream<bool>, r: Reply, handled: nat) {
    if r.Images? then
      && Faithful(f, seen, r.images, handled)
      && forall s: Stream :: s.Rank() < handled && seen.Get(s) ==> f.Available(s) && Shows(r.images, s)
    else
      && r.stream.Rank() < handled && seen.Get(r.stream) && !f.Available(r.stream)
      && (r.NoInfo? <==> f.info.Get(InfoSource(r.stream)).None?)
      && (forall s: Stream :: s.Rank() < r.stream.Rank() && seen.Get(s) ==> f.Available(s))
  }

  lemma AppendFaithful(f: Frames, seen: PerStream<bool>, images: seq<Snapshot>, s: Stream)
    requires Faithful(f, seen, images, s.Rank()) && seen.Get(s) && f.Available(s)
    ensures var next := Snapshot(s, f.info.Get(InfoSource(s)).value, f.image.Get(s).value);
            Faithful(f, seen, images + [next], s.Rank() + 1)
  {
  }

  lemma AppendShows(images: seq<Snapshot>, next: Snapshot, u: Stream)
    requires Shows(images, u) || u == next.stream
    ensures Shows(images + [next], u)
  {
    if u == next.stream {
      assert (images + [next])[|images|].stream == u;
    } else {
      var i :| 0 <= i < |images| && images[i].stream == u;
      assert (images + [next])[i].stream == u;
    }
  }

  lemma RankIsInjective(s: Stream, u: Stream)
    requires u.Rank() < s.Rank() + 1
    ensures u == s || u.Rank() < s.Rank()
  {
  }

  lemma AppendAnswers(f: Frames, seen: PerStream<bool>, r: Reply, s: Stream)
    requires Answers(f, seen, r, s.Rank())
    ensures Answers(f, seen, f.Append(r, seen, s), s.Rank() + 1)
  {
    if r.Images? {
      var r' := f.Append(r, seen, s);
      if seen.Get(s) && f.Available(s) {
        AppendFaithful(f, seen, r.images, s);
      }
      if r'.Images? {
        forall u: Stream | u.Rank() < s.Rank() + 1 && seen.Get(u)
          ensures f.Available(u) && Shows(r'.images, u)
        {
          RankIsInjective(s, u);
          if seen.Get(s) {
            AppendShows(r.images, r'.images[|r.images|], u);
          }
        }
      }
    }
  }

  /** The reply speaks of all four streams. */
  lemma CopyReplyMeaning(f: Frames, seen: PerStream<bool>)
    ensures Answers(f, seen, f.CopyReply(seen), 4)
  {
    var r1 := f.Append(Images([]), seen, Color);
    var r2 := f.Append(r1, seen, LeftIr);
    var r3 := f.Append(r2, seen, RightIr);
    assert Answers(f, seen, Images([]), 0);
    AppendAnswers(f, seen, Images([]), Color);
    AppendAnswers(f, seen, r1, LeftIr);
    AppendAnswers(f, seen, r2, RightIr);
    AppendAnswers(f, seen, r3, Depth);
  }

  /** An entry has the stream's stored image and a CameraInfo: a depth image comes with that of color,
      any other image with its own. */
  predicate IsRegistered(f: Frames, entry: Snapshot) {
    match entry.stream
    case Color => f.image.color == Some(entry.image) && f.info.color == Some(entry.info)
    case LeftIr => f.image.leftIr == Some(entry.image) && f.info.leftIr == Some(entry.info)
    case RightIr => f.image.rightIr == Some(entry.image) && f.info.rightIr == Some(entry.info)
    case Depth => f.image.depth == Some(entry.image) && f.info.color == Some(entry.info)
  }

  lemma RepliesAreRegistered(f: Frames, seen: PerStream<bool>)
    ensures f.CopyReply(seen).Images? ==>
              forall entry :: entry in f.CopyReply(seen).images ==> IsRegistered(f, entry) && seen.Get(entry.stream)
  {
    CopyReplyMeaning(f, seen);
  }

  /** What each stream needs to be copied. */
  lemma AvailableByName(f: Frames)
    ensures f.Available(Color) <==> f.info.color.Some? && f.image.color.Some?
    ensures f.Available(LeftIr) <==> f.info.leftIr.Some? && f.image.leftIr.Some?
    ensures f.Available(RightIr) <==> f.info.rightIr.Some? && f.image.rightIr.Some?
    ensures f.Available(Depth) <==> f.info.color.Some? && f.image.depth.Some?
  {
  }

  /** What each enabled stream needs to end the wait. */
  lemma NewFrameByName(f: Frames, targets: PerStream<nat>)
    ensures f.NewFrame(targets, Color) <==> f.info.color.Some? && f.count.color != targets.color
    ensures f.NewFrame(targets, LeftIr) <==> f.info.leftIr.Some? && f.count.leftIr != targets.leftIr
    ensures f.NewFrame(targets, RightIr) <==> f.info.rightIr.Some? && f.count.rightIr != targets.rightIr
    ensures f.NewFrame(targets, Depth) <==> f.info.color.Some? && f.count.depth != targets.depth
  {
  }

  /** It is an error exactly when an enabled stream lacks its image or its CameraInfo. */
  lemma CopyFailsIff(f: Frames, seen: PerStream<bool>)
    ensures f.CopyReply(seen).Images? <==> forall s: Stream :: seen.Get(s) ==> f.Available(s)
  {
    CopyReplyMeaning(f, seen);
    AllRanks();
  }

  lemma AllRanks()
    ensures forall s: Stream :: s.Rank() < 4
  {
  }

  lemma ModStep(x: nat)
    ensures (x % COUNTER_RANGE + 1) % COUNTER_RANGE == (x + 1) % COUNTER_RANGE
  {
  }

  lemma WrapsToItself(a: nat, n: nat)
    requires a < COUNTER_RANGE
    ensures (a + n) % COUNTER_RANGE == a <==> n % COUNTER_RANGE == 0
  {
  }

  /** That many frames bring a counter back to where it was. */
  predicate WholeRounds(n: nat) {
    n % COUNTER_RANGE == 0
  }

  /** A counter, n frames later. */
  function Advanced(count: nat, n: nat): nat {
    (count + n) % COUNTER_RANGE
  }

  lemma MovedIff(before: nat, n: nat)
    requires before < COUNTER_RANGE
    ensures Advanced(before, n) == before <==> WholeRounds(n)
  {
    WrapsToItself(before, n);
  }

  lemma WrapsBack(m: nat, n: nat)
    requires m <= n
    ensures n % COUNTER_RANGE == m % COUNTER_RANGE <==> (n - m) % COUNTER_RANGE == 0
  {
    WrapsToItself(m % COUNTER_RANGE, n - m);
    assert n == (m / COUNTER_RANGE) * COUNTER_RANGE + (m % COUNTER_RANGE + (n - m));
  }

  /** What a call returns: a reply, or the error for images that did not come in time. */
  datatype Response = DeadlineExceeded | Answer(reply: Reply)

  ghost predicate Extends(before: PerStream<seq<Image>>, after: PerStream<seq<Image>>) {
    forall s: Stream :: before.Get(s) <= after.Get(s)
  }

  /** A stream's counter counts the images that arrived, up to its range, and its slot holds the last. */
  ghost predicate Remembers(arrived: seq<Image>, count: nat, slot: Option<Image>) {
    && count == |arrived| % COUNTER_RANGE
    && slot == if arrived == [] then None else Some(arrived[|arrived| - 1])
  }

  lemma RemembersOneMore(arrived: seq<Image>, count: nat, slot: Option<Image>, img: Image)
    requires Remembers(arrived, count, slot)
    ensures Remembers(arrived + [img], Advanced(count, 1), Some(img))
  {
    ModStep(|arrived|);
  }

  /** The adapter's data behind mutex_. The ghost field remembers every image that ever arrived. */
  class FrameStore {
    var count: PerStream<nat>
    var image: PerStream<Option<Image>>
    var info: PerStream<Option<CameraInfo>>
    ghost var arrived: PerStream<seq<Image>>

    ghost predicate Valid()
      reads this
    {
      forall s: Stream :: Remembers(arrived.Get(s), count.Get(s), image.Get(s))
    }

    ghost function View(): Frames
      reads this
    {
      Frames(count, image, info)
    }

    constructor ()
      ensures Valid() && View() == NOTHING_YET && arrived == All([])
    {
      count, image, info, arrived := All(0), All(None), All(None), All([]);
    }

    method OnImage(s: Stream, msg: Image)
      requires Valid()
      modifies this
      ensures Valid() && View() == old(View()).Arrive(s, msg)
      ensures arrived == Set(old(arrived), s, old(arrived).Get(s) + [msg])
    {
      RemembersOneMore(arrived.Get(s), count.Get(s), image.Get(s), msg);
      image := Set(image, s, Some(msg));
      count := Set(count, s, (count.Get(s) + 1) % COUNTER_RANGE);
      arrived := Set(arrived, s, arrived.Get(s) + [msg]);
    }

    method OnCameraInfo(s: Stream, msg: CameraInfo)
      requires Valid()
      modifies this
      ensures Valid() && View() == old(View()).LatchInfo(s, msg) && arrived == old(arrived)
    {
      info := Set(info, s, Some(msg));
    }

    /** The condition the call waits for. */
    method AllNewFramesArrived(targets: PerStream<nat>, seen: PerStream<bool>) returns (b: bool)
      ensures b == View().AllNewFrames(targets, seen)
      ensures b <==> && (seen.color ==> info.color.Some? && count.color != targets.color)
                     && (seen.leftIr ==> info.leftIr.Some? && count.leftIr != targets.leftIr)
                     && (seen.rightIr ==> info.rightIr.Some? && count.rightIr != targets.rightIr)
                     && (seen.depth ==> info.color.Some? && count.depth != targets.depth)
    {
      if seen.color && (info.color.None? || count.color == targets.color) {
        assert !View().NewFrame(targets, Color);
        return false;
      }
      if seen.leftIr && (info.leftIr.None? || count.leftIr == targets.leftIr) {
        assert !View().NewFrame(targets, LeftIr);
        return false;
      }
      if seen.rightIr && (info.rightIr.None? || count.rightIr == targets.rightIr) {
        assert !View().NewFrame(targets, RightIr);
        return false;
      }
      if seen.depth && (info.color.None? || count.depth == targets.depth) {
        assert !View().NewFrame(targets, Depth);
        return false;
      }
      return true;
    }

    /** The copy phase; it answers with the first error it meets. */
    method CopyLatest(seen: PerStream<bool>) returns (r: Reply)
      ensures r == View().CopyReply(seen)
      ensures r.Images? <==> && (seen.color ==> info.color.Some? && image.color.Some?)
                             && (seen.leftIr ==> info.leftIr.Some? && image.leftIr.Some?)
                             && (seen.rightIr ==> info.rightIr.Some? && image.rightIr.Some?)
                             && (seen.depth ==> info.color.Some? && image.depth.Some?)
      ensures r.Images? ==> forall entry :: entry in r.images ==> IsRegistered(View(), entry)
    {
      CopyFailsIff(View(), seen);
      AvailableByName(View());
      RepliesAreRegistered(View(), seen);
      var images := [];
      if seen.color {
        if info.color.None? { return NoInfo(Color); }
        if image.color.None? { return NoImage(Color); }
        images := images + [Snapshot(Color, info.color.value, image.color.value)];
      }
      if seen.leftIr {
        if info.leftIr.None? { return NoInfo(LeftIr); }
        if image.leftIr.None? { return NoImage(LeftIr); }
        images := images + [Snapshot(LeftIr, info.leftIr.value, image.leftIr.value)];
      }
      if seen.rightIr {
        if info.rightIr.None? { return NoInfo(RightIr); }
        if image.rightIr.None? { return NoImage(RightIr); }
        images := images + [Snapshot(RightIr, info.rightIr.value, image.rightIr.value)];
      }
      if seen.depth {
        if info.color.None? { return NoInfo(Depth); }
        if image.depth.None? { return NoImage(Depth); }
        images := images + [Snapshot(Depth, info.color.value, image.depth.value)];
      }
      return Images(images);
    }

    /** Any number of callbacks, run by other threads while the lock is free. */
    method LetCallbacksRun()
      requires Valid()
      modifies this
      ensures Valid() && Extends(old(arrived), arrived)
      ensures forall s: Stream :: old(info).Get(s).Some? ==> info.Get(s).Some?
    {
      var n: int := *;
      while 0 < n
        invariant Valid() && Extends(old(arrived), arrived)
        invariant forall s: Stream :: old(info).Get(s).Some? ==> info.Get(s).Some?
      {
        var s: Stream := *;
        var isImage: bool := *;
        if isImage {
          var msg: Image := *;
          OnImage(s, msg);
        } else {
          var msg: CameraInfo := *;
          OnCameraInfo(s, msg);
        }
        n := n - 1;
      }
    }

    /** The wait. It ends when the condition is true, or by its deadline. */
    method Await(targets: PerStream<nat>, seen: PerStream<bool>, ghost armed: PerStream<nat>) returns (awake: bool)
      requires Valid()
      requires forall s: Stream ::
        armed.Get(s) <= |arrived.Get(s)| && targets.Get(s) == armed.Get(s) % COUNTER_RANGE
      modifies this
      ensures Valid() && Extends(old(arrived), arrived)
      ensures awake ==> forall s: Stream :: seen.Get(s) ==>
                info.Get(InfoSource(s)).Some? && armed.Get(s) < |arrived.Get(s)|
      ensures !awake ==> exists s: Stream :: seen.Get(s) && NothingNew(s, armed.Get(s))
    {
      LetCallbacksRun();
      awake := AllNewFramesArrived(targets, seen);
      forall s: Stream
        ensures armed.Get(s) <= |arrived.Get(s)|
        ensures View().NewFrame(targets, s) <==> !NothingNew(s, armed.Get(s))
      {
        assert old(arrived).Get(s) <= arrived.Get(s);
        WrapsBack(armed.Get(s), |arrived.Get(s)|);
      }
    }

    ghost predicate NothingNew(s: Stream, since: nat)
      reads this
    {
      info.Get(InfoSource(s)).None? || (|arrived.Get(s)| - since) % 0x1_0000_0000_0000_0000 == 0
    }

    /** The copy, with what it finds. */
    method CopyUnderLock(seen: PerStream<bool>, ghost armed: PerStream<nat>, ghost woken: PerStream<bool>)
      returns (r: Reply)
      requires Valid()
      requires forall s: Stream :: woken.Get(s) ==>
        info.Get(InfoSource(s)).Some? && armed.Get(s) < |arrived.Get(s)|
      modifies this
      ensures Valid() && Extends(old(arrived), arrived)
      ensures r == View().CopyReply(seen)
      ensures (forall s: Stream :: seen.Get(s) ==> woken.Get(s)) ==> r.Images?
      ensures r.Images? ==> forall i :: 0 <= i < |r.images| ==>
                && seen.Get(r.images[i].stream)
                && (woken.Get(r.images[i].stream) ==>
                      && armed.Get(r.images[i].stream) < |arrived.Get(r.images[i].stream)|
                      && r.images[i].image in arrived.Get(r.images[i].stream)[armed.Get(r.images[i].stream)..])
    {
      LetCallbacksRun();
      forall s: Stream | woken.Get(s)
        ensures View().Available(s) && armed.Get(s) < |arrived.Get(s)|
        ensures image.Get(s).value in arrived.Get(s)[armed.Get(s)..]
      {
        assert old(arrived).Get(s) <= arrived.Get(s);
        assert arrived.Get(s)[armed.Get(s)..][|arrived.Get(s)| - 1 - armed.Get(s)] == image.Get(s).value;
      }
      r := CopyLatest(seen);
      CopyReplyMeaning(View(), seen);
      CopyFailsIff(View(), seen);
    }

    /** One whole call. The callbacks run wherever the lock is free; `armed` tells how many images
        of each stream had arrived when the targets were recorded. The copy is the last thing a call
        does under the lock, so the reply is that of the final state. */
    method BuildSnapshotResponse(streaming: bool, seenAtWait: PerStream<bool>, seenAtCopy: PerStream<bool>)
      returns (r: Response, ghost armed: PerStream<nat>)
      requires Valid()
      modifies this
      ensures Valid() && Extends(old(arrived), arrived)
      ensures forall s: Stream :: |old(arrived).Get(s)| <= armed.Get(s)
      ensures r.DeadlineExceeded? ==>
                !streaming && exists s: Stream :: seenAtWait.Get(s) && NothingNew(s, armed.Get(s))
      ensures r.Answer? ==> r.reply == View().CopyReply(seenAtCopy)
      ensures r.Answer? && !streaming && (forall s: Stream :: seenAtCopy.Get(s) ==> seenAtWait.Get(s)) ==>
                r.reply.Images?
      ensures r.Answer? && r.reply.Images? ==> forall i :: 0 <= i < |r.reply.images| ==>
                var p := r.reply.images[i];
                && seenAtCopy.Get(p.stream)
                && (!streaming && seenAtWait.Get(p.stream) ==>
                      && armed.Get(p.stream) < |arrived.Get(p.stream)|
                      && p.image in arrived.Get(p.stream)[armed.Get(p.stream)..])
    {
      LetCallbacksRun();
      armed := PerStream(|arrived.color|, |arrived.leftIr|, |arrived.rightIr|, |arrived.depth|);
      assert forall s: Stream :: armed.Get(s) == |arrived.Get(s)|;
      ghost var woken := All(false);
      if !streaming {
        var targets := count;
        var awake := Await(targets, seenAtWait, armed);
        if !awake {
          return DeadlineExceeded, armed;
        }
        woken := seenAtWait;
      }
      var reply := CopyUnderLock(seenAtCopy, armed, woken);
      r := Answer(reply);
    }
  }

  // ----- Overlapping calls -----

  /** What the log line did with one stream's image. It runs without the lock: it first loads the
      pointer from the slot, and reads the time stamp behind the pointer later. Object 0 is the null
      pointer; `at` is the number of the step that loaded. */
  datatype Access = NotYet | Loaded(pointer: nat, at: nat) | Read

  datatype Fault = NullImage | FreedImage

  /** Where a call stands. armedAt and wokenAt are the numbers of the steps that recorded the
      targets and that found the condition true. */
  datatype Call =
    | Begun(streaming: bool)
    | Armed(targets: PerStream<nat>, armedAt: nat)
    | Woken(targets: PerStream<nat>, armedAt: nat, wokenAt: nat, seen: PerStream<bool>)
    | TimedOut
    | Answered(reply: Reply, log: PerStream<Access>)
    | Faulted(stream: Stream, fault: Fault)

  datatype Event =
    | Arrive(s: Stream, img: Image)
    | InfoArrive(s: Stream, i: CameraInfo)
    | SetStreaming(on: bool)
    | Begin(c: nat)
    | Arm(c: nat)
    | Wake(c: nat, seen: PerStream<bool>)
    | GiveUp(c: nat, seen: PerStream<bool>)
    | Copy(c: nat, seen: PerStream<bool>)
    | LogLoad(c: nat, s: Stream)
    | LogRead(c: nat, s: Stream)

  /** `objects` numbers the image objects of each stream. The newest is the one in the slot; storing
      it there frees the one before. */
  datatype Sys = Sys(now: nat, streaming: bool, frames: Frames, objects: PerStream<nat>, calls: map<nat, Call>)

  const START := Sys(0, false, NOTHING_YET, All(0), map[])

  /** The log line uses the color and the left IR image, whatever is enabled. */
  predicate IsLogged(s: Stream) {
    s == Color || s == LeftIr
  }

  predicate Enabled(s: Sys, e: Event) {
    match e
    case Arrive(_, _) => true
    case InfoArrive(_, _) => true
    case SetStreaming(_) => true
    case Begin(c) => c !in s.calls
    case Arm(c) => c in s.calls && s.calls[c] == Begun(false)
    case Wake(c, seen) =>
      c in s.calls && s.calls[c].Armed? && s.frames.AllNewFrames(s.calls[c].targets, seen)
    case GiveUp(c, seen) =>
      c in s.calls && s.calls[c].Armed? && !s.frames.AllNewFrames(s.calls[c].targets, seen)
    case Copy(c, _) => c in s.calls && (s.calls[c] == Begun(true) || s.calls[c].Woken?)
    case LogLoad(c, st) =>
      c in s.calls && s.calls[c].Answered? && s.calls[c].reply.Images? && IsLogged(st) && s.calls[c].log.Get(st).NotYet?
    case LogRead(c, st) => c in s.calls && s.calls[c].Answered? && s.calls[c].log.Get(st).Loaded?
  }

  function Next(s: Sys, e: Event): Sys
    requires Enabled(s, e)
  {
    var t := s.(now := s.now + 1);
    match e
    case Arrive(st, img) =>
      t.(frames := s.frames.Arrive(st, img), objects := Set(s.objects, st, s.objects.Get(st) + 1))
    case InfoArrive(st, i) => t.(frames := s.frames.LatchInfo(st, i))
    case SetStreaming(on) => t.(streaming := on)
    case Begin(c) => t.(calls := s.calls[c := Begun(s.streaming)])
    case Arm(c) => t.(calls := s.calls[c := Armed(s.frames.count, s.now)])
    case Wake(c, seen) =>
      t.(calls := s.calls[c := Woken(s.calls[c].targets, s.calls[c].armedAt, s.now, seen)])
    case GiveUp(c, _) => t.(calls := s.calls[c := TimedOut])
    case Copy(c, seen) => t.(calls := s.calls[c := Answered(s.frames.CopyReply(seen), All(NotYet))])
    case LogLoad(c, st) =>
      t.(calls := s.calls[c := s.calls[c].(log := Set(s.calls[c].log, st, Loaded(s.objects.Get(st), s.now)))])
    case LogRead(c, st) =>
      var pointer := s.calls[c].log.Get(st).pointer;
      if pointer == 0 then t.(calls := s.calls[c := Faulted(st, NullImage)])
      else if pointer != s.objects.Get(st) then t.(calls := s.calls[c := Faulted(st, FreedImage)])
      else t.(calls := s.calls[c := s.calls[c].(log := Set(s.calls[c].log, st, Read))])
  }

  ghost predicate Behavior(states: seq<Sys>, evs: seq<Event>) {
    && |states| == |evs| + 1
    && states[0] == START
    && forall i :: 0 <= i < |evs| ==> Enabled(states[i], evs[i]) && states[i + 1] == Next(states[i], evs[i])
  }

  ghost predicate IsArrival(evs: seq<Event>, k: int, s: Stream) {
    0 <= k < |evs| && evs[k].Arrive? && evs[k].s == s
  }

  lemma CountOnStep(st: Sys, e: Event, s: Stream)
    requires Enabled(st, e)
    ensures Next(st, e).frames.count.Get(s)
            == if e.Arrive? && e.s == s then Advanced(st.frames.count.Get(s), 1) else st.frames.count.Get(s)
  {
  }

  lemma {:induction false} StepsAreNumbered(states: seq<Sys>, evs: seq<Event>, i: nat)
    requires Behavior(states, evs) && i <= |evs|
    ensures states[i].now == i
  {
    if i > 0 {
      StepsAreNumbered(states, evs, i - 1);
    }
  }

  lemma {:induction false} CounterInRange(states: seq<Sys>, evs: seq<Event>, i: nat, s: Stream)
    requires Behavior(states, evs) && i <= |evs|
    ensures states[i].frames.count.Get(s) < COUNTER_RANGE
  {
    if i > 0 {
      CounterInRange(states, evs, i - 1, s);
      CountOnStep(states[i - 1], evs[i - 1], s);
    }
  }

  /** A stored image is the one that arrived last. */
  lemma {:induction false} SlotHoldsLastArrival(states: seq<Sys>, evs: seq<Event>, i: nat, s: Stream)
    requires Behavior(states, evs) && i <= |evs|
    ensures match states[i].frames.image.Get(s)
            case None => forall k :: 0 <= k < i ==> !IsArrival(evs, k, s)
            case Some(img) =>
              exists k :: 0 <= k < i && IsArrival(evs, k, s) && evs[k].img == img
                          && forall m :: k < m < i ==> !IsArrival(evs, m, s)
  {
    if i > 0 {
      SlotHoldsLastArrival(states, evs, i - 1, s);
      if IsArrival(evs, i - 1, s) {
        assert states[i].frames.image.Get(s) == Some(evs[i - 1].img);
      } else {
        assert states[i].frames.image.Get(s) == states[i - 1].frames.image.Get(s);
      }
    }
  }

  ghost predicate IsInfo(evs: seq<Event>, k: int, s: Stream) {
    0 <= k < |evs| && evs[k].InfoArrive? && evs[k].s == s
  }

  /** A stored CameraInfo is the last one that came on that very stream. */
  lemma {:induction false} SlotHoldsLastInfo(states: seq<Sys>, evs: seq<Event>, i: nat, s: Stream)
    requires Behavior(states, evs) && i <= |evs|
    ensures match states[i].frames.info.Get(s)
            case None => forall k :: 0 <= k < i ==> !IsInfo(evs, k, s)
            case Some(info) =>
              exists k :: 0 <= k < i && evs[k] == InfoArrive(s, info) && forall m :: k < m < i ==> !IsInfo(evs, m, s)
  {
    if i > 0 {
      SlotHoldsLastInfo(states, evs, i - 1, s);
      if IsInfo(evs, i - 1, s) {
        assert states[i].frames.info.Get(s) == Some(evs[i - 1].i);
        assert evs[i - 1] == InfoArrive(s, evs[i - 1].i);
      } else {
        assert states[i].frames.info.Get(s) == states[i - 1].frames.info.Get(s);
      }
    }
  }

  /** A counter changes only when a frame arrives. */
  lemma {:induction false} CounterNeedsArrival(states: seq<Sys>, evs: seq<Event>, lo: nat, hi: nat, s: Stream)
    requires Behavior(states, evs) && lo <= hi <= |evs|
    requires states[lo].frames.count.Get(s) != states[hi].frames.count.Get(s)
    ensures exists k :: lo <= k < hi && IsArrival(evs, k, s)
  {
    if IsArrival(evs, hi - 1, s) {
    } else {
      assert states[hi].frames.count.Get(s) == states[hi - 1].frames.count.Get(s);
      CounterNeedsArrival(states, evs, lo, hi - 1, s);
    }
  }

  /** A latched CameraInfo and a stored image are never taken away. */
  lemma {:induction false} SlotsStayFilled(states: seq<Sys>, evs: seq<Event>, lo: nat, hi: nat, s: Stream)
    requires Behavior(states, evs) && lo <= hi <= |evs|
    ensures states[lo].frames.info.Get(s).Some? ==> states[hi].frames.info.Get(s).Some?
    ensures states[lo].frames.image.Get(s).Some? ==> states[hi].frames.image.Get(s).Some?
  {
    if lo < hi {
      SlotsStayFilled(states, evs, lo, hi - 1, s);
    }
  }

  ghost predicate LoadHistory(states: seq<Sys>, evs: seq<Event>, i: nat, c: nat, s: Stream, a: Access)
    requires |states| == |evs| + 1 && i <= |evs|
  {
    a.Loaded? ==> a.at < i && evs[a.at] == LogLoad(c, s) && a.pointer == states[a.at].objects.Get(s)
  }

  /** What step i's record of a call says about the steps before. */
  ghost predicate CallHistory(states: seq<Sys>, evs: seq<Event>, i: nat, c: nat)
    requires Behavior(states, evs) && i <= |evs|
  {
    c in states[i].calls ==>
      match states[i].calls[c]
      case Armed(targets, a) =>
        a < i && evs[a] == Arm(c) && targets == states[a].frames.count
      case Woken(targets, a, w, seen) =>
        && a < w < i && evs[a] == Arm(c) && evs[w] == Wake(c, seen)
        && targets == states[a].frames.count && states[w].frames.AllNewFrames(targets, seen)
      case Answered(_, log) => forall s: Stream :: LoadHistory(states, evs, i, c, s, log.Get(s))
      case _ => true
  }

  predicate Touches(e: Event, c: nat) {
    !e.Arrive? && !e.InfoArrive? && !e.SetStreaming? && e.c == c
  }

  lemma OtherCallsStay(s: Sys, e: Event, c: nat)
    requires Enabled(s, e) && !Touches(e, c)
    ensures c in Next(s, e).calls <==> c in s.calls
    ensures c in s.calls ==> Next(s, e).calls[c] == s.calls[c]
  {
  }

  lemma LoadsRemember(states: seq<Sys>, evs: seq<Event>, i: nat, c: nat)
    requires Behavior(states, evs) && 0 < i <= |evs| && Touches(evs[i - 1], c)
    requires CallHistory(states, evs, i - 1, c) && states[i - 1].now == i - 1
    requires c in states[i].calls && states[i].calls[c].Answered?
    ensures forall s: Stream :: LoadHistory(states, evs, i, c, s, states[i].calls[c].log.Get(s))
  {
    var before, e := states[i - 1], evs[i - 1];
    assert states[i] == Next(before, e);
    if !e.Copy? {
      forall s: Stream
        ensures LoadHistory(states, evs, i, c, s, states[i].calls[c].log.Get(s))
      {
        assert LoadHistory(states, evs, i - 1, c, s, before.calls[c].log.Get(s));
      }
    }
  }

  lemma TouchedCallRemembers(states: seq<Sys>, evs: seq<Event>, i: nat, c: nat)
    requires Behavior(states, evs) && 0 < i <= |evs| && Touches(evs[i - 1], c)
    requires CallHistory(states, evs, i - 1, c) && states[i - 1].now == i - 1
    ensures CallHistory(states, evs, i, c)
  {
    assert states[i] == Next(states[i - 1], evs[i - 1]);
    if states[i].calls[c].Answered? {
      LoadsRemember(states, evs, i, c);
    }
  }

  lemma OtherCallRemembers(states: seq<Sys>, evs: seq<Event>, i: nat, c: nat)
    requires Behavior(states, evs) && 0 < i <= |evs| && !Touches(evs[i - 1], c)
    requires CallHistory(states, evs, i - 1, c)
    ensures CallHistory(states, evs, i, c)
  {
    OtherCallsStay(states[i - 1], evs[i - 1], c);
    if c in states[i].calls && states[i].calls[c].Answered? {
      forall s: Stream
        ensures LoadHistory(states, evs, i, c, s, states[i].calls[c].log.Get(s))
      {
        assert LoadHistory(states, evs, i - 1, c, s, states[i].calls[c].log.Get(s));
      }
    }
  }

  lemma {:induction false} CallsRemember(states: seq<Sys>, evs: seq<Event>, i: nat, c: nat)
    requires Behavior(states, evs) && i <= |evs|
    ensures CallHistory(states, evs, i, c)
  {
    if i > 0 {
      CallsRemember(states, evs, i - 1, c);
      if Touches(evs[i - 1], c) {
        StepsAreNumbered(states, evs, i - 1);
        TouchedCallRemembers(states, evs, i, c);
      } else {
        OtherCallRemembers(states, evs, i, c);
      }
    }
  }

  /** Once a call was woken for a stream, that stream's image and CameraInfo are there to copy. */
  lemma WokenStreamIsAvailable(states: seq<Sys>, evs: seq<Event>, j: nat, c: nat, s: Stream)
    requires Behavior(states, evs) && j <= |evs|
    requires c in states[j].calls && states[j].calls[c].Woken? && states[j].calls[c].seen.Get(s)
    ensures states[j].frames.Available(s)
    ensures exists k :: states[j].calls[c].armedAt < k < states[j].calls[c].wokenAt && IsArrival(evs, k, s)
  {
    CallsRemember(states, evs, j, c);
    var Woken(targets, a, w, seen) := states[j].calls[c];
    assert states[w].frames.NewFrame(targets, s);
    CounterNeedsArrival(states, evs, a, w, s);
    var k :| a <= k < w && IsArrival(evs, k, s);
    assert states[k + 1].frames.image.Get(s).Some?;
    SlotsStayFilled(states, evs, k + 1, j, s);
    SlotsStayFilled(states, evs, w, j, InfoSource(s));
  }

  /** The image of a stream that was enabled at the wait arrived after the targets were recorded. */
  lemma WokenStreamIsFresh(states: seq<Sys>, evs: seq<Event>, j: nat, c: nat, s: Stream)
    requires Behavior(states, evs) && j <= |evs|
    requires c in states[j].calls && states[j].calls[c].Woken? && states[j].calls[c].seen.Get(s)
    ensures exists k :: states[j].calls[c].armedAt < k < j && IsArrival(evs, k, s)
                        && states[j].frames.image.Get(s) == Some(evs[k].img)
                        && forall m :: k < m < j ==> !IsArrival(evs, m, s)
  {
    CallsRemember(states, evs, j, c);
    WokenStreamIsAvailable(states, evs, j, c, s);
    SlotHoldsLastArrival(states, evs, j, s);
  }

  /** Main result. A call that waited recorded its targets, was then woken, and then copied; every
      image it returns on a stream that was enabled at the wait is the newest of that stream and
      arrived after the targets were recorded; and when no stream was switched on between the wait
      and the copy, the copy cannot fail. */
  lemma SnapshotIsFresh(states: seq<Sys>, evs: seq<Event>, j: nat)
    requires Behavior(states, evs) && j < |evs|
    requires evs[j].Copy? && states[j].calls[evs[j].c].Woken?
    ensures var c := evs[j].c;
            var w := states[j].calls[c];
            && w.armedAt < w.wokenAt < j && evs[w.armedAt] == Arm(c) && evs[w.wokenAt] == Wake(c, w.seen)
            && states[j + 1].calls[c].Answered?
            && var r := states[j + 1].calls[c].reply;
            && (r.Images? ==> forall i :: 0 <= i < |r.images| && w.seen.Get(r.images[i].stream) ==>
                  exists k :: w.armedAt < k < j && evs[k] == Arrive(r.images[i].stream, r.images[i].image)
                              && forall m :: k < m < j ==> !IsArrival(evs, m, r.images[i].stream))
            && ((forall s: Stream :: evs[j].seen.Get(s) ==> w.seen.Get(s)) ==> r.Images?)
            && (!r.Images? ==> !w.seen.Get(r.stream))
  {
    var c, f := evs[j].c, states[j].frames;
    var w := states[j].calls[c];
    CallsRemember(states, evs, j, c);
    CopyReplyMeaning(f, evs[j].seen);
    CopyFailsIff(f, evs[j].seen);
    var r := f.CopyReply(evs[j].seen);
    assert states[j + 1].calls[c] == Answered(r, All(NotYet));
    forall s: Stream | w.seen.Get(s)
      ensures f.Available(s)
      ensures exists k :: w.armedAt < k < j && IsArrival(evs, k, s) && f.image.Get(s) == Some(evs[k].img)
                          && forall m :: k < m < j ==> !IsArrival(evs, m, s)
    {
      WokenStreamIsAvailable(states, evs, j, c, s);
      WokenStreamIsFresh(states, evs, j, c, s);
    }
    if r.Images? {
      forall i | 0 <= i < |r.images| && w.seen.Get(r.images[i].stream)
        ensures exists k :: w.armedAt < k < j && evs[k] == Arrive(r.images[i].stream, r.images[i].image)
                            && forall m :: k < m < j ==> !IsArrival(evs, m, r.images[i].stream)
      {
        var s := r.images[i].stream;
        var k :| w.armedAt < k < j && IsArrival(evs, k, s) && f.image.Get(s) == Some(evs[k].img)
                 && forall m :: k < m < j ==> !IsArrival(evs, m, s);
        assert evs[k] == Arrive(s, r.images[i].image);
      }
    }
  }

  // ----- Waking up -----

  function Arrivals(evs: seq<Event>, lo: nat, hi: nat, s: Stream): nat
    requires lo <= hi <= |evs|
  {
    if lo == hi then 0
    else Arrivals(evs, lo, hi - 1, s) + if evs[hi - 1].Arrive? && evs[hi - 1].s == s then 1 else 0
  }

  lemma CountOneMore(a: nat, n: nat, before: nat, arrived: bool, after: nat)
    requires before == Advanced(a, n)
    requires after == if arrived then Advanced(before, 1) else before
    ensures after == Advanced(a, n + if arrived then 1 else 0)
  {
    ModStep(a + n);
  }

  lemma {:induction false} CounterCountsArrivals(states: seq<Sys>, evs: seq<Event>, lo: nat, hi: nat, s: Stream)
    requires Behavior(states, evs) && lo <= hi <= |evs|
    ensures states[hi].frames.count.Get(s) == Advanced(states[lo].frames.count.Get(s), Arrivals(evs, lo, hi, s))
  {
    if lo == hi {
      CounterInRange(states, evs, lo, s);
    } else {
      CounterCountsArrivals(states, evs, lo, hi - 1, s);
      var arrived := evs[hi - 1].Arrive? && evs[hi - 1].s == s;
      CountOnStep(states[hi - 1], evs[hi - 1], s);
      CountOneMore(states[lo].frames.count.Get(s), Arrivals(evs, lo, hi - 1, s),
                   states[hi - 1].frames.count.Get(s), arrived, states[hi].frames.count.Get(s));
    }
  }

  /** The counter differs from a recorded target exactly when frames arrived since, up to its range. */
  lemma CounterMovedIff(states: seq<Sys>, evs: seq<Event>, a: nat, j: nat, s: Stream)
    requires Behavior(states, evs) && a <= j <= |evs|
    ensures states[j].frames.count.Get(s) != states[a].frames.count.Get(s)
            <==> !WholeRounds(Arrivals(evs, a, j, s))
  {
    CounterInRange(states, evs, a, s);
    CounterCountsArrivals(states, evs, a, j, s);
    MovedIff(states[a].frames.count.Get(s), Arrivals(evs, a, j, s));
  }

  lemma WakesIffMoved(states: seq<Sys>, evs: seq<Event>, j: nat, c: nat, seen: PerStream<bool>)
    requires Behavior(states, evs) && j <= |evs|
    requires c in states[j].calls && states[j].calls[c].Armed?
    ensures states[j].calls[c].armedAt < j
    ensures states[j].frames.AllNewFrames(states[j].calls[c].targets, seen)
            <==> forall s: Stream :: seen.Get(s) ==>
                   && states[j].frames.info.Get(InfoSource(s)).Some?
                   && !WholeRounds(Arrivals(evs, states[j].calls[c].armedAt, j, s))
  {
    CallsRemember(states, evs, j, c);
    forall s: Stream
      ensures states[j].frames.count.Get(s) != states[j].calls[c].targets.Get(s)
              <==> !WholeRounds(Arrivals(evs, states[j].calls[c].armedAt, j, s))
    {
      CounterMovedIff(states, evs, states[j].calls[c].armedAt, j, s);
    }
  }

  /** No lost wake-up: a waiting call may go on exactly when every stream it reads as enabled has
      its CameraInfo and got a frame since the targets were recorded, however early that frame
      came. The one exception is a counter that wrapped all the way round. */
  lemma WakesIffFramesArrived(states: seq<Sys>, evs: seq<Event>, j: nat, c: nat, seen: PerStream<bool>)
    requires Behavior(states, evs) && j <= |evs|
    requires c in states[j].calls && states[j].calls[c].Armed?
    ensures states[j].calls[c].armedAt < j
    ensures states[j].frames.AllNewFrames(states[j].calls[c].targets, seen)
            <==> forall s: Stream :: seen.Get(s) ==>
                   && states[j].frames.info.Get(InfoSource(s)).Some?
                   && Arrivals(evs, states[j].calls[c].armedAt, j, s) % 0x1_0000_0000_0000_0000 != 0
  {
    WakesIffMoved(states, evs, j, c, seen);
    forall s: Stream
      ensures WholeRounds(Arrivals(evs, states[j].calls[c].armedAt, j, s))
              <==> Arrivals(evs, states[j].calls[c].armedAt, j, s) % 0x1_0000_0000_0000_0000 == 0
    {
      WholeRoundsIs(Arrivals(evs, states[j].calls[c].armedAt, j, s));
    }
  }

  lemma WholeRoundsIs(n: nat)
    ensures WholeRounds(n) <==> n % 0x1_0000_0000_0000_0000 == 0
  {
  }

  lemma {:induction false} ArrivalsAddUp(evs: seq<Event>, lo: nat, mid: nat, hi: nat, s: Stream)
    requires lo <= mid <= hi <= |evs|
    ensures Arrivals(evs, lo, hi, s) == Arrivals(evs, lo, mid, s) + Arrivals(evs, mid, hi, s)
  {
    if mid < hi {
      ArrivalsAddUp(evs, lo, mid, hi - 1, s);
    }
  }

  lemma StreamStaysNew(states: seq<Sys>, evs: seq<Event>, i: nat, j: nat, c: nat, s: Stream)
    requires Behavior(states, evs) && i <= j <= |evs|
    requires c in states[i].calls && states[i].calls[c].Armed?
    requires states[i].calls[c].armedAt < i
    requires Arrivals(evs, states[i].calls[c].armedAt, j, s) < COUNTER_RANGE
    requires states[i].frames.NewFrame(states[i].calls[c].targets, s)
    ensures states[j].frames.NewFrame(states[i].calls[c].targets, s)
  {
    CallsRemember(states, evs, i, c);
    var a := states[i].calls[c].armedAt;
    CounterMovedIff(states, evs, a, i, s);
    CounterMovedIff(states, evs, a, j, s);
    ArrivalsAddUp(evs, a, i, j, s);
    SmallNonzero(Arrivals(evs, a, i, s), Arrivals(evs, a, j, s));
    SlotsStayFilled(states, evs, i, j, InfoSource(s));
  }

  lemma SmallNonzero(m: nat, n: nat)
    requires m <= n < COUNTER_RANGE && !WholeRounds(m)
    ensures !WholeRounds(n)
  {
  }

  /** Once true, the condition stays true while the call waits, as long as no stream is newly
      enabled and fewer than 2^64 frames of a stream arrive in one wait. */
  lemma WakeConditionIsStable(
    states: seq<Sys>, evs: seq<Event>, i: nat, j: nat, c: nat, seen: PerStream<bool>, later: PerStream<bool>)
    requires Behavior(states, evs) && i <= j <= |evs|
    requires c in states[i].calls && states[i].calls[c].Armed? && states[i].calls[c].armedAt < i
    requires forall s: Stream :: later.Get(s) ==>
      seen.Get(s) && Arrivals(evs, states[i].calls[c].armedAt, j, s) < 0x1_0000_0000_0000_0000
    requires states[i].frames.AllNewFrames(states[i].calls[c].targets, seen)
    ensures states[j].frames.AllNewFrames(states[i].calls[c].targets, later)
  {
    forall s: Stream | later.Get(s)
      ensures states[j].frames.NewFrame(states[i].calls[c].targets, s)
    {
      StreamStaysNew(states, evs, i, j, c, s);
    }
  }

  // ----- The log line after the copy -----

  /** A slot's pointer changes exactly when a frame arrives, and is null only before the first one. */
  lemma {:induction false} ObjectsFollowArrivals(states: seq<Sys>, evs: seq<Event>, i: nat, j: nat, s: Stream)
    requires Behavior(states, evs) && i <= j <= |evs|
    ensures states[i].objects.Get(s) <= states[j].objects.Get(s)
    ensures states[i].objects.Get(s) == states[j].objects.Get(s) <==> forall k :: i <= k < j ==> !IsArrival(evs, k, s)
  {
    if i < j {
      ObjectsFollowArrivals(states, evs, i, j - 1, s);
      ObjectOnStep(states[j - 1], evs[j - 1], s);
      assert IsArrival(evs, j - 1, s) <==> evs[j - 1].Arrive? && evs[j - 1].s == s;
    }
  }

  lemma ObjectOnStep(st: Sys, e: Event, s: Stream)
    requires Enabled(st, e)
    ensures Next(st, e).objects.Get(s) == st.objects.Get(s) + if e.Arrive? && e.s == s then 1 else 0
  {
  }

  /** An image was there at step l, and no other had replaced it by step j. */
  ghost predicate SafeBetween(evs: seq<Event>, l: nat, j: nat, s: Stream) {
    (exists k :: 0 <= k < l && IsArrival(evs, k, s)) && forall k :: l <= k < j ==> !IsArrival(evs, k, s)
  }

  /** The log line's read of a stream's time stamp is safe exactly when an image had arrived before the
      pointer was loaded and none arrived between the load and the read. Otherwise it follows a null
      pointer, or one to an image that a callback has freed meanwhile. */
  lemma LogReadFaultsIff(states: seq<Sys>, evs: seq<Event>, j: nat, c: nat, s: Stream)
    requires Behavior(states, evs) && j < |evs| && evs[j] == LogRead(c, s)
    ensures var l := states[j].calls[c].log.Get(s).at;
            var after := states[j + 1].calls[c];
            && l < j && evs[l] == LogLoad(c, s)
            && (after == Faulted(s, NullImage) <==> forall k :: 0 <= k < l ==> !IsArrival(evs, k, s))
            && (after == Faulted(s, FreedImage)
                <==> (exists k :: 0 <= k < l && IsArrival(evs, k, s)) && exists k :: l <= k < j && IsArrival(evs, k, s))
            && (after.Answered? <==> SafeBetween(evs, l, j, s))
  {
    CallsRemember(states, evs, j, c);
    var a := states[j].calls[c].log.Get(s);
    assert LoadHistory(states, evs, j, c, s, a);
    ObjectsFollowArrivals(states, evs, 0, a.at, s);
    ObjectsFollowArrivals(states, evs, a.at, j, s);
    assert states[j + 1] == Next(states[j], evs[j]);
  }

  function Stage(call: Call): nat {
    match call
    case Begun(_) => 0
    case Armed(_, _) => 1
    case Woken(_, _, _, _) => 2
    case Faulted(_, _) => 4
    case _ => 3
  }

  lemma StageOnStep(s: Sys, e: Event, c: nat)
    requires Enabled(s, e) && c in s.calls
    ensures c in Next(s, e).calls && Stage(s.calls[c]) <= Stage(Next(s, e).calls[c])
  {
    if !Touches(e, c) {
      OtherCallsStay(s, e, c);
    }
  }

  lemma {:induction false} StageOnlyRises(states: seq<Sys>, evs: seq<Event>, i: nat, j: nat, c: nat)
    requires Behavior(states, evs) && i <= j <= |evs| && c in states[i].calls
    ensures c in states[j].calls && Stage(states[i].calls[c]) <= Stage(states[j].calls[c])
  {
    if i < j {
      StageOnlyRises(states, evs, i, j - 1, c);
      StageOnStep(states[j - 1], evs[j - 1], c);
    }
  }

  /** Step i is the log line's read of s, and is safe. */
  ghost predicate SafeRead(states: seq<Sys>, evs: seq<Event>, i: int, c: nat, s: Stream)
    requires Behavior(states, evs)
  {
    0 <= i < |evs| && evs[i] == LogRead(c, s) && SafeBetween(evs, states[i].calls[c].log.Get(s).at, i, s)
  }

  ghost predicate BadRead(states: seq<Sys>, evs: seq<Event>, i: int, c: nat, s: Stream)
    requires Behavior(states, evs)
  {
    0 <= i < |evs| && evs[i] == LogRead(c, s) && !SafeBetween(evs, states[i].calls[c].log.Get(s).at, i, s)
  }

  ghost predicate ReadSafely(states: seq<Sys>, evs: seq<Event>, j: nat, c: nat, s: Stream)
    requires Behavior(states, evs)
  {
    exists i :: 0 <= i < j && SafeRead(states, evs, i, c, s)
  }

  ghost predicate ReadBadly(states: seq<Sys>, evs: seq<Event>, j: nat, c: nat, s: Stream)
    requires Behavior(states, evs)
  {
    exists i :: 0 <= i < j && BadRead(states, evs, i, c, s)
  }

  /** What a call's record says about the log line's use of s so far. */
  ghost predicate Tells(call: Option<Call>, s: Stream, safely: bool, badly: bool) {
    match call
    case Some(Answered(_, log)) =>
      (safely <==> log.Get(s).Read?) && !badly && (log.Get(s).Loaded? ==> IsLogged(s))
    case Some(Faulted(u, _)) => IsLogged(u) && (badly <==> u == s) && (u == s ==> !safely)
    case _ => !safely && !badly
  }

  function CallOf(s: Sys, c: nat): Option<Call> {
    if c in s.calls then Some(s.calls[c]) else None
  }

  lemma OtherStepTells(s: Sys, e: Event, c: nat, u: Stream, safely: bool, badly: bool)
    requires Enabled(s, e) && Tells(CallOf(s, c), u, safely, badly) && e != LogRead(c, u)
    requires e.LogRead? && e.c == c ==> Tells(CallOf(s, c), e.s, false, false)
    ensures Tells(CallOf(Next(s, e), c), u, safely, badly)
  {
    if !Touches(e, c) {
      OtherCallsStay(s, e, c);
    }
  }

  lemma ReadStepTells(s: Sys, c: nat, u: Stream)
    requires Enabled(s, LogRead(c, u)) && IsLogged(u)
    ensures Tells(CallOf(Next(s, LogRead(c, u)), c), u, Next(s, LogRead(c, u)).calls[c].Answered?,
                  !Next(s, LogRead(c, u)).calls[c].Answered?)
  {
  }

  lemma {:induction false} LineHistory(states: seq<Sys>, evs: seq<Event>, j: nat, c: nat, s: Stream)
    requires Behavior(states, evs) && j <= |evs|
    ensures Tells(CallOf(states[j], c), s, ReadSafely(states, evs, j, c, s), ReadBadly(states, evs, j, c, s))
  {
    if j > 0 {
      var m := j - 1;
      var e := evs[m];
      LineHistory(states, evs, m, c, s);
      ReadsGrow(states, evs, m, c, s);
      if e == LogRead(c, s) {
        LogReadFaultsIff(states, evs, m, c, s);
        ReadStepTells(states[m], c, s);
      } else {
        if e.LogRead? && e.c == c {
          LineHistory(states, evs, m, c, e.s);
        }
        OtherStepTells(states[m], e, c, s, ReadSafely(states, evs, m, c, s), ReadBadly(states, evs, m, c, s));
      }
    }
  }

  lemma ReadsGrow(states: seq<Sys>, evs: seq<Event>, m: nat, c: nat, s: Stream)
    requires Behavior(states, evs) && m < |evs|
    ensures ReadSafely(states, evs, m + 1, c, s) <==> ReadSafely(states, evs, m, c, s) || SafeRead(states, evs, m, c, s)
    ensures ReadBadly(states, evs, m + 1, c, s) <==> ReadBadly(states, evs, m, c, s) || BadRead(states, evs, m, c, s)
  {
  }

  /** The whole line, whatever happens to it: a call has faulted exactly when one of its reads was not
      safe, and has got through the line exactly when both images were read safely. */
  lemma LogLineEndsIff(states: seq<Sys>, evs: seq<Event>, j: nat, c: nat)
    requires Behavior(states, evs) && j <= |evs| && c in states[j].calls
    ensures states[j].calls[c].Faulted? <==> ReadBadly(states, evs, j, c, Color) || ReadBadly(states, evs, j, c, LeftIr)
    ensures states[j].calls[c].Answered? && states[j].calls[c].log.color.Read? && states[j].calls[c].log.leftIr.Read?
            <==> ReadSafely(states, evs, j, c, Color) && ReadSafely(states, evs, j, c, LeftIr)
  {
    LineHistory(states, evs, j, c, Color);
    LineHistory(states, evs, j, c, LeftIr);
  }

  /** No call can rely on the line: from every state in which a call has an answer and the line has not
      touched s yet, three steps lead to a fault. */
  lemma NoAnswerIsSafe(s: Sys, c: nat, st: Stream, img: Image)
    requires c in s.calls && s.calls[c].Answered? && s.calls[c].reply.Images?
    requires IsLogged(st) && s.calls[c].log.Get(st).NotYet?
    ensures Enabled(s, LogLoad(c, st))
    ensures var loaded := Next(s, LogLoad(c, st));
            var freed := Next(loaded, Arrive(st, img));
            Enabled(freed, LogRead(c, st)) && Next(freed, LogRead(c, st)).calls[c].Faulted?
  {
    var loaded := Next(s, LogLoad(c, st));
    var freed := Next(loaded, Arrive(st, img));
    assert freed.calls[c].log.Get(st) == Loaded(s.objects.Get(st), s.now);
    assert freed.objects.Get(st) == s.objects.Get(st) + 1;
  }

  /** A stream that was enabled at the wait is never read through a null pointer: with color and left
      IR enabled there, only a callback that frees an image between load and read can hurt. */
  lemma WaitedStreamIsNotNull(
    states: seq<Sys>, evs: seq<Event>, w: nat, j: nat, c: nat, seen: PerStream<bool>, s: Stream)
    requires Behavior(states, evs) && w < j < |evs|
    requires evs[w] == Wake(c, seen) && seen.Get(s) && evs[j] == LogRead(c, s)
    ensures states[j + 1].calls[c] != Faulted(s, NullImage)
  {
    LogReadFaultsIff(states, evs, j, c, s);
    var l := states[j].calls[c].log.Get(s).at;
    CallsRemember(states, evs, w, c);
    var Armed(targets, a) := states[w].calls[c];
    assert states[w].frames.NewFrame(targets, s);
    CounterNeedsArrival(states, evs, a, w, s);
    if l < w {
      StageOnlyRises(states, evs, l, w, c);
    }
  }

  /** With only color enabled, a snapshot that got everything it waited for still follows a null
      pointer: left IR has never sent an image. */
  lemma ColorOnlySnapshotCrashes() returns (states: seq<Sys>, evs: seq<Event>)
    ensures Behavior(states, evs)
    ensures evs == [InfoArrive(Color, CameraInfo(0)), Begin(0), Arm(0), Arrive(Color, Image(0)),
                    Wake(0, PerStream(true, false, false, false))]
                   + [Copy(0, PerStream(true, false, false, false)), LogLoad(0, LeftIr), LogRead(0, LeftIr)]
    ensures states[6].calls == map[0 := Answered(Images([Snapshot(Color, CameraInfo(0), Image(0))]), All(NotYet))]
    ensures states[8].calls == map[0 := Faulted(LeftIr, NullImage)]
  {
    var only := PerStream(true, false, false, false);
    states, evs := ColorOnlyRun();
    var s5 := states[5];
    var reply := Images([Snapshot(Color, CameraInfo(0), Image(0))]);
    var s6 := s5.(now := 6, calls := map[0 := Answered(reply, All(NotYet))]);
    var s7 := s6.(now := 7, calls := map[0 := Answered(reply, PerStream(NotYet, Loaded(0, 6), NotYet, NotYet))]);
    var s8 := s7.(now := 8, calls := map[0 := Faulted(LeftIr, NullImage)]);
    ColorOnlyCopies(s5.frames, only, reply);
    LoadStep(s6, s7, reply, LeftIr, 0);
    states := Continued(states, evs, s6, s7, s8, Copy(0, only), LogLoad(0, LeftIr), LogRead(0, LeftIr));
    evs := evs + [Copy(0, only), LogLoad(0, LeftIr), LogRead(0, LeftIr)];
  }

  /** A run in which a snapshot with only color gets what it waits for. */
  lemma ColorOnlyRun() returns (states: seq<Sys>, evs: seq<Event>)
    ensures Behavior(states, evs)
    ensures evs == [InfoArrive(Color, CameraInfo(0)), Begin(0), Arm(0), Arrive(Color, Image(0)),
                    Wake(0, PerStream(true, false, false, false))]
    ensures states[5].now == 5 && states[5].objects == PerStream(1, 0, 0, 0)
    ensures states[5].frames.info.color == Some(CameraInfo(0))
    ensures states[5].frames.image == PerStream(Some(Image(0)), None, None, None)
    ensures states[5].calls == map[0 := Woken(All(0), 2, 4, PerStream(true, false, false, false))]
  {
    var only := PerStream(true, false, false, false);
    evs := [InfoArrive(Color, CameraInfo(0)), Begin(0), Arm(0), Arrive(Color, Image(0)), Wake(0, only)];
    var s1 := START.(now := 1, frames := NOTHING_YET.(info := PerStream(Some(CameraInfo(0)), None, None, None)));
    var s2 := s1.(now := 2, calls := map[0 := Begun(false)]);
    var s3 := s2.(now := 3, calls := map[0 := Armed(All(0), 2)]);
    var s4 := s3.(now := 4, objects := PerStream(1, 0, 0, 0),
                  frames := Frames(PerStream(1, 0, 0, 0), PerStream(Some(Image(0)), None, None, None), s1.frames.info));
    var s5 := s4.(now := 5, calls := map[0 := Woken(All(0), 2, 4, only)]);
    ColorOnlyWakes(s1, s2, s3, s4, s5, only);
    states := [START, s1, s2, s3, s4, s5];
  }

  lemma ColorOnlyWakes(s1: Sys, s2: Sys, s3: Sys, s4: Sys, s5: Sys, only: PerStream<bool>)
    requires s1 == START.(now := 1, frames := NOTHING_YET.(info := PerStream(Some(CameraInfo(0)), None, None, None)))
    requires s2 == s1.(now := 2, calls := map[0 := Begun(false)])
    requires s3 == s2.(now := 3, calls := map[0 := Armed(All(0), 2)])
    requires s4 == s3.(now := 4, objects := PerStream(1, 0, 0, 0),
                       frames := Frames(PerStream(1, 0, 0, 0), PerStream(Some(Image(0)), None, None, None), s1.frames.info))
    requires s5 == s4.(now := 5, calls := map[0 := Woken(All(0), 2, 4, only)])
    requires only == PerStream(true, false, false, false)
    ensures Next(START, InfoArrive(Color, CameraInfo(0))) == s1 && Next(s1, Begin(0)) == s2
    ensures Enabled(s2, Arm(0)) && Next(s2, Arm(0)) == s3
    ensures Next(s3, Arrive(Color, Image(0))) == s4
    ensures Enabled(s4, Wake(0, only)) && Next(s4, Wake(0, only)) == s5
  {
  }

  lemma ColorOnlyCopies(f: Frames, only: PerStream<bool>, reply: Reply)
    requires f.info.color == Some(CameraInfo(0)) && f.image == PerStream(Some(Image(0)), None, None, None)
    requires only == PerStream(true, false, false, false)
    requires reply == Images([Snapshot(Color, CameraInfo(0), Image(0))])
    ensures f.CopyReply(only) == reply
  {
    assert f.Append(Images([]), only, Color) == reply && f.Append(reply, only, LeftIr) == reply;
    assert f.Append(reply, only, RightIr) == reply && f.Append(reply, only, Depth) == reply;
  }

  /** The log line loads a stream's pointer. */
  lemma LoadStep(s: Sys, s': Sys, reply: Reply, st: Stream, pointer: nat)
    requires s.calls == map[0 := Answered(reply, All(NotYet))] && reply.Images?
    requires IsLogged(st) && s.objects.Get(st) == pointer
    requires s' == s.(now := s.now + 1,
                      calls := map[0 := Answered(reply, Set(All(NotYet), st, Loaded(pointer, s.now)))])
    ensures Enabled(s, LogLoad(0, st)) && Next(s, LogLoad(0, st)) == s'
  {
  }

  /** With color and left IR enabled, a snapshot that got everything can still read freed memory: a
      color frame arrives between the load and the read. */
  lemma FrameFreesLoggedImage() returns (states: seq<Sys>, evs: seq<Event>)
    ensures Behavior(states, evs)
    ensures evs == [InfoArrive(Color, CameraInfo(0)), InfoArrive(LeftIr, CameraInfo(1)), Begin(0), Arm(0),
                    Arrive(Color, Image(0)), Arrive(LeftIr, Image(1)), Wake(0, PerStream(true, true, false, false)),
                    Copy(0, PerStream(true, true, false, false))]
                   + [LogLoad(0, Color), Arrive(Color, Image(2)), LogRead(0, Color)]
    ensures states[11].calls == map[0 := Faulted(Color, FreedImage)]
  {
    var reply;
    states, evs, reply := BothStreamsRun();
    var s8 := states[8];
    var s9 := s8.(now := 9, calls := map[0 := Answered(reply, PerStream(Loaded(1, 8), NotYet, NotYet, NotYet))]);
    LoadStep(s8, s9, reply, Color, 1);
    var s10 := Next(s9, Arrive(Color, Image(2)));
    var s11 := Next(s10, LogRead(0, Color));
    states := Continued(states, evs, s9, s10, s11, LogLoad(0, Color), Arrive(Color, Image(2)), LogRead(0, Color));
    evs := evs + [LogLoad(0, Color), Arrive(Color, Image(2)), LogRead(0, Color)];
  }

  lemma Continued(states: seq<Sys>, evs: seq<Event>, s1: Sys, s2: Sys, s3: Sys, e1: Event, e2: Event, e3: Event)
    returns (longer: seq<Sys>)
    requires Behavior(states, evs)
    requires Enabled(states[|evs|], e1) && s1 == Next(states[|evs|], e1)
    requires Enabled(s1, e2) && s2 == Next(s1, e2) && Enabled(s2, e3) && s3 == Next(s2, e3)
    ensures longer == states + [s1, s2, s3] && Behavior(longer, evs + [e1, e2, e3])
  {
    longer := states + [s1, s2, s3];
  }

  /** A run in which a snapshot with color and left IR gets everything it waits for. */
  lemma BothStreamsRun() returns (states: seq<Sys>, evs: seq<Event>, reply: Reply)
    ensures Behavior(states, evs)
    ensures evs == [InfoArrive(Color, CameraInfo(0)), InfoArrive(LeftIr, CameraInfo(1)), Begin(0), Arm(0),
                    Arrive(Color, Image(0)), Arrive(LeftIr, Image(1)), Wake(0, PerStream(true, true, false, false)),
                    Copy(0, PerStream(true, true, false, false))]
    ensures reply.Images? && states[8].calls == map[0 := Answered(reply, All(NotYet))]
    ensures states[8].objects == PerStream(1, 1, 0, 0) && states[8].now == 8
  {
    var both := PerStream(true, true, false, false);
    evs := [InfoArrive(Color, CameraInfo(0)), InfoArrive(LeftIr, CameraInfo(1)), Begin(0), Arm(0),
            Arrive(Color, Image(0)), Arrive(LeftIr, Image(1)), Wake(0, both), Copy(0, both)];
    var infos := PerStream(Some(CameraInfo(0)), Some(CameraInfo(1)), None, None);
    var s4 := Sys(4, false, NOTHING_YET.(info := infos), All(0), map[0 := Armed(All(0), 3)]);
    var s6 := Sys(6, false, Frames(PerStream(1, 1, 0, 0), PerStream(Some(Image(0)), Some(Image(1)), None, None), infos),
                  PerStream(1, 1, 0, 0), s4.calls);
    reply := Images([Snapshot(Color, CameraInfo(0), Image(0)), Snapshot(LeftIr, CameraInfo(1), Image(1))]);
    var s7 := s6.(now := 7, calls := map[0 := Woken(All(0), 3, 6, both)]);
    var s8 := s7.(now := 8, calls := map[0 := Answered(reply, All(NotYet))]);
    var s1, s2, s3 := BothArmed(s4);
    var s5 := BothArrive(s4, s6);
    BothAnswered(s6, s7, s8, both, reply);
    states := [START, s1, s2, s3, s4, s5, s6, s7, s8];
  }

  lemma BothArmed(s4: Sys) returns (s1: Sys, s2: Sys, s3: Sys)
    requires s4 == Sys(4, false, NOTHING_YET.(info := PerStream(Some(CameraInfo(0)), Some(CameraInfo(1)), None, None)),
                       All(0), map[0 := Armed(All(0), 3)])
    ensures s1 == Next(START, InfoArrive(Color, CameraInfo(0))) && s2 == Next(s1, InfoArrive(LeftIr, CameraInfo(1)))
    ensures Enabled(s2, Begin(0)) && s3 == Next(s2, Begin(0))
    ensures Enabled(s3, Arm(0)) && s4 == Next(s3, Arm(0))
  {
    s1 := Next(START, InfoArrive(Color, CameraInfo(0)));
    s2 := Next(s1, InfoArrive(LeftIr, CameraInfo(1)));
    s3 := Next(s2, Begin(0));
  }

  lemma BothArrive(s4: Sys, s6: Sys) returns (s5: Sys)
    requires s4.now == 4 && s4.frames.count == All(0) && s4.objects == All(0) && s4.frames.image == All(None)
    requires s6 == s4.(now := 6, objects := PerStream(1, 1, 0, 0),
                       frames := s4.frames.(count := PerStream(1, 1, 0, 0),
                                            image := PerStream(Some(Image(0)), Some(Image(1)), None, None)))
    ensures s5 == Next(s4, Arrive(Color, Image(0))) && s6 == Next(s5, Arrive(LeftIr, Image(1)))
  {
    s5 := Next(s4, Arrive(Color, Image(0)));
  }

  lemma BothAnswered(s6: Sys, s7: Sys, s8: Sys, both: PerStream<bool>, reply: Reply)
    requires both == PerStream(true, true, false, false)
    requires s6.now == 6 && s6.calls == map[0 := Armed(All(0), 3)] && s6.frames.count == PerStream(1, 1, 0, 0)
    requires s6.frames.image == PerStream(Some(Image(0)), Some(Image(1)), None, None)
    requires s6.frames.info == PerStream(Some(CameraInfo(0)), Some(CameraInfo(1)), None, None)
    requires reply == Images([Snapshot(Color, CameraInfo(0), Image(0)), Snapshot(LeftIr, CameraInfo(1), Image(1))])
    requires s7 == s6.(now := 7, calls := map[0 := Woken(All(0), 3, 6, both)])
    requires s8 == s7.(now := 8, calls := map[0 := Answered(reply, All(NotYet))])
    ensures Enabled(s6, Wake(0, both)) && Next(s6, Wake(0, both)) == s7
    ensures Enabled(s7, Copy(0, both)) && Next(s7, Copy(0, both)) == s8
  {
    var f := s7.frames;
    var one := Images([Snapshot(Color, CameraInfo(0), Image(0))]);
    assert f.Append(Images([]), both, Color) == one && f.Append(one, both, LeftIr) == reply;
    assert f.Append(reply, both, RightIr) == reply && f.Append(reply, both, Depth) == reply;
    assert f.CopyReply(both) == reply;
  }
}
