/** The SSE generator: subscribe, replay the ring, then read the live queue, de-duplicating the overlap. */
module OrderStream {
  import opened EventHubs
  import opened Sequences

  datatype Frame = EventFrame(no: nat) | GapFrame(dropped: nat) | ResyncFrame | KeepAlive

  datatype Phase = Idle | Subscribed | Replaying

  /**
    Hub and one stream. `base` is the last event published before the subscription, `replay`
    the list the ring returned and `pending` the part of it not sent yet; `read` are the events
    dequeued so far.
   */
  datatype Stream = Stream(
    ringCap: nat, maxsize: int, cursor: int,
    last: nat, ring: seq<nat>,
    phase: Phase, base: nat, account: Account, read: seq<nat>,
    replay: seq<nat>, pending: seq<nat>, maxReplayed: nat, frames: seq<Frame>)

  function Fresh(ringCap: nat, maxsize: int, cursor: int): Stream {
    Stream(ringCap, maxsize, cursor, 0, [], Idle, 0, Account(EMPTY, [], []), [], [], [], 0, [])
  }

  datatype Step = Publish | Subscribe | AskReplay | SendReplay | ReadQueue | Timeout

  /** One atomic step; a step that is not due changes nothing. */
  function Next(s: Stream, step: Step): Stream {
    match step
    case Publish =>
      s.(last := s.last + 1, ring := Remember(s.ring, s.ringCap, s.last + 1),
         account := if s.phase.Idle? then s.account else Offered(s.account, s.maxsize, s.last + 1))
    case Subscribe => if s.phase.Idle? then s.(phase := Subscribed, base := s.last) else s
    case AskReplay =>
      if !s.phase.Subscribed? then s
      else
        var events := ReplayEvents(s.ring, s.cursor);
        s.(phase := Replaying, replay := events, pending := events,
           frames := if ReplayGap(s.ring, s.cursor) then s.frames + [ResyncFrame] else s.frames)
    case SendReplay =>
      if s.pending == [] then s
      else
        s.(pending := s.pending[1..],
           maxReplayed := if s.pending[0] > s.maxReplayed then s.pending[0] else s.maxReplayed,
           frames := s.frames + [EventFrame(s.pending[0])])
    case ReadQueue =>
      if !s.phase.Replaying? || s.pending != [] || s.account.queue.items == [] then s
      else ReadOne(s)
    case Timeout => if s.phase.Replaying? && s.pending == [] then s.(frames := s.frames + [KeepAlive]) else s
  }

  /** A marker becomes a gap frame; an event at or below the replay mark is skipped. */
  function ReadOne(s: Stream): Stream
    requires s.account.queue.items != []
  {
    var t := s.(account := EventHubs.Read(s.account));
    match s.account.queue.items[0]
    case GapMarker => t.(frames := s.frames + [GapFrame(s.account.queue.dropped)])
    case Event(no) =>
      t.(read := s.read + [no], frames := if no <= s.maxReplayed then s.frames else s.frames + [EventFrame(no)])
  }

  function Run(s: Stream, steps: seq<Step>): Stream {
    if steps == [] then s else Next(Run(s, steps[..|steps| - 1]), steps[|steps| - 1])
  }

  // ---------------------------------------------------------------- what the client has seen

  function Sent(frames: seq<Frame>): seq<nat> {
    if frames == [] then []
    else
      var last := frames[|frames| - 1];
      Sent(frames[..|frames| - 1]) + (if last.EventFrame? then [last.no] else [])
  }

  function Reported(frames: seq<Frame>): seq<nat> {
    if frames == [] then []
    else
      var last := frames[|frames| - 1];
      Reported(frames[..|frames| - 1]) + (if last.GapFrame? then [last.dropped] else [])
  }

  /** The consecutive numbers after `lo` up to `hi`. */
  function Range(lo: nat, hi: nat): seq<nat> {
    if hi <= lo then [] else Range(lo, hi - 1) + [hi]
  }

  /** The replay mark once the whole replay has been sent. */
  function FinalMark(replay: seq<nat>): nat {
    if replay == [] then 0 else replay[|replay| - 1]
  }

  /** Sent frames, then unsent replay, then queued events the de-duplication will let through. */
  function Visible(s: Stream): seq<nat> {
    Sent(s.frames) + s.pending + Above(Events(s.account.queue.items), FinalMark(s.replay))
  }

  /** Where the visible stream begins: before the first replayed event, else at the subscription. */
  function Origin(base: nat, replay: seq<nat>): int {
    var first: int := if replay == [] then base + 1 else replay[0];
    first - 1
  }

  // ---------------------------------------------------------------- small facts

  lemma AppendFrame(frames: seq<Frame>, f: Frame)
    ensures Sent(frames + [f]) == if f.EventFrame? then Sent(frames) + [f.no] else Sent(frames)
    ensures Reported(frames + [f]) == if f.GapFrame? then Reported(frames) + [f.dropped] else Reported(frames)
    ensures ResyncFrame in frames + [f] <==> ResyncFrame in frames || f.ResyncFrame?
  {
  }

  lemma {:induction false} RangeIs(lo: nat, hi: nat)
    ensures |Range(lo, hi)| == if hi <= lo then 0 else hi - lo
    ensures forall i :: 0 <= i < |Range(lo, hi)| ==> Range(lo, hi)[i] == lo + 1 + i
  {
    if hi > lo {
      RangeIs(lo, hi - 1);
    }
  }

  lemma {:induction false} AboveConcat(a: seq<nat>, b: seq<nat>, bound: int)
    ensures Above(a + b, bound) == Above(a, bound) + Above(b, bound)
  {
    if b == [] {
      assert a + b == a;
    } else {
      AboveConcat(a, b[..|b| - 1], bound);
      assert (a + b)[..|a + b| - 1] == a + b[..|b| - 1];
    }
  }

  lemma {:induction false} AboveIs(s: seq<nat>, bound: int)
    requires Sorted(s)
    ensures Sorted(Above(s, bound))
    ensures forall x :: x in Above(s, bound) <==> x in s && x > bound
  {
    if s != [] {
      var init, last := s[..|s| - 1], s[|s| - 1];
      AboveIs(init, bound);
      assert s == init + [last];
      forall x | x in init ensures x < last {
        var i :| 0 <= i < |init| && init[i] == x;
        assert s[i] == x;
      }
      AppendSorted(Above(init, bound), last);
      assert Above(init, bound) + [] == Above(init, bound);
    }
  }

  lemma LastOfSorted(s: seq<nat>, hi: nat)
    requires Sorted(s) && hi in s && forall x :: x in s ==> x <= hi
    ensures s[|s| - 1] == hi
  {
    var k :| 0 <= k < |s| && s[k] == hi;
    assert s[|s| - 1] in s;
  }

  lemma InitOfSorted(s: seq<nat>)
    requires Sorted(s) && s != []
    ensures Sorted(s[..|s| - 1]) && forall x :: x in s[..|s| - 1] <==> x in s && x != s[|s| - 1]
  {
  }

  /** A sorted sequence with exactly the members of a range is that range. */
  lemma {:induction false} SortedRange(s: seq<nat>, lo: nat, hi: nat)
    requires Sorted(s) && lo <= hi && forall x: nat :: x in s <==> lo < x <= hi
    ensures s == Range(lo, hi)
    decreases hi
  {
    hide Sorted;
    if hi > lo {
      assert hi in s;
      LastOfSorted(s, hi);
      InitOfSorted(s);
      var init := s[..|s| - 1];
      forall x: nat ensures x in init <==> lo < x <= hi - 1 {
        assert x in init <==> x in s && x != hi;
      }
      SortedRange(init, lo, hi - 1);
      assert s == s[..|s| - 1] + [hi];
    } else if s != [] {
      FirstIsMember(s);
      assert false;
    }
  }

  lemma FirstIsMember(s: seq<nat>)
    requires s != []
    ensures s[0] in s
  {
  }

  lemma {:induction false} AboveRange(lo: nat, hi: nat, bound: nat)
    ensures Above(Range(lo, hi), bound) == Range(if lo >= bound then lo else bound, hi)
  {
    if hi > lo {
      AboveRange(lo, hi - 1, bound);
      assert Range(lo, hi)[..|Range(lo, hi)| - 1] == Range(lo, hi - 1);
    }
  }

  // ---------------------------------------------------------------- the invariant

  function Min(a: nat, b: nat): nat {
    if a <= b then a else b
  }

  /** The ring holds the newest events, as many as fit. */
  ghost predicate RingInv(ringCap: nat, last: nat, ring: seq<nat>) {
    |ring| == Min(last, ringCap) && ring == Range(last - |ring|, last)
  }

  /** The live tap accounts for every event since the subscription, and every report was sent. */
  ghost predicate TapInv(maxsize: int, base: nat, last: nat, a: Account, read: seq<nat>, reported: seq<nat>) {
    base <= last && Accounted(a, maxsize) && Conserves(a, read, base, last) && reported == a.reports
  }

  /** The replay is contiguous and reaches at least to the subscription. */
  ghost predicate Contiguous(base: nat, last: nat, replay: seq<nat>) {
    replay != [] ==>
      base <= FinalMark(replay) <= last && replay[0] >= 1 && replay == Range(replay[0] - 1, FinalMark(replay))
  }

  /** What was sent plus what is pending is the replay, then the de-duplicated reads. */
  ghost predicate SentInv(replay: seq<nat>, pending: seq<nat>, read: seq<nat>, maxReplayed: nat, sent: seq<nat>) {
    && |pending| <= |replay| && pending == replay[|replay| - |pending|..]
    && maxReplayed == FinalMark(replay[..|replay| - |pending|])
    && (pending != [] ==> read == [])
    && sent + pending == replay + Above(read, FinalMark(replay))
  }

  /** When the client's cursor is honoured exactly, and that it is told otherwise. */
  ghost predicate OriginInv(ringCap: nat, cursor: int, base: nat, replay: seq<nat>, resynced: bool) {
    1 <= cursor <= base ==> (Origin(base, replay) == cursor <==> !resynced && (ringCap > 0 || cursor == base))
  }

  ghost predicate Inv(s: Stream) {
    && RingInv(s.ringCap, s.last, s.ring)
    && (s.phase.Idle? ==> s == Fresh(s.ringCap, s.maxsize, s.cursor).(last := s.last, ring := s.ring))
    && (!s.phase.Idle? ==> TapInv(s.maxsize, s.base, s.last, s.account, s.read, Reported(s.frames)))
    && (s.phase.Subscribed? ==>
        s.read == [] && s.replay == [] && s.pending == [] && s.frames == [] && s.maxReplayed == 0)
    && (s.phase.Replaying? ==>
          && Contiguous(s.base, s.last, s.replay)
          && SentInv(s.replay, s.pending, s.read, s.maxReplayed, Sent(s.frames))
          && OriginInv(s.ringCap, s.cursor, s.base, s.replay, ResyncFrame in s.frames))
  }

  lemma RingStep(ringCap: nat, last: nat, ring: seq<nat>)
    requires RingInv(ringCap, last, ring)
    ensures RingInv(ringCap, last + 1, Remember(ring, ringCap, last + 1))
  {
    var ring' := Remember(ring, ringCap, last + 1);
    RangeIs(last - |ring|, last);
    RangeIs(last + 1 - |ring'|, last + 1);
  }

  lemma TapOffer(maxsize: int, base: nat, last: nat, a: Account, read: seq<nat>, reported: seq<nat>)
    requires TapInv(maxsize, base, last, a, read, reported)
    ensures TapInv(maxsize, base, last + 1, Offered(a, maxsize, last + 1), read, reported)
  {
    hide Accounted, Conserves;
    OfferAccounted(a, maxsize, last + 1);
    OfferConserves(a, read, maxsize, base, last);
  }

  lemma PublishKeeps(s: Stream)
    requires Inv(s)
    ensures Inv(Next(s, Publish))
  {
    hide RingInv, TapInv, SentInv, OriginInv, Remember, Range, Sent, Reported, Offered;
    RingStep(s.ringCap, s.last, s.ring);
    if !s.phase.Idle? {
      TapOffer(s.maxsize, s.base, s.last, s.account, s.read, Reported(s.frames));
    }
  }

  lemma SubscribeKeeps(s: Stream)
    requires Inv(s)
    ensures Inv(Next(s, Subscribe))
  {
  }

  lemma SendOne(replay: seq<nat>, pending: seq<nat>, read: seq<nat>, maxReplayed: nat, sent: seq<nat>)
    requires SentInv(replay, pending, read, maxReplayed, sent) && pending != [] && Sorted(replay)
    ensures var mark := if pending[0] > maxReplayed then pending[0] else maxReplayed;
            SentInv(replay, pending[1..], read, mark, sent + [pending[0]])
  {
  }

  lemma ContiguousSorted(base: nat, last: nat, replay: seq<nat>)
    requires Contiguous(base, last, replay)
    ensures Sorted(replay)
  {
    if replay != [] {
      RangeIs(replay[0] - 1, FinalMark(replay));
    }
  }

  lemma SendKeeps(s: Stream)
    requires Inv(s)
    ensures Inv(Next(s, SendReplay))
  {
    hide RingInv, TapInv, SentInv, Contiguous, OriginInv, Sent, Reported;
    if s.pending != [] {
      AppendFrame(s.frames, EventFrame(s.pending[0]));
      ContiguousSorted(s.base, s.last, s.replay);
      SendOne(s.replay, s.pending, s.read, s.maxReplayed, Sent(s.frames));
    }
  }

  /** What the ring returns for a cursor: everything after it, or after the oldest retained event. */
  lemma ReplayIs(ringCap: nat, last: nat, ring: seq<nat>, cursor: int)
    requires RingInv(ringCap, last, ring) && cursor > 0
    ensures var oldest := last - |ring|;
            ReplayEvents(ring, cursor) == Range(if cursor >= oldest then cursor else oldest, last)
            && (ReplayGap(ring, cursor) <==> ring != [] && cursor < oldest)
  {
    AboveRange(last - |ring|, last, cursor);
    RangeIs(last - |ring|, last);
  }

  lemma StartSending(replay: seq<nat>)
    ensures SentInv(replay, replay, [], 0, [])
  {
  }

  lemma AskKeeps(s: Stream)
    requires Inv(s)
    ensures Inv(Next(s, AskReplay))
  {
    hide RingInv, TapInv, SentInv, Contiguous, OriginInv, Above, ReplayEvents, ReplayGap, Sent, Reported, Range;
    if s.phase.Subscribed? {
      StartSending(Next(s, AskReplay).replay);
      FirstFrames(s.frames);
      AskOrigin(s);
    }
  }

  lemma FirstFrames(frames: seq<Frame>)
    requires frames == []
    ensures Sent(frames) == Sent(frames + [ResyncFrame]) == []
    ensures Reported(frames) == Reported(frames + [ResyncFrame]) == []
  {
    AppendFrame(frames, ResyncFrame);
  }

  lemma AskOrigin(s: Stream)
    requires Inv(s) && s.phase.Subscribed?
    ensures var t := Next(s, AskReplay);
            && Contiguous(t.base, t.last, t.replay)
            && OriginInv(t.ringCap, t.cursor, t.base, t.replay, ResyncFrame in t.frames)
  {
    hide Accounted, Conserves, Above, Remember, ReplayEvents, ReplayGap, Reported;
    var oldest := s.last - |s.ring|;
    if s.cursor > 0 {
      ReplayIs(s.ringCap, s.last, s.ring, s.cursor);
      RangeIs(if s.cursor >= oldest then s.cursor else oldest, s.last);
    } else {
      NoReplay(s.ring, s.cursor);
    }
  }

  lemma NoReplay(ring: seq<nat>, cursor: int)
    requires cursor <= 0
    ensures ReplayEvents(ring, cursor) == [] && !ReplayGap(ring, cursor)
  {
  }

  lemma AppendAbove(s: seq<nat>, x: nat, bound: int)
    ensures Above(s + [x], bound) == Above(s, bound) + (if x > bound then [x] else [])
  {
  }

  /** Reading one event extends what was read, and what was sent unless it is a repetition. */
  lemma ReadEvent(replay: seq<nat>, read: seq<nat>, maxReplayed: nat, sent: seq<nat>, no: nat)
    requires SentInv(replay, [], read, maxReplayed, sent)
    ensures SentInv(replay, [], read + [no], maxReplayed, if no <= maxReplayed then sent else sent + [no])
  {
    AppendAbove(read, no, FinalMark(replay));
    assert replay[..|replay|] == replay;
    assert sent + [] == sent && sent + [no] + [] == sent + [no];
  }

  lemma TapRead(maxsize: int, base: nat, last: nat, a: Account, read: seq<nat>, reported: seq<nat>)
    requires TapInv(maxsize, base, last, a, read, reported) && a.queue.items != []
    ensures var head := a.queue.items[0];
            TapInv(maxsize, base, last, EventHubs.Read(a), if head.Event? then read + [head.no] else read,
                   if head.Event? then reported else reported + [a.queue.dropped])
  {
    hide Accounted, Conserves;
    ReadAccounted(a, maxsize);
    ReadConserves(a, read, base, last);
  }

  lemma ReadKeeps(s: Stream)
    requires Inv(s)
    ensures Inv(Next(s, ReadQueue))
  {
    hide RingInv, TapInv, SentInv, Contiguous, OriginInv, Sent, Reported, EventHubs.Read;
    if s.phase.Replaying? && s.pending == [] && s.account.queue.items != [] {
      var head := s.account.queue.items[0];
      TapRead(s.maxsize, s.base, s.last, s.account, s.read, Reported(s.frames));
      AppendFrame(s.frames, if head.Event? then EventFrame(head.no) else GapFrame(s.account.queue.dropped));
      if head.Event? {
        ReadEvent(s.replay, s.read, s.maxReplayed, Sent(s.frames), head.no);
      }
    }
  }

  lemma TimeoutKeeps(s: Stream)
    requires Inv(s)
    ensures Inv(Next(s, Timeout))
  {
    hide RingInv, TapInv, SentInv, Contiguous, OriginInv, Sent, Reported;
    AppendFrame(s.frames, KeepAlive);
  }

  lemma {:induction false} RunKeeps(s: Stream, steps: seq<Step>)
    requires Inv(s)
    ensures Inv(Run(s, steps))
  {
    hide Inv, Next;
    if steps != [] {
      var mid := Run(s, steps[..|steps| - 1]);
      RunKeeps(s, steps[..|steps| - 1]);
      match steps[|steps| - 1]
      case Publish => PublishKeeps(mid);
      case Subscribe => SubscribeKeeps(mid);
      case AskReplay => AskKeeps(mid);
      case SendReplay => SendKeeps(mid);
      case ReadQueue => ReadKeeps(mid);
      case Timeout => TimeoutKeeps(mid);
    }
  }

  // ---------------------------------------------------------------- exactly once, or told

  /** The visible stream of a live subscription: in order, without repetition, complete up to the reported losses. */
  lemma VisibleIs(s: Stream)
    requires Inv(s) && s.phase.Replaying?
    ensures Sorted(Visible(s))
    ensures forall x: nat :: x in Visible(s) ==> Origin(s.base, s.replay) < x <= s.last
    ensures forall x: nat :: Origin(s.base, s.replay) < x <= s.last ==>
              x in Visible(s) || (x in s.account.lost && x > FinalMark(s.replay))
    ensures forall x :: x in Visible(s) && x > FinalMark(s.replay) ==> x !in s.account.lost
  {
    hide RingInv, Accounted, Sent, Reported, Range, Above, OriginInv, Events;
    var mark := FinalMark(s.replay);
    var kept := s.read + Events(s.account.queue.items);
    var tail := Above(kept, mark);
    AboveConcat(s.read, Events(s.account.queue.items), mark);
    assert Visible(s) == s.replay + tail;
    AboveIs(kept, mark);
    ReplayMembers(s.base, s.last, s.replay);
    ConcatSorted(s.replay, tail, mark);
  }

  lemma ReplayMembers(base: nat, last: nat, replay: seq<nat>)
    requires Contiguous(base, last, replay)
    ensures Sorted(replay)
    ensures replay != [] ==> forall x: nat :: x in replay <==> Origin(base, replay) < x <= FinalMark(replay)
    ensures replay != [] ==> base <= FinalMark(replay) <= last && Origin(base, replay) >= 0
  {
    if replay != [] {
      var lo: nat := replay[0] - 1;
      RangeIs(lo, FinalMark(replay));
      forall x: nat | lo < x <= FinalMark(replay) ensures x in replay {
        assert replay[x - lo - 1] == x;
      }
    }
  }

  lemma ConcatSorted(a: seq<nat>, b: seq<nat>, mark: nat)
    requires Sorted(a) && Sorted(b) && (a != [] ==> a[|a| - 1] <= mark) && forall x :: x in b ==> x > mark
    ensures Sorted(a + b)
  {
    forall i, j | 0 <= i < j < |a + b| ensures (a + b)[i] < (a + b)[j] {
      if i < |a| <= j {
        assert b[j - |a|] in b;
        assert a[i] <= a[|a| - 1];
      }
    }
  }

  /** No gap has ever been flagged or reported to the client. */
  predicate NoGap(s: Stream) {
    Reported(s.frames) == [] && !s.account.queue.gapPending
  }

  lemma NoGapNoLoss(s: Stream)
    requires Inv(s) && !s.phase.Idle? && NoGap(s)
    ensures s.account.lost == []
  {
  }

  /**
    Exactly once, or told: after any interleaving of publishes with subscribe, replay and reads,
    the sent frames, the unsent replay and the queued events above the replay mark are in order
    and without repetition, and miss nothing after `Origin` but lost events; if no gap was flagged
    they are exactly the published events after `Origin`. `Origin` is the client's cursor unless a
    resync frame was sent — or the ring has no capacity.
   */
  lemma ExactlyOnceOrTold(ringCap: nat, maxsize: int, cursor: int, steps: seq<Step>)
    ensures var s := Run(Fresh(ringCap, maxsize, cursor), steps);
            s.phase.Replaying? ==>
              && Sorted(Visible(s))
              && (forall x: nat :: Origin(s.base, s.replay) < x <= s.last ==> x in Visible(s) || x in s.account.lost)
              && (NoGap(s) ==> Origin(s.base, s.replay) >= 0 && Visible(s) == Range(Origin(s.base, s.replay), s.last))
              && (1 <= s.cursor <= s.base ==>
                    (Origin(s.base, s.replay) == s.cursor <==>
                     ResyncFrame !in s.frames && (s.ringCap > 0 || s.cursor == s.base)))
  {
    hide RingInv, TapInv, SentInv, Visible, Next, Reported;
    FreshIsInv(ringCap, maxsize, cursor);
    RunKeeps(Fresh(ringCap, maxsize, cursor), steps);
    var s := Run(Fresh(ringCap, maxsize, cursor), steps);
    if s.phase.Replaying? {
      VisibleIs(s);
    }
    if s.phase.Replaying? && NoGap(s) {
      NoGapNoLoss(s);
      TapOrder(s);
      ReplayMembers(s.base, s.last, s.replay);
      SortedRange(Visible(s), Origin(s.base, s.replay), s.last);
    }
  }

  lemma TapOrder(s: Stream)
    requires Inv(s) && !s.phase.Idle?
    ensures s.base <= s.last
  {
  }

  lemma FreshIsInv(ringCap: nat, maxsize: int, cursor: int)
    ensures Inv(Fresh(ringCap, maxsize, cursor))
  {
  }

  /**
    Every loss the client can suffer is announced: lost events are counted by the gap frames sent
    and the one still queued.
   */
  lemma EveryLossIsTold(ringCap: nat, maxsize: int, cursor: int, steps: seq<Step>)
    ensures var s := Run(Fresh(ringCap, maxsize, cursor), steps);
            var told := Reported(s.frames);
            && |s.account.lost| ==
               SumOf(told) + |told| + (if s.account.queue.gapPending then s.account.queue.dropped + 1 else 0)
            && (s.account.queue.items == [] ==> |s.account.lost| == SumOf(told) + |told|)
  {
    hide RingInv, Conserves, Contiguous, SentInv, OriginInv, Next, Sent;
    FreshIsInv(ringCap, maxsize, cursor);
    RunKeeps(Fresh(ringCap, maxsize, cursor), steps);
  }

  /** The events after the stream's origin that the client has not seen and is not about to see. */
  ghost function Missing(s: Stream): set<nat> {
    set x: nat | x <= s.last && Origin(s.base, s.replay) < x && x !in Visible(s)
  }

  lemma {:induction false} CountWithin(xs: set<nat>, s: seq<nat>)
    requires forall x :: x in xs ==> x in s
    ensures |xs| <= |s|
  {
    if s == [] {
      assert xs == {};
    } else {
      var init, last := s[..|s| - 1], s[|s| - 1];
      assert s == init + [last];
      CountWithin(xs - {last}, init);
      assert xs <= (xs - {last}) + {last};
    }
  }

  /** What the client misses is exactly what the queue lost above the replay mark, and never more than it is told. */
  lemma MissingIsTold(ringCap: nat, maxsize: int, cursor: int, steps: seq<Step>)
    ensures var s := Run(Fresh(ringCap, maxsize, cursor), steps);
            var told := Reported(s.frames);
            s.phase.Replaying? ==>
              && Distinct(s.account.lost)
              && (forall x: nat :: x in Missing(s) <==> x in s.account.lost && x > FinalMark(s.replay))
              && |Missing(s)| <=
                 SumOf(told) + |told| + (if s.account.queue.gapPending then s.account.queue.dropped + 1 else 0)
  {
    hide Run, Next, Inv, Visible, Missing, Reported, Distinct, SumOf;
    EveryLossIsTold(ringCap, maxsize, cursor, steps);
    FreshIsInv(ringCap, maxsize, cursor);
    RunKeeps(Fresh(ringCap, maxsize, cursor), steps);
    var s := Run(Fresh(ringCap, maxsize, cursor), steps);
    if s.phase.Replaying? {
      MissingIsLost(s);
      CountWithin(Missing(s), s.account.lost);
    }
  }

  lemma MissingIsLost(s: Stream)
    requires Inv(s) && s.phase.Replaying?
    ensures Distinct(s.account.lost)
    ensures forall x: nat :: x in Missing(s) <==> x in s.account.lost && x > FinalMark(s.replay)
  {
    hide Visible, RingInv, Accounted, SentInv, OriginInv, Sent, Reported, Range, Distinct, Events;
    VisibleIs(s);
    ReplayMembers(s.base, s.last, s.replay);
  }

  // ---------------------------------------------------------------- nothing visible is withheld

  /**
    Each step of the generator that is due sends what it should: the next replayed event, then the
    queue item by item.
   */
  lemma GeneratorSends(s: Stream)
    requires s.phase.Replaying?
    ensures s.pending != [] ==>
              var t := Next(s, SendReplay);
              t.frames == s.frames + [EventFrame(s.pending[0])] && t.pending == s.pending[1..] && t.account == s.account
    ensures s.pending == [] && s.account.queue.items != [] ==>
              var t, head := Next(s, ReadQueue), s.account.queue.items[0];
              && t.account.queue.items == s.account.queue.items[1..] && t.pending == []
              && t.frames == (match head
                              case GapMarker => s.frames + [GapFrame(s.account.queue.dropped)]
                              case Event(no) => if no > s.maxReplayed then s.frames + [EventFrame(no)] else s.frames)
    ensures Next(s, Timeout).frames == if s.pending == [] then s.frames + [KeepAlive] else s.frames
  {
  }

  /** The steps that send all there is. */
  function Draining(pending: nat, queued: nat): seq<Step> {
    if pending > 0 then [SendReplay] + Draining(pending - 1, queued)
    else if queued > 0 then [ReadQueue] + Draining(0, queued - 1)
    else []
  }

  lemma {:induction false} RunConcat(s: Stream, a: seq<Step>, b: seq<Step>)
    ensures Run(s, a + b) == Run(Run(s, a), b)
  {
    hide Next;
    if b == [] {
      assert a + b == a;
    } else {
      RunConcat(s, a, b[..|b| - 1]);
      assert (a + b)[..|a + b| - 1] == a + b[..|b| - 1];
    }
  }

  lemma RunFirst(s: Stream, step: Step, rest: seq<Step>)
    ensures Run(s, [step] + rest) == Run(Next(s, step), rest)
  {
    hide Next;
    RunConcat(s, [step], rest);
    assert [step][..0] == [];
  }

  /**
    Left to itself the generator sends everything: nothing is left pending or queued, and all that
    was visible has been sent.
   */
  lemma {:induction false} DrainSendsAll(s: Stream)
    requires Inv(s) && s.phase.Replaying?
    ensures var t := Run(s, Draining(|s.pending|, |s.account.queue.items|));
            t.pending == [] && t.account.queue.items == [] && Sent(t.frames) == Visible(s)
    decreases |s.pending| + |s.account.queue.items|
  {
    hide Inv, Next, Run, Sent, Visible;
    var n, m := |s.pending|, |s.account.queue.items|;
    if n > 0 {
      var t := Next(s, SendReplay);
      StepKeepsVisible(s, SendReplay);
      GeneratorSends(s);
      SendPhase(s, SendReplay);
      RunFirst(s, SendReplay, Draining(n - 1, m));
      DrainSendsAll(t);
    } else if m > 0 {
      var t := Next(s, ReadQueue);
      StepKeepsVisible(s, ReadQueue);
      GeneratorSends(s);
      SendPhase(s, ReadQueue);
      RunFirst(s, ReadQueue, Draining(0, m - 1));
      DrainSendsAll(t);
    } else {
      NothingLeft(s);
    }
  }

  lemma SendPhase(s: Stream, step: Step)
    requires s.phase.Replaying? && (step.SendReplay? || step.ReadQueue?)
    ensures Next(s, step).phase.Replaying?
  {
  }

  lemma NothingLeft(s: Stream)
    requires s.pending == [] && s.account.queue.items == []
    ensures Run(s, []) == s && Visible(s) == Sent(s.frames)
  {
  }

  lemma SendKeepsVisible(s: Stream)
    requires s.phase.Replaying? && s.pending != []
    ensures Visible(Next(s, SendReplay)) == Visible(s)
  {
    GeneratorSends(s);
    assert Next(s, SendReplay).replay == s.replay;
    hide Next, Sent, Above, Events, FinalMark;
    AppendFrame(s.frames, EventFrame(s.pending[0]));
    Shift(Sent(s.frames), s.pending, Above(Events(s.account.queue.items), FinalMark(s.replay)));
  }

  lemma Shift(a: seq<nat>, b: seq<nat>, c: seq<nat>)
    requires b != []
    ensures a + [b[0]] + b[1..] + c == a + b + c
  {
    assert b == [b[0]] + b[1..];
  }

  lemma NotDue(s: Stream, step: Step)
    requires s.phase.Replaying?
    requires || (step.SendReplay? && s.pending == [])
             || (step.ReadQueue? && (s.pending != [] || s.account.queue.items == []))
    ensures Next(s, step) == s
  {
  }

  /** Sending moves an event from awaited to sent and leaves the visible stream as it is. */
  lemma StepKeepsVisible(s: Stream, step: Step)
    requires Inv(s) && s.phase.Replaying? && (step.SendReplay? || step.ReadQueue?)
    ensures Inv(Next(s, step)) && Visible(Next(s, step)) == Visible(s)
  {
    hide Inv, Next, Visible;
    if step.SendReplay? {
      SendKeeps(s);
      if s.pending != [] {
        SendKeepsVisible(s);
      } else {
        NotDue(s, step);
      }
    } else {
      ReadKeeps(s);
      if s.pending == [] && s.account.queue.items != [] {
        VisibleParts(s);
        ReadKeepsVisible(s);
      } else {
        NotDue(s, step);
      }
    }
  }

  lemma VisibleParts(s: Stream)
    requires Inv(s) && s.phase.Replaying? && s.pending == []
    ensures s.maxReplayed == FinalMark(s.replay)
  {
    hide RingInv, TapInv, Contiguous, OriginInv;
    assert s.replay[..|s.replay|] == s.replay;
  }

  /** The head of the queue leaves the awaited events exactly when it passes the mark. */
  lemma HeadAbove(items: seq<Item>, mark: nat)
    requires items != []
    ensures var rest, head := Above(Events(items[1..]), mark), items[0];
            Above(Events(items), mark) == if head.Event? && head.no > mark then [head.no] + rest else rest
  {
    HeadItem(items);
    hide Events;
    var rest := Events(items[1..]);
    if items[0].Event? {
      var no := items[0].no;
      AboveConcat([no], rest, mark);
      AppendAbove([], no, mark);
      assert [] + [no] == [no] && Above([], mark) == [];
    } else {
      assert [] + rest == rest;
    }
  }

  lemma ReadKeepsVisible(s: Stream)
    requires s.phase.Replaying? && s.pending == [] && s.account.queue.items != []
    requires s.maxReplayed == FinalMark(s.replay)
    ensures Visible(Next(s, ReadQueue)) == Visible(s)
  {
    var items, mark := s.account.queue.items, FinalMark(s.replay);
    HeadAbove(items, mark);
    GeneratorSends(s);
    var t := Next(s, ReadQueue);
    assert t.replay == s.replay;
    hide Next, Sent, Events, Above, FinalMark;
    var rest := Above(Events(items[1..]), mark);
    if items[0].Event? {
      AppendFrame(s.frames, EventFrame(items[0].no));
    } else {
      AppendFrame(s.frames, GapFrame(s.account.queue.dropped));
    }
    if items[0].Event? && items[0].no > mark {
      ShiftHead(Sent(s.frames), items[0].no, rest);
    }
  }

  lemma ShiftHead(a: seq<nat>, x: nat, c: seq<nat>)
    ensures a + [x] + [] + c == a + [] + ([x] + c)
  {
  }

  /** With a ring of no capacity an event after the cursor is missed, and no frame says so. */
  lemma RinglessHubLosesSilently()
    ensures var s := Run(Fresh(0, 8, 1), [Publish, Publish, Subscribe, AskReplay]);
            s.phase.Replaying? && s.last == 2 && Visible(s) == [] && s.frames == [] && s.account.lost == []
  {
    var steps := [Publish, Publish, Subscribe, AskReplay];
    var s0 := Fresh(0, 8, 1);
    assert [Publish][..0] == [];
    assert [Publish, Publish][..1] == [Publish];
    assert [Publish, Publish, Subscribe][..2] == [Publish, Publish];
    assert steps[..3] == [Publish, Publish, Subscribe];
    var s1 := Run(s0, [Publish]);
    assert s1 == s0.(last := 1);
    var s2 := Run(s0, [Publish, Publish]);
    assert s2 == s0.(last := 2);
    var s3 := Run(s0, [Publish, Publish, Subscribe]);
    assert s3 == s0.(last := 2, phase := Subscribed, base := 2);
    var s4 := Run(s0, steps);
    assert s4 == s3.(phase := Replaying);
  }
}
