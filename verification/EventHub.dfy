/** The order-update hub: per-subscriber bounded queues with gap accounting, and the replay ring. */
module EventHubs {
  import opened Sequences

  /** Queue items; an event is identified by its sequence number. */
  datatype Item = Event(no: nat) | GapMarker

  /** The queue of one subscriber, with its overflow counters. */
  datatype Queue = Queue(items: seq<Item>, dropped: nat, gapPending: bool)

  const EMPTY: Queue := Queue([], 0, false)

  /** A non-positive size means an unbounded queue. */
  predicate Full(q: Queue, maxsize: int) {
    maxsize > 0 && |q.items| >= maxsize
  }

  function Put(q: Queue, maxsize: int, i: Item): Queue {
    if Full(q, maxsize) then q else q.(items := q.items + [i])
  }

  function DropOldest(q: Queue): Queue {
    if q.items == [] then q
    else q.(items := q.items[1..], gapPending := q.gapPending && !q.items[0].GapMarker?)
  }

  function EnsureGapMarker(q: Queue, maxsize: int): Queue {
    if q.gapPending then q else Put(q.(gapPending := true), maxsize, GapMarker)
  }

  /** Enqueue; on overflow drop the oldest item, flag the gap, and try once more. */
  function Offer(q: Queue, maxsize: int, no: nat): Queue {
    if !Full(q, maxsize) then Put(q, maxsize, Event(no))
    else
      var d := DropOldest(q);
      Put(EnsureGapMarker(d.(dropped := d.dropped + 1), maxsize), maxsize, Event(no))
  }

  /** Dequeue one item; a marker also resets the gap state. */
  function Taken(q: Queue): Queue
    requires q.items != []
  {
    if q.items[0].GapMarker? then Queue(q.items[1..], 0, false) else q.(items := q.items[1..])
  }

  // ---------------------------------------------------------------- queue contents

  function Events(items: seq<Item>): seq<nat> {
    if items == [] then []
    else
      var last := items[|items| - 1];
      Events(items[..|items| - 1]) + (if last.Event? then [last.no] else [])
  }

  function Markers(items: seq<Item>): nat {
    if items == [] then 0
    else Markers(items[..|items| - 1]) + (if items[|items| - 1].GapMarker? then 1 else 0)
  }

  lemma AppendItem(items: seq<Item>, i: Item)
    ensures Events(items + [i]) == Events(items) + (if i.Event? then [i.no] else [])
    ensures Markers(items + [i]) == Markers(items) + (if i.GapMarker? then 1 else 0)
  {
  }

  lemma {:induction false} ConcatItems(a: seq<Item>, b: seq<Item>)
    ensures Events(a + b) == Events(a) + Events(b)
    ensures Markers(a + b) == Markers(a) + Markers(b)
  {
    if b == [] {
      assert a + b == a;
    } else {
      ConcatItems(a, b[..|b| - 1]);
      assert (a + b)[..|a + b| - 1] == a + b[..|b| - 1];
    }
  }

  lemma HeadItem(items: seq<Item>)
    requires items != []
    ensures Events(items) == (if items[0].Event? then [items[0].no] else []) + Events(items[1..])
    ensures Markers(items) == (if items[0].GapMarker? then 1 else 0) + Markers(items[1..])
  {
    AppendItem([], items[0]);
    ConcatItems([items[0]], items[1..]);
    assert [items[0]] + items[1..] == items && [] + [items[0]] == [items[0]];
  }

  // ---------------------------------------------------------------- gap accounting

  /**
    A queue with the history it has to account for: the events it lost, the reports it has
    given (each the `dropped` count of one gap frame), and how many events arrived.
   */
  datatype Account = Account(queue: Queue, lost: seq<nat>, reports: seq<nat>)

  function SumOf(s: seq<nat>): nat {
    if s == [] then 0 else SumOf(s[..|s| - 1]) + s[|s| - 1]
  }

  /** The events one offer discards. */
  function Discarded(q: Queue, maxsize: int, no: nat): seq<nat> {
    if !Full(q, maxsize) || q.items == [] then []
    else
      (if q.items[0].Event? then [q.items[0].no] else [])
      + (if q.gapPending && q.items[0].Event? then [] else [no])
  }

  function Offered(a: Account, maxsize: int, no: nat): Account {
    a.(queue := Offer(a.queue, maxsize, no), lost := a.lost + Discarded(a.queue, maxsize, no))
  }

  function Read(a: Account): Account
    requires a.queue.items != []
  {
    a.(queue := Taken(a.queue),
       reports := if a.queue.items[0].GapMarker? then a.reports + [a.queue.dropped] else a.reports)
  }

  /**
    Length within capacity; one marker queued exactly while a gap is pending; every closed gap
    window lost one event more than it reported, and so has the open one.
   */
  ghost predicate Accounted(a: Account, maxsize: int) {
    && (maxsize > 0 ==> |a.queue.items| <= maxsize)
    && Markers(a.queue.items) == (if a.queue.gapPending then 1 else 0)
    && (!a.queue.gapPending ==> a.queue.dropped == 0)
    && |a.lost| == SumOf(a.reports) + |a.reports| + (if a.queue.gapPending then a.queue.dropped + 1 else 0)
  }

  /** What an offer does to the queued events: appended at the end, the discarded ones gone. */
  lemma OfferEffect(q: Queue, maxsize: int, no: nat)
    requires Markers(q.items) == (if q.gapPending then 1 else 0)
    requires maxsize > 0 ==> |q.items| <= maxsize
    ensures var later := Offer(q, maxsize, no);
            var all := Events(q.items) + [no];
            && Markers(later.items) == (if later.gapPending then 1 else 0)
            && (maxsize > 0 ==> |later.items| <= maxsize)
            && (if !Full(q, maxsize) then later == q.(items := later.items) && Events(later.items) == all
                else
                  && later.gapPending && later.dropped == q.dropped + 1
                  && (if q.items[0].GapMarker? then Events(later.items) == Events(q.items)
                      else if q.gapPending then Events(later.items) == all[1..]
                      else Events(later.items) == Events(q.items)[1..]))
    ensures q.items != [] && q.items[0].Event? ==> Events(q.items) != [] && Events(q.items)[0] == q.items[0].no
    ensures q.items != [] && q.items[0].GapMarker? ==> q.gapPending
  {
    hide Events, Markers;
    if q.items != [] {
      HeadItem(q.items);
    }
    if !Full(q, maxsize) {
      AppendItem(q.items, Event(no));
    } else {
      AppendItem(q.items[1..], GapMarker);
      AppendItem(q.items[1..], Event(no));
    }
  }

  lemma OfferAccounted(a: Account, maxsize: int, no: nat)
    requires Accounted(a, maxsize)
    ensures Accounted(Offered(a, maxsize, no), maxsize)
  {
    hide Events, Markers, SumOf, Offer;
    OfferEffect(a.queue, maxsize, no);
  }

  lemma ReadAccounted(a: Account, maxsize: int)
    requires Accounted(a, maxsize) && a.queue.items != []
    ensures Accounted(Read(a), maxsize)
  {
    HeadItem(a.queue.items);
    assert (a.reports + [a.queue.dropped])[..|a.reports|] == a.reports;
  }

  datatype Use = Offering(no: nat) | Reading

  function Replayed(maxsize: int, uses: seq<Use>): Account {
    if uses == [] then Account(EMPTY, [], [])
    else
      var before := Replayed(maxsize, uses[..|uses| - 1]);
      match uses[|uses| - 1]
      case Offering(no) => Offered(before, maxsize, no)
      case Reading => if before.queue.items == [] then before else Read(before)
  }

  /**
    Gap accounting over every history of offers and reads: the queue stays within capacity, a
    marker is queued exactly while losses are unreported, each reported gap lost one event more
    than it says, and an empty queue means every loss has been reported.
   */
  lemma {:induction false} GapAccounting(maxsize: int, uses: seq<Use>)
    ensures var a := Replayed(maxsize, uses);
            && Accounted(a, maxsize)
            && (a.queue.items == [] ==> |a.lost| == SumOf(a.reports) + |a.reports|)
  {
    hide Offered, Read;
    if uses != [] {
      GapAccounting(maxsize, uses[..|uses| - 1]);
      var before := Replayed(maxsize, uses[..|uses| - 1]);
      match uses[|uses| - 1]
      case Offering(no) => OfferAccounted(before, maxsize, no);
      case Reading =>
        if before.queue.items != [] {
          ReadAccounted(before, maxsize);
        }
    }
  }

  /** One gap window: what is lost from its start to its report is the reported count plus one. */
  lemma GapWindow(maxsize: int, uses: seq<Use>, start: nat)
    requires start <= |uses|
    requires !Replayed(maxsize, uses[..start]).queue.gapPending && Replayed(maxsize, uses).queue.gapPending
    requires Replayed(maxsize, uses[..start]).reports == Replayed(maxsize, uses).reports
    ensures var a := Replayed(maxsize, uses);
            |a.lost| == |Replayed(maxsize, uses[..start]).lost| + a.queue.dropped + 1
  {
    hide Replayed, SumOf;
    GapAccounting(maxsize, uses[..start]);
    GapAccounting(maxsize, uses);
  }

  // ---------------------------------------------------------------- conservation of events

  predicate Sorted(s: seq<nat>) {
    forall i, j :: 0 <= i < j < |s| ==> s[i] < s[j]
  }

  /** The events after `after` up to `last`, split into those kept, in order, and those lost, each listed once. */
  ghost predicate Splits(kept: seq<nat>, lost: seq<nat>, after: nat, last: nat) {
    && Sorted(kept) && Distinct(lost)
    && (forall x :: x in kept ==> after < x <= last && x !in lost)
    && (forall x :: x in lost ==> after < x <= last)
    && (forall x :: after < x <= last ==> x in kept || x in lost)
  }

  /** Events `after + 1` to `last` were offered: each was read, is queued, or is lost, once. */
  ghost predicate Conserves(a: Account, read: seq<nat>, after: nat, last: nat) {
    Splits(read + Events(a.queue.items), a.lost, after, last)
  }

  function Without(s: seq<nat>, k: nat): seq<nat>
    requires k < |s|
  {
    s[..k] + s[k + 1..]
  }

  lemma RemoveAt(s: seq<nat>, k: nat)
    requires Sorted(s) && k < |s|
    ensures Sorted(Without(s, k))
    ensures forall x :: x in Without(s, k) <==> x in s && x != s[k]
  {
  }

  lemma AppendSorted(s: seq<nat>, n: nat)
    requires Sorted(s) && forall x :: x in s ==> x < n
    ensures Sorted(s + [n])
  {
    forall i, j | 0 <= i < j < |s + [n]| ensures (s + [n])[i] < (s + [n])[j] {
      assert s[i] in s;
    }
  }

  lemma SplitArrive(kept: seq<nat>, lost: seq<nat>, after: nat, last: nat)
    requires Splits(kept, lost, after, last) && after <= last
    ensures Splits(kept + [last + 1], lost, after, last + 1)
    ensures Splits(kept, lost + [last + 1], after, last + 1)
  {
    AppendSorted(kept, last + 1);
    AppendDistinct(lost, last + 1);
  }

  lemma SplitLose(kept: seq<nat>, lost: seq<nat>, after: nat, last: nat, k: nat)
    requires Splits(kept, lost, after, last) && k < |kept|
    ensures Splits(Without(kept, k), lost + [kept[k]], after, last)
  {
    RemoveAt(kept, k);
    AppendDistinct(lost, kept[k]);
    hide Without, Sorted, Distinct;
    var rest, gone := Without(kept, k), lost + [kept[k]];
    assert kept[k] in kept;
    forall x ensures x in gone <==> x in lost || x == kept[k] {}
    forall x | x in rest ensures after < x <= last && x !in gone {}
    forall x | after < x <= last ensures x in rest || x in gone {}
  }

  lemma OfferConserves(a: Account, read: seq<nat>, maxsize: int, after: nat, last: nat)
    requires Accounted(a, maxsize) && Conserves(a, read, after, last) && after <= last
    ensures Conserves(Offered(a, maxsize, last + 1), read, after, last + 1)
  {
    hide Events, Markers, Offer, SumOf, Splits;
    var q, no := a.queue, last + 1;
    var before := read + Events(q.items);
    var kept := read + Events(Offer(q, maxsize, no).items);
    var lost := a.lost + Discarded(q, maxsize, no);
    OfferEffect(q, maxsize, no);
    SplitArrive(before, a.lost, after, last);
    if !Full(q, maxsize) {
      assert kept == before + [no] && lost == a.lost;
    } else if q.items[0].GapMarker? {
      assert kept == before && lost == a.lost + [no];
    } else {
      var k := |read|;
      assert before[k] == q.items[0].no;
      if q.gapPending {
        SplitLose(before + [no], a.lost, after, no, k);
        assert kept == Without(before + [no], k);
        assert lost == a.lost + [before[k]];
      } else {
        SplitLose(before, a.lost, after, last, k);
        SplitArrive(Without(before, k), a.lost + [before[k]], after, last);
        assert kept == Without(before, k);
        assert lost == a.lost + [before[k]] + [no];
      }
    }
    assert Splits(kept, lost, after, no);
  }

  lemma ReadConserves(a: Account, read: seq<nat>, after: nat, last: nat)
    requires Conserves(a, read, after, last) && a.queue.items != []
    ensures var head := a.queue.items[0];
            Conserves(Read(a), if head.Event? then read + [head.no] else read, after, last)
  {
    hide Events, Markers, Splits;
    HeadItem(a.queue.items);
    var head := a.queue.items[0];
    if head.Event? {
      assert read + [head.no] + Events(a.queue.items[1..]) == read + Events(a.queue.items);
    } else {
      assert read + Events(a.queue.items[1..]) == read + Events(a.queue.items);
    }
  }

  // ---------------------------------------------------------------- the ring

  /** The ring after one more event: the newest `cap` are retained. */
  function Remember(ring: seq<nat>, cap: nat, no: nat): seq<nat> {
    var r := ring + [no];
    if |r| > cap then r[|r| - cap..] else r
  }

  function Above(s: seq<nat>, bound: int): seq<nat> {
    if s == [] then []
    else Above(s[..|s| - 1], bound) + (if s[|s| - 1] > bound then [s[|s| - 1]] else [])
  }

  /** Retained events after the cursor; a cursor of zero or less asks for live events only. */
  function ReplayEvents(ring: seq<nat>, after: int): seq<nat> {
    if after <= 0 then [] else Above(ring, after)
  }

  /** The cursor predates the oldest retained event. */
  predicate ReplayGap(ring: seq<nat>, after: int) {
    after > 0 && ring != [] && after + 1 < ring[0]
  }

  // ---------------------------------------------------------------- the mutable objects

  class Subscription {
    const maxsize: int
    var items: seq<Item>
    var dropped: nat
    var gapPending: bool

    constructor (maxsize: int)
      ensures this.maxsize == maxsize && State() == EMPTY
    {
      this.maxsize := maxsize;
      items, dropped, gapPending := [], 0, false;
    }

    function State(): Queue
      reads this
    {
      Queue(items, dropped, gapPending)
    }

    method PutNowait(i: Item) returns (full: bool)
      modifies this
      ensures full == Full(old(State()), maxsize)
      ensures State() == Put(old(State()), maxsize, i)
    {
      full := maxsize > 0 && |items| >= maxsize;
      if !full {
        items := items + [i];
      }
    }

    /** Never blocks: on overflow the oldest item goes and the gap is flagged. */
    method OfferEvent(no: nat)
      modifies this
      ensures State() == Offer(old(State()), maxsize, no)
    {
      var full := PutNowait(Event(no));
      if full {
        if items != [] {
          if items[0].GapMarker? {
            gapPending := false;
          }
          items := items[1..];
        }
        dropped := dropped + 1;
        if !gapPending {
          gapPending := true;
          var _ := PutNowait(GapMarker);
        }
        var _ := PutNowait(Event(no));
      }
    }

    /** One read by the stream; a marker is resolved to its drop count and the gap state reset. */
    method Take() returns (i: Item, reported: nat)
      requires items != []
      modifies this
      ensures i == old(items)[0] && State() == Taken(old(State()))
      ensures i.GapMarker? ==> reported == old(dropped)
    {
      i, items, reported := items[0], items[1..], 0;
      if i.GapMarker? {
        reported := dropped;
        dropped, gapPending := 0, false;
      }
    }
  }

  class EventHub {
    const ringCap: nat
    const maxsize: int
    var ring: seq<nat>
    var last: nat
    var subscriptions: seq<Subscription>

    constructor (ringCap: nat, maxsize: int)
      ensures this.ringCap == ringCap && this.maxsize == maxsize
      ensures ring == [] && last == 0 && subscriptions == []
    {
      this.ringCap, this.maxsize := ringCap, maxsize;
      ring, last, subscriptions := [], 0, [];
    }

    ghost predicate Valid()
      reads this
    {
      forall i, j :: 0 <= i < j < |subscriptions| ==> subscriptions[i] != subscriptions[j]
    }

    /** Stamp, ring-append, fan out to every subscriber. */
    method Publish() returns (no: nat)
      requires Valid()
      modifies this`last, this`ring, subscriptions
      ensures Valid() && no == last == old(last) + 1
      ensures ring == Remember(old(ring), ringCap, no)
      ensures forall s :: s in subscriptions ==> s.State() == Offer(old(s.State()), s.maxsize, no)
    {
      hide Offer;
      last := last + 1;
      no := last;
      ring := ring + [no];
      if |ring| > ringCap {
        ring := ring[|ring| - ringCap..];
      }
      for k := 0 to |subscriptions|
        invariant forall i :: 0 <= i < k ==>
                  subscriptions[i].State() == Offer(old(subscriptions[i].State()), subscriptions[i].maxsize, no)
        invariant forall i :: k <= i < |subscriptions| ==> subscriptions[i].State() == old(subscriptions[i].State())
        modifies subscriptions
      {
        subscriptions[k].OfferEvent(no);
      }
    }

    method Replay(after: int) returns (events: seq<nat>, gap: bool)
      ensures events == ReplayEvents(ring, after) && gap == ReplayGap(ring, after)
    {
      if after <= 0 {
        return [], false;
      }
      events := [];
      for k := 0 to |ring|
        invariant events == Above(ring[..k], after)
      {
        assert ring[..k + 1][..k] == ring[..k];
        if ring[k] > after {
          events := events + [ring[k]];
        }
      }
      assert ring[..|ring|] == ring;
      gap := ring != [] && after + 1 < ring[0];
    }

    method Subscribe() returns (s: Subscription)
      requires Valid()
      modifies this`subscriptions
      ensures Valid() && fresh(s) && s.State() == EMPTY && s.maxsize == maxsize
      ensures subscriptions == old(subscriptions) + [s]
    {
      s := new Subscription(maxsize);
      subscriptions := subscriptions + [s];
    }
  }
}
