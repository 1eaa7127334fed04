/** The event bus with deferred UI delivery (src/core/event_bus.cpp, src/ui/ui_dispatch.cpp).

    One event is one lock-held section of the bus or one queue operation, so publishers, subscribers
    and the UI thread interleave freely. Looking a callback up and calling it is one action of the
    UI thread. A publication is named by its place in the order of the publish snapshots. */
module EventBus {
  import opened Queues

  type EventType = nat

  datatype Subscriber = Subscriber(id: nat, isUi: bool)

  /** A snapshot taken by a publish, and how many of its subscribers have been served. */
  datatype Publication = Publication(eventType: EventType, subs: seq<Subscriber>, dispatcher: bool, served: nat)

  /** A deferred call: the `slot`-th subscriber of a publication. */
  datatype Deferred = Deferred(pub: nat, slot: nat)

  /** What the UI thread did with a deferred call. */
  datatype Handled = Handled(call: Deferred, ran: bool)

  /** How a subscription began: its event type, and the number of publications before it. */
  datatype Birth = Birth(eventType: EventType, after: nat)

  /** `pubs`, `handled` and `since` are history. */
  datatype State = State(
    subs: map<EventType, seq<Subscriber>>, nextId: nat, dispatcher: bool, queue: seq<Deferred>,
    pubs: seq<Publication>, handled: seq<Handled>, since: map<nat, Birth>)

  datatype Event =
    | SetUiDispatcher
    | Subscribe(eventType: EventType, isUi: bool)
    | Unsubscribe(eventType: EventType, id: nat)
    | Publish(eventType: EventType)
    | Serve(pub: nat)
    | DrainOne

  const FRESH := State(map[], 1, false, [], [], [], map[])

  function Listed(subs: map<EventType, seq<Subscriber>>, eventType: EventType): seq<Subscriber> {
    if eventType in subs then subs[eventType] else []
  }

  function Without(list: seq<Subscriber>, id: nat): seq<Subscriber> {
    if list == [] then []
    else (if list[0].id == id then [] else [list[0]]) + Without(list[1..], id)
  }

  predicate HasId(list: seq<Subscriber>, id: nat) {
    exists k :: 0 <= k < |list| && list[k].id == id
  }

  predicate Registered(s: State, eventType: EventType, id: nat) {
    HasId(Listed(s.subs, eventType), id)
  }

  function Target(s: State, d: Deferred): Subscriber
    requires d.pub < |s.pubs| && d.slot < |s.pubs[d.pub].subs|
  {
    s.pubs[d.pub].subs[d.slot]
  }

  function ServeStep(s: State, p: nat): State
    requires p < |s.pubs| && s.pubs[p].served < |s.pubs[p].subs|
  {
    var pub := s.pubs[p];
    var subscriber := pub.subs[pub.served];
    var t := s.(pubs := s.pubs[p := pub.(served := pub.served + 1)]);
    if subscriber.isUi && pub.dispatcher then t.(queue := s.queue + [Deferred(p, pub.served)]) else t
  }

  function DrainStep(s: State): State
    requires s.queue != [] && s.queue[0].pub < |s.pubs| && s.queue[0].slot < |s.pubs[s.queue[0].pub].subs|
  {
    var d := s.queue[0];
    s.(queue := s.queue[1..],
       handled := s.handled + [Handled(d, Registered(s, s.pubs[d.pub].eventType, Target(s, d).id))])
  }

  predicate WellQueued(s: State) {
    forall i :: 0 <= i < |s.queue| ==> s.queue[i].pub < |s.pubs| && s.queue[i].slot < |s.pubs[s.queue[i].pub].subs|
  }

  function Apply(s: State, e: Event): State {
    match e
    case SetUiDispatcher => s.(dispatcher := true)
    case Subscribe(eventType, isUi) =>
      s.(subs := s.subs[eventType := Listed(s.subs, eventType) + [Subscriber(s.nextId, isUi)]],
         nextId := s.nextId + 1, since := s.since[s.nextId := Birth(eventType, |s.pubs|)])
    case Unsubscribe(eventType, id) =>
      if eventType in s.subs then s.(subs := s.subs[eventType := Without(s.subs[eventType], id)]) else s
    case Publish(eventType) =>
      s.(pubs := s.pubs + [Publication(eventType, Listed(s.subs, eventType), s.dispatcher, 0)])
    case Serve(p) => if p < |s.pubs| && s.pubs[p].served < |s.pubs[p].subs| then ServeStep(s, p) else s
    case DrainOne => if s.queue != [] && WellQueued(s) then DrainStep(s) else s
  }

  function Run(s: State, events: seq<Event>): State
    decreases |events|
  {
    if events == [] then s else Run(Apply(s, events[0]), events[1..])
  }

  // ---- ids and snapshots ----

  ghost predicate Increasing(list: seq<Subscriber>, below: nat) {
    && (forall k :: 0 <= k < |list| ==> list[k].id < below)
    && (forall j, k :: 0 <= j < k < |list| ==> list[j].id < list[k].id)
  }

  lemma {:induction false} WithoutMembers(list: seq<Subscriber>, id: nat)
    ensures forall x :: x in Without(list, id) <==> x in list && x.id != id
    decreases |list|
  {
    if list != [] {
      WithoutMembers(list[1..], id);
      assert list == [list[0]] + list[1..];
    }
  }

  lemma {:induction false} WithoutIncreasing(list: seq<Subscriber>, id: nat, below: nat)
    requires Increasing(list, below)
    ensures Increasing(Without(list, id), below)
    decreases |list|
  {
    if list != [] {
      assert Increasing(list[1..], below);
      WithoutIncreasing(list[1..], id, below);
      WithoutAbove(list[1..], id, list[0].id);
      var rest := Without(list[1..], id);
      if list[0].id != id {
        PrependIncreasing(list[0], rest, below);
      }
    }
  }

  lemma PrependIncreasing(x: Subscriber, rest: seq<Subscriber>, below: nat)
    requires Increasing(rest, below) && x.id < below
    requires forall k :: 0 <= k < |rest| ==> x.id < rest[k].id
    ensures Increasing([x] + rest, below)
  {
  }

  lemma {:induction false} WithoutAbove(list: seq<Subscriber>, id: nat, low: nat)
    requires forall k :: 0 <= k < |list| ==> low < list[k].id
    ensures forall k :: 0 <= k < |Without(list, id)| ==> low < Without(list, id)[k].id
    decreases |list|
  {
    if list != [] {
      WithoutAbove(list[1..], id, low);
    }
  }

  lemma WithoutKeeps(list: seq<Subscriber>, id: nat, below: nat)
    requires Increasing(list, below)
    ensures Increasing(Without(list, id), below)
    ensures !HasId(Without(list, id), id)
    ensures forall x :: x in Without(list, id) <==> x in list && x.id != id
  {
    WithoutMembers(list, id);
    WithoutIncreasing(list, id, below);
    assert forall k :: 0 <= k < |Without(list, id)| ==> Without(list, id)[k] in Without(list, id);
  }

  /** Ids are handed out once, lists and snapshots are in id order, and a snapshot holds exactly the current
      subscribers that had subscribed before it, plus ones that have gone since. */
  ghost predicate IdInv(s: State) {
    ListInv(s) && PubInv(s) && forall id :: id in s.since ==> id < s.nextId
  }

  ghost predicate ListInv(s: State) {
    && (forall t :: t in s.subs ==> Increasing(s.subs[t], s.nextId))
    && (forall t, x :: t in s.subs && x in s.subs[t] ==>
          x.id in s.since && s.since[x.id].eventType == t && s.since[x.id].after <= |s.pubs|)
  }

  ghost predicate PubInv(s: State) {
    && (forall p :: 0 <= p < |s.pubs| ==> Increasing(s.pubs[p].subs, s.nextId))
    && (forall p, x :: 0 <= p < |s.pubs| && x in s.pubs[p].subs ==>
          x.id in s.since && s.since[x.id].eventType == s.pubs[p].eventType && s.since[x.id].after <= p)
  }

  ghost predicate SnapshotInv(s: State) {
    forall t, x, p ::
      t in s.subs && x in s.subs[t] && 0 <= p < |s.pubs| && s.pubs[p].eventType == t
        && x.id in s.since && s.since[x.id].after <= p ==>
      x in s.pubs[p].subs
  }

  lemma ListSubscribe(s: State, eventType: EventType, isUi: bool)
    requires IdInv(s)
    ensures ListInv(Apply(s, Subscribe(eventType, isUi)))
  {
    var t := Apply(s, Subscribe(eventType, isUi));
    forall other | other in t.subs
      ensures Increasing(t.subs[other], t.nextId)
    {
      if other != eventType {
        assert Increasing(s.subs[other], s.nextId);
      }
    }
    forall other, x | other in t.subs && x in t.subs[other]
      ensures x.id in t.since && t.since[x.id].eventType == other && t.since[x.id].after <= |t.pubs|
    {
      if x.id != s.nextId {
        assert x in s.subs[other];
      }
    }
  }

  lemma IdSubscribe(s: State, eventType: EventType, isUi: bool)
    requires IdInv(s)
    ensures IdInv(Apply(s, Subscribe(eventType, isUi)))
  {
    ListSubscribe(s, eventType, isUi);
  }

  lemma IdUnsubscribe(s: State, eventType: EventType, id: nat)
    requires IdInv(s)
    ensures IdInv(Apply(s, Unsubscribe(eventType, id)))
  {
    if eventType in s.subs {
      WithoutKeeps(s.subs[eventType], id, s.nextId);
    }
  }

  lemma IdPublish(s: State, eventType: EventType)
    requires IdInv(s)
    ensures IdInv(Apply(s, Publish(eventType)))
  {
    var t := Apply(s, Publish(eventType));
    forall p, x | 0 <= p < |t.pubs| && x in t.pubs[p].subs
      ensures x.id in t.since && t.since[x.id].eventType == t.pubs[p].eventType && t.since[x.id].after <= p
    {
      assert p == |s.pubs| ==> eventType in s.subs && x in s.subs[eventType];
    }
  }

  lemma IdServe(s: State, p: nat)
    requires IdInv(s)
    ensures IdInv(Apply(s, Serve(p)))
  {
    var t := Apply(s, Serve(p));
    assert |t.pubs| == |s.pubs| && t.subs == s.subs && t.since == s.since && t.nextId == s.nextId;
    assert forall q :: 0 <= q < |t.pubs| ==>
      t.pubs[q].subs == s.pubs[q].subs && t.pubs[q].eventType == s.pubs[q].eventType;
  }

  lemma IdStep(s: State, e: Event)
    requires IdInv(s)
    ensures IdInv(Apply(s, e))
  {
    match e
    case Subscribe(eventType, isUi) => IdSubscribe(s, eventType, isUi);
    case Unsubscribe(eventType, id) => IdUnsubscribe(s, eventType, id);
    case Publish(eventType) => IdPublish(s, eventType);
    case Serve(p) => IdServe(s, p);
    case _ =>
  }

  lemma SnapshotUnsubscribe(s: State, eventType: EventType, id: nat)
    requires IdInv(s) && SnapshotInv(s)
    ensures SnapshotInv(Apply(s, Unsubscribe(eventType, id)))
  {
    if eventType in s.subs {
      WithoutKeeps(s.subs[eventType], id, s.nextId);
    }
  }

  lemma SnapshotServe(s: State, p: nat)
    requires IdInv(s) && SnapshotInv(s)
    ensures SnapshotInv(Apply(s, Serve(p)))
  {
    var t := Apply(s, Serve(p));
    assert |t.pubs| == |s.pubs| && t.subs == s.subs && t.since == s.since;
    assert forall q :: 0 <= q < |t.pubs| ==>
      t.pubs[q].subs == s.pubs[q].subs && t.pubs[q].eventType == s.pubs[q].eventType;
  }

  lemma SnapshotStep(s: State, e: Event)
    requires IdInv(s) && SnapshotInv(s)
    ensures SnapshotInv(Apply(s, e))
  {
    if e.Unsubscribe? {
      SnapshotUnsubscribe(s, e.eventType, e.id);
    } else if e.Serve? {
      SnapshotServe(s, e.pub);
    }
  }

  // ---- the queue ----

  function Calls(handled: seq<Handled>): seq<Deferred> {
    seq(|handled|, i requires 0 <= i < |handled| => handled[i].call)
  }

  /** Everything ever posted to the UI queue, in order. */
  function Posted(s: State): seq<Deferred> {
    Calls(s.handled) + s.queue
  }

  /** The deferred call is due: its publication had a dispatcher and has served that UI subscriber. */
  ghost predicate Due(s: State, d: Deferred) {
    && d.pub < |s.pubs| && s.pubs[d.pub].dispatcher
    && d.slot < s.pubs[d.pub].served <= |s.pubs[d.pub].subs| && s.pubs[d.pub].subs[d.slot].isUi
  }

  ghost predicate QueueInv(s: State) {
    && (forall p :: 0 <= p < |s.pubs| ==> s.pubs[p].served <= |s.pubs[p].subs|)
    && (forall d :: d in Posted(s) <==> Due(s, d))
    && (forall i, j :: 0 <= i < j < |Posted(s)| ==> Posted(s)[i] != Posted(s)[j])
  }

  lemma ServeKeepsQueue(s: State, p: nat)
    requires QueueInv(s) && p < |s.pubs| && s.pubs[p].served < |s.pubs[p].subs|
    ensures QueueInv(ServeStep(s, p))
  {
    var t := ServeStep(s, p);
    var d := Deferred(p, s.pubs[p].served);
    assert !Due(s, d);
    if t.queue != s.queue {
      assert Posted(t) == Posted(s) + [d];
      forall x ensures x in Posted(t) <==> Due(t, x) {
        assert x != d ==> (Due(t, x) <==> Due(s, x));
      }
    } else {
      assert Posted(t) == Posted(s);
      forall x ensures x in Posted(t) <==> Due(t, x) {
        assert Due(t, x) <==> Due(s, x);
      }
    }
  }

  lemma QueueStep(s: State, e: Event)
    requires QueueInv(s)
    ensures QueueInv(Apply(s, e))
  {
    var t := Apply(s, e);
    match e
    case Serve(p) =>
      if p < |s.pubs| && s.pubs[p].served < |s.pubs[p].subs| {
        ServeKeepsQueue(s, p);
      }
    case DrainOne => assert Posted(t) == Posted(s);
    case _ =>
      assert Posted(t) == Posted(s);
      forall x ensures Due(t, x) <==> Due(s, x) {}
  }

  /** A call that did not run belongs to a subscriber that is gone for good. */
  ghost predicate SkipInv(s: State) {
    forall i :: 0 <= i < |s.handled| && !s.handled[i].ran ==> Skipped(s, s.handled[i].call)
  }

  ghost predicate Skipped(s: State, d: Deferred) {
    && d.pub < |s.pubs| && d.slot < |s.pubs[d.pub].subs|
    && !Registered(s, s.pubs[d.pub].eventType, Target(s, d).id) && Target(s, d).id < s.nextId
  }

  lemma GoneStaysGone(list: seq<Subscriber>, id: nat, other: nat)
    requires !HasId(list, id)
    ensures !HasId(Without(list, other), id)
  {
    WithoutMembers(list, other);
    var rest := Without(list, other);
    forall k | 0 <= k < |rest| ensures rest[k].id != id {
      assert rest[k] in rest && rest[k] in list;
    }
  }

  lemma RegisteredAfter(s: State, e: Event, eventType: EventType, id: nat)
    requires id < s.nextId && !Registered(s, eventType, id)
    ensures !Registered(Apply(s, e), eventType, id)
  {
    if e.Unsubscribe? && e.eventType == eventType {
      GoneStaysGone(Listed(s.subs, e.eventType), id, e.id);
    }
  }

  lemma SkippedAfter(s: State, e: Event, d: Deferred)
    requires Skipped(s, d)
    ensures Skipped(Apply(s, e), d)
  {
    RegisteredAfter(s, e, s.pubs[d.pub].eventType, Target(s, d).id);
  }

  lemma SkipStep(s: State, e: Event)
    requires IdInv(s) && QueueInv(s) && SkipInv(s)
    ensures SkipInv(Apply(s, e))
  {
    var t := Apply(s, e);
    forall i | 0 <= i < |s.handled| && !s.handled[i].ran ensures Skipped(t, s.handled[i].call) {
      SkippedAfter(s, e, s.handled[i].call);
    }
    if t.handled != s.handled {
      var d := s.queue[0];
      assert Posted(s)[|s.handled|] == d && Due(s, d);
      assert Target(s, d) in s.pubs[d.pub].subs;
    }
  }

  ghost predicate OrderInv(s: State) {
    forall i, j :: 0 <= i < j < |Posted(s)| && Posted(s)[i].pub == Posted(s)[j].pub ==>
      Posted(s)[i].slot < Posted(s)[j].slot
  }

  lemma OrderStep(s: State, e: Event)
    requires QueueInv(s) && OrderInv(s)
    ensures OrderInv(Apply(s, e)) && Posted(s) <= Posted(Apply(s, e))
  {
    var t := Apply(s, e);
    if e.Serve? && t.queue != s.queue {
      OrderServe(s, e.pub);
    } else {
      assert Posted(t) == Posted(s);
    }
  }

  lemma OrderServe(s: State, p: nat)
    requires QueueInv(s) && OrderInv(s) && p < |s.pubs| && s.pubs[p].served < |s.pubs[p].subs|
    requires ServeStep(s, p).queue != s.queue
    ensures OrderInv(ServeStep(s, p)) && Posted(s) <= Posted(ServeStep(s, p))
  {
    var t := ServeStep(s, p);
    assert Posted(t) == Posted(s) + [Deferred(p, s.pubs[p].served)];
    forall i | 0 <= i < |Posted(s)| && Posted(s)[i].pub == p
      ensures Posted(s)[i].slot < s.pubs[p].served
    {
      assert Due(s, Posted(s)[i]);
    }
  }

  lemma SlotsInOrder(s: State, i: nat, j: nat)
    requires OrderInv(s) && i < |Posted(s)| && j < |Posted(s)| && Posted(s)[i].pub == Posted(s)[j].pub
    ensures i < j <==> Posted(s)[i].slot < Posted(s)[j].slot
  {
  }

  // ---- over whole runs ----

  ghost predicate Inv(s: State) {
    IdInv(s) && SnapshotInv(s) && QueueInv(s) && SkipInv(s) && OrderInv(s)
  }

  lemma {:induction false} RunInv(s: State, events: seq<Event>)
    requires Inv(s)
    ensures Inv(Run(s, events)) && Posted(s) <= Posted(Run(s, events)) && s.nextId <= Run(s, events).nextId
    decreases |events|
  {
    if events != [] {
      var e := events[0];
      IdStep(s, e);
      SnapshotStep(s, e);
      QueueStep(s, e);
      SkipStep(s, e);
      OrderStep(s, e);
      RunInv(Apply(s, e), events[1..]);
    }
  }

  /** The i-th handled call ran a callback of subscriber `id` for publication `p`. */
  ghost predicate Ran(s: State, i: nat, p: nat, id: nat) {
    && i < |s.handled| && s.handled[i].ran && s.handled[i].call.pub == p
    && p < |s.pubs| && s.handled[i].call.slot < |s.pubs[p].subs| && Target(s, s.handled[i].call).id == id
  }

  lemma SameTarget(list: seq<Subscriber>, below: nat, j: nat, k: nat)
    requires Increasing(list, below) && j < |list| && k < |list| && list[j].id == list[k].id
    ensures j == k
  {
  }

  /** A UI callback runs at most once per publish, only for a publish that came after its subscription and
      had a dispatcher, and calls of one publish run in subscription order. */
  lemma RunsAtMostOnceAndAfterSubscribing(events: seq<Event>, i: nat, j: nat, p: nat, id: nat, other: nat)
    ensures var s := Run(FRESH, events);
            && (Ran(s, i, p, id) ==>
                  (id in s.since && s.since[id] == Birth(s.pubs[p].eventType, s.since[id].after)
                   && s.since[id].after <= p && s.pubs[p].dispatcher))
            && (Ran(s, i, p, id) && Ran(s, j, p, id) ==> i == j)
            && (Ran(s, i, p, id) && Ran(s, j, p, other) && id < other ==> i < j)
  {
    RunInv(FRESH, events);
    var s := Run(FRESH, events);
    if Ran(s, i, p, id) {
      RanIsDue(s, i, p, id);
      if Ran(s, j, p, id) {
        RanOnce(s, i, j, p, id);
      }
      if Ran(s, j, p, other) && id < other {
        RanInOrder(s, i, j, p, id, other);
      }
    }
  }

  lemma RanIsDue(s: State, i: nat, p: nat, id: nat)
    requires Inv(s) && Ran(s, i, p, id)
    ensures i < |Posted(s)| && Posted(s)[i] == s.handled[i].call && Due(s, s.handled[i].call)
    ensures id in s.since && s.since[id].eventType == s.pubs[p].eventType && s.since[id].after <= p
    ensures s.pubs[p].dispatcher
  {
    assert Posted(s)[i] == s.handled[i].call && Posted(s)[i] in Posted(s);
    assert Target(s, s.handled[i].call) in s.pubs[p].subs;
  }

  lemma RanOnce(s: State, i: nat, j: nat, p: nat, id: nat)
    requires Inv(s) && Ran(s, i, p, id) && Ran(s, j, p, id)
    ensures i == j
  {
    RanIsDue(s, i, p, id);
    RanIsDue(s, j, p, id);
    SameTarget(s.pubs[p].subs, s.nextId, s.handled[i].call.slot, s.handled[j].call.slot);
  }

  lemma RanInOrder(s: State, i: nat, j: nat, p: nat, id: nat, other: nat)
    requires Inv(s) && Ran(s, i, p, id) && Ran(s, j, p, other) && id < other
    ensures i < j
  {
    RanIsDue(s, i, p, id);
    RanIsDue(s, j, p, other);
    assert Increasing(s.pubs[p].subs, s.nextId);
    SlotsInOrder(s, i, j);
  }

  /** Nothing is left to deliver. */
  ghost predicate Quiet(s: State) {
    s.queue == [] && forall p :: 0 <= p < |s.pubs| ==> s.pubs[p].served == |s.pubs[p].subs|
  }

  /** Once the queue has drained, a UI subscriber still registered has run exactly for the publishes of its
      type taken after it subscribed with a dispatcher in place. */
  lemma SubscriberGetsExactlyItsEvents(events: seq<Event>, eventType: EventType, x: Subscriber, p: nat)
    requires Quiet(Run(FRESH, events))
    requires x in Listed(Run(FRESH, events).subs, eventType) && x.isUi && p < |Run(FRESH, events).pubs|
    ensures var s := Run(FRESH, events);
            && x.id in s.since
            && ((exists i: nat :: Ran(s, i, p, x.id)) <==>
                s.pubs[p].dispatcher && s.pubs[p].eventType == eventType && s.since[x.id].after <= p)
  {
    RunInv(FRESH, events);
    var s := Run(FRESH, events);
    if i: nat :| Ran(s, i, p, x.id) {
      assert Posted(s)[i] == s.handled[i].call && Due(s, s.handled[i].call);
      assert Target(s, s.handled[i].call) in s.pubs[p].subs;
    }
    if s.pubs[p].dispatcher && s.pubs[p].eventType == eventType && s.since[x.id].after <= p {
      CallRan(s, x, p);
    }
  }

  lemma MemberHasId(list: seq<Subscriber>, x: Subscriber)
    requires x in list
    ensures HasId(list, x.id)
  {
    var n :| 0 <= n < |list| && list[n] == x;
  }

  lemma CallRan(s: State, x: Subscriber, p: nat)
    requires Inv(s) && Quiet(s) && p < |s.pubs| && s.pubs[p].dispatcher && x.isUi
    requires x in Listed(s.subs, s.pubs[p].eventType) && x.id in s.since && s.since[x.id].after <= p
    ensures exists i: nat :: Ran(s, i, p, x.id)
  {
    assert x in s.pubs[p].subs;
    var k: nat :| k < |s.pubs[p].subs| && s.pubs[p].subs[k] == x;
    var d := Deferred(p, k);
    assert Due(s, d) && d in Posted(s);
    var i: nat :| i < |Posted(s)| && Posted(s)[i] == d;
    assert s.handled[i].call == d;
    MemberHasId(s.subs[s.pubs[p].eventType], x);
    assert !Skipped(s, d);
    assert Ran(s, i, p, x.id);
  }

  /** Nobody is registered under the id, and it will not be handed out again. */
  ghost predicate Gone(s: State, eventType: EventType, id: nat) {
    !Registered(s, eventType, id) && id < s.nextId
  }

  /** From n on, no handled call ran a callback of `id` for a publication of the type. */
  ghost predicate SilentFrom(s: State, n: nat, eventType: EventType, id: nat) {
    forall i: nat, p: nat :: n <= i < |s.handled| && Ran(s, i, p, id) ==> s.pubs[p].eventType != eventType
  }

  lemma UnsubscribeGoes(s: State, eventType: EventType, id: nat)
    requires id < s.nextId
    ensures Gone(Apply(s, Unsubscribe(eventType, id)), eventType, id)
  {
    if eventType in s.subs {
      WithoutMembers(s.subs[eventType], id);
      var list := Without(s.subs[eventType], id);
      assert forall k :: 0 <= k < |list| ==> list[k] in list;
    }
  }

  /** A call handled while the id is gone does not run, whichever thread acts in between. */
  lemma SilentStep(s: State, e: Event, n: nat, eventType: EventType, id: nat)
    requires QueueInv(s) && Gone(s, eventType, id) && SilentFrom(s, n, eventType, id)
    ensures Gone(Apply(s, e), eventType, id) && SilentFrom(Apply(s, e), n, eventType, id)
  {
    RegisteredAfter(s, e, eventType, id);
    var t := Apply(s, e);
    forall i: nat, p: nat | n <= i < |t.handled| && Ran(t, i, p, id)
      ensures t.pubs[p].eventType != eventType
    {
      if i < |s.handled| {
        assert Posted(s)[i] == s.handled[i].call && Due(s, s.handled[i].call);
        RanBefore(s, e, i, p, id);
      }
    }
  }

  /** Publications keep their type and snapshot. */
  lemma RanBefore(s: State, e: Event, i: nat, p: nat, id: nat)
    requires i < |s.handled| && Ran(Apply(s, e), i, p, id) && s.handled[i].call.pub < |s.pubs|
    ensures Ran(s, i, p, id) && Apply(s, e).pubs[p].eventType == s.pubs[p].eventType
  {
  }

  lemma {:induction false} SilentRun(s: State, events: seq<Event>, n: nat, eventType: EventType, id: nat)
    requires Inv(s) && Gone(s, eventType, id) && SilentFrom(s, n, eventType, id)
    ensures SilentFrom(Run(s, events), n, eventType, id)
    decreases |events|
  {
    if events != [] {
      var e := events[0];
      RunInv(s, [e]);
      assert Run(s, [e]) == Run(Apply(s, e), []);
      SilentStep(s, e, n, eventType, id);
      SilentRun(Apply(s, e), events[1..], n, eventType, id);
    }
  }

  lemma {:induction false} BirthsAreKept(s: State, events: seq<Event>, id: nat)
    requires id in s.since && id < s.nextId
    ensures id in Run(s, events).since && Run(s, events).since[id] == s.since[id]
    decreases |events|
  {
    if events != [] {
      BirthsAreKept(Apply(s, events[0]), events[1..], id);
    }
  }

  /** Once a subscription is removed its callback never runs again, whatever was already published for it
      or still queued, and whatever happens afterwards. */
  lemma NeverRunsAfterUnsubscribe(events: seq<Event>, id: nat, more: seq<Event>)
    requires id in Run(FRESH, events).since
    ensures var s := Run(FRESH, events);
            var t := Run(Apply(s, Unsubscribe(s.since[id].eventType, id)), more);
            forall i: nat, p: nat :: |s.handled| <= i < |t.handled| ==> !Ran(t, i, p, id)
  {
    var s := Run(FRESH, events);
    var eventType := s.since[id].eventType;
    var u := Apply(s, Unsubscribe(eventType, id));
    var t := Run(u, more);
    RunInv(FRESH, events);
    RunInv(s, [Unsubscribe(eventType, id)]);
    assert Run(s, [Unsubscribe(eventType, id)]) == Run(u, []);
    RunInv(u, more);
    UnsubscribeGoes(s, eventType, id);
    SilentRun(u, more, |s.handled|, eventType, id);
    BirthsAreKept(u, more, id);
    forall i: nat, p: nat | |s.handled| <= i < |t.handled|
      ensures !Ran(t, i, p, id)
    {
      if Ran(t, i, p, id) {
        RanForItsType(t, i, p, id);
      }
    }
  }

  lemma RanForItsType(s: State, i: nat, p: nat, id: nat)
    requires Inv(s) && Ran(s, i, p, id)
    ensures id in s.since && s.pubs[p].eventType == s.since[id].eventType
  {
    assert Target(s, s.handled[i].call) in s.pubs[p].subs;
  }

  /** The UI thread handles calls in the order they were posted, across publishes: what it has handled is
      always a prefix of everything posted, to which later steps only append. */
  lemma CallsRunInPostedOrder(events: seq<Event>, more: seq<Event>)
    ensures var s := Run(FRESH, events);
            var t := Run(s, more);
            Calls(s.handled) <= Posted(s) <= Posted(t) && Calls(t.handled) <= Posted(t)
  {
    RunInv(FRESH, events);
    RunInv(Run(FRESH, events), more);
  }

  /** Ids are never handed out twice. */
  lemma IdsNeverReused(events: seq<Event>, more: seq<Event>, id: nat)
    ensures var s := Run(FRESH, events);
            id in s.since ==> id < s.nextId <= Run(s, more).nextId
  {
    RunInv(FRESH, events);
    RunInv(Run(FRESH, events), more);
  }

  // ---- the bus's own methods ----

  lemma {:induction false} RunConcat(s: State, a: seq<Event>, b: seq<Event>)
    ensures Run(s, a + b) == Run(Run(s, a), b)
    decreases |a|
  {
    if a == [] {
      assert a + b == b;
    } else {
      assert (a + b)[1..] == a[1..] + b;
      RunConcat(Apply(s, a[0]), a[1..], b);
    }
  }

  /** A publish without interference: its snapshot, then its n subscribers one by one. */
  function PublishEvents(eventType: EventType, p: nat, n: nat): seq<Event> {
    [Publish(eventType)] + seq(n, _ => Serve(p))
  }

  /** The calls a publish makes itself: its subscribers that are not on the UI thread, in order. */
  function SyncCalls(p: nat, list: seq<Subscriber>): seq<Deferred> {
    if list == [] then []
    else
      var n := |list| - 1;
      SyncCalls(p, list[..n]) + if list[n].isUi then [] else [Deferred(p, n)]
  }

  lemma RunSnoc(s: State, events: seq<Event>, e: Event)
    ensures Run(s, events + [e]) == Apply(Run(s, events), e)
  {
    RunConcat(s, events, [e]);
    assert Run(Run(s, events), [e]) == Run(Apply(Run(s, events), e), []);
  }

  // ---- what the events alone say ----

  function Subscriptions(events: seq<Event>): nat {
    if events == [] then 0
    else Subscriptions(events[..|events| - 1]) + if events[|events| - 1].Subscribe? then 1 else 0
  }

  function Publishes(events: seq<Event>): nat {
    if events == [] then 0
    else Publishes(events[..|events| - 1]) + if events[|events| - 1].Publish? then 1 else 0
  }

  /** x subscribed to the type - the n-th subscription of all gets id n - and that was not undone since. */
  predicate IsMember(events: seq<Event>, eventType: EventType, x: Subscriber)
    decreases |events|
  {
    events != [] &&
    var before, e := events[..|events| - 1], events[|events| - 1];
    match e
    case Subscribe(t, isUi) =>
      (t == eventType && x == Subscriber(Subscriptions(before) + 1, isUi)) || IsMember(before, eventType, x)
    case Unsubscribe(t, id) => IsMember(before, eventType, x) && !(t == eventType && id == x.id)
    case _ => IsMember(before, eventType, x)
  }

  lemma MembersStep(s: State, e: Event, eventType: EventType, x: Subscriber)
    ensures x in Listed(Apply(s, e).subs, eventType)
            <==> match e
                 case Subscribe(t, isUi) =>
                   (t == eventType && x == Subscriber(s.nextId, isUi)) || x in Listed(s.subs, eventType)
                 case Unsubscribe(t, id) => x in Listed(s.subs, eventType) && !(t == eventType && id == x.id)
                 case _ => x in Listed(s.subs, eventType)
    ensures Apply(s, e).nextId == s.nextId + if e.Subscribe? then 1 else 0
  {
    if e.Unsubscribe? && eventType in s.subs {
      WithoutMembers(s.subs[eventType], e.id);
    }
  }

  /** In every run the subscribers listed for a type are those that subscribed to it and have not unsubscribed;
      ids are handed out in turn from 1. */
  lemma {:induction false} ListedAreTheMembers(events: seq<Event>, eventType: EventType, x: Subscriber)
    ensures x in Listed(Run(FRESH, events).subs, eventType) <==> IsMember(events, eventType, x)
    ensures Run(FRESH, events).nextId == Subscriptions(events) + 1
    decreases |events|
  {
    if events != [] {
      var n := |events| - 1;
      assert events == events[..n] + [events[n]];
      ListedAreTheMembers(events[..n], eventType, x);
      RunSnoc(FRESH, events[..n], events[n]);
      MembersStep(Run(FRESH, events[..n]), events[n], eventType, x);
    }
  }

  /** A later event changes no publication but how far it has been served, and adds one only by a publish. */
  lemma PublicationsStep(s: State, e: Event)
    ensures var t := Apply(s, e);
            && |t.pubs| == |s.pubs| + (if e.Publish? then 1 else 0)
            && (forall p :: 0 <= p < |s.pubs| ==> t.pubs[p] == s.pubs[p].(served := t.pubs[p].served))
            && t.dispatcher == (s.dispatcher || e.SetUiDispatcher?)
  {
  }

  lemma {:induction false} PublicationsKept(s: State, events: seq<Event>)
    ensures var t := Run(s, events);
            && |s.pubs| <= |t.pubs|
            && (forall p :: 0 <= p < |s.pubs| ==> t.pubs[p] == s.pubs[p].(served := t.pubs[p].served))
            && t.dispatcher == (s.dispatcher || SetUiDispatcher in events)
    decreases |events|
  {
    if events != [] {
      PublicationsStep(s, events[0]);
      PublicationsKept(Apply(s, events[0]), events[1..]);
      assert events == [events[0]] + events[1..];
    }
  }

  lemma {:induction false} PublicationsCount(events: seq<Event>)
    ensures |Run(FRESH, events).pubs| == Publishes(events)
    decreases |events|
  {
    if events != [] {
      var n := |events| - 1;
      assert events == events[..n] + [events[n]];
      PublicationsCount(events[..n]);
      RunSnoc(FRESH, events[..n], events[n]);
      PublicationsStep(Run(FRESH, events[..n]), events[n]);
    }
  }

  /** The n-th publish of a run is publication n, whatever happens after it: of its type, for exactly the members
      of that moment in the order they subscribed, and deferring UI calls exactly if a dispatcher was set before. */
  lemma PublishGoesToTheMembers(before: seq<Event>, eventType: EventType, after: seq<Event>, x: Subscriber)
    ensures var p := Publishes(before);
            var pubs := Run(FRESH, before + [Publish(eventType)] + after).pubs;
            && p < |pubs| && pubs[p].eventType == eventType
            && pubs[p].dispatcher == (SetUiDispatcher in before)
            && (x in pubs[p].subs <==> IsMember(before, eventType, x))
            && Increasing(pubs[p].subs, Subscriptions(before) + 1)
  {
    var s := Run(FRESH, before);
    var u := Apply(s, Publish(eventType));
    RunInv(FRESH, before);
    PublicationsCount(before);
    PublicationsKept(FRESH, before);
    ListedAreTheMembers(before, eventType, x);
    RunSnoc(FRESH, before, Publish(eventType));
    RunConcat(FRESH, before + [Publish(eventType)], after);
    PublicationsKept(u, after);
    assert u.pubs[|s.pubs|] == Publication(eventType, Listed(s.subs, eventType), s.dispatcher, 0);
  }

  /** Whatever the interleaving, draining always handles the call queued longest, and runs it exactly if its
      subscriber is still a member. */
  lemma DrainHandlesTheOldest(events: seq<Event>)
    ensures var s := Run(FRESH, events);
            var t := Apply(s, DrainOne);
            s.queue != [] ==>
              var d := s.queue[0];
              && d.pub < |s.pubs| && d.slot < |s.pubs[d.pub].subs|
              && t.queue == s.queue[1..] && |t.handled| == |s.handled| + 1
              && t.handled[|s.handled|].call == d
              && (t.handled[|s.handled|].ran
                  <==> exists isUi :: IsMember(events, s.pubs[d.pub].eventType, Subscriber(Target(s, d).id, isUi)))
  {
    RunInv(FRESH, events);
    var s := Run(FRESH, events);
    if s.queue != [] {
      QueueIsDue(s);
      var d := s.queue[0];
      var eventType, id := s.pubs[d.pub].eventType, Target(s, d).id;
      forall isUi
        ensures IsMember(events, eventType, Subscriber(id, isUi))
                <==> Subscriber(id, isUi) in Listed(s.subs, eventType)
      {
        ListedAreTheMembers(events, eventType, Subscriber(id, isUi));
      }
      ById(Listed(s.subs, eventType), id);
    }
  }

  lemma QueueIsDue(s: State)
    requires QueueInv(s)
    ensures WellQueued(s)
  {
    forall i | 0 <= i < |s.queue|
      ensures Due(s, s.queue[i])
    {
      assert Posted(s)[|s.handled| + i] == s.queue[i];
    }
  }

  lemma ById(list: seq<Subscriber>, id: nat)
    ensures HasId(list, id) <==> exists isUi :: Subscriber(id, isUi) in list
  {
    if HasId(list, id) {
      var k :| 0 <= k < |list| && list[k].id == id;
      assert Subscriber(id, list[k].isUi) in list;
    }
    if isUi :| Subscriber(id, isUi) in list {
      MemberHasId(list, Subscriber(id, isUi));
    }
  }

  /** The publisher itself calls exactly the subscribers that are not on the UI thread, in order. */
  lemma {:induction false} SyncCallsAreTheOthers(p: nat, list: seq<Subscriber>, n: nat)
    ensures Deferred(p, n) in SyncCalls(p, list) <==> n < |list| && !list[n].isUi
    ensures forall i, j :: 0 <= i < j < |SyncCalls(p, list)| ==> SyncCalls(p, list)[i].slot < SyncCalls(p, list)[j].slot
    ensures forall i :: 0 <= i < |SyncCalls(p, list)| ==> SyncCalls(p, list)[i].slot < |list|
    decreases |list|
  {
    if list != [] {
      SyncCallsAreTheOthers(p, list[..|list| - 1], n);
    }
  }

  class Bus {
    var subscribers: map<EventType, seq<Subscriber>>
    var nextId: nat
    var hasDispatcher: bool
    const uiQueue: Queue<Deferred>
    // Which callbacks ran where: synchronously on the publisher, or on the UI thread.
    var syncCalls: seq<Deferred>
    var uiCalls: seq<Handled>
    // Each publish's payload with the snapshot it goes to.
    var pubs: seq<Publication>
    ghost var since: map<nat, Birth>

    ghost function View(): State
      reads this, uiQueue
    {
      State(subscribers, nextId, hasDispatcher, uiQueue.items, pubs, uiCalls, since)
    }

    constructor ()
      ensures View() == FRESH && fresh(uiQueue)
    {
      subscribers, nextId, hasDispatcher, syncCalls, uiCalls := map[], 1, false, [], [];
      uiQueue := new Queue<Deferred>();
      pubs, since := [], map[];
    }

    method SubscribeImpl(eventType: EventType, isUi: bool) returns (id: nat)
      modifies this
      ensures View() == Apply(old(View()), Subscribe(eventType, isUi)) && id == old(nextId)
    {
      id := nextId;
      nextId := nextId + 1;
      var list := if eventType in subscribers then subscribers[eventType] else [];
      subscribers := subscribers[eventType := list + [Subscriber(id, isUi)]];
      since := since[id := Birth(eventType, |pubs|)];
    }

    method Unsubscribe(eventType: EventType, id: nat)
      modifies this
      ensures View() == Apply(old(View()), Event.Unsubscribe(eventType, id))
    {
      if eventType !in subscribers {
        return;
      }
      var list := subscribers[eventType];
      var kept: seq<Subscriber> := [];
      var i := |list|;
      while i > 0
        invariant 0 <= i <= |list| && kept == Without(list[i..], id)
        invariant View() == old(View())
      {
        i := i - 1;
        assert list[i..][1..] == list[i + 1..];
        if list[i].id != id {
          kept := [list[i]] + kept;
        }
      }
      assert list[0..] == list;
      subscribers := subscribers[eventType := kept];
    }

    /** Whether a callback is still there for the id. */
    method FindCallback(eventType: EventType, id: nat) returns (found: bool)
      ensures found == HasId(Listed(subscribers, eventType), id)
    {
      if eventType !in subscribers {
        return false;
      }
      var list := subscribers[eventType];
      for i := 0 to |list|
        invariant forall k :: 0 <= k < i ==> list[k].id != id
      {
        if list[i].id == id {
          return true;
        }
      }
      return false;
    }

    /** One turn of the UI drain loop. */
    method DrainOneCall() returns (ran: bool)
      requires uiQueue.items != [] && WellQueued(View())
      modifies this`uiCalls, uiQueue
      ensures View() == Apply(old(View()), DrainOne)
      ensures ran == uiCalls[|uiCalls| - 1].ran
    {
      var call := uiQueue.TryPop();
      var d := call.value;
      var pub := pubs[d.pub];
      ran := FindCallback(pub.eventType, pub.subs[d.slot].id);
      uiCalls := uiCalls + [Handled(d, ran)];
    }

    /** Serves a publish's next subscriber: a UI one through the queue, any other at once. */
    method ServeNext(p: nat, subscriber: Subscriber, dispatcher: bool)
      requires p < |pubs| && pubs[p].served < |pubs[p].subs|
      requires subscriber == pubs[p].subs[pubs[p].served] && dispatcher == pubs[p].dispatcher
      modifies this`pubs, this`syncCalls, uiQueue
      ensures View() == Apply(old(View()), Serve(p))
      ensures pubs == old(pubs)[p := old(pubs[p]).(served := old(pubs[p]).served + 1)]
      ensures syncCalls == old(syncCalls) + if subscriber.isUi then [] else [Deferred(p, old(pubs[p]).served)]
    {
      var slot := pubs[p].served;
      pubs := pubs[p := pubs[p].(served := slot + 1)];
      if subscriber.isUi {
        if dispatcher {
          uiQueue.Push(Deferred(p, slot));
        }
      } else {
        syncCalls := syncCalls + [Deferred(p, slot)];
      }
    }

    /** A publish without interference: the snapshot, then one subscriber after the other. */
    method PublishImpl(eventType: EventType) returns (ghost events: seq<Event>)
      modifies this`pubs, this`syncCalls, uiQueue
      ensures View() == Run(old(View()), events)
      ensures events == PublishEvents(eventType, |old(pubs)|, |Listed(subscribers, eventType)|)
      ensures syncCalls == old(syncCalls) + SyncCalls(|old(pubs)|, Listed(subscribers, eventType))
      ensures |pubs| == |old(pubs)| + 1 && pubs[|old(pubs)|].subs == Listed(subscribers, eventType)
      ensures pubs[|old(pubs)|].served == |pubs[|old(pubs)|].subs|
    {
      var snapshot := if eventType in subscribers then subscribers[eventType] else [];
      var dispatcher := hasDispatcher;
      ghost var start := View();
      var p := |pubs|;
      pubs := pubs + [Publication(eventType, snapshot, dispatcher, 0)];
      events := [Publish(eventType)];
      assert Run(start, events) == Run(Apply(start, Publish(eventType)), []);
      for i := 0 to |snapshot|
        invariant |pubs| == p + 1 && pubs[p] == Publication(eventType, snapshot, dispatcher, i)
        invariant View() == Run(start, events) && events == PublishEvents(eventType, p, i)
        invariant syncCalls == old(syncCalls) + SyncCalls(p, snapshot[..i])
      {
        assert snapshot[..i + 1][..i] == snapshot[..i];
        RunSnoc(start, events, Serve(p));
        ServeNext(p, snapshot[i], dispatcher);
        assert PublishEvents(eventType, p, i + 1) == PublishEvents(eventType, p, i) + [Serve(p)];
        events := events + [Serve(p)];
      }
      assert snapshot[..|snapshot|] == snapshot;
    }
  }
}
