/** The fan-out protocol shared by `TelemetryHub` and `EventBus`, one step per lock region.

    `Publish` is not atomic: the publisher first has its item (the hub has also pushed it into its
    history), then takes one snapshot of the live subscribers while pruning dead weak pointers, then
    locks each subscriber in turn to push, and finally drops the shared pointers it collected.
    Between any two of these steps other publishers and any clients may run. */
module FanOut {

  /** kSubscriberQueueCapacity: 64 for telemetry, 32 for events. */
  type Capacity = n: nat | n >= 1 witness 1

  /** One locked push: a full queue loses its oldest element first. */
  function Offer<T>(queue: seq<T>, cap: Capacity, item: T): seq<T> {
    (if |queue| >= cap then queue[1..] else queue) + [item]
  }

  // ---------------------------------------------------------------- states

  datatype Phase<T> =
    | Idle
    | Prepared(item: T)                               // before the snapshot
    | Sending(item: T, live: seq<nat>, next: nat)     // `live` holds shared pointers until Publish returns

  /** `sent` is the publisher's own log, the item in flight included. */
  datatype Publisher<T> = Publisher(sent: seq<T>, phase: Phase<T>) {
    predicate Holds(id: nat) { phase.Sending? && id in phase.live }
    predicate Owes(id: nat) { phase.Sending? && phase.next <= |phase.live| && id in phase.live[phase.next..] }
  }

  datatype Got<T> = Got(from: nat, item: T)

  /** A subscriber: its queue, flag and client reference, with the history of what it was handed.
      The first `|dropped|` items of `got` have left the queue, dropped[k] telling whether the k-th was
      overwritten or popped; `since[p]` is where in publisher p's log the subscription starts. */
  datatype Client<T> = Client(queue: seq<T>, closed: bool, held: bool,
                              since: map<nat, nat>, got: seq<Got<T>>, dropped: seq<bool>)

  datatype State<T> = State(cap: Capacity, pubs: map<nat, Publisher<T>>,
                            clients: map<nat, Client<T>>, registered: seq<nat>)

  datatype Action<T> =
    | Prepare(pub: nat, item: T)
    | Snapshot(pub: nat)
    | Deliver(pub: nat)
    | Return(pub: nat)
    | Subscribe(id: nat)
    | Pop(id: nat)
    | Close(id: nat)
    | Release(id: nat)        // the client lets its shared pointer go

  function Start<T>(cap: Capacity, publishers: set<nat>): State<T> {
    State(cap, map p | p in publishers :: Publisher([], Idle), map[], [])
  }

  /** Some shared pointer to the subscriber exists, so `weak_ptr::lock` succeeds. */
  ghost predicate Strong<T>(s: State<T>, id: nat) {
    id in s.clients && (s.clients[id].held || exists p :: p in s.pubs && s.pubs[p].Holds(id))
  }

  /** The snapshot loop: the entries whose weak pointer can be locked, in order. */
  ghost function Lockable<T>(s: State<T>, ids: seq<nat>): (live: seq<nat>)
    ensures forall id :: id in live <==> id in ids && Strong(s, id)
  {
    if ids == [] then []
    else (if Strong(s, ids[0]) then [ids[0]] else []) + Lockable(s, ids[1..])
  }

  /** That a snapshot's members are clients is part of `Shape`, so it holds back no delivery. */
  predicate Enabled<T>(s: State<T>, a: Action<T>) {
    match a
    case Prepare(p, _) => p in s.pubs && s.pubs[p].phase.Idle?
    case Snapshot(p) => p in s.pubs && s.pubs[p].phase.Prepared?
    case Deliver(p) => p in s.pubs && s.pubs[p].phase.Sending? && s.pubs[p].phase.next < |s.pubs[p].phase.live|
                       && s.pubs[p].phase.live[s.pubs[p].phase.next] in s.clients
    case Return(p) => p in s.pubs && s.pubs[p].phase.Sending? && s.pubs[p].phase.next >= |s.pubs[p].phase.live|
    case Subscribe(id) => id !in s.clients
    case Pop(id) => id in s.clients && s.clients[id].held
    case Close(id) => id in s.clients && s.clients[id].held
    case Release(id) => id in s.clients && s.clients[id].held
  }

  function Fresh<T>(pubs: map<nat, Publisher<T>>): Client<T> {
    Client([], false, true,
           map p | p in pubs :: if pubs[p].phase.Prepared? && pubs[p].sent != [] then |pubs[p].sent| - 1
                                else |pubs[p].sent|,
           [], [])
  }

  /** The locked push of `Publish`, or nothing when the subscriber was closed meanwhile. */
  function Push<T>(c: Client<T>, cap: Capacity, p: nat, item: T): Client<T> {
    if c.closed then c
    else c.(queue := Offer(c.queue, cap, item), got := c.got + [Got(p, item)],
            dropped := if |c.queue| >= cap then c.dropped + [true] else c.dropped)
  }

  /** `Pop` returns true with the front element; false only when the queue is empty, the subscriber
      having been closed or the wait having timed out. */
  function PopFront<T>(c: Client<T>): Client<T> {
    if c.queue == [] then c else c.(queue := c.queue[1..], dropped := c.dropped + [false])
  }

  ghost function Apply<T>(s: State<T>, a: Action<T>): State<T>
    requires Enabled(s, a)
  {
    match a
    case Prepare(p, item) =>
      s.(pubs := s.pubs[p := Publisher(s.pubs[p].sent + [item], Prepared(item))])
    case Snapshot(p) =>
      var live := Lockable(s, s.registered);
      s.(pubs := s.pubs[p := s.pubs[p].(phase := Sending(s.pubs[p].phase.item, live, 0))], registered := live)
    case Deliver(p) =>
      var ph := s.pubs[p].phase;
      var id := ph.live[ph.next];
      s.(pubs := s.pubs[p := s.pubs[p].(phase := ph.(next := ph.next + 1))],
         clients := s.clients[id := Push(s.clients[id], s.cap, p, ph.item)])
    case Return(p) =>
      s.(pubs := s.pubs[p := s.pubs[p].(phase := Idle)])
    case Subscribe(id) =>
      s.(clients := s.clients[id := Fresh(s.pubs)], registered := s.registered + [id])
    case Pop(id) =>
      s.(clients := s.clients[id := PopFront(s.clients[id])])
    case Close(id) =>
      s.(clients := s.clients[id := s.clients[id].(closed := true)])
    case Release(id) =>
      s.(clients := s.clients[id := s.clients[id].(held := false)])
  }

  ghost predicate Step<T>(s: State<T>, a: Action<T>, t: State<T>) {
    Enabled(s, a) && t == Apply(s, a)
  }

  /** A possible interleaving: `acts[i]` leads from `states[i]` to `states[i + 1]`. */
  ghost predicate Run<T>(states: seq<State<T>>, acts: seq<Action<T>>) {
    && |states| == |acts| + 1
    && forall i {:trigger acts[i]} :: 0 <= i < |acts| ==> Step(states[i], acts[i], states[i + 1])
  }

  // ---------------------------------------------------------------- what every state satisfies

  predicate Distinct(ids: seq<nat>) {
    forall i, j :: 0 <= i < j < |ids| ==> ids[i] != ids[j]
  }

  /** What publisher p has handed to the subscriber, in order. */
  function From<T>(got: seq<Got<T>>, p: nat): seq<T> {
    if got == [] then []
    else
      var last := got[|got| - 1];
      From(got[..|got| - 1], p) + (if last.from == p then [last.item] else [])
  }

  function Items<T>(got: seq<Got<T>>): (items: seq<T>)
    ensures |items| == |got|
    ensures forall i :: 0 <= i < |got| ==> items[i] == got[i].item
  {
    seq(|got|, i requires 0 <= i < |got| => got[i].item)
  }

  ghost predicate PublisherShape<T>(s: State<T>, pub: Publisher<T>) {
    && (!pub.phase.Idle? ==> pub.sent != [] && pub.phase.item == pub.sent[|pub.sent| - 1])
    && (pub.phase.Sending? ==> Distinct(pub.phase.live) && pub.phase.next <= |pub.phase.live|
                               && forall id :: id in pub.phase.live ==> id in s.clients)
  }

  ghost predicate ClientShape<T>(s: State<T>, c: Client<T>) {
    && c.since.Keys == s.pubs.Keys
    && forall i :: 0 <= i < |c.got| ==> c.got[i].from in s.pubs
  }

  ghost predicate Shape<T>(s: State<T>) {
    && Distinct(s.registered)
    && (forall id :: id in s.registered ==> id in s.clients)
    && (forall p :: p in s.pubs ==> PublisherShape(s, s.pubs[p]))
    && (forall id :: id in s.clients ==> ClientShape(s, s.clients[id]))
  }

  /** Pruning never loses a subscriber that is still referenced. */
  ghost predicate LiveAreRegistered<T>(s: State<T>) {
    forall id :: Strong(s, id) ==> id in s.registered
  }

  /** How much of the publisher's log an open, referenced subscriber should have been handed. */
  function Reached<T>(pub: Publisher<T>, id: nat): int {
    if pub.phase.Prepared? || pub.Owes(id) then |pub.sent| - 1 else |pub.sent|
  }

  ghost predicate Window<T>(pub: Publisher<T>, c: Client<T>, p: nat) {
    && p in c.since
    && var n := |From(c.got, p)|;
    && c.since[p] + n <= |pub.sent|
    && From(c.got, p) == pub.sent[c.since[p]..c.since[p] + n]
  }

  ghost predicate Current<T>(pub: Publisher<T>, c: Client<T>, p: nat, id: nat) {
    p in c.since && c.since[p] + |From(c.got, p)| == Reached(pub, id)
  }

  /** Every subscriber was handed a window of each publisher's log; one that can still be reached
      (`strong`) and is open is up to date with it. */
  ghost predicate Tracks<T>(pub: Publisher<T>, c: Client<T>, p: nat, id: nat, strong: bool) {
    && Window(pub, c, p)
    && (strong && !c.closed ==> Current(pub, c, p, id))
  }

  ghost predicate WindowOk<T>(s: State<T>, id: nat, p: nat)
    requires id in s.clients && p in s.pubs
  {
    Tracks(s.pubs[p], s.clients[id], p, id, Strong(s, id))
  }

  ghost predicate Windows<T>(s: State<T>) {
    forall id, p :: id in s.clients && p in s.pubs ==> WindowOk(s, id, p)
  }

  /** Conservation: what was handed over is what left the queue, in order, followed by the queue;
      the queue is bounded, and only an item overtaken by `cap` newer ones is ever dropped. */
  ghost predicate Conserved<T>(c: Client<T>, cap: Capacity) {
    && |c.dropped| <= |c.got|
    && c.queue == Items(c.got)[|c.dropped|..]
    && |c.queue| <= cap
    && forall k :: 0 <= k < |c.dropped| && c.dropped[k] ==> |c.got| > k + cap
  }

  ghost predicate AllConserved<T>(s: State<T>) {
    forall id :: id in s.clients ==> Conserved(s.clients[id], s.cap)
  }

  ghost predicate Inv<T>(s: State<T>) {
    Shape(s) && LiveAreRegistered(s) && Windows(s) && AllConserved(s)
  }

  // ---------------------------------------------------------------- one step keeps it

  lemma {:induction false} LockableDistinct<T>(s: State<T>, ids: seq<nat>)
    requires Distinct(ids)
    ensures Distinct(Lockable(s, ids))
  {
    if ids != [] {
      LockableDistinct(s, ids[1..]);
      assert ids[0] !in ids[1..];
    }
  }

  lemma RegisteredShapeStep<T>(s: State<T>, a: Action<T>, t: State<T>)
    requires Shape(s) && Step(s, a, t)
    ensures Distinct(t.registered)
    ensures forall id :: id in t.registered ==> id in t.clients
    ensures forall id :: id in s.clients ==> id in t.clients
  {
    LockableDistinct(s, s.registered);
  }

  lemma PublisherShapeStep<T>(s: State<T>, a: Action<T>, t: State<T>, p: nat)
    requires Step(s, a, t) && p in s.pubs
    requires PublisherShape(s, s.pubs[p])
    requires Distinct(t.registered)
    requires forall id :: id in t.registered ==> id in t.clients
    requires forall id :: id in s.clients ==> id in t.clients
    ensures PublisherShape(t, t.pubs[p])
  {
  }

  lemma ClientShapeStep<T>(s: State<T>, a: Action<T>, t: State<T>, id: nat)
    requires Step(s, a, t) && id in t.clients
    requires id in s.clients ==> ClientShape(s, s.clients[id])
    ensures ClientShape(t, t.clients[id])
  {
    assert t.pubs.Keys == s.pubs.Keys;
  }

  lemma ShapeStep<T>(s: State<T>, a: Action<T>, t: State<T>)
    requires Shape(s) && Step(s, a, t)
    ensures Shape(t) && t.pubs.Keys == s.pubs.Keys && t.cap == s.cap
  {
    RegisteredShapeStep(s, a, t);
    assert t.pubs.Keys == s.pubs.Keys;
    forall p | p in t.pubs ensures PublisherShape(t, t.pubs[p]) { PublisherShapeStep(s, a, t, p); }
    forall id | id in t.clients ensures ClientShape(t, t.clients[id]) { ClientShapeStep(s, a, t, id); }
  }

  /** A subscriber nobody references can never be referenced again. */
  lemma StrongStep<T>(s: State<T>, a: Action<T>, t: State<T>, id: nat)
    requires Step(s, a, t)
    requires Strong(t, id) && a != Subscribe(id)
    ensures Strong(s, id)
  {
    if !t.clients[id].held {
      var p :| p in t.pubs && t.pubs[p].Holds(id);
      if !s.pubs[p].Holds(id) { assert a == Snapshot(p); }
    }
  }

  lemma RegisteredStep<T>(s: State<T>, a: Action<T>, t: State<T>)
    requires LiveAreRegistered(s) && Step(s, a, t)
    ensures LiveAreRegistered(t)
  {
    forall id | Strong(t, id) ensures id in t.registered {
      if a != Subscribe(id) { StrongStep(s, a, t, id); }
    }
  }

  lemma PushConserved<T>(c: Client<T>, cap: Capacity, p: nat, item: T)
    requires Conserved(c, cap)
    ensures Conserved(Push(c, cap, p, item), cap)
  {
    assert Items(c.got + [Got(p, item)]) == Items(c.got) + [item];
  }

  lemma ConservedStep<T>(s: State<T>, a: Action<T>, t: State<T>, id: nat)
    requires Step(s, a, t) && id in t.clients
    requires id in s.clients ==> Conserved(s.clients[id], s.cap)
    ensures Conserved(t.clients[id], s.cap)
  {
    if a.Deliver? && id in s.clients {
      PushConserved(s.clients[id], s.cap, a.pub, s.pubs[a.pub].phase.item);
    }
  }

  /** Handing the item in flight to a subscriber extends its window by exactly that item. */
  lemma PushWindow<T>(pub: Publisher<T>, c: Client<T>, cap: Capacity, q: nat, item: T, p: nat, id: nat)
    requires Window(pub, c, p) && Current(pub, c, p, id) && !c.closed
    requires q == p ==> pub.sent != [] && item == pub.sent[|pub.sent| - 1] && Reached(pub, id) == |pub.sent| - 1
    ensures var d := Push(c, cap, q, item);
            && Window(pub, d, p)
            && c.since[p] + |From(d.got, p)| == if q == p then |pub.sent| else Reached(pub, id)
  {
    var d := Push(c, cap, q, item);
    assert d.got[..|d.got| - 1] == c.got;
  }

  /** The publisher has moved past the entry it just served. */
  lemma OwesNext<T>(pub: Publisher<T>, id: nat)
    requires pub.phase.Sending? && pub.phase.next < |pub.phase.live| && Distinct(pub.phase.live)
    ensures var later := pub.(phase := pub.phase.(next := pub.phase.next + 1));
            later.Owes(id) <==> pub.Owes(id) && id != pub.phase.live[pub.phase.next]
  {
    var ph := pub.phase;
    assert ph.live[ph.next..] == [ph.live[ph.next]] + ph.live[ph.next + 1..];
  }

  /** What a delivery does to the publisher and to the subscriber it serves, one at a time. */
  lemma DeliverEffect<T>(s: State<T>, q: nat, t: State<T>, id: nat, p: nat)
    requires Step(s, Deliver(q), t) && id in s.clients && p in s.pubs
    ensures var ph := s.pubs[q].phase;
            && t.pubs[p] == (if p == q then s.pubs[q].(phase := ph.(next := ph.next + 1)) else s.pubs[p])
            && t.clients[id] == (if id == ph.live[ph.next] then Push(s.clients[id], s.cap, q, ph.item) else s.clients[id])
  {
  }

  lemma DeliverTracks<T>(cap: Capacity, q: nat, pubQ: Publisher<T>, c: Client<T>, p: nat, pub: Publisher<T>, id: nat, strong: bool)
    requires pubQ.phase.Sending? && pubQ.phase.next < |pubQ.phase.live| && Distinct(pubQ.phase.live)
    requires pubQ.sent != [] && pubQ.phase.item == pubQ.sent[|pubQ.sent| - 1]
    requires p == q ==> pub == pubQ
    requires Tracks(pub, c, p, id, strong) && (pubQ.Holds(id) ==> strong)
    ensures var pub' := if p == q then pub.(phase := pub.phase.(next := pub.phase.next + 1)) else pub;
            var c' := if id == pubQ.phase.live[pubQ.phase.next] then Push(c, cap, q, pubQ.phase.item) else c;
            Tracks(pub', c', p, id, strong)
  {
    var ph := pubQ.phase;
    OwesNext(pubQ, id);
    if id == ph.live[ph.next] && !c.closed {
      assert ph.live[ph.next..][0] == id;
      PushWindow(pub, c, cap, q, ph.item, p, id);
    }
  }

  lemma SnapshotTracks<T>(s: State<T>, q: nat, t: State<T>, id: nat, p: nat, strong: bool)
    requires Step(s, Snapshot(q), t)
    requires id in s.clients && p in s.pubs && Tracks(s.pubs[p], s.clients[id], p, id, strong)
    requires strong ==> id in t.registered
    ensures Tracks(t.pubs[p], t.clients[id], p, id, strong)
  {
    if q == p {
      assert t.pubs[p].phase.live[0..] == t.registered;
    }
  }

  lemma OtherTracks<T>(s: State<T>, a: Action<T>, t: State<T>, id: nat, p: nat, strong: bool)
    requires Step(s, a, t) && !a.Deliver? && !a.Snapshot?
    requires id in s.clients && p in s.pubs && Tracks(s.pubs[p], s.clients[id], p, id, strong)
    ensures Tracks(t.pubs[p], t.clients[id], p, id, strong)
  {
  }

  lemma SubscribeTracks<T>(s: State<T>, id: nat, p: nat)
    requires p in s.pubs && PublisherShape(s, s.pubs[p])
    requires id !in s.clients
    ensures Tracks(s.pubs[p], Fresh(s.pubs), p, id, true)
  {
  }

  lemma WindowStep<T>(s: State<T>, a: Action<T>, t: State<T>, id: nat, p: nat)
    requires Step(s, a, t) && id in t.clients && p in s.pubs
    requires PublisherShape(s, s.pubs[p])
    requires (a.Deliver? || a.Snapshot?) ==> PublisherShape(s, s.pubs[a.pub])
    requires id in s.clients ==> WindowOk(s, id, p)
    requires Strong(s, id) ==> id in s.registered
    ensures Tracks(t.pubs[p], t.clients[id], p, id, Strong(t, id))
  {
    if id !in s.clients {
      SubscribeTracks(s, id, p);
    } else {
      var strong := Strong(s, id);
      match a {
        case Deliver(q) =>
          DeliverEffect(s, q, t, id, p);
          DeliverTracks(s.cap, q, s.pubs[q], s.clients[id], p, s.pubs[p], id, strong);
        case Snapshot(q) => SnapshotTracks(s, q, t, id, p, strong);
        case _ => OtherTracks(s, a, t, id, p, strong);
      }
      if Strong(t, id) { StrongStep(s, a, t, id); }
    }
  }

  lemma WindowsStep<T>(s: State<T>, a: Action<T>, t: State<T>)
    requires Inv(s) && Step(s, a, t)
    ensures Windows(t)
  {
    ShapeStep(s, a, t);
    forall id, p | id in t.clients && p in t.pubs
      ensures WindowOk(t, id, p)
    {
      assert PublisherShape(s, s.pubs[p]);
      if a.Deliver? || a.Snapshot? { assert PublisherShape(s, s.pubs[a.pub]); }
      if id in s.clients { assert WindowOk(s, id, p); }
      WindowStep(s, a, t, id, p);
    }
  }

  lemma InvStep<T>(s: State<T>, a: Action<T>, t: State<T>)
    requires Inv(s) && Step(s, a, t)
    ensures Inv(t) && t.pubs.Keys == s.pubs.Keys && t.cap == s.cap
  {
    ShapeStep(s, a, t);
    RegisteredStep(s, a, t);
    WindowsStep(s, a, t);
    forall id | id in t.clients ensures Conserved(t.clients[id], s.cap) { ConservedStep(s, a, t, id); }
  }

  lemma {:induction false} InvRun<T>(states: seq<State<T>>, acts: seq<Action<T>>, k: nat)
    requires Run(states, acts) && Inv(states[0]) && k <= |acts|
    ensures Inv(states[k]) && states[k].cap == states[0].cap && states[k].pubs.Keys == states[0].pubs.Keys
  {
    if k > 0 {
      InvRun(states, acts, k - 1);
      InvStep(states[k - 1], acts[k - 1], states[k]);
    }
  }

  /** Every state of every interleaving from the empty start. */
  lemma Reachable<T>(cap: Capacity, publishers: set<nat>, states: seq<State<T>>, acts: seq<Action<T>>, k: nat)
    requires Run(states, acts) && states[0] == Start(cap, publishers) && k <= |acts|
    ensures Inv(states[k]) && states[k].cap == cap && states[k].pubs.Keys == publishers
  {
    InvRun(states, acts, k);
  }
}
