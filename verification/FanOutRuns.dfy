/** What the fan-out steps guarantee over whole interleavings, for any number of publishers:
    this is `EventBus`, and with one publisher the subscriber side of `TelemetryHub`. */
module FanOutRuns {
  import opened FanOut

  // ---------------------------------------------------------------- per publisher

  /** How many snapshots publisher p took in acts[i..j]. */
  function SnapshotsBy<T(==)>(acts: seq<Action<T>>, p: nat, i: nat, j: nat): nat
    requires i <= j <= |acts|
    decreases j
  {
    if i == j then 0
    else SnapshotsBy(acts, p, i, j - 1) + (if acts[j - 1] == Snapshot(p) then 1 else 0)
  }

  /** The part of the log whose snapshot has been taken. */
  function Announced<T>(pub: Publisher<T>): int {
    if pub.phase.Prepared? then |pub.sent| - 1 else |pub.sent|
  }

  lemma AnnouncedStep<T>(s: State<T>, a: Action<T>, t: State<T>, p: nat)
    requires Step(s, a, t) && p in s.pubs
    ensures p in t.pubs && Announced(t.pubs[p]) == Announced(s.pubs[p]) + (if a == Snapshot(p) then 1 else 0)
  {
  }

  lemma {:induction false} AnnouncedCounts<T>(states: seq<State<T>>, acts: seq<Action<T>>, p: nat, i: nat, j: nat)
    requires Run(states, acts) && i <= j <= |acts| && p in states[i].pubs
    ensures p in states[j].pubs
    ensures Announced(states[j].pubs[p]) == Announced(states[i].pubs[p]) + SnapshotsBy(acts, p, i, j)
    decreases j
  {
    if i < j {
      AnnouncedCounts(states, acts, p, i, j - 1);
      AnnouncedStep(states[j - 1], acts[j - 1], states[j], p);
    }
  }

  /** The subscription point never moves, what was handed over stays, and a closed one stays closed. */
  ghost predicate Grows<T>(c: Client<T>, d: Client<T>) {
    && d.since == c.since
    && c.got <= d.got && c.dropped <= d.dropped
    && (c.closed ==> d.closed && d.got == c.got)
  }

  lemma GrowsStep<T>(s: State<T>, a: Action<T>, t: State<T>, id: nat)
    requires Step(s, a, t) && id in s.clients
    ensures id in t.clients && Grows(s.clients[id], t.clients[id])
  {
  }

  lemma {:induction false} ClientGrows<T>(states: seq<State<T>>, acts: seq<Action<T>>, id: nat, i: nat, j: nat)
    requires Run(states, acts) && i <= j <= |acts| && id in states[i].clients
    ensures id in states[j].clients && Grows(states[i].clients[id], states[j].clients[id])
    decreases j
  {
    if i < j {
      ClientGrows(states, acts, id, i, j - 1);
      GrowsStep(states[j - 1], acts[j - 1], states[j], id);
    }
  }

  lemma SubscribedSince<T>(s: State<T>, id: nat, t: State<T>, p: nat)
    requires Step(s, Subscribe(id), t) && p in s.pubs && PublisherShape(s, s.pubs[p])
    ensures id in t.clients && p in t.clients[id].since && t.clients[id].since[p] == Announced(s.pubs[p])
    ensures t.pubs == s.pubs
  {
  }

  lemma PublisherAlways<T>(cap: Capacity, publishers: set<nat>, states: seq<State<T>>, acts: seq<Action<T>>, k: nat, p: nat)
    requires Run(states, acts) && states[0] == Start(cap, publishers) && p in publishers && k <= |acts|
    ensures p in states[k].pubs && PublisherShape(states[k], states[k].pubs[p])
  {
    Reachable(cap, publishers, states, acts, k);
  }

  lemma WindowAlways<T>(cap: Capacity, publishers: set<nat>, states: seq<State<T>>, acts: seq<Action<T>>, k: nat, id: nat, p: nat)
    requires Run(states, acts) && states[0] == Start(cap, publishers) && p in publishers && k <= |acts|
    requires id in states[k].clients
    ensures p in states[k].pubs && WindowOk(states[k], id, p)
    ensures Strong(states[k], id) ==> id in states[k].registered
  {
    Reachable(cap, publishers, states, acts, k);
  }

  /** Per publisher, a subscriber is handed the contiguous, in-order segment of that publisher's log
      that begins with its first snapshot after the subscription (step i). While the subscriber is
      open and referenced the segment has one item per snapshot taken since, except the one whose push
      is still owed; and the subscriber is never pruned. */
  lemma HandedPerPublisher<T>(cap: Capacity, publishers: set<nat>, states: seq<State<T>>, acts: seq<Action<T>>,
                              id: nat, i: nat, j: nat, p: nat)
    requires Run(states, acts) && states[0] == Start(cap, publishers) && p in publishers
    requires i < j <= |acts| && acts[i] == Subscribe(id)
    ensures p in states[j].pubs && id in states[j].clients
    ensures var pub, c := states[j].pubs[p], states[j].clients[id];
            var first := SnapshotsBy(acts, p, 0, i);
            var handed := From(c.got, p);
            && first + |handed| <= |pub.sent|
            && handed == pub.sent[first..first + |handed|]
            && (Strong(states[j], id) && !c.closed ==>
                  |handed| == SnapshotsBy(acts, p, i + 1, j) - (if pub.Owes(id) then 1 else 0))
    ensures Strong(states[j], id) ==> id in states[j].registered
  {
    PublisherAlways(cap, publishers, states, acts, i, p);
    SubscribedSince(states[i], id, states[i + 1], p);
    AnnouncedCounts(states, acts, p, 0, i);
    HandedFrom(cap, publishers, states, acts, id, i + 1, j, p);
  }

  /** The same, measured from a state k in which the subscription has just been made. */
  lemma HandedFrom<T>(cap: Capacity, publishers: set<nat>, states: seq<State<T>>, acts: seq<Action<T>>,
                      id: nat, k: nat, j: nat, p: nat)
    requires Run(states, acts) && states[0] == Start(cap, publishers) && p in publishers && k <= j <= |acts|
    requires id in states[k].clients && p in states[k].clients[id].since && p in states[k].pubs
    requires states[k].clients[id].since[p] == Announced(states[k].pubs[p])
    ensures p in states[j].pubs && id in states[j].clients
    ensures var pub, c := states[j].pubs[p], states[j].clients[id];
            var first := Announced(states[k].pubs[p]);
            var handed := From(c.got, p);
            && first + |handed| <= |pub.sent|
            && handed == pub.sent[first..first + |handed|]
            && (Strong(states[j], id) && !c.closed ==>
                  |handed| == SnapshotsBy(acts, p, k, j) - (if pub.Owes(id) then 1 else 0))
    ensures Strong(states[j], id) ==> id in states[j].registered
  {
    ClientGrows(states, acts, id, k, j);
    AnnouncedCounts(states, acts, p, k, j);
    WindowAlways(cap, publishers, states, acts, j, id, p);
  }

  /** Once closed (step i), nothing more is handed over, whoever is still publishing. */
  lemma NothingAfterClose<T>(states: seq<State<T>>, acts: seq<Action<T>>, id: nat, i: nat, j: nat)
    requires Run(states, acts) && i < j <= |acts| && acts[i] == Close(id)
    ensures id in states[i].clients && id in states[j].clients
    ensures states[j].clients[id].got == states[i].clients[id].got
  {
    assert Step(states[i], acts[i], states[i + 1]);
    ClientGrows(states, acts, id, i + 1, j);
  }

  // ---------------------------------------------------------------- pruning

  /** A snapshot takes exactly the registered subscribers that are still referenced, and unregisters
      exactly the others. */
  lemma SnapshotPrunes<T>(s: State<T>, p: nat, t: State<T>)
    requires Step(s, Snapshot(p), t)
    ensures t.pubs[p].phase.Sending? && t.pubs[p].phase.live == t.registered
    ensures forall id :: id in t.registered <==> id in s.registered && Strong(s, id)
  {
  }

  /** A subscriber whose client lets it go while no publication holds it is forgotten at once. */
  lemma ReleaseForgets<T>(s: State<T>, id: nat, t: State<T>)
    requires Step(s, Release(id), t) && forall p :: p in s.pubs ==> !s.pubs[p].Holds(id)
    ensures id in t.clients && !Strong(t, id)
  {
  }

  lemma ForgottenStep<T>(s: State<T>, a: Action<T>, t: State<T>, id: nat)
    requires Step(s, a, t) && id in s.clients && !Strong(s, id)
    ensures id in t.clients && !Strong(t, id) && t.clients[id].got == s.clients[id].got
    ensures id in t.registered ==> id in s.registered && !a.Snapshot?
  {
    if Strong(t, id) { StrongStep(s, a, t, id); }
    if a.Deliver? { assert s.pubs[a.pub].Holds(s.pubs[a.pub].phase.live[s.pubs[a.pub].phase.next]); }
  }

  /** Once forgotten, a subscriber is handed nothing any more, and the next snapshot of any publisher
      takes it off the list for good. */
  lemma {:induction false} ForgottenForGood<T>(states: seq<State<T>>, acts: seq<Action<T>>, id: nat, i: nat, j: nat)
    requires Run(states, acts) && i <= j <= |acts| && id in states[i].clients && !Strong(states[i], id)
    ensures id in states[j].clients && !Strong(states[j], id) && states[j].clients[id].got == states[i].clients[id].got
    ensures (exists k :: i <= k < j && acts[k].Snapshot?) ==> id !in states[j].registered
    decreases j
  {
    if i < j {
      ForgottenForGood(states, acts, id, i, j - 1);
      ForgottenStep(states[j - 1], acts[j - 1], states[j], id);
    }
  }

  // ---------------------------------------------------------------- nobody waits

  /** Steps a publication has still to make once its snapshot is taken. */
  function Left<T>(pub: Publisher<T>): nat {
    if pub.phase.Sending? && pub.phase.next <= |pub.phase.live| then |pub.phase.live| - pub.phase.next + 1 else 0
  }

  /** The publisher's next step. */
  function NextOf<T>(pub: Publisher<T>, p: nat, item: T): Action<T> {
    match pub.phase
    case Idle => Prepare(p, item)
    case Prepared(_) => Snapshot(p)
    case Sending(_, live, next) => if next < |live| then Deliver(p) else Return(p)
  }

  /** In every reachable state every publisher can make its next step, and after its snapshot each brings
      it one nearer to its end; anybody may subscribe, and whoever holds a subscription may pop, close
      and release it. Nobody ever waits for anybody. */
  lemma NobodyWaits<T>(cap: Capacity, publishers: set<nat>, states: seq<State<T>>, acts: seq<Action<T>>, k: nat, p: nat, item: T, id: nat)
    requires Run(states, acts) && states[0] == Start(cap, publishers) && p in publishers && k <= |acts|
    ensures var s := states[k];
            && p in s.pubs && Enabled(s, NextOf(s.pubs[p], p, item))
            && var t := Apply(s, NextOf(s.pubs[p], p, item));
               && p in t.pubs
               && (s.pubs[p].phase.Idle? ==> t.pubs[p].phase == Prepared(item))
               && (s.pubs[p].phase.Prepared? ==> Left(t.pubs[p]) == |t.registered| + 1)
               && (s.pubs[p].phase.Sending? ==> Left(t.pubs[p]) == Left(s.pubs[p]) - 1)
               && (s.pubs[p].phase.Sending? ==> (t.pubs[p].phase.Idle? <==> Left(s.pubs[p]) == 1))
    ensures var s := states[k];
            if id !in s.clients then Enabled(s, FanOut.Subscribe(id))
            else s.clients[id].held ==> Enabled(s, Pop(id)) && Enabled(s, Close(id)) && Enabled(s, Release(id))
  {
    Reachable(cap, publishers, states, acts, k);
    assert PublisherShape(states[k], states[k].pubs[p]);
  }

  // ---------------------------------------------------------------- conservation and drain

  ghost function PoppedBy<T>(s: State<T>, a: Action<T>, id: nat): seq<T> {
    if a == Pop(id) && id in s.clients && s.clients[id].queue != [] then [s.clients[id].queue[0]] else []
  }

  /** The items `Pop(id)` returned in acts[i..j], in order. */
  ghost function Popped<T>(states: seq<State<T>>, acts: seq<Action<T>>, id: nat, i: nat, j: nat): seq<T>
    requires i <= j <= |acts| < |states|
    decreases j
  {
    if i == j then [] else Popped(states, acts, id, i, j - 1) + PoppedBy(states[j - 1], acts[j - 1], id)
  }

  /** Positions, among the first |dropped| handed items, of those that were popped. */
  function KeptAt(dropped: seq<bool>): (at: seq<nat>)
    ensures |at| <= |dropped|
    ensures forall j :: 0 <= j < |at| ==> at[j] < |dropped| && !dropped[at[j]]
    ensures forall i, j :: 0 <= i < j < |at| ==> at[i] < at[j]
  {
    if dropped == [] then []
    else
      var n := |dropped| - 1;
      KeptAt(dropped[..n]) + (if dropped[n] then [] else [n])
  }

  /** Positions of those that were overwritten. */
  function LostAt(dropped: seq<bool>): (at: seq<nat>)
    ensures |at| + |KeptAt(dropped)| == |dropped|
    ensures forall j :: 0 <= j < |at| ==> at[j] < |dropped| && dropped[at[j]]
  {
    if dropped == [] then []
    else
      var n := |dropped| - 1;
      LostAt(dropped[..n]) + (if dropped[n] then [n] else [])
  }

  function Kept<T>(items: seq<T>, dropped: seq<bool>): (kept: seq<T>)
    requires |dropped| <= |items|
    ensures |kept| == |KeptAt(dropped)|
    ensures forall j :: 0 <= j < |kept| ==> kept[j] == items[KeptAt(dropped)[j]]
  {
    var at := KeptAt(dropped);
    seq(|at|, j requires 0 <= j < |at| => items[at[j]])
  }

  ghost function PopsOf<T>(c: Client<T>): seq<T>
    requires |c.dropped| <= |c.got|
  {
    Kept(Items(c.got), c.dropped)
  }

  lemma PushPops<T>(c: Client<T>, cap: Capacity, p: nat, item: T)
    requires Conserved(c, cap)
    ensures Conserved(Push(c, cap, p, item), cap) && PopsOf(Push(c, cap, p, item)) == PopsOf(c)
  {
    PushConserved(c, cap, p, item);
    var d := Push(c, cap, p, item);
    if d.dropped != c.dropped { assert d.dropped[..|c.dropped|] == c.dropped; }
  }

  lemma PopPops<T>(c: Client<T>, cap: Capacity)
    requires Conserved(c, cap)
    ensures Conserved(PopFront(c), cap)
    ensures PopsOf(PopFront(c)) == PopsOf(c) + (if c.queue == [] then [] else [c.queue[0]])
  {
    var d := PopFront(c);
    if c.queue != [] { assert d.dropped[..|c.dropped|] == c.dropped; }
  }

  /** What one step does to one existing subscriber's queue and record. */
  lemma ClientEffect<T>(s: State<T>, a: Action<T>, t: State<T>, id: nat)
    requires Step(s, a, t) && id in s.clients
    ensures t.cap == s.cap && id in t.clients
    ensures var c, d := s.clients[id], t.clients[id];
            if a == Pop(id) then d == PopFront(c)
            else if a.Deliver? && d != c then d == Push(c, s.cap, a.pub, s.pubs[a.pub].phase.item)
            else d.queue == c.queue && d.got == c.got && d.dropped == c.dropped
  {
  }

  lemma PopsStep<T>(s: State<T>, a: Action<T>, t: State<T>, id: nat)
    requires Step(s, a, t) && id in s.clients && Conserved(s.clients[id], s.cap)
    ensures t.cap == s.cap && id in t.clients && Conserved(t.clients[id], t.cap)
    ensures PopsOf(t.clients[id]) == PopsOf(s.clients[id]) + PoppedBy(s, a, id)
  {
    ClientEffect(s, a, t, id);
    if a == Pop(id) {
      PopPops(s.clients[id], s.cap);
    } else if a.Deliver? {
      PushPops(s.clients[id], s.cap, a.pub, s.pubs[a.pub].phase.item);
    }
  }

  lemma {:induction false} PopsAreKept<T>(states: seq<State<T>>, acts: seq<Action<T>>, id: nat, i: nat, j: nat)
    requires Run(states, acts) && i <= j <= |acts|
    requires id in states[i].clients && Conserved(states[i].clients[id], states[i].cap)
    ensures states[j].cap == states[i].cap && id in states[j].clients
    ensures Conserved(states[j].clients[id], states[j].cap)
    ensures PopsOf(states[j].clients[id]) == PopsOf(states[i].clients[id]) + Popped(states, acts, id, i, j)
    decreases j
  {
    if i < j {
      PopsAreKept(states, acts, id, i, j - 1);
      PopsStep(states[j - 1], acts[j - 1], states[j], id);
    }
  }

  /** In every run from the subscription (step i) on, the pops return, in order, exactly the handed
      items that were not overwritten; handed = popped + overwritten + queued; the queue is the rest in
      order, within its bound; and an overwritten item was overtaken by at least `cap` newer ones, so a
      drop happens only at the bound. */
  lemma Conservation<T>(cap: Capacity, publishers: set<nat>, states: seq<State<T>>, acts: seq<Action<T>>,
                        id: nat, i: nat, j: nat)
    requires Run(states, acts) && states[0] == Start(cap, publishers)
    requires i < j <= |acts| && acts[i] == Subscribe(id)
    ensures id in states[j].clients
    ensures var c := states[j].clients[id];
            var popped := Popped(states, acts, id, i + 1, j);
            && |c.dropped| <= |c.got| && |c.queue| <= cap
            && |c.got| == |popped| + |LostAt(c.dropped)| + |c.queue|
            && popped == Kept(Items(c.got), c.dropped)
            && c.queue == Items(c.got)[|c.dropped|..]
            && forall k :: 0 <= k < |c.dropped| && c.dropped[k] ==> |c.got| > k + cap
  {
    Reachable(cap, publishers, states, acts, i);
    assert Step(states[i], acts[i], states[i + 1]);
    PopsAreKept(states, acts, id, i + 1, j);
  }

  lemma DrainStep<T>(s: State<T>, a: Action<T>, t: State<T>, id: nat)
    requires Step(s, a, t) && id in s.clients && s.clients[id].closed
    ensures id in t.clients && t.clients[id].closed
    ensures s.clients[id].queue == PoppedBy(s, a, id) + t.clients[id].queue
  {
  }

  /** After `Close` the pops return exactly the remaining queue, in order, and then fail forever. */
  lemma {:induction false} DrainAfterClose<T>(states: seq<State<T>>, acts: seq<Action<T>>, id: nat, i: nat, j: nat)
    requires Run(states, acts) && i <= j <= |acts|
    requires id in states[i].clients && states[i].clients[id].closed
    ensures id in states[j].clients && states[j].clients[id].closed
    ensures states[i].clients[id].queue == Popped(states, acts, id, i, j) + states[j].clients[id].queue
    decreases j
  {
    if i < j {
      DrainAfterClose(states, acts, id, i, j - 1);
      DrainStep(states[j - 1], acts[j - 1], states[j], id);
    }
  }
}
