/**
 The registry of live-reload clients (`clients` in main.go).

 Each event-stream connection registers a fresh channel of capacity one;
 `notifyClients` does a non-blocking send to every registered channel, so a
 channel that already holds a signal keeps exactly that one. A channel is
 modelled by an identifier and its slot by a boolean: `true` when a signal is
 waiting to be received.
 */
module ClientRegistry {
  import opened Wrappers

  type ClientId = nat

  /** `pending` maps each registered client to its slot; `next` is the next fresh identifier. */
  datatype Registry = Registry(pending: map<ClientId, bool>, next: ClientId)

  /** Every registered identifier was handed out before `next`, so `next` is fresh. */
  ghost predicate Valid(r: Registry)
  {
    forall c :: c in r.pending ==> c < r.next
  }

  /** The registry before any client connects. */
  function Empty(): (r: Registry)
    ensures Valid(r) && Count(r) == 0
  {
    Registry(map[], 0)
  }

  /** The number of registered clients, as `len(clients)`. */
  function Count(r: Registry): nat
  {
    |r.pending|
  }

  /**
   A new connection: a fresh client with an empty slot joins, everyone else
   is untouched, and the count grows by one.
   */
  function Subscribe(r: Registry): (res: (Registry, ClientId))
    requires Valid(r)
    ensures Valid(res.0)
    ensures res.1 !in r.pending
    ensures res.0.pending == r.pending[res.1 := false]
    ensures Count(res.0) == Count(r) + 1
  {
    var id := r.next;
    (Registry(r.pending[id := false], r.next + 1), id)
  }

  /**
   A connection ends: exactly that client leaves. Removing an absent client
   changes nothing, so the count never drops below the number registered.
   */
  function Unsubscribe(r: Registry, id: ClientId): (r': Registry)
    ensures Valid(r) ==> Valid(r')
    ensures r'.pending.Keys == r.pending.Keys - {id}
    ensures forall c :: c in r'.pending ==> r'.pending[c] == r.pending[c]
    ensures id in r.pending ==> Count(r') == Count(r) - 1
    ensures id !in r.pending ==> r' == r
  {
    Registry(r.pending - {id}, r.next)
  }

  /**
   Non-blocking send to every registered client: afterwards every slot holds
   a signal (a full slot keeps its single one), and membership is unchanged.
   */
  function Notify(r: Registry): (r': Registry)
    ensures Valid(r) ==> Valid(r')
    ensures r'.pending.Keys == r.pending.Keys
    ensures forall c :: c in r'.pending ==> r'.pending[c]
    ensures Count(r') == Count(r)
  {
    Registry(map c | c in r.pending :: true, r.next)
  }

  /**
   A client's handler receives from its channel. This succeeds only when a
   signal is waiting; it then empties that slot and touches nothing else.
   When nothing is waiting the receive would block, which is `None`.
   */
  function Consume(r: Registry, id: ClientId): (res: Option<Registry>)
    ensures res.Some? <==> id in r.pending && r.pending[id]
    ensures res.Some? ==> res.value.pending == r.pending[id := false] && res.value.next == r.next
  {
    if id in r.pending && r.pending[id] then Some(Registry(r.pending[id := false], r.next)) else None
  }

  /** Coalescing: notifying twice leaves the same state as notifying once. */
  lemma NotifyCoalesces(r: Registry)
    ensures Notify(Notify(r)) == Notify(r)
  {
  }

  /**
   No client is starved: after a notify, every registered client can receive
   exactly one signal, and a second receive would block.
   */
  lemma NotifyThenConsumeOnce(r: Registry, id: ClientId)
    requires id in r.pending
    ensures Consume(Notify(r), id).Some?
    ensures Consume(Consume(Notify(r), id).value, id).None?
  {
  }

  /** Subscribing and then unsubscribing the new client restores the registered set. */
  lemma SubscribeUnsubscribe(r: Registry)
    requires Valid(r)
    ensures Unsubscribe(Subscribe(r).0, Subscribe(r).1).pending == r.pending
  {
    var (r', id) := Subscribe(r);
    assert id !in r.pending;
  }

  /** What can happen to the registry, one locked region at a time. */
  datatype Event = Connect | Disconnect(id: ClientId) | Broadcast | Receive(id: ClientId)

  /** One event, applied as its locked region does; a receive with nothing waiting blocks and is skipped. */
  function Step(r: Registry, e: Event): (r': Registry)
    requires Valid(r)
    ensures Valid(r')
    ensures r'.pending.Keys == r.pending.Keys || e.Connect? || e.Disconnect?
  {
    match e
    case Connect => Subscribe(r).0
    case Disconnect(id) => Unsubscribe(r, id)
    case Broadcast => Notify(r)
    case Receive(id) => match Consume(r, id) { case Some(r2) => r2 case None => r }
  }

  /** The registry after a sequence of events. */
  function Apply(r: Registry, events: seq<Event>): Registry
    requires Valid(r)
    decreases |events|
  {
    if |events| == 0 then r else Apply(Step(r, events[0]), events[1..])
  }

  function Connects(events: seq<Event>): nat
  {
    if |events| == 0 then 0 else (if events[0].Connect? then 1 else 0) + Connects(events[1..])
  }

  function Disconnects(events: seq<Event>): nat
  {
    if |events| == 0 then 0 else (if events[0].Disconnect? then 1 else 0) + Disconnects(events[1..])
  }

  /**
   Over any sequence of events the count moves only through registration:
   it grows by at most one per connect and shrinks by at most one per
   disconnect.
   */
  lemma {:induction false} CountTracksRegistrations(r: Registry, events: seq<Event>)
    requires Valid(r)
    decreases |events|
    ensures Count(Apply(r, events)) <= Count(r) + Connects(events)
    ensures Count(Apply(r, events)) + Disconnects(events) >= Count(r)
  {
    if |events| > 0 {
      var r' := Step(r, events[0]);
      CountTracksRegistrations(r', events[1..]);
    }
  }
}
