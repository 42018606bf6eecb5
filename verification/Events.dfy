/** The event bus: bounded subscriber channels, drop on full, unsubscribe and shutdown, with
    every bus operation atomic. */
module Events {
  import opened Basics

  type SubscriberId = nat

  const CHANNEL_CAPACITY: nat := 100

  /** An empty id and a zero creation time are filled in by Publish. */
  datatype Event = Event(id: string, kind: string, objectType: string, createdAt: int)
  datatype Filter = Filter(kinds: seq<string>, objectTypes: seq<string>)

  /** A subscriber channel: what is buffered and what its reader has taken so far. */
  datatype Channel = Channel(buffer: seq<Event>, taken: seq<Event>, closed: bool) {
    /** Everything that was ever put into the channel, in order. */
    function Content(): seq<Event> { taken + buffer }

    predicate Full() { |buffer| >= CHANNEL_CAPACITY }
  }

  /** What a filter asks for: one of its kinds if it names any, and one of its object types if it
      names any. */
  ghost predicate Wanted(e: Event, f: Filter) {
    && (|f.kinds| == 0 || exists i :: 0 <= i < |f.kinds| && f.kinds[i] == e.kind)
    && (|f.objectTypes| == 0 || exists i :: 0 <= i < |f.objectTypes| && f.objectTypes[i] == e.objectType)
  }

  predicate Passes(e: Event, f: Filter) {
    && (f.kinds == [] || e.kind in f.kinds)
    && (f.objectTypes == [] || e.objectType in f.objectTypes)
  }

  function Stamped(e: Event, freshId: string, now: int): Event {
    e.(id := if e.id == "" then freshId else e.id, createdAt := if e.createdAt == 0 then now else e.createdAt)
  }

  /** A send that does not block: it drops the event when the buffer is full. */
  function Offer(ch: Channel, e: Event): Channel {
    if ch.Full() then ch else ch.(buffer := ch.buffer + [e])
  }

  datatype Bus = Bus(subscribers: map<SubscriberId, Filter>, channels: map<SubscriberId, Channel>, closed: bool) {
    /** Registered channels exist and are open. */
    predicate Valid() {
      forall id :: id in subscribers ==> id in channels && !channels[id].closed
    }

    function AfterPublish(e: Event): Bus {
      if closed then this
      else this.(channels := map id | id in channels ::
                   if id in subscribers && Passes(e, subscribers[id]) then Offer(channels[id], e) else channels[id])
    }

    function AfterSubscribe(id: SubscriberId, f: Filter): Bus {
      this.(subscribers := subscribers[id := f], channels := channels[id := Channel([], [], false)])
    }

    function AfterUnsubscribe(id: SubscriberId): Bus {
      if id in subscribers && id in channels then
        this.(subscribers := subscribers - {id}, channels := channels[id := channels[id].(closed := true)])
      else this
    }

    function AfterShutdown(): Bus {
      Bus(map[],
          map id | id in channels :: if id in subscribers then channels[id].(closed := true) else channels[id],
          true)
    }

    function AfterReceive(id: SubscriberId): Bus {
      if id in channels && channels[id].buffer != [] then
        var ch := channels[id];
        this.(channels := channels[id := ch.(buffer := ch.buffer[1..], taken := ch.taken + [ch.buffer[0]])])
      else this
    }
  }

  /** The event is at the end of the channel of exactly those registered subscribers that want it
      and have fewer than a hundred events unread; nothing else has changed. */
  ghost predicate SentTo(b: Bus, b': Bus, e: Event) {
    && b'.subscribers == b.subscribers && b'.closed == b.closed && b'.channels.Keys == b.channels.Keys
    && forall id :: id in b.channels ==>
         var ch := b.channels[id];
         b'.channels[id] == if !b.closed && id in b.subscribers && Wanted(e, b.subscribers[id]) && |ch.buffer| < 100
                            then ch.(buffer := ch.buffer + [e]) else ch
  }

  lemma PassesIfWanted(e: Event, f: Filter)
    ensures Passes(e, f) <==> Wanted(e, f)
  {
  }

  lemma PublishSends(b: Bus, e: Event)
    ensures SentTo(b, b.AfterPublish(e), e)
  {
    forall id | id in b.channels && id in b.subscribers
      ensures Passes(e, b.subscribers[id]) <==> Wanted(e, b.subscribers[id])
    {
      PassesIfWanted(e, b.subscribers[id]);
    }
  }

  /** The bus object. Channels stay with their readers after they leave the registry. */
  class EventBus {
    var subscribers: map<SubscriberId, Filter>
    var channels: map<SubscriberId, Channel>
    var closed: bool

    function View(): Bus
      reads this
    {
      Bus(subscribers, channels, closed)
    }

    constructor ()
      ensures View() == Bus(map[], map[], false) && View().Valid()
    {
      subscribers, channels, closed := map[], map[], false;
    }

    method Matches(e: Event, f: Filter) returns (passes: bool)
      ensures passes == Passes(e, f)
      ensures passes <==> Wanted(e, f)
    {
      if |f.kinds| > 0 {
        passes := false;
        for i := 0 to |f.kinds|
          invariant !passes && e.kind !in f.kinds[..i]
        {
          if f.kinds[i] == e.kind {
            passes := true;
            break;
          }
        }
        assert f.kinds[..|f.kinds|] == f.kinds;
        if !passes {
          return false;
        }
      }
      if |f.objectTypes| > 0 {
        passes := false;
        for i := 0 to |f.objectTypes|
          invariant !passes && e.objectType !in f.objectTypes[..i]
        {
          if f.objectTypes[i] == e.objectType {
            passes := true;
            break;
          }
        }
        assert f.objectTypes[..|f.objectTypes|] == f.objectTypes;
        if !passes {
          return false;
        }
      }
      return true;
    }

    /** The non-blocking send: a full buffer drops the event. */
    method TrySend(id: SubscriberId, e: Event)
      requires id in channels && !channels[id].closed
      modifies this`channels
      ensures channels == old(channels)[id := Offer(old(channels)[id], e)]
      ensures channels[id] == old(channels[id]).(buffer :=
                old(channels[id]).buffer + if |old(channels[id]).buffer| < 100 then [e] else [])
    {
      if |channels[id].buffer| < CHANNEL_CAPACITY {
        channels := channels[id := channels[id].(buffer := channels[id].buffer + [e])];
      }
    }

    /** Offers the event to every registered channel whose filter passes, in whatever order. */
    method Deliver(e: Event)
      requires View().Valid() && !closed
      modifies this`channels
      ensures View() == old(View()).AfterPublish(e) && View().Valid()
    {
      var rest := subscribers.Keys;
      while rest != {}
        invariant rest <= subscribers.Keys
        invariant channels == map id | id in old(channels) ::
                    if id in subscribers && id !in rest && Passes(e, subscribers[id]) then Offer(old(channels)[id], e)
                    else old(channels)[id]
        decreases rest
      {
        var id :| id in rest;
        rest := rest - {id};
        var pass := Matches(e, subscribers[id]);
        if pass {
          TrySend(id, e);
        }
      }
    }

    method Publish(event: Event, freshId: string, now: int)
      requires View().Valid()
      modifies this`channels
      ensures View() == old(View()).AfterPublish(Stamped(event, freshId, now)) && View().Valid()
      ensures SentTo(old(View()), View(),
                     Event(if event.id == "" then freshId else event.id, event.kind, event.objectType,
                           if event.createdAt == 0 then now else event.createdAt))
    {
      PublishSends(View(), Stamped(event, freshId, now));
      if closed {
        return;
      }
      var e := event;
      if e.id == "" {
        e := e.(id := freshId);
      }
      if e.createdAt == 0 {
        e := e.(createdAt := now);
      }
      Deliver(e);
    }

    method Subscribe(id: SubscriberId, filter: Filter)
      requires View().Valid() && id !in channels
      modifies this
      ensures View() == old(View()).AfterSubscribe(id, filter) && View().Valid()
    {
      channels := channels[id := Channel([], [], false)];
      subscribers := subscribers[id := filter];
    }

    method Unsubscribe(id: SubscriberId)
      requires View().Valid()
      modifies this
      ensures View() == old(View()).AfterUnsubscribe(id) && View().Valid()
      ensures subscribers == old(subscribers) - {id} && closed == old(closed)
      ensures channels == if id in old(subscribers) then old(channels)[id := old(channels[id]).(closed := true)]
                          else old(channels)
    {
      if id in subscribers {
        assert !channels[id].closed;
        channels := channels[id := channels[id].(closed := true)];
        subscribers := subscribers - {id};
      }
    }

    method Shutdown()
      requires View().Valid()
      modifies this
      ensures View() == old(View()).AfterShutdown() && View().Valid()
      ensures subscribers == map[] && closed && channels.Keys == old(channels).Keys
      ensures forall id :: id in channels ==>
                channels[id] == old(channels)[id].(closed := old(channels)[id].closed || id in old(subscribers))
    {
      closed := true;
      while subscribers != map[]
        invariant subscribers.Keys <= old(subscribers).Keys && closed && View().Valid()
        invariant channels == map id | id in old(channels) ::
                    if id in old(subscribers) && id !in subscribers then old(channels)[id].(closed := true)
                    else old(channels)[id]
        decreases subscribers.Keys
      {
        var id :| id in subscribers;
        assert !channels[id].closed;
        channels := channels[id := channels[id].(closed := true)];
        subscribers := subscribers - {id};
      }
    }
  }

  // ---- Delivery over runs ---------------------------------------------------------

  datatype Act =
    | Publishing(event: Event)
    | Subscribing(id: SubscriberId, filter: Filter)
    | Unsubscribing(id: SubscriberId)
    | ShuttingDown
    | Receiving(id: SubscriberId)

  /** Subscription ids are fresh; a used id does nothing. */
  function After(b: Bus, a: Act): Bus {
    match a
    case Publishing(e) => b.AfterPublish(e)
    case Subscribing(id, f) => if id in b.channels then b else b.AfterSubscribe(id, f)
    case Unsubscribing(id) => b.AfterUnsubscribe(id)
    case ShuttingDown => b.AfterShutdown()
    case Receiving(id) => b.AfterReceive(id)
  }

  function AfterAll(b: Bus, acts: seq<Act>): Bus {
    if acts == [] then b else After(AfterAll(b, acts[..|acts| - 1]), acts[|acts| - 1])
  }

  /** Whether the last act of a run is a publish that reaches subscriber id. */
  predicate Reaches(b: Bus, a: Act, id: SubscriberId) {
    a.Publishing? && !b.closed && id in b.subscribers && Passes(a.event, b.subscribers[id])
  }

  /** The matching events published while id was subscribed, in order. */
  function Offered(b: Bus, acts: seq<Act>, id: SubscriberId): seq<Event> {
    if acts == [] then []
    else
      var before, last := acts[..|acts| - 1], acts[|acts| - 1];
      Offered(b, before, id) + if Reaches(AfterAll(b, before), last, id) then [last.event] else []
  }

  /** How many of them found the buffer full. */
  function Drops(b: Bus, acts: seq<Act>, id: SubscriberId): nat {
    if acts == [] then 0
    else
      var before, last := acts[..|acts| - 1], acts[|acts| - 1];
      var b1 := AfterAll(b, before);
      Drops(b, before, id)
      + if Reaches(b1, last, id) && id in b1.channels && b1.channels[id].Full() then 1 else 0
  }

  predicate Subsequence<T(==)>(a: seq<T>, b: seq<T>) {
    if a == [] then true
    else if b == [] then false
    else if a[|a| - 1] == b[|b| - 1] && Subsequence(a[..|a| - 1], b[..|b| - 1]) then true
    else Subsequence(a, b[..|b| - 1])
  }

  lemma {:induction false} SubsequenceOfSameLength<T>(a: seq<T>, b: seq<T>)
    requires Subsequence(a, b)
    ensures |a| <= |b|
    ensures |a| == |b| ==> a == b
  {
    if a != [] {
      var b' := b[..|b| - 1];
      if a[|a| - 1] == b[|b| - 1] && Subsequence(a[..|a| - 1], b') {
        SubsequenceOfSameLength(a[..|a| - 1], b');
        assert a == a[..|a| - 1] + [a[|a| - 1]] && b == b' + [b[|b| - 1]];
      } else {
        SubsequenceOfSameLength(a, b');
      }
    }
  }

  lemma ActKeepsValid(b: Bus, a: Act)
    requires b.Valid()
    ensures After(b, a).Valid() && b.channels.Keys <= After(b, a).channels.Keys
  {
  }

  lemma {:induction false} BusStaysValid(b: Bus, acts: seq<Act>)
    requires b.Valid()
    ensures AfterAll(b, acts).Valid() && b.channels.Keys <= AfterAll(b, acts).channels.Keys
  {
    if acts != [] {
      BusStaysValid(b, acts[..|acts| - 1]);
      ActKeepsValid(AfterAll(b, acts[..|acts| - 1]), acts[|acts| - 1]);
    }
  }

  function ContentOf(b: Bus, id: SubscriberId): seq<Event> {
    if id in b.channels then b.channels[id].Content() else []
  }

  /** One act changes what ever entered channel id only by appending a matching event that
      finds room. */
  lemma ContentStep(b: Bus, a: Act, id: SubscriberId)
    requires b.Valid()
    ensures ContentOf(After(b, a), id)
         == ContentOf(b, id) + if Reaches(b, a, id) && !b.channels[id].Full() then [a.event] else []
  {
  }

  /** What a subscriber has read plus what is buffered is an in-order subsequence of the
      matching events published while it was subscribed, and it misses exactly the events
      that found its buffer full: nothing is duplicated, reordered or invented. */
  lemma {:induction false} DeliveredInOrder(b: Bus, acts: seq<Act>, id: SubscriberId)
    requires b.Valid() && id !in b.channels
    ensures Subsequence(ContentOf(AfterAll(b, acts), id), Offered(b, acts, id))
    ensures |ContentOf(AfterAll(b, acts), id)| + Drops(b, acts, id) == |Offered(b, acts, id)|
  {
    if acts != [] {
      var before, last := acts[..|acts| - 1], acts[|acts| - 1];
      BusStaysValid(b, before);
      DeliveredInOrder(b, before, id);
      var b1 := AfterAll(b, before);
      ContentStep(b1, last, id);
      var offered, content := Offered(b, before, id), ContentOf(b1, id);
      SubsequenceStep(content, offered, last,
                      Reaches(b1, last, id) && !b1.channels[id].Full(), Reaches(b1, last, id));
      BusStaysValid(b, acts);
    }
  }

  lemma SubsequenceStep(content: seq<Event>, offered: seq<Event>, a: Act, kept: bool, reached: bool)
    requires Subsequence(content, offered) && (reached ==> a.Publishing?) && (kept ==> reached)
    ensures Subsequence(content + (if kept then [a.event] else []), offered + if reached then [a.event] else [])
  {
    if kept {
      assert (offered + [a.event])[..|offered|] == offered;
      assert (content + [a.event])[..|content|] == content;
    } else {
      assert content + [] == content;
      if reached {
        SubsequenceSkips(content, offered, a.event);
      } else {
        assert offered + [] == offered;
      }
    }
  }

  lemma SubsequenceSkips<T>(a: seq<T>, b: seq<T>, x: T)
    requires Subsequence(a, b)
    ensures Subsequence(a, b + [x])
  {
  }

  /** In particular the subscriber gets every matching event exactly if none was dropped. */
  lemma {:induction false} CompleteIffNoDrop(b: Bus, acts: seq<Act>, id: SubscriberId)
    requires b.Valid() && id !in b.channels
    ensures ContentOf(AfterAll(b, acts), id) == Offered(b, acts, id) <==> Drops(b, acts, id) == 0
  {
    DeliveredInOrder(b, acts, id);
    SubsequenceOfSameLength(ContentOf(AfterAll(b, acts), id), Offered(b, acts, id));
  }

  /** The filter of the first subscription under id. */
  function SubscribedWith(acts: seq<Act>, id: SubscriberId): Option<Filter> {
    if acts == [] then None
    else
      var last := acts[|acts| - 1];
      match SubscribedWith(acts[..|acts| - 1], id)
      case Some(f) => Some(f)
      case None => if last.Subscribing? && last.id == id then Some(last.filter) else None
  }

  /** Everything that ever entered a subscriber's channel is wanted by the filter it subscribed
      with, which stays its filter while it is registered. */
  lemma {:induction false} OnlyWantedDelivered(b: Bus, acts: seq<Act>, id: SubscriberId)
    requires b.Valid() && id !in b.channels
    ensures var b', f := AfterAll(b, acts), SubscribedWith(acts, id);
            && (id in b'.channels <==> f.Some?)
            && (id in b'.subscribers ==> f.Some? && b'.subscribers[id] == f.value)
            && (forall e :: e in ContentOf(b', id) ==> f.Some? && Wanted(e, f.value))
  {
    if acts != [] {
      var before, last := acts[..|acts| - 1], acts[|acts| - 1];
      BusStaysValid(b, before);
      OnlyWantedDelivered(b, before, id);
      WantedStep(AfterAll(b, before), last, id, SubscribedWith(before, id));
    }
  }

  lemma WantedStep(b: Bus, a: Act, id: SubscriberId, f: Option<Filter>)
    requires b.Valid() && (id in b.channels <==> f.Some?)
    requires id in b.subscribers ==> f.Some? && b.subscribers[id] == f.value
    requires forall e :: e in ContentOf(b, id) ==> f.Some? && Wanted(e, f.value)
    ensures var b' := After(b, a);
            var f' := if f.None? && a.Subscribing? && a.id == id then Some(a.filter) else f;
            && (id in b'.channels <==> f'.Some?)
            && (id in b'.subscribers ==> f'.Some? && b'.subscribers[id] == f'.value)
            && (forall e :: e in ContentOf(b', id) ==> f'.Some? && Wanted(e, f'.value))
  {
    ContentStep(b, a, id);
    if a.Publishing? && f.Some? {
      PassesIfWanted(a.event, f.value);
    }
  }

  /** At every point of a run a published event enters the channel of exactly those registered
      subscribers that want it and have fewer than a hundred events unread, and at its end. */
  lemma WantedIsDelivered(b: Bus, acts: seq<Act>, e: Event, id: SubscriberId)
    requires b.Valid()
    ensures var b1, b2 := AfterAll(b, acts), AfterAll(b, acts + [Publishing(e)]);
            && (id in b1.subscribers ==> id in b1.channels)
            && ContentOf(b2, id)
               == if !b1.closed && id in b1.subscribers && Wanted(e, b1.subscribers[id])
                     && |b1.channels[id].buffer| < 100
                  then ContentOf(b1, id) + [e] else ContentOf(b1, id)
  {
    var b1 := AfterAll(b, acts);
    BusStaysValid(b, acts);
    assert (acts + [Publishing(e)])[..|acts|] == acts;
    ContentStep(b1, Publishing(e), id);
    if id in b1.subscribers {
      PassesIfWanted(e, b1.subscribers[id]);
    }
    assert ContentOf(b1, id) + [] == ContentOf(b1, id);
  }

  /** In every run from an empty bus a channel is open exactly while it is registered. */
  lemma {:induction false} OpenIffRegistered(acts: seq<Act>, id: SubscriberId)
    requires id in AfterAll(Bus(map[], map[], false), acts).channels
    ensures var b := AfterAll(Bus(map[], map[], false), acts); b.channels[id].closed <==> id !in b.subscribers
  {
    if acts != [] {
      var before := AfterAll(Bus(map[], map[], false), acts[..|acts| - 1]);
      if id in before.channels {
        OpenIffRegistered(acts[..|acts| - 1], id);
      }
    }
  }

  // ---- Subscribers do not interfere -----------------------------------------------

  /** All that concerns one subscriber. */
  datatype Corner = Corner(filter: Option<Filter>, channel: Option<Channel>, closed: bool)

  function CornerOf(b: Bus, id: SubscriberId): Corner {
    Corner(if id in b.subscribers then Some(b.subscribers[id]) else None,
           if id in b.channels then Some(b.channels[id]) else None, b.closed)
  }

  predicate Concerns(a: Act, id: SubscriberId) {
    match a
    case Publishing(_) => true
    case ShuttingDown => true
    case Subscribing(i, _) => i == id
    case Unsubscribing(i) => i == id
    case Receiving(i) => i == id
  }

  /** The run without the subscribe, unsubscribe and receive acts of everybody else. */
  function Alone(acts: seq<Act>, id: SubscriberId): seq<Act> {
    if acts == [] then []
    else Alone(acts[..|acts| - 1], id) + if Concerns(acts[|acts| - 1], id) then [acts[|acts| - 1]] else []
  }

  lemma SameCornerStep(b: Bus, b': Bus, a: Act, id: SubscriberId)
    requires CornerOf(b, id) == CornerOf(b', id)
    ensures Concerns(a, id) ==> CornerOf(After(b, a), id) == CornerOf(After(b', a), id)
    ensures !Concerns(a, id) ==> CornerOf(After(b, a), id) == CornerOf(b, id)
  {
  }

  /** Isolation: what a subscriber sees at any point of any run is what it would see with
      every other subscriber absent, however slowly the others read. */
  lemma {:induction false} SubscribersAreIsolated(b: Bus, acts: seq<Act>, id: SubscriberId)
    ensures CornerOf(AfterAll(b, acts), id) == CornerOf(AfterAll(b, Alone(acts, id)), id)
  {
    if acts != [] {
      var before, last := acts[..|acts| - 1], acts[|acts| - 1];
      SubscribersAreIsolated(b, before, id);
      SameCornerStep(AfterAll(b, before), AfterAll(b, Alone(before, id)), last, id);
      if Concerns(last, id) {
        assert (Alone(before, id) + [last])[..|Alone(before, id)|] == Alone(before, id);
      } else {
        assert Alone(acts, id) == Alone(before, id) + [];
        assert Alone(before, id) + [] == Alone(before, id);
      }
    }
  }
}
