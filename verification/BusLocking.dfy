/** The event bus under its readers/writer lock: publishers send subscriber by subscriber
    while holding the read lock; unsubscribe and shutdown close and remove channel by channel
    under the write lock. A send on, or a close of, a closed channel would panic. */
module BusLocking {
  import opened Basics
  import opened Events

  /** Where the holder of the write lock is. */
  datatype Writer =
    | Subscribing(id: SubscriberId, filter: Filter)
    | Unsubscribing(id: SubscriberId)
    | RemovingOne(id: SubscriberId)
    | ShuttingDown
    | RemovingEach(id: SubscriberId)
    | Unlocking

  /** A publisher that holds the read lock, with the subscribers it has still to visit. */
  datatype Reader = Reader(event: Event, rest: set<SubscriberId>)

  datatype State = State(bus: Bus, readers: map<nat, Reader>, writer: Option<Writer>, panicked: bool)

  datatype Move =
    | ReadLock(p: nat, event: Event)
    | SendNext(p: nat, id: SubscriberId)
    | ReadUnlock(p: nat)
    | WriteLock(writer: Writer)
    | WriterStep(pick: SubscriberId)
    | Receive(id: SubscriberId)

  predicate Enabled(s: State, mv: Move) {
    match mv
    case ReadLock(p, _) => p !in s.readers && s.writer.None?
    case SendNext(p, id) => p in s.readers && id in s.readers[p].rest
    case ReadUnlock(p) => p in s.readers && s.readers[p].rest == {}
    case WriteLock(w) =>
      && s.readers == map[] && s.writer.None?
      && (w.Subscribing? || w.Unsubscribing? || w.ShuttingDown?)
      && (w.Subscribing? ==> w.id !in s.bus.channels)
    case WriterStep(pick) =>
      && s.writer.Some?
      && (s.writer.value.ShuttingDown? && s.bus.closed && s.bus.subscribers != map[] ==> pick in s.bus.subscribers)
    case Receive(_) => true
  }

  /** Closing a channel; true in the second place if it was closed already. */
  function CloseChannel(b: Bus, id: SubscriberId): (Bus, bool) {
    if id in b.channels then (b.(channels := b.channels[id := b.channels[id].(closed := true)]), b.channels[id].closed)
    else (b, true)
  }

  function Forget(b: Bus, id: SubscriberId): Bus {
    b.(subscribers := b.subscribers - {id})
  }

  function WriterMoves(s: State, w: Writer, pick: SubscriberId): State {
    match w
    case Subscribing(id, f) => s.(bus := s.bus.AfterSubscribe(id, f), writer := Some(Unlocking))
    case Unsubscribing(id) =>
      if id in s.bus.subscribers then
        var (bus, again) := CloseChannel(s.bus, id);
        s.(bus := bus, panicked := s.panicked || again, writer := Some(RemovingOne(id)))
      else s.(writer := Some(Unlocking))
    case RemovingOne(id) => s.(bus := Forget(s.bus, id), writer := Some(Unlocking))
    case ShuttingDown =>
      if !s.bus.closed then s.(bus := s.bus.(closed := true))
      else if s.bus.subscribers == map[] then s.(writer := Some(Unlocking))
      else
        var (bus, again) := CloseChannel(s.bus, pick);
        s.(bus := bus, panicked := s.panicked || again, writer := Some(RemovingEach(pick)))
    case RemovingEach(id) => s.(bus := Forget(s.bus, id), writer := Some(Writer.ShuttingDown))
    case Unlocking => s.(writer := None)
  }

  function SendTo(s: State, p: nat, id: SubscriberId): State
    requires p in s.readers
  {
    var r := s.readers[p];
    var s' := s.(readers := s.readers[p := r.(rest := r.rest - {id})]);
    if id !in s.bus.subscribers || !Passes(r.event, s.bus.subscribers[id]) then s'
    else if id !in s.bus.channels || s.bus.channels[id].closed then s'.(panicked := true)
    else s'.(bus := s.bus.(channels := s.bus.channels[id := Offer(s.bus.channels[id], r.event)]))
  }

  function Next(s: State, mv: Move): State {
    if !Enabled(s, mv) then s
    else match mv
         case ReadLock(p, e) =>
           s.(readers := s.readers[p := Reader(e, if s.bus.closed then {} else s.bus.subscribers.Keys)])
         case SendNext(p, id) => SendTo(s, p, id)
         case ReadUnlock(p) => s.(readers := s.readers - {p})
         case WriteLock(w) => s.(writer := Some(w))
         case WriterStep(pick) => WriterMoves(s, s.writer.value, pick)
         case Receive(id) => s.(bus := s.bus.AfterReceive(id))
  }

  function Exec(s: State, moves: seq<Move>): State {
    if moves == [] then s else Next(Exec(s, moves[..|moves| - 1]), moves[|moves| - 1])
  }

  /** The channel the writer has closed but not yet removed from the registry. */
  predicate Leaving(s: State, id: SubscriberId) {
    s.writer.Some? && (s.writer.value.RemovingOne? || s.writer.value.RemovingEach?) && s.writer.value.id == id
  }

  ghost predicate Safe(s: State) {
    && !s.panicked
    && (s.writer.Some? ==> s.readers == map[])
    && (forall id :: id in s.bus.subscribers ==>
          id in s.bus.channels && (s.bus.channels[id].closed <==> Leaving(s, id)))
    && (s.writer.Some? && s.writer.value.Subscribing? ==> s.writer.value.id !in s.bus.channels)
    && (s.writer.Some? && s.writer.value.RemovingEach? ==> s.bus.closed)
    && (forall p :: p in s.readers && s.bus.closed ==> s.readers[p].rest == {})
    && (forall p :: p in s.readers ==> s.readers[p].rest <= s.bus.subscribers.Keys)
  }

  lemma SafeStep(s: State, mv: Move)
    requires Safe(s)
    ensures Safe(Next(s, mv))
  {
    if Enabled(s, mv) && mv.SendNext? {
      assert s.writer.None?;
    }
  }

  lemma {:induction false} SafeForever(s: State, moves: seq<Move>)
    requires Safe(s)
    ensures Safe(Exec(s, moves))
  {
    if moves != [] {
      SafeForever(s, moves[..|moves| - 1]);
      SafeStep(Exec(s, moves[..|moves| - 1]), moves[|moves| - 1]);
    }
  }

  const NEW_BUS: State := State(Bus(map[], map[], false), map[], None, false)

  /** In every interleaving of publishers, subscribers, unsubscribes and shutdowns, in any
      order and however often repeated, no send hits a closed channel and no channel is
      closed twice. */
  lemma {:induction false} BusNeverPanics(moves: seq<Move>)
    ensures !Exec(NEW_BUS, moves).panicked
  {
    SafeForever(NEW_BUS, moves);
  }

  /** Once shutdown has set the closed flag, nothing enters any channel, neither the old
      ones nor those subscribed later. */
  lemma {:induction false} NothingAfterShutdown(s: State, moves: seq<Move>, id: SubscriberId)
    requires Safe(s) && s.bus.closed
    ensures Exec(s, moves).bus.closed
    ensures ContentOf(Exec(s, moves).bus, id) == ContentOf(s.bus, id)
  {
    if moves != [] {
      var before, last := moves[..|moves| - 1], moves[|moves| - 1];
      NothingAfterShutdown(s, before, id);
      SafeForever(s, before);
      ClosedStep(Exec(s, before), last, id);
    }
  }

  lemma ClosedStep(s: State, mv: Move, id: SubscriberId)
    requires Safe(s) && s.bus.closed
    ensures Next(s, mv).bus.closed && ContentOf(Next(s, mv).bus, id) == ContentOf(s.bus, id)
  {
    if mv.Receive? && mv.id == id && id in s.bus.channels && s.bus.channels[id].buffer != [] {
      var ch := s.bus.channels[id];
      assert ch.buffer == [ch.buffer[0]] + ch.buffer[1..];
      assert ch.taken + [ch.buffer[0]] + ch.buffer[1..] == ch.taken + ch.buffer;
    }
  }

  // ---- A publish reaches everybody it should --------------------------------------

  /** The sends of publisher p in a run, in order. */
  function Visits(s: State, moves: seq<Move>, p: nat): seq<SubscriberId> {
    if moves == [] then []
    else
      var before, last := moves[..|moves| - 1], moves[|moves| - 1];
      Visits(s, before, p) + if last.SendNext? && last.p == p && Enabled(Exec(s, before), last) then [last.id] else []
  }

  predicate KeepsLock(moves: seq<Move>, p: nat) {
    forall mv :: mv in moves ==> !(mv.ReadUnlock? && mv.p == p)
  }

  /** Between lock and unlock, whatever the other publishers and readers do, a publisher
      visits only registered subscribers, none twice, and at the unlock it has visited all
      of those registered when it took the lock. */
  lemma {:induction false} PublishVisitsEachOnce(s: State, p: nat, e: Event, moves: seq<Move>)
    requires Safe(s) && Enabled(s, ReadLock(p, e)) && !s.bus.closed && KeepsLock(moves, p)
    ensures var s1 := Next(s, ReadLock(p, e));
            var t, visits := Exec(s1, moves), Visits(s1, moves, p);
            && p in t.readers && t.bus.subscribers == s.bus.subscribers && !t.bus.closed
            && Distinct(visits)
            && (forall id :: id in s.bus.subscribers <==> id in visits || id in t.readers[p].rest)
            && (forall id :: id in visits ==> id !in t.readers[p].rest)
  {
    var s1 := Next(s, ReadLock(p, e));
    SafeStep(s, ReadLock(p, e));
    if moves != [] {
      var before, last := moves[..|moves| - 1], moves[|moves| - 1];
      assert forall mv :: mv in before ==> mv in moves;
      assert last in moves;
      PublishVisitsEachOnce(s, p, e, before);
      SafeForever(s1, before);
      VisitStep(Exec(s1, before), p, last);
      var t := Exec(s1, before);
      if last.SendNext? && last.p == p && Enabled(t, last) {
        assert Visits(s1, moves, p) == Visits(s1, before, p) + [last.id];
      } else {
        assert Visits(s1, moves, p) == Visits(s1, before, p);
      }
    }
  }

  lemma VisitStep(t: State, p: nat, mv: Move)
    requires Safe(t) && p in t.readers && !t.bus.closed && !(mv.ReadUnlock? && mv.p == p)
    ensures var t' := Next(t, mv);
            && p in t'.readers && t'.bus.subscribers == t.bus.subscribers && !t'.bus.closed
            && t'.readers[p].event == t.readers[p].event
            && t'.readers[p].rest
               == if mv.SendNext? && mv.p == p && Enabled(t, mv) then t.readers[p].rest - {mv.id} else t.readers[p].rest
  {
  }

  // ---- Concurrent publishers as seen by one subscriber ----------------------------

  /** The atomic bus acts that a move amounts to for subscriber id: a visit to id is a
      publish, the first step of a writer is its whole effect. */
  function Emitted(s: State, mv: Move, id: SubscriberId): seq<Act> {
    if !Enabled(s, mv) then []
    else match mv
         case SendNext(p, i) => if i == id then [Publishing(s.readers[p].event)] else []
         case Receive(i) => [Receiving(i)]
         case WriterStep(_) =>
           (match s.writer.value
            case Subscribing(i, f) => [Act.Subscribing(i, f)]
            case Unsubscribing(i) => [Act.Unsubscribing(i)]
            case ShuttingDown => if s.bus.closed then [] else [Act.ShuttingDown]
            case _ => [])
         case _ => []
  }

  function AllEmitted(s: State, moves: seq<Move>, id: SubscriberId): seq<Act> {
    if moves == [] then []
    else
      var before, last := moves[..|moves| - 1], moves[|moves| - 1];
      AllEmitted(s, before, id) + Emitted(Exec(s, before), last, id)
  }

  /** The locked bus and an atomic bus agree on one subscriber: same buffer and reads, and
      while the bus is open the same registration. */
  ghost predicate Agrees(s: State, b: Bus, id: SubscriberId) {
    && s.bus.closed == b.closed
    && (id in s.bus.channels <==> id in b.channels)
    && (id in b.channels ==>
          s.bus.channels[id].buffer == b.channels[id].buffer && s.bus.channels[id].taken == b.channels[id].taken)
    && (!b.closed ==> (id in b.subscribers <==> id in s.bus.subscribers && !Leaving(s, id)))
    && (!b.closed && id in b.subscribers ==> b.subscribers[id] == s.bus.subscribers[id])
    && b.Valid()
  }

  lemma AgreesSubscribing(s: State, b: Bus, i: SubscriberId, f: Filter, id: SubscriberId)
    requires Safe(s) && Agrees(s, b, id) && s.writer == Some(Writer.Subscribing(i, f))
    ensures Agrees(s.(bus := s.bus.AfterSubscribe(i, f), writer := Some(Unlocking)),
                   After(b, Act.Subscribing(i, f)), id)
  {
  }

  lemma AgreesClosing(s: State, b: Bus, i: SubscriberId, id: SubscriberId)
    requires Safe(s) && Agrees(s, b, id) && s.writer == Some(Writer.Unsubscribing(i)) && i in s.bus.subscribers
    ensures Agrees(s.(bus := CloseChannel(s.bus, i).0, writer := Some(RemovingOne(i))),
                   After(b, Act.Unsubscribing(i)), id)
  {
  }

  lemma AgreesWriter(s: State, b: Bus, pick: SubscriberId, id: SubscriberId)
    requires Safe(s) && Agrees(s, b, id) && Enabled(s, WriterStep(pick))
    ensures var acts := Emitted(s, WriterStep(pick), id);
            Agrees(Next(s, WriterStep(pick)), if acts == [] then b else After(b, acts[0]), id)
  {
    match s.writer.value {
      case Subscribing(i, f) => AgreesSubscribing(s, b, i, f, id);
      case Unsubscribing(i) =>
        if i in s.bus.subscribers {
          AgreesClosing(s, b, i, id);
        }
      case _ =>
    }
  }

  lemma AgreesSend(s: State, b: Bus, p: nat, i: SubscriberId, id: SubscriberId)
    requires Safe(s) && Agrees(s, b, id) && Enabled(s, SendNext(p, i))
    ensures Agrees(SendTo(s, p, i), if i == id then After(b, Publishing(s.readers[p].event)) else b, id)
  {
  }

  lemma AgreesReceive(s: State, b: Bus, i: SubscriberId, id: SubscriberId)
    requires Agrees(s, b, id)
    ensures Agrees(s.(bus := s.bus.AfterReceive(i)), After(b, Receiving(i)), id)
  {
  }

  lemma AgreesStep(s: State, b: Bus, mv: Move, id: SubscriberId)
    requires Safe(s) && Agrees(s, b, id)
    ensures Agrees(Next(s, mv), AfterAll(b, Emitted(s, mv, id)), id)
  {
    var acts := Emitted(s, mv, id);
    assert acts != [] ==> acts[..0] == [] && |acts| == 1;
    if Enabled(s, mv) {
      match mv {
        case SendNext(p, i) => AgreesSend(s, b, p, i, id);
        case Receive(i) => AgreesReceive(s, b, i, id);
        case WriterStep(pick) => AgreesWriter(s, b, pick, id);
        case _ =>
      }
    }
  }

  lemma {:induction false} AfterAllAppend(b: Bus, xs: seq<Act>, ys: seq<Act>)
    ensures AfterAll(b, xs + ys) == AfterAll(AfterAll(b, xs), ys)
  {
    if ys == [] {
      assert xs + ys == xs;
    } else {
      assert (xs + ys)[..|xs + ys| - 1] == xs + ys[..|ys| - 1];
      AfterAllAppend(b, xs, ys[..|ys| - 1]);
    }
  }

  lemma {:induction false} SubscriberSeesAtomicBus(moves: seq<Move>, id: SubscriberId)
    ensures Safe(Exec(NEW_BUS, moves))
    ensures Agrees(Exec(NEW_BUS, moves), AfterAll(NEW_BUS.bus, AllEmitted(NEW_BUS, moves, id)), id)
  {
    SafeForever(NEW_BUS, moves);
    if moves != [] {
      var before, last := moves[..|moves| - 1], moves[|moves| - 1];
      SubscriberSeesAtomicBus(before, id);
      AgreesStep(Exec(NEW_BUS, before), AfterAll(NEW_BUS.bus, AllEmitted(NEW_BUS, before, id)), last, id);
      AfterAllAppend(NEW_BUS.bus, AllEmitted(NEW_BUS, before, id), Emitted(Exec(NEW_BUS, before), last, id));
    }
  }

  /** So with concurrent publishers too, a subscriber receives, in one order, every matching
      event of the publishers that visited it, except those that found its buffer full. */
  lemma {:induction false} ConcurrentDelivery(moves: seq<Move>, id: SubscriberId)
    ensures var content := ContentOf(Exec(NEW_BUS, moves).bus, id);
            var acts := AllEmitted(NEW_BUS, moves, id);
            && Subsequence(content, Offered(NEW_BUS.bus, acts, id))
            && |content| + Drops(NEW_BUS.bus, acts, id) == |Offered(NEW_BUS.bus, acts, id)|
  {
    SubscriberSeesAtomicBus(moves, id);
    DeliveredInOrder(NEW_BUS.bus, AllEmitted(NEW_BUS, moves, id), id);
  }
}
