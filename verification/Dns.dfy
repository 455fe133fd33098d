/** Two pieces of pns-ddns/src/dns_server.rs: the cap on requests in flight, under every interleaving, and the queue
    that paces responses. */
module Dns {
  import opened Types

  // ---------------------------------------------------------------------------------------------
  // Requests in flight
  // ---------------------------------------------------------------------------------------------

  /** Where a request that has bumped the counter is: it has read `seen` from it, or it holds a guard. */
  datatype Place = Counted(seen: nat) | Holding

  /** The atomic counter and the requests between their increment and their decrement. */
  datatype Front = Front(limit: nat, counter: nat, at: map<nat, Place>)

  /** The atomic actions of a request: increment, take the guard, decrement and give up, drop the guard. */
  datatype Move = Enter(id: nat) | Admit(id: nat) | BackOut(id: nat) | Leave(id: nat)

  /** Which action a request can take next. Requests in flight fit the 64-bit counter. */
  predicate Enabled(f: Front, m: Move) {
    match m
    case Enter(id) => id !in f.at && |f.at| < MAX_U64
    case Admit(id) => id in f.at && f.at[id].Counted? && f.at[id].seen < f.limit
    case BackOut(id) => id in f.at && f.at[id].Counted? && f.at[id].seen >= f.limit
    case Leave(id) => id in f.at && f.at[id].Holding?
  }

  function Increment(counter: nat): nat {
    if counter == MAX_U64 then 0 else counter + 1
  }

  /** Wraps below zero, as the atomic does. */
  function Decrement(counter: nat): nat {
    if counter == 0 then MAX_U64 else counter - 1
  }

  function Take(f: Front, m: Move): Front {
    match m
    case Enter(id) => f.(counter := Increment(f.counter), at := f.at[id := Counted(f.counter)])
    case Admit(id) => f.(at := f.at[id := Holding])
    case BackOut(id) => f.(counter := Decrement(f.counter), at := f.at - {id})
    case Leave(id) => f.(counter := Decrement(f.counter), at := f.at - {id})
  }

  predicate Feasible(f: Front, moves: seq<Move>)
    decreases |moves|
  {
    moves == [] || (Enabled(f, moves[0]) && Feasible(Take(f, moves[0]), moves[1..]))
  }

  function After(f: Front, moves: seq<Move>): Front
    decreases |moves|
  {
    if moves == [] then f else After(Take(f, moves[0]), moves[1..])
  }

  function Guards(f: Front): set<nat> {
    set id | id in f.at && f.at[id].Holding?
  }

  /** Requests that hold a guard or have seen room for one. */
  function Admitted(f: Front): set<nat> {
    set id | id in f.at && (f.at[id].Holding? || f.at[id].seen < f.limit)
  }

  /** The counter counts the requests in flight, and no more than the limit of them have been let in. */
  ghost predicate Counting(f: Front) {
    f.counter == |f.at| <= MAX_U64 && |Admitted(f)| <= f.limit
  }

  lemma EnterCounts(f: Front, id: nat)
    requires Counting(f) && Enabled(f, Enter(id))
    ensures Counting(Take(f, Enter(id)))
  {
    var f' := Take(f, Enter(id));
    assert f'.at.Keys == f.at.Keys + {id};
    if f.counter < f.limit {
      assert Admitted(f') == Admitted(f) + {id};
      SubsetSize(Admitted(f), f.at.Keys);
    } else {
      assert Admitted(f') == Admitted(f);
    }
  }

  lemma ExitCounts(f: Front, id: nat)
    requires Counting(f) && id in f.at
    ensures f.counter > 0
    ensures Counting(f.(counter := Decrement(f.counter), at := f.at - {id}))
  {
    var f' := f.(counter := Decrement(f.counter), at := f.at - {id});
    assert f'.at.Keys == f.at.Keys - {id};
    SubsetSize(Admitted(f'), Admitted(f));
  }

  /** Every action keeps the count; in particular a decrement never wraps. */
  lemma TakeCounts(f: Front, m: Move)
    requires Counting(f) && Enabled(f, m)
    ensures Counting(Take(f, m))
    ensures m.BackOut? || m.Leave? ==> f.counter > 0
  {
    hide Counting;
    match m
    case Enter(id) => EnterCounts(f, id);
    case Admit(id) => AdmitCounts(f, id);
    case BackOut(id) => ExitCounts(f, id);
    case Leave(id) => ExitCounts(f, id);
  }

  lemma AdmitCounts(f: Front, id: nat)
    requires Counting(f) && Enabled(f, Admit(id))
    ensures Counting(Take(f, Admit(id)))
  {
    var f' := Take(f, Admit(id));
    assert f'.at.Keys == f.at.Keys;
    assert Admitted(f') == Admitted(f);
  }

  /** A request that comes in is let through exactly when fewer than `limit` are in flight before it, and turned away
      exactly when not; then it holds a guard, or is gone. Nothing happens to the others. */
  lemma EntryExact(f: Front, id: nat)
    requires Counting(f) && Enabled(f, Enter(id))
    ensures var g := Take(f, Enter(id));
            && (Enabled(g, Admit(id)) <==> |f.at| < f.limit)
            && (Enabled(g, BackOut(id)) <==> |f.at| >= f.limit)
            && Take(g, Admit(id)).at == f.at[id := Holding]
            && Take(g, BackOut(id)).at == f.at
            && Enabled(Take(g, Admit(id)), Leave(id)) && Take(Take(g, Admit(id)), Leave(id)).at == f.at
  {
  }

  /** The cap is reached: from an idle server `limit` requests can hold guards at once. */
  lemma CapReached(limit: nat)
    requires limit <= MAX_U64
    ensures exists moves ::
              Feasible(Front(limit, 0, map[]), moves) && |Guards(After(Front(limit, 0, map[]), moves))| == limit
  {
    var idle := Front(limit, 0, map[]);
    assert Guards(idle) == {};
    FillUp(idle, 0);
  }

  /** The next request comes in and is let through, until the cap is reached. */
  function Filling(limit: nat, k: nat): seq<Move>
    requires k <= limit
    decreases limit - k
  {
    if k == limit then [] else [Enter(k), Admit(k)] + Filling(limit, k + 1)
  }

  ghost predicate Filled(f: Front, k: nat) {
    Counting(f) && f.counter == k && |Guards(f)| == k && forall id :: id in f.at ==> id < k
  }

  lemma OneMoreGuard(f: Front, k: nat)
    requires k < f.limit <= MAX_U64 && Filled(f, k)
    ensures Enabled(f, Enter(k)) && Enabled(Take(f, Enter(k)), Admit(k))
    ensures Filled(Take(Take(f, Enter(k)), Admit(k)), k + 1)
  {
    EnterCounts(f, k);
    AdmitCounts(Take(f, Enter(k)), k);
    hide Counting;
    assert Guards(Take(Take(f, Enter(k)), Admit(k))) == Guards(f) + {k};
  }

  lemma {:induction false} FillUp(f: Front, k: nat)
    requires k <= f.limit <= MAX_U64 && Filled(f, k)
    ensures Feasible(f, Filling(f.limit, k)) && |Guards(After(f, Filling(f.limit, k)))| == f.limit
    decreases f.limit - k
  {
    if k < f.limit {
      OneMoreGuard(f, k);
      hide Counting, Guards, Enabled;
      var moves, g := Filling(f.limit, k), Take(f, Enter(k));
      assert moves[1..][0] == Admit(k) && moves[1..][1..] == Filling(f.limit, k + 1);
      FillUp(Take(g, Admit(k)), k + 1);
    }
  }

  /** Whatever the interleaving, at most `limit` requests hold a guard, the counter is the number of guards plus the
      number of requests between their increment and their decision, and it never wraps. */
  lemma {:induction false} NeverOverTheCap(f: Front, moves: seq<Move>)
    requires Counting(f) && Feasible(f, moves)
    ensures var g := After(f, moves);
            && Counting(g)
            && |Guards(g)| <= g.limit == f.limit
            && g.counter == |Guards(g)| + |g.at.Keys - Guards(g)|
    decreases |moves|
  {
    if moves == [] {
      assert Guards(f) <= Admitted(f) <= f.at.Keys;
      SubsetSize(Guards(f), Admitted(f));
      assert f.at.Keys == Guards(f) + (f.at.Keys - Guards(f));
    } else {
      TakeCounts(f, moves[0]);
      NeverOverTheCap(Take(f, moves[0]), moves[1..]);
    }
  }

  // ---------------------------------------------------------------------------------------------
  // Paced responses
  // ---------------------------------------------------------------------------------------------

  /** A request waiting to answer, with the time it entered the queue. */
  datatype Waiter = Waiter(entry: nat, id: nat)

  datatype Response = Response(waiter: Waiter, sentAt: nat)

  ghost function Waiters(sent: seq<Response>): seq<Waiter> {
    seq(|sent|, i requires 0 <= i < |sent| => sent[i].waiter)
  }

  predicate Ripe(w: Waiter, now: nat, min: nat) {
    now >= w.entry + min
  }

  datatype QueueEvent = Arrival(w: Waiter) | Ticked(now: nat)

  /** What was sent and what waits. */
  datatype Desk = Desk(sent: seq<Response>, queue: seq<Waiter>)

  /** An arrival joins the back. A tick answers the waiters at the front up to the first that is not ripe, now. */
  ghost predicate Serves(min: nat, d: Desk, event: QueueEvent, d': Desk) {
    match event
    case Arrival(w) => d'.sent == d.sent && d'.queue == d.queue + [w]
    case Ticked(now) =>
      exists k: nat ::
        && k <= |d.queue| && d'.queue == d.queue[k..] && |d'.sent| == |d.sent| + k && d'.sent[..|d.sent|] == d.sent
        && (forall j :: 0 <= j < k ==> Ripe(d.queue[j], now, min))
        && (forall j :: 0 <= j < k ==> d'.sent[|d.sent| + j] == Response(d.queue[j], now))
        && (k < |d.queue| ==> !Ripe(d.queue[k], now, min))
  }

  class ResponseQueue {
    const min: nat
    var queue: seq<Waiter>
    var sent: seq<Response>
    ghost var received: seq<Waiter>

    /** Everything that came in was sent or waits, in the order it came in, and nothing was sent early. */
    ghost predicate Valid()
      reads this
    {
      && Waiters(sent) + queue == received
      && forall i :: 0 <= i < |sent| ==> Ripe(sent[i].waiter, sent[i].sentAt, min)
    }

    constructor (min: nat)
      ensures Valid() && this.min == min && sent == [] && received == [] && queue == []
    {
      this.min, queue, sent, received := min, [], [], [];
    }

    method Receive(w: Waiter)
      requires Valid()
      modifies this
      ensures Valid() && received == old(received) + [w] && sent == old(sent) && queue == old(queue) + [w]
    {
      queue := queue + [w];
      received := received + [w];
      assert Waiters(sent) + queue == (Waiters(sent) + old(queue)) + [w];
    }

    /** A tick sends the longest ripe prefix of the queue and stops at the first waiter that is not ripe. */
    method Tick(now: nat)
      requires Valid()
      modifies this
      ensures Valid() && received == old(received)
      ensures Serves(min, old(Desk(sent, queue)), Ticked(now), Desk(sent, queue))
    {
      ghost var k := 0;
      while queue != [] && Ripe(queue[0], now, min)
        invariant Valid() && received == old(received)
        invariant k <= |old(queue)| && queue == old(queue)[k..]
        invariant |sent| == |old(sent)| + k && sent[..|old(sent)|] == old(sent)
        invariant forall j :: 0 <= j < k ==> Ripe(old(queue)[j], now, min)
        invariant forall j :: 0 <= j < k ==> sent[|old(sent)| + j] == Response(old(queue)[j], now)
        decreases |queue|
      {
        ghost var waiters := Waiters(sent);
        assert waiters + queue == (waiters + [queue[0]]) + queue[1..];
        sent := sent + [Response(queue[0], now)];
        assert Waiters(sent) == waiters + [queue[0]];
        queue, k := queue[1..], k + 1;
      }
    }
  }

  /** When waiters enter in the order of their times, no ripe waiter is left behind by a tick. */
  lemma NoneLeftBehind(queue: seq<Waiter>, now: nat, min: nat)
    requires forall i, j :: 0 <= i <= j < |queue| ==> queue[i].entry <= queue[j].entry
    requires queue == [] || !Ripe(queue[0], now, min)
    ensures forall w :: w in queue ==> !Ripe(w, now, min)
  {
  }

  ghost function Arrivals(events: seq<QueueEvent>): seq<Waiter> {
    if events == [] then []
    else
      var last := events[|events| - 1];
      Arrivals(events[..|events| - 1]) + if last.Arrival? then [last.w] else []
  }

  /** A run of the queue, event by event. */
  ghost predicate Served(min: nat, events: seq<QueueEvent>, trace: seq<Desk>) {
    && |trace| == |events| + 1 && trace[0] == Desk([], [])
    && forall i :: 0 <= i < |events| ==> Serves(min, trace[i], events[i], trace[i + 1])
  }

  lemma OneMoreServed(min: nat, events: seq<QueueEvent>, trace: seq<Desk>, event: QueueEvent, d: Desk)
    requires Served(min, events, trace) && Serves(min, trace[|events|], event, d)
    ensures Served(min, events + [event], trace + [d])
  {
    hide Serves;
  }

  /** Over every run of arrivals and ticks, responses leave in the order of arrival, each at least `min` after it
      entered, and none is lost or sent twice; every event does what it should. */
  method Pace(min: nat, events: seq<QueueEvent>)
    returns (sent: seq<Response>, waiting: seq<Waiter>, ghost trace: seq<Desk>)
    ensures Waiters(sent) + waiting == Arrivals(events)
    ensures forall i :: 0 <= i < |sent| ==> sent[i].sentAt >= sent[i].waiter.entry + min
    ensures Served(min, events, trace) && trace[|events|] == Desk(sent, waiting)
  {
    var q := new ResponseQueue(min);
    trace := [Desk([], [])];
    for i := 0 to |events|
      invariant q.Valid() && q.received == Arrivals(events[..i])
      invariant Served(min, events[..i], trace) && trace[i] == Desk(q.sent, q.queue)
    {
      match events[i] {
        case Arrival(w) => q.Receive(w);
        case Ticked(now) => q.Tick(now);
      }
      hide Serves, Waiters, Ripe, Served;
      OneMoreServed(min, events[..i], trace, events[i], Desk(q.sent, q.queue));
      assert events[..i + 1][..i] == events[..i];
      assert events[..i] + [events[i]] == events[..i + 1];
      trace := trace + [Desk(q.sent, q.queue)];
    }
    assert events[..|events|] == events;
    return q.sent, q.queue, trace;
  }

  lemma NoneLost(min: nat, d: Desk, event: QueueEvent, d': Desk)
    requires Serves(min, d, event, d')
    ensures Waiters(d'.sent) + d'.queue == Waiters(d.sent) + d.queue + if event.Arrival? then [event.w] else []
  {
    var now, later := Waiters(d.sent) + d.queue, Waiters(d'.sent) + d'.queue;
    match event
    case Arrival(w) =>
      assert later == now + [w];
    case Ticked(_) =>
      assert |later| == |now|;
      forall i | 0 <= i < |now| ensures later[i] == now[i] {
        if i < |d.sent| {
          assert d'.sent[..|d.sent|][i] == d.sent[i];
        }
      }
      assert later == now;
  }

  /** In every run what came in was sent or waits, in order. */
  lemma {:induction false} ServedInOrder(min: nat, events: seq<QueueEvent>, trace: seq<Desk>, i: nat)
    requires Served(min, events, trace) && i <= |events|
    ensures Waiters(trace[i].sent) + trace[i].queue == Arrivals(events[..i])
    decreases i
  {
    hide Serves, Waiters;
    if i == 0 {
      NothingWaits();
    } else {
      ServedInOrder(min, events, trace, i - 1);
      assert events[..i][..i - 1] == events[..i - 1];
      assert Serves(min, trace[i - 1], events[i - 1], trace[i - 1 + 1]);
      NoneLost(min, trace[i - 1], events[i - 1], trace[i]);
    }
  }

  lemma NothingWaits()
    ensures Waiters([]) == []
  {
  }

  lemma NoneRipeInQueue(d: Desk, came: seq<Waiter>, now: nat, min: nat)
    requires Waiters(d.sent) + d.queue == came
    requires forall j, k :: 0 <= j <= k < |came| ==> came[j].entry <= came[k].entry
    requires d.queue == [] || !Ripe(d.queue[0], now, min)
    ensures forall w :: w in d.queue ==> !Ripe(w, now, min)
  {
    forall j, k | 0 <= j <= k < |d.queue| ensures d.queue[j].entry <= d.queue[k].entry {
      assert d.queue[j] == came[|d.sent| + j] && d.queue[k] == came[|d.sent| + k];
    }
    NoneLeftBehind(d.queue, now, min);
  }

  lemma TickStops(min: nat, d: Desk, now: nat, d': Desk)
    requires Serves(min, d, Ticked(now), d')
    ensures d'.queue == [] || !Ripe(d'.queue[0], now, min)
  {
  }

  /** When requests enter in the order of their times, a tick answers everyone whose time has come: whoever came in before
      it and is ripe has been sent. */
  lemma ReadyIsSent(min: nat, events: seq<QueueEvent>, trace: seq<Desk>, i: nat, w: Waiter)
    requires Served(min, events, trace) && i < |events| && events[i].Ticked?
    requires var came := Arrivals(events[..i]);
             forall j, k :: 0 <= j <= k < |came| ==> came[j].entry <= came[k].entry
    requires w in Arrivals(events[..i]) && Ripe(w, events[i].now, min)
    ensures w in Waiters(trace[i + 1].sent)
  {
    hide Serves, Waiters, Ripe;
    var came, d, now := Arrivals(events[..i]), trace[i + 1], events[i].now;
    ServedInOrder(min, events, trace, i + 1);
    assert events[..i + 1][..i] == events[..i];
    assert Waiters(d.sent) + d.queue == came;
    assert Serves(min, trace[i], events[i], d);
    TickStops(min, trace[i], now, d);
    NoneRipeInQueue(d, came, now, min);
    assert w in Waiters(d.sent) + d.queue;
  }
}
