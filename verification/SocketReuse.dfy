/**
 A retransmission that comes after its identifier went round: it takes the place of the request
 that has the identifier now, whose caller is forgotten.
 */
module SocketReuse {
  import opened Common
  import opened Outstanding
  import opened SocketSpec
  import opened SocketBooks
  import opened SocketTwice
  import opened SocketOutcomes

  /**
   The first request was answered while its timer was about to queue the retransmission, the channels before `n`
   are used up, and so are the identifiers up to `n`, none of which is outstanding.
   */
  ghost predicate Round(s: Socket, address: string, n: nat) {
    && s.queue == [] && s.requestsMap == map[address := map[]] && s.lastRadiusIdMap == map[address := n]
    && s.timers.live == map[0 := Timer(Sending(address, 2), true)] && s.timers.next > 0
    && s.life == Life(false, true, true, 0, InUse)
    && (forall c :: c in s.channels.mail ==> c < n)
    && 0 in s.channels.mail && s.channels.mail[0] != []
  }

  /** A request tried once is outstanding beside the stalled timer. */
  ghost predicate Busy(s: Socket, address: string, id: nat, c: nat, timer: nat) {
    && s.queue == [] && s.requestsMap == map[address := map[id := RequestContext(c, timer)]]
    && s.lastRadiusIdMap == map[address := id] && 0 < timer < s.timers.next
    && s.timers.live == map[0 := Timer(Sending(address, 2), true), timer := Timer(Request(address, id, 1, c), false)]
    && s.life == Life(false, true, true, 0, InUse)
    && (forall d :: d in s.channels.mail ==> d <= c)
    && 0 in s.channels.mail && s.channels.mail[0] != []
    && c in s.channels.mail && s.channels.mail[c] == [] && c in s.channels.closes && s.channels.closes[c] == 0
  }

  lemma FreshIsQueued(s: Socket, address: string, n: nat, t: Socket)
    requires 1 <= n <= MAX_ID && Round(s, address, n) && t == SendRequest(s, address, 1, n, true)
    ensures Leads(s, Sends(address, 1, n, true), t)
    ensures t.queue == [Transmit(Request(address, 0, 1, n))]
  {
  }

  lemma FreshGoesOut(s: Socket, address: string, n: nat, t: Socket, u: Socket)
    requires 1 <= n <= MAX_ID && Round(s, address, n) && t == SendRequest(s, address, 1, n, true)
    requires u == HandleTransmit(t.(queue := []), Request(address, 0, 1, n), true, true)
    ensures Leads(t, Turn(true, true), u)
    ensures Busy(u, address, NextId(n), n, s.timers.next)
  {
    FreshIsQueued(s, address, n, t);
    assert t.queue[1..] == [];
    assert FirstFree<RequestContext>(map[], n, MAX_ID) == Some(NextId(n));
    var popped := t.(queue := []);
    var given := GetNextRadiusId(popped, address, 0);
    assert given.1 == Some(NextId(n));
    var w, r := given.0, Request(address, NextId(n), 1, n);
    assert w.requestsMap == map[address := map[]];
    assert u == Done(Sent(w, r));
    assert u.requestsMap == map[address := map[NextId(n) := RequestContext(n, s.timers.next)]];
  }

  lemma AnswerIsHandled(s: Socket, address: string, id: nat, c: nat, timer: nat, t: Socket, u: Socket)
    requires Busy(s, address, id, c, timer) && t == Post(s, Response(Key(address, id), Good))
    requires u == HandleResponse(s, Key(address, id), Good)
    ensures Leads(s, Reads(Key(address, id), Good), t) && Leads(t, Turn(true, true), u)
    ensures u.queue == [] && u.requestsMap == map[address := map[]] && u.lastRadiusIdMap == s.lastRadiusIdMap
    ensures u.timers.live == map[0 := Timer(Sending(address, 2), true)] && u.timers.next > 0
    ensures u.life == s.life && u.channels == Told(s.channels, c, Answer(Key(address, id)))
  {
    assert t.queue == [Response(Key(address, id), Good)] && t.queue[1..] == [];
    assert t.(queue := []) == s;
    assert s.requestsMap[address] - {id} == map[];
    assert s.timers.live - {timer} == map[0 := Timer(Sending(address, 2), true)];
  }

  lemma NextRound(states: seq<Socket>, events: seq<Event>, address: string, n: nat)
      returns (states': seq<Socket>, events': seq<Event>)
    requires IsRun(states, events) && 1 <= n < MAX_ID && Round(Last(states), address, n)
    ensures IsRun(states', events') && Round(Last(states'), address, n + 1)
  {
    var u;
    states', events', u := Requested(states, events, address, n);
    var k := Key(address, n + 1);
    var v, w := Post(u, Response(k, Good)), HandleResponse(u, k, Good);
    AnswerIsHandled(u, address, n + 1, n, Last(states).timers.next, v, w);
    Extend(states', events', Reads(k, Good), v);
    states', events' := states' + [v], events' + [Reads(k, Good)];
    Extend(states', events', Turn(true, true), w);
    states', events' := states' + [w], events' + [Turn(true, true)];
  }

  lemma Requested(states: seq<Socket>, events: seq<Event>, address: string, n: nat)
      returns (states': seq<Socket>, events': seq<Event>, u: Socket)
    requires IsRun(states, events) && 1 <= n <= MAX_ID && Round(Last(states), address, n)
    ensures IsRun(states', events') && Last(states') == u && Busy(u, address, NextId(n), n, Last(states).timers.next)
  {
    var s := Last(states);
    var t := SendRequest(s, address, 1, n, true);
    u := HandleTransmit(t.(queue := []), Request(address, 0, 1, n), true, true);
    FreshIsQueued(s, address, n, t);
    FreshGoesOut(s, address, n, t, u);
    Extend(states, events, Sends(address, 1, n, true), t);
    states', events' := states + [t], events + [Sends(address, 1, n, true)];
    Extend(states', events', Turn(true, true), u);
    states', events' := states' + [u], events' + [Turn(true, true)];
  }

  lemma FirstRound(address: string) returns (states: seq<Socket>, events: seq<Event>)
    ensures IsRun(states, events) && Round(Last(states), address, 1)
  {
    states, events := GoesOut(address);
    var s, k := Outbound(address), Key(address, 1);
    var s1 := s.(timers := Timers(map[0 := Timer(Sending(address, 2), true)], 1));
    Extend(states, events, TimerFires(0), s1);
    states, events := states + [s1], events + [TimerFires(0)];
    var s2 := s1.(queue := [Response(k, Good)]);
    Extend(states, events, Reads(k, Good), s2);
    states, events := states + [s2], events + [Reads(k, Good)];
    var s3 := HandleResponse(s1, k, Good);
    assert s2.queue[1..] == [] && s2.(queue := []) == s1;
    assert s1.requestsMap[address] - {1} == map[];
    Extend(states, events, Turn(true, true), s3);
    states, events := states + [s3], events + [Turn(true, true)];
  }

  lemma {:induction false} Rounds(address: string, n: nat) returns (states: seq<Socket>, events: seq<Event>)
    requires 1 <= n <= MAX_ID
    ensures IsRun(states, events) && Round(Last(states), address, n)
    decreases n
  {
    if n == 1 {
      states, events := FirstRound(address);
    } else {
      states, events := Rounds(address, n - 1);
      states, events := NextRound(states, events, address, n - 1);
    }
  }

  lemma StalledTimerSends(s: Socket, address: string, c: nat, timer: nat, t: Socket)
    requires Busy(s, address, 1, c, timer) && t == TimerSend(s, 0)
    ensures Leads(s, TimerSends(0), t) && t.queue == [Transmit(Sending(address, 1))]
    ensures t.requestsMap == s.requestsMap && t.timers.live == map[timer := Timer(Request(address, 1, 1, c), false)]
    ensures t.life.open && t.life.phase.InUse? && t.channels == s.channels && t.timers.next == s.timers.next
  {
    assert s.timers.live - {0} == map[timer := Timer(Request(address, 1, 1, c), false)];
  }

  lemma RetryTakesThePlace(s: Socket, address: string, c: nat, timer: nat, t: Socket)
    requires s.queue == [Transmit(Sending(address, 1))]
    requires s.requestsMap == map[address := map[1 := RequestContext(c, timer)]]
    requires s.timers.live == map[timer := Timer(Request(address, 1, 1, c), false)] && timer < s.timers.next
    requires s.life.open && s.life.phase.InUse? && c != 0
    requires c in s.channels.mail && s.channels.mail[c] == [] && c in s.channels.closes && s.channels.closes[c] == 0
    requires t == HandleTransmit(s.(queue := []), Sending(address, 1), true, true)
    ensures Leads(s, Turn(true, true), t) && Forgotten(BooksOf(t), c)
  {
    assert s.queue[1..] == [];
    assert t == Done(Sent(s.(queue := []), Sending(address, 1)));
    var context := RequestContext(0, s.timers.next);
    assert s.requestsMap[address][1 := context] == map[1 := context];
    assert t.requestsMap == map[address := map[1 := context]];
    forall k | k in Flat(t.requestsMap) ensures Flat(t.requestsMap)[k].rchan != c {
      FlatHas(t.requestsMap, k);
    }
  }

  /** A run after which the caller on the last channel, a request that was sent and not cancelled, is forgotten. */
  lemma CallerIsForgotten(address: string) returns (states: seq<Socket>, events: seq<Event>)
    ensures IsRun(states, events) && Forgotten(BooksOf(Last(states)), MAX_ID)
  {
    states, events := Rounds(address, MAX_ID);
    var timer := Last(states).timers.next;
    var u;
    states, events, u := Requested(states, events, address, MAX_ID);
    var v := TimerSend(u, 0);
    StalledTimerSends(u, address, MAX_ID, timer, v);
    Extend(states, events, TimerSends(0), v);
    states, events := states + [v], events + [TimerSends(0)];
    var w := HandleTransmit(v.(queue := []), Sending(address, 1), true, true);
    RetryTakesThePlace(v, address, MAX_ID, timer, w);
    Extend(states, events, Turn(true, true), w);
    states, events := states + [w], events + [Turn(true, true)];
  }
}
