/** What holds in every run of a RADIUS client socket, retransmissions or not. */
module SocketRuns {
  import opened Common
  import opened Outstanding
  import opened SocketSpec
  import opened SocketIds
  import opened SocketBooks

  // ----- Identifiers and endpoints

  lemma ApplyKeepsRange(b: Books, op: Op, last: map<string, nat>)
    requires Possible(b, op) && Ranged(b.out, last, b.live, b.queue)
    requires op.Register? ==> 1 <= op.id <= MAX_ID
    ensures var t := Apply(b, op); Ranged(t.out, last, t.live, t.queue)
  {
    match op
    case Rest =>
    case Arrive(_) =>
    case Enter(_, _, _) =>
    case TurnAway(_, _) =>
    case Drop =>
    case Settle(_, _, _) =>
    case SettleAll =>
    case Refuse(_, alarm) => if alarm {} else {}
    case Register(_) => assert b.queue[0] in b.queue;
    case Fire(_) =>
    case Expire(t) => assert 1 <= b.live[t].request.id <= MAX_ID;
  }

  lemma HintAfterTransmit(s: Socket, r: Request, marshalOk: bool, writeOk: bool)
    ensures HandleTransmit(s, r, marshalOk, writeOk).lastRadiusIdMap ==
            GetNextRadiusId(s, r.endpoint, r.id).0.lastRadiusIdMap
    ensures HandleTransmit(s, r, marshalOk, writeOk).requestsMap.Keys ==
            GetNextRadiusId(s, r.endpoint, r.id).0.requestsMap.Keys
  {
  }

  lemma HintAfterResponse(s: Socket, k: Key, v: Verdict)
    ensures HandleResponse(s, k, v).lastRadiusIdMap == s.lastRadiusIdMap
  {
    if Has(s.requestsMap, k) {} else {}
  }

  lemma HintAfterCancel(s: Socket, k: Key)
    ensures HandleCancel(s, k).lastRadiusIdMap == s.lastRadiusIdMap
  {
    if Has(s.requestsMap, k) {} else {}
  }

  lemma HintAfterGoDown(s: Socket, terminated: bool)
    ensures GoDown(s, terminated).lastRadiusIdMap == s.lastRadiusIdMap
  {
  }

  lemma HintAfterTurn(s: Socket, m: Msg, marshalOk: bool, writeOk: bool)
    ensures Handle(s, m, marshalOk, writeOk).lastRadiusIdMap ==
      if m.Transmit? then GetNextRadiusId(s, m.request.endpoint, m.request.id).0.lastRadiusIdMap else s.lastRadiusIdMap
  {
    match m
    case Transmit(r) => HintAfterTransmit(s, r, marshalOk, writeOk);
    case Response(k, v) => HintAfterResponse(s, k, v);
    case CancelRequest(k) => HintAfterCancel(s, k);
    case SocketClose =>
    case ReadError => HintAfterGoDown(s, s.life.terminated);
    case SetDownCommand => HintAfterGoDown(s, true);
  }

  ghost predicate HintsInRange(last: map<string, nat>) {
    forall endpoint :: endpoint in last ==> 1 <= last[endpoint] <= MAX_ID
  }

  lemma AllocationKeepsHints(s: Socket, endpoint: string, current: nat)
    requires HintsInRange(s.lastRadiusIdMap)
    ensures HintsInRange(GetNextRadiusId(s, endpoint, current).0.lastRadiusIdMap)
  {
    SearchIsComplete(Known(s, endpoint), LastId(s, endpoint));
  }

  lemma HintsStayInRange(s: Socket, e: Event)
    requires Enabled(s, e) && HintsInRange(s.lastRadiusIdMap)
    ensures HintsInRange(Step(s, e).lastRadiusIdMap)
  {
    if e.Turn? {
      var popped, m := s.(queue := s.queue[1..]), s.queue[0];
      HintAfterTurn(popped, m, e.marshalOk, e.writeOk);
      if m.Transmit? {
        AllocationKeepsHints(popped, m.request.endpoint, m.request.id);
      }
    } else {
      assert Step(s, e).lastRadiusIdMap == s.lastRadiusIdMap;
    }
  }

  lemma OpInRange(s: Socket, e: Event)
    requires Enabled(s, e) && InRange(s) && OpOf(s, e).Register?
    ensures 1 <= OpOf(s, e).id <= MAX_ID
  {
    var r := s.queue[0].request;
    assert s.queue[0] in s.queue;
    SearchIsComplete(Known(s, r.endpoint), LastId(s, r.endpoint));
  }

  lemma StepKeepsRange(s: Socket, e: Event)
    requires Enabled(s, e) && InRange(s) && Reaches(s)
    ensures InRange(Step(s, e))
  {
    StepBooks(s, e);
    if OpOf(s, e).Register? {
      OpInRange(s, e);
    }
    ApplyKeepsRange(BooksOf(s), OpOf(s, e), s.lastRadiusIdMap);
    HintsStayInRange(s, e);
  }

  ghost predicate EndpointsKept(s: Socket, e: Event, t: Socket)
    requires Leads(s, e, t)
  {
    t.life.open ==>
      && s.life.open && s.requestsMap.Keys <= t.requestsMap.Keys
      && (OpOf(s, e).Register? && s.queue[0].request.id == 0 ==> s.queue[0].request.endpoint in t.requestsMap)
  }

  lemma TransmitKeepsEndpoints(s: Socket, e: Event, t: Socket)
    requires Leads(s, e, t) && e.Turn? && s.queue[0].Transmit?
    ensures EndpointsKept(s, e, t)
  {
    var popped, r := s.(queue := s.queue[1..]), s.queue[0].request;
    AllocationKeeps(popped, r.endpoint, r.id);
    HintAfterTransmit(popped, r, e.marshalOk, e.writeOk);
  }

  lemma TurnKeepsEndpoints(s: Socket, e: Event, t: Socket)
    requires Leads(s, e, t) && e.Turn? && !s.queue[0].Transmit?
    ensures EndpointsKept(s, e, t)
  {
    var popped := s.(queue := s.queue[1..]);
    match s.queue[0]
    case Response(k, _) => if Has(s.requestsMap, k) {} else {}
    case CancelRequest(k) => if Has(s.requestsMap, k) {} else {}
    case SocketClose =>
    case ReadError => GoDownLives(popped, popped.life.terminated);
    case SetDownCommand => GoDownLives(popped, true);
  }

  /** No endpoint is forgotten while the socket is open, and a new request makes its endpoint known. */
  lemma EndpointsStay(s: Socket, e: Event, t: Socket)
    requires Leads(s, e, t)
    ensures EndpointsKept(s, e, t)
  {
    match e
    case Turn(_, _) =>
      if s.queue[0].Transmit? { TransmitKeepsEndpoints(s, e, t); } else { TurnKeepsEndpoints(s, e, t); }
    case Sends(_, _, _, _) =>
    case SetsDown =>
    case Reads(_, _) =>
    case ReadEnds =>
    case TimerFires(_) =>
    case TimerSends(_) =>
    case Leaves =>
    case Closes =>
  }

  lemma ApplyKeepsReach(b: Books, op: Op, known: set<string>)
    requires Possible(b, op)
    requires forall t :: t in b.live ==> b.live[t].request.endpoint in known
    requires forall m :: m in b.queue && IsRetry(m) ==> m.request.endpoint in known
    requires op.Register? ==> b.queue[0].request.endpoint in known
    ensures var c := Apply(b, op);
      && (forall t :: t in c.live ==> c.live[t].request.endpoint in known)
      && (forall m :: m in c.queue && IsRetry(m) ==> m.request.endpoint in known)
  {
    match op
    case Rest =>
    case Arrive(_) =>
    case Enter(_, _, _) =>
    case TurnAway(_, _) =>
    case Drop =>
    case Settle(_, _, _) =>
    case SettleAll =>
    case Refuse(_, alarm) => if alarm {} else {}
    case Register(_) =>
    case Fire(_) =>
    case Expire(t) =>
  }

  lemma StepKeepsReach(s: Socket, e: Event)
    requires Enabled(s, e) && InRange(s) && Reaches(s)
    ensures Reaches(Step(s, e))
  {
    var t := Step(s, e);
    if t.life.open {
      StepBooks(s, e);
      EndpointsStay(s, e, t);
      if OpOf(s, e).Register? {
        assert s.queue[0] in s.queue;
      }
      ApplyKeepsReach(BooksOf(s), OpOf(s, e), t.requestsMap.Keys);
      assert BooksOf(t).live == t.timers.live && BooksOf(t).queue == t.queue;
    }
  }

  // ----- Wait group and timers

  function TransmitsIn(queue: seq<Msg>): nat {
    if queue == [] then 0 else (if queue[0].Transmit? then 1 else 0) + TransmitsIn(queue[1..])
  }

  lemma {:induction false} TransmitsInConcat(a: seq<Msg>, b: seq<Msg>)
    ensures TransmitsIn(a + b) == TransmitsIn(a) + TransmitsIn(b)
  {
    if a == [] {
      assert a + b == b;
    } else {
      assert (a + b)[1..] == a[1..] + b;
      TransmitsInConcat(a[1..], b);
    }
  }

  /** The wait group counts the queued requests and the live timers; a timer serves the request registered with it. */
  ghost predicate Counted(b: Books) {
    && b.owed == TransmitsIn(b.queue) + |b.live|
    && (forall t :: t in b.live ==> t < b.next)
    && (forall k :: k in b.out ==> b.out[k].timer < b.next)
    && (forall k :: k in b.out && b.out[k].timer in b.live ==> KeyOf(b.live[b.out[k].timer].request) == k)
  }

  lemma WithoutTimer(live: map<nat, Timer<Request>>, t: nat)
    requires t in live
    ensures |live - {t}| == |live| - 1
  {
    assert (live - {t}).Keys == live.Keys - {t};
  }

  lemma SettledIsCounted(b: Books, k: Key, o: Outcome, stops: bool)
    requires Counted(b) && k in b.out
    ensures Counted(Settled(b, k, o, stops))
  {
    var timer := b.out[k].timer;
    if stops && Armed(b.live, timer) {
      WithoutTimer(b.live, timer);
    }
  }

  lemma AllSettledIsCounted(b: Books)
    requires Counted(b)
    ensures Counted(AllSettled(b))
  {
    var stopped := Stopped(b.out, b.live);
    assert stopped <= b.live.Keys;
    assert (b.live - stopped).Keys == b.live.Keys - stopped;
  }

  lemma QueueIsCounted(b: Books, queue: seq<Msg>, owed: int)
    requires Counted(b) && owed - TransmitsIn(queue) == b.owed - TransmitsIn(b.queue)
    ensures Counted(b.(queue := queue, owed := owed))
  {
  }

  lemma RegisteredIsCounted(b: Books, r: Request)
    requires Counted(b.(owed := b.owed - 1))
    ensures Counted(Registered(b, r))
  {
    assert b.live[b.next := Timer(r, false)].Keys == b.live.Keys + {b.next};
  }

  lemma ExpiredIsCounted(b: Books, t: nat)
    requires Counted(b) && Possible(b, Expire(t))
    ensures Counted(Apply(b, Expire(t)))
  {
    var m := TimerAct(b.live[t].request);
    WithoutTimer(b.live, t);
    TransmitsInConcat(b.queue, [m]);
    assert TransmitsIn([m]) == if m.Transmit? then 1 else 0;
  }

  lemma ApplyIsCounted(b: Books, op: Op)
    requires Possible(b, op) && Counted(b)
    ensures Counted(Apply(b, op))
  {
    match op
    case Rest =>
    case Arrive(m) =>
      TransmitsInConcat(b.queue, [m]);
      QueueIsCounted(b, b.queue + [m], b.owed);
    case Enter(endpoint, tries, c) =>
      var m := Transmit(Request(endpoint, 0, tries, c));
      TransmitsInConcat(b.queue, [m]);
      QueueIsCounted(b, b.queue + [m], b.owed + 1);
    case TurnAway(_, _) =>
    case Drop => QueueIsCounted(b, b.queue[1..], b.owed);
    case Settle(k, o, stops) =>
      QueueIsCounted(b, b.queue[1..], b.owed);
      SettledIsCounted(b.(queue := b.queue[1..]), k, o, stops);
    case SettleAll =>
      QueueIsCounted(b, b.queue[1..], b.owed);
      AllSettledIsCounted(b.(queue := b.queue[1..]));
    case Refuse(_, alarm) =>
      var tail := if alarm then [SetDownCommand] else [];
      TransmitsInConcat(b.queue[1..], tail);
      assert TransmitsIn(tail) == 0;
      QueueIsCounted(b, b.queue[1..] + tail, b.owed - 1);
    case Register(id) =>
      QueueIsCounted(b, b.queue[1..], b.owed - 1);
      RegisteredIsCounted(b.(queue := b.queue[1..]), b.queue[0].request.(id := id));
    case Fire(t) => assert b.live[t := b.live[t].(running := true)].Keys == b.live.Keys;
    case Expire(t) => ExpiredIsCounted(b, t);
  }

  // ----- Channels

  /** Whatever is queued, timed or outstanding answers on a channel that was handed in. */
  ghost predicate HandedIn(b: Books) {
    && b.channels.mail.Keys == b.channels.closes.Keys
    && (forall m :: m in b.queue && m.Transmit? ==> m.request.rchan in b.channels.mail)
    && (forall t :: t in b.live ==> b.live[t].request.rchan in b.channels.mail)
    && (forall k :: k in b.out ==> b.out[k].rchan in b.channels.mail)
  }

  lemma ApplyKeepsHandedIn(b: Books, op: Op)
    requires Possible(b, op) && HandedIn(b)
    ensures HandedIn(Apply(b, op))
  {
    match op
    case Rest =>
    case Arrive(_) =>
    case Enter(_, _, _) =>
    case TurnAway(_, _) =>
    case Drop =>
    case Settle(_, _, _) =>
    case SettleAll =>
    case Refuse(_, alarm) => if alarm {} else {}
    case Register(_) => assert b.queue[0] in b.queue;
    case Fire(_) =>
    case Expire(t) =>
  }

  // ----- Every run

  /** What every reachable state keeps. */
  ghost predicate Steady(s: Socket) {
    !s.life.phase.Crashed? && InRange(s) && Reaches(s)
  }

  lemma StepIsSteady(s: Socket, e: Event)
    requires Enabled(s, e) && Steady(s)
    ensures Steady(Step(s, e))
  {
    StepBooks(s, e);
    StepKeepsRange(s, e);
    StepKeepsReach(s, e);
  }

  function NoBooks(): Books {
    Books([], map[], map[], 0, 0, Channels(map[], map[], map[]))
  }

  lemma NewBooks()
    ensures BooksOf(New()) == NoBooks()
  {
    FlatEmpty();
  }

  lemma NewIsSteady()
    ensures Steady(New())
  {
    FlatEmpty();
  }

  lemma {:induction false} RunIsSteady(states: seq<Socket>, events: seq<Event>)
    requires IsRun(states, events)
    ensures Steady(Last(states))
  {
    if events == [] {
      NewIsSteady();
    } else {
      RunIsSteady(Front(states), Front(events));
      StepIsSteady(Last(Front(states)), Last(events));
    }
  }

  lemma {:induction false} RunIsCounted(states: seq<Socket>, events: seq<Event>, b: Books)
    requires IsRun(states, events) && b == BooksOf(Last(states))
    ensures Counted(b)
  {
    if events == [] {
      NewBooks();
    } else {
      var s, e := Last(Front(states)), Last(events);
      RunIsSteady(Front(states), Front(events));
      RunIsCounted(Front(states), Front(events), BooksOf(s));
      StepBooks(s, e);
      ApplyIsCounted(BooksOf(s), OpOf(s, e));
    }
  }

  lemma {:induction false} RunIsHandedIn(states: seq<Socket>, events: seq<Event>, b: Books)
    requires IsRun(states, events) && b == BooksOf(Last(states))
    ensures HandedIn(b)
  {
    if events == [] {
      NewBooks();
    } else {
      var s, e := Last(Front(states)), Last(events);
      RunIsSteady(Front(states), Front(events));
      RunIsHandedIn(Front(states), Front(events), BooksOf(s));
      StepBooks(s, e);
      ApplyKeepsHandedIn(BooksOf(s), OpOf(s, e));
    }
  }

  /** The wait group is the number of queued requests, live timers and leaving goroutines, and so never negative. */
  lemma WaitGroupCountsObligations(states: seq<Socket>, events: seq<Event>)
    requires IsRun(states, events)
    ensures var s := Last(states); s.wg == TransmitsIn(s.queue) + |s.timers.live| + s.life.leaving
  {
    RunIsCounted(states, events, BooksOf(Last(states)));
  }

  /** A request never reaches an endpoint without a map, which would end the process. */
  lemma NoMissingMap(states: seq<Socket>, events: seq<Event>)
    requires IsRun(states, events)
    ensures !Last(states).life.phase.Crashed?
  {
    RunIsSteady(states, events);
  }

  /**
   In any reachable state a fresh request gets an identifier between 1 and 255 that is free for its endpoint,
   and none exactly when all 255 are outstanding there.
   */
  lemma AllocatorFindsFreeId(states: seq<Socket>, events: seq<Event>, endpoint: string)
    requires IsRun(states, events)
    ensures var s := Last(states); var id := GetNextRadiusId(s, endpoint, 0).1;
      && (id.None? <==> forall x :: 1 <= x <= 255 ==> Has(s.requestsMap, Key(endpoint, x)))
      && (id.Some? ==> 1 <= id.value <= 255 && !Has(s.requestsMap, Key(endpoint, id.value)))
  {
    var s := Last(states);
    RunIsSteady(states, events);
    FreshIdIsFree(s, endpoint);
    forall x: nat ensures Has(s.requestsMap, Key(endpoint, x)) <==> Key(endpoint, x) in Flat(s.requestsMap) {
      FlatHas(s.requestsMap, Key(endpoint, x));
    }
  }

  lemma FoundInOrder(s: Socket, endpoint: string, last: nat, id: nat)
    requires last <= 255 && FirstFree(Known(s, endpoint), last, MAX_ID) == Some(id)
    ensures id > last ==> forall y: nat :: last < y < id ==> Has(s.requestsMap, Key(endpoint, y))
    ensures id <= last ==> forall y: nat :: last < y <= 255 || 1 <= y < id ==> Has(s.requestsMap, Key(endpoint, y))
  {
    NextFreeInOrder(Known(s, endpoint), last);
  }

  lemma LastGiven(s: Socket, endpoint: string)
    ensures var (t, id) := GetNextRadiusId(s, endpoint, 0);
      && id == FirstFree(Known(s, endpoint), LastId(s, endpoint), MAX_ID)
      && (id.Some? ==> t.lastRadiusIdMap == s.lastRadiusIdMap[endpoint := id.value])
  {
  }

  /**
   It is the next free one above the last one given to that endpoint, or, if those up to 255 are all outstanding, the
   lowest free one from 1 on; and it is the last one given from now on.
   */
  lemma AllocatorGoesRound(states: seq<Socket>, events: seq<Event>, endpoint: string, last: nat, id: nat)
    requires IsRun(states, events) && GetNextRadiusId(Last(states), endpoint, 0).1 == Some(id)
    requires var m := Last(states).lastRadiusIdMap; last == if endpoint in m then m[endpoint] else 0
    ensures var s := Last(states);
      && GetNextRadiusId(s, endpoint, 0).0.lastRadiusIdMap == s.lastRadiusIdMap[endpoint := id]
      && (id > last ==> forall y: nat :: last < y < id ==> Has(s.requestsMap, Key(endpoint, y)))
      && (id <= last ==> forall y: nat :: last < y <= 255 || 1 <= y < id ==> Has(s.requestsMap, Key(endpoint, y)))
  {
    RunIsSteady(states, events);
    LastGiven(Last(states), endpoint);
    FoundInOrder(Last(states), endpoint, last, id);
  }
}
