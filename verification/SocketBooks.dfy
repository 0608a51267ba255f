/**
 A RADIUS client socket seen through its obligations: queue, outstanding requests by endpoint and
 identifier, live timers, channels, and the wait group less the leaving goroutines.
 Every step of the socket is one of eleven operations on these books.
 */
module SocketBooks {
  import opened Common
  import opened Outstanding
  import opened SocketSpec
  import opened SocketIds

  datatype Books = Books(
    queue: seq<Msg>,
    out: map<Key, RequestContext>,
    live: map<nat, Timer<Request>>,
    next: nat,
    owed: int,
    channels: Channels<Outcome, string>)

  function BooksOf(s: Socket): Books {
    Books(s.queue, Flat(s.requestsMap), s.timers.live, s.timers.next, s.wg - s.life.leaving, s.channels)
  }

  datatype Op =
    | Rest
    | Arrive(m: Msg)
    | Enter(endpoint: string, tries: int, rchan: nat)
    | TurnAway(endpoint: string, rchan: nat)
    | Drop
    | Settle(key: Key, outcome: Outcome, stops: bool)
    | SettleAll
    | Refuse(outcome: Outcome, alarm: bool)
    | Register(id: nat)
    | Fire(timer: nat)
    | Expire(timer: nat)

  predicate IsRetry(m: Msg) {
    m.Transmit? && m.request.id != 0
  }

  /** What is true of the books whenever the operation happens. */
  predicate Possible(b: Books, op: Op) {
    match op
    case Rest => true
    case Arrive(m) => !m.Transmit?
    case Enter(_, _, c) => c !in b.channels.mail
    case TurnAway(_, c) => c !in b.channels.mail
    case Drop => b.queue != [] && (b.queue[0].CancelRequest? ==> b.queue[0].key !in b.out) && !b.queue[0].Transmit?
    case Settle(k, o, stops) =>
      && b.queue != [] && k in b.out && !b.queue[0].Transmit? && (b.queue[0].CancelRequest? ==> b.queue[0].key == k)
      && (o.Answer? ==> o.key == k)
    case SettleAll => b.queue != [] && !b.queue[0].Transmit? && !b.queue[0].CancelRequest?
    case Refuse(o, _) => b.queue != [] && b.queue[0].Transmit? && !o.Answer?
    case Register(id) =>
      && b.queue != [] && b.queue[0].Transmit? && (IsRetry(b.queue[0]) ==> id == b.queue[0].request.id)
      && (!IsRetry(b.queue[0]) ==> id != 0 && Key(b.queue[0].request.endpoint, id) !in b.out)
    case Fire(t) => Armed(b.live, t)
    case Expire(t) => t in b.live && b.live[t].running && b.live[t].request.id != 0
  }

  function Settled(b: Books, k: Key, o: Outcome, stops: bool): Books
    requires k in b.out
  {
    var stopped := stops && Armed(b.live, b.out[k].timer);
    b.(out := b.out - {k},
       live := if stopped then b.live - {b.out[k].timer} else b.live,
       owed := if stopped then b.owed - 1 else b.owed,
       channels := Told(b.channels, b.out[k].rchan, o))
  }

  function AllSettled(b: Books): Books {
    var stopped := Stopped(b.out, b.live);
    b.(out := map[], live := b.live - stopped, owed := b.owed - |stopped|,
        channels := AllTold(b.channels, b.out, Cancelled))
  }

  function Registered(b: Books, r: Request): Books {
    b.(out := b.out[KeyOf(r) := RequestContext(r.rchan, b.next)], live := b.live[b.next := Timer(r, false)],
        next := b.next + 1)
  }

  function Opened(k: Channels<Outcome, string>, c: nat, endpoint: string): Channels<Outcome, string> {
    Channels(k.mail[c := []], k.closes[c := 0], k.asked[c := endpoint])
  }

  function Apply(b: Books, op: Op): Books
    requires Possible(b, op)
  {
    match op
    case Rest => b
    case Arrive(m) => b.(queue := b.queue + [m])
    case Enter(endpoint, tries, c) =>
      b.(queue := b.queue + [Transmit(Request(endpoint, 0, tries, c))], owed := b.owed + 1,
         channels := Opened(b.channels, c, endpoint))
    case TurnAway(endpoint, c) => b.(channels := Told(Opened(b.channels, c, endpoint), c, NotARequest))
    case Drop => b.(queue := b.queue[1..])
    case Settle(k, o, stops) => Settled(b.(queue := b.queue[1..]), k, o, stops)
    case SettleAll => AllSettled(b.(queue := b.queue[1..]))
    case Refuse(o, alarm) =>
      b.(queue := b.queue[1..] + (if alarm then [SetDownCommand] else []), owed := b.owed - 1,
         channels := Told(b.channels, b.queue[0].request.rchan, o))
    case Register(id) => Registered(b.(queue := b.queue[1..]), b.queue[0].request.(id := id))
    case Fire(t) => b.(live := b.live[t := b.live[t].(running := true)])
    case Expire(t) =>
      var m := TimerAct(b.live[t].request);
      b.(queue := b.queue + [m], live := b.live - {t}, owed := if m.Transmit? then b.owed else b.owed - 1)
  }

  // ----- The operation behind each step

  function TransmitOp(s: Socket, id: Option<nat>, marshalOk: bool, writeOk: bool): Op {
    if id.None? then Refuse(NoIdentifier, false)
    else if !marshalOk then Refuse(NotMarshalled, false)
    else if !(s.life.open && writeOk) then Refuse(NotWritten, true)
    else Register(id.value)
  }

  function TurnOp(s: Socket, marshalOk: bool, writeOk: bool): Op
    requires s.queue != []
  {
    match s.queue[0]
    case SocketClose => Drop
    case ReadError => SettleAll
    case SetDownCommand => SettleAll
    case Response(k, v) =>
      if Has(s.requestsMap, k) then Settle(k, if v.Good? then Answer(k) else Rejected(k, v), true) else Drop
    case CancelRequest(k) =>
      if Has(s.requestsMap, k) then Settle(k, Timeout, false) else Drop
    case Transmit(r) => TransmitOp(s, GetNextRadiusId(s, r.endpoint, r.id).1, marshalOk, writeOk)
  }

  function OpOf(s: Socket, e: Event): Op
    requires Enabled(s, e)
  {
    match e
    case Turn(marshalOk, writeOk) => TurnOp(s, marshalOk, writeOk)
    case Sends(endpoint, tries, c, codeOk) => if codeOk then Enter(endpoint, tries, c) else TurnAway(endpoint, c)
    case SetsDown => Arrive(SetDownCommand)
    case Reads(k, v) => Arrive(Response(k, v))
    case ReadEnds => if s.life.terminated then Rest else Arrive(ReadError)
    case TimerFires(t) => Fire(t)
    case TimerSends(t) => Expire(t)
    case Leaves => Rest
    case Closes => Arrive(SocketClose)
  }

  /** A request is sent only to an endpoint that has a map of its own, so nothing is ever assigned to a missing map. */
  ghost predicate Reaches(s: Socket) {
    s.life.open ==>
      && (forall t :: t in s.timers.live ==> s.timers.live[t].request.endpoint in s.requestsMap)
      && (forall m :: m in s.queue && IsRetry(m) ==> m.request.endpoint in s.requestsMap)
  }

  lemma ResponseBooks(s: Socket, k: Key, v: Verdict)
    ensures BooksOf(HandleResponse(s, k, v)) ==
      if k in BooksOf(s).out
      then Settled(BooksOf(s), k, if v.Good? then Answer(k) else Rejected(k, v), true)
      else BooksOf(s)
  {
    FlatHas(s.requestsMap, k);
    if Has(s.requestsMap, k) {
      FlatWithout(s.requestsMap, k);
    }
  }

  lemma CancelBooks(s: Socket, k: Key)
    ensures BooksOf(HandleCancel(s, k)) ==
            if k in BooksOf(s).out then Settled(BooksOf(s), k, Timeout, false) else BooksOf(s)
  {
    FlatHas(s.requestsMap, k);
    if Has(s.requestsMap, k) {
      FlatWithout(s.requestsMap, k);
    }
  }

  lemma CancelAllBooks(s: Socket)
    ensures BooksOf(CancelAll(s)) == AllSettled(BooksOf(s))
  {
    var t, b := CancelAll(s), AllSettled(BooksOf(s));
    assert BooksOf(t).out == b.out by { FlatEmpty(); }
    assert t.timers.live == b.live;
    assert t.channels == b.channels;
    assert t.queue == b.queue && t.timers.next == b.next;
    assert t.wg - t.life.leaving == b.owed;
  }

  lemma SameBooks(s: Socket, t: Socket)
    requires t.queue == s.queue && t.requestsMap == s.requestsMap && t.timers == s.timers && t.channels == s.channels
    requires t.wg == s.wg && t.life.leaving == s.life.leaving
    ensures BooksOf(t) == BooksOf(s)
  {
  }

  lemma DownBooks(s: Socket, terminated: bool, b: Books)
    requires b == BooksOf(s)
    ensures BooksOf(GoDown(s, terminated)) == AllSettled(b)
  {
    var down := s.(life := s.life.(terminated := terminated, open := false));
    SameBooks(s, down);
    CancelAllBooks(down);
    SameBooks(CancelAll(down), GoDown(s, terminated));
  }

  lemma SentBooks(s: Socket, r: Request)
    requires r.endpoint in s.requestsMap
    ensures BooksOf(Done(Sent(s, r))) == Registered(BooksOf(s), r)
  {
    FlatWith(s.requestsMap, KeyOf(r), RequestContext(r.rchan, s.timers.next));
  }

  // ----- Every step is its operation

  /** The books after a request was not sent. */
  function Refused(b: Books, c: nat, o: Outcome, alarm: bool): Books {
    b.(
      queue := b.queue + (if alarm then [SetDownCommand] else []),
      owed := b.owed - 1,
      channels := Told(b.channels, c, o))
  }

  lemma TransmitAsBooks(s: Socket, r: Request, marshalOk: bool, writeOk: bool)
    requires s.life.open ==> r.endpoint in s.requestsMap
    ensures var t := TransmitAs(s, r, marshalOk, writeOk);
      && t.life == s.life
      && BooksOf(t) ==
        if !marshalOk then Refused(BooksOf(s), r.rchan, NotMarshalled, false)
        else if !(s.life.open && writeOk) then Refused(BooksOf(s), r.rchan, NotWritten, true)
        else Registered(BooksOf(s), r)
  {
    assert s.queue + [] == s.queue;
    if !marshalOk {
    } else if !(s.life.open && writeOk) {
    } else {
      SentBooks(s, r);
    }
  }

  /** The books after a request left the queue and was given an identifier, or none. */
  function Transmitted(s: Socket, b: Books, r: Request, id: Option<nat>, marshalOk: bool, writeOk: bool): Books {
    if id.None? then Refused(b, r.rchan, NoIdentifier, false)
    else if !marshalOk then Refused(b, r.rchan, NotMarshalled, false)
    else if !(s.life.open && writeOk) then Refused(b, r.rchan, NotWritten, true)
    else Registered(b, r.(id := id.value))
  }

  lemma TransmitBooks(s: Socket, r: Request, marshalOk: bool, writeOk: bool, b: Books)
    requires b == BooksOf(s) && (s.life.open && r.id != 0 ==> r.endpoint in s.requestsMap)
    ensures var t := HandleTransmit(s, r, marshalOk, writeOk);
      var id := GetNextRadiusId(s, r.endpoint, r.id).1;
      && t.life == s.life
      && BooksOf(t) == Transmitted(s, b, r, id, marshalOk, writeOk)
  {
    var (t, id) := GetNextRadiusId(s, r.endpoint, r.id);
    AllocationKeeps(s, r.endpoint, r.id);
    assert BooksOf(t) == b;
    if id.None? {
      assert s.queue + [] == s.queue;
    } else {
      TransmitAsBooks(t, r.(id := id.value), marshalOk, writeOk);
    }
  }

  ghost predicate Becomes(b: Books, op: Op, t: Socket) {
    Possible(b, op) && BooksOf(t) == Apply(b, op) && !t.life.phase.Crashed?
  }

  lemma RefusedBecomes(b: Books, o: Outcome, alarm: bool, t: Socket)
    requires b.queue != [] && b.queue[0].Transmit? && !o.Answer? && !t.life.phase.Crashed?
    requires BooksOf(t) == Refused(b.(queue := b.queue[1..]), b.queue[0].request.rchan, o, alarm)
    ensures Becomes(b, Refuse(o, alarm), t)
  {
  }

  lemma RegisteredBecomes(b: Books, id: nat, t: Socket)
    requires b.queue != [] && b.queue[0].Transmit? && !t.life.phase.Crashed?
    requires IsRetry(b.queue[0]) ==> id == b.queue[0].request.id
    requires !IsRetry(b.queue[0]) ==> id != 0 && Key(b.queue[0].request.endpoint, id) !in b.out
    requires BooksOf(t) == Registered(b.(queue := b.queue[1..]), b.queue[0].request.(id := id))
    ensures Becomes(b, Register(id), t)
  {
  }

  lemma SettledBecomes(b: Books, k: Key, o: Outcome, stops: bool, t: Socket)
    requires Possible(b, Settle(k, o, stops)) && !t.life.phase.Crashed?
    requires BooksOf(t) == Settled(b.(queue := b.queue[1..]), k, o, stops)
    ensures Becomes(b, Settle(k, o, stops), t)
  {
  }

  lemma AllSettledBecomes(b: Books, t: Socket)
    requires Possible(b, SettleAll) && !t.life.phase.Crashed? && BooksOf(t) == AllSettled(b.(queue := b.queue[1..]))
    ensures Becomes(b, SettleAll, t)
  {
  }

  lemma DroppedBecomes(b: Books, t: Socket)
    requires Possible(b, Drop) && !t.life.phase.Crashed? && BooksOf(t) == b.(queue := b.queue[1..])
    ensures Becomes(b, Drop, t)
  {
  }

  lemma TransmitBecomes(s: Socket, b: Books, id: Option<nat>, t: Socket, marshalOk: bool, writeOk: bool)
    requires b.queue != [] && b.queue[0].Transmit? && !t.life.phase.Crashed?
    requires id.Some? ==>
      if IsRetry(b.queue[0]) then id.value == b.queue[0].request.id
      else id.value != 0 && Key(b.queue[0].request.endpoint, id.value) !in b.out
    requires BooksOf(t) == Transmitted(s, b.(queue := b.queue[1..]), b.queue[0].request, id, marshalOk, writeOk)
    ensures Becomes(b, TransmitOp(s, id, marshalOk, writeOk), t)
  {
    if id.None? {
      RefusedBecomes(b, NoIdentifier, false, t);
    } else if !marshalOk {
      RefusedBecomes(b, NotMarshalled, false, t);
    } else if !(s.life.open && writeOk) {
      RefusedBecomes(b, NotWritten, true, t);
    } else {
      RegisteredBecomes(b, id.value, t);
    }
  }

  lemma TransmitTurnBooks(s: Socket, marshalOk: bool, writeOk: bool)
    requires s.queue != [] && s.queue[0].Transmit? && InRange(s) && Reaches(s) && !s.life.phase.Crashed?
    ensures Becomes(BooksOf(s),
        TransmitOp(s, GetNextRadiusId(s, s.queue[0].request.endpoint, s.queue[0].request.id).1, marshalOk, writeOk),
                    HandleTransmit(s.(queue := s.queue[1..]), s.queue[0].request, marshalOk, writeOk))
  {
    var popped, r, b := s.(queue := s.queue[1..]), s.queue[0].request, BooksOf(s);
    assert s.queue[0] in s.queue;
    TransmitBooks(popped, r, marshalOk, writeOk, b.(queue := b.queue[1..]));
    FreshIdIsFree(s, r.endpoint);
    var id := GetNextRadiusId(s, r.endpoint, r.id).1;
    assert id == GetNextRadiusId(popped, r.endpoint, r.id).1;
    TransmitBecomes(s, b, id, HandleTransmit(popped, r, marshalOk, writeOk), marshalOk, writeOk);
  }

  lemma ResponseTurnBooks(s: Socket, k: Key, v: Verdict)
    requires s.queue != [] && s.queue[0] == Response(k, v) && !s.life.phase.Crashed?
    ensures Becomes(BooksOf(s), TurnOp(s, true, true), HandleResponse(s.(queue := s.queue[1..]), k, v))
  {
    var popped, b := s.(queue := s.queue[1..]), BooksOf(s);
    FlatHas(s.requestsMap, k);
    ResponseBooks(popped, k, v);
    if Has(s.requestsMap, k) {
      SettledBecomes(b, k, if v.Good? then Answer(k) else Rejected(k, v), true, HandleResponse(popped, k, v));
    } else {
      DroppedBecomes(b, popped);
    }
  }

  lemma CancelTurnBooks(s: Socket, k: Key)
    requires s.queue != [] && s.queue[0] == CancelRequest(k) && !s.life.phase.Crashed?
    ensures Becomes(BooksOf(s), TurnOp(s, true, true), HandleCancel(s.(queue := s.queue[1..]), k))
  {
    var popped, b := s.(queue := s.queue[1..]), BooksOf(s);
    FlatHas(s.requestsMap, k);
    CancelBooks(popped, k);
    if Has(s.requestsMap, k) {
      SettledBecomes(b, k, Timeout, false, HandleCancel(popped, k));
    } else {
      DroppedBecomes(b, popped);
    }
  }

  lemma GoDownLives(s: Socket, terminated: bool)
    ensures GoDown(s, terminated).life == s.life.(terminated := terminated, open := false)
  {
  }

  lemma DownTurnBooks(s: Socket, terminated: bool)
    requires s.queue != [] && !s.queue[0].Transmit? && !s.queue[0].CancelRequest? && !s.life.phase.Crashed?
    ensures Becomes(BooksOf(s), SettleAll, GoDown(s.(queue := s.queue[1..]), terminated))
  {
    var popped, b := s.(queue := s.queue[1..]), BooksOf(s);
    DownBooks(popped, terminated, b.(queue := b.queue[1..]));
    GoDownLives(popped, terminated);
    AllSettledBecomes(b, GoDown(popped, terminated));
  }

  lemma TurnBooks(s: Socket, marshalOk: bool, writeOk: bool)
    requires s.queue != [] && InRange(s) && Reaches(s) && !s.life.phase.Crashed?
    ensures Becomes(BooksOf(s), TurnOp(s, marshalOk, writeOk),
        Handle(s.(queue := s.queue[1..]), s.queue[0], marshalOk, writeOk))
  {
    var popped, m, b := s.(queue := s.queue[1..]), s.queue[0], BooksOf(s);
    match m
    case SocketClose =>
      SameBooks(popped, popped.(life := popped.life.(phase := Ended)));
      DroppedBecomes(b, popped.(life := popped.life.(phase := Ended)));
    case ReadError => DownTurnBooks(s, s.life.terminated);
    case SetDownCommand => DownTurnBooks(s, true);
    case Response(k, v) => ResponseTurnBooks(s, k, v);
    case CancelRequest(k) => CancelTurnBooks(s, k);
    case Transmit(_) => TransmitTurnBooks(s, marshalOk, writeOk);
  }

  lemma StepBooks(s: Socket, e: Event)
    requires Enabled(s, e) && InRange(s) && Reaches(s)
    ensures !Step(s, e).life.phase.Crashed?
    ensures Possible(BooksOf(s), OpOf(s, e)) && BooksOf(Step(s, e)) == Apply(BooksOf(s), OpOf(s, e))
  {
    var t := Step(s, e);
    match e
    case Turn(marshalOk, writeOk) => TurnBooks(s, marshalOk, writeOk);
    case Sends(endpoint, tries, c, codeOk) => if codeOk {} else {}
    case SetsDown =>
    case Reads(k, v) =>
    case ReadEnds => if s.life.terminated { SameBooks(s, t); } else {}
    case TimerFires(i) =>
    case TimerSends(i) => if TimerAct(s.timers.live[i].request).Transmit? {} else {}
    case Leaves =>
    case Closes =>
  }
}
