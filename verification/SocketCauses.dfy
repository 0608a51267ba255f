/** Why a caller of a RADIUS client socket is told what it is told, and what the socket writes and reports. */
module SocketCauses {
  import opened Common
  import opened Outstanding
  import Runs
  import opened SocketSpec
  import opened SocketIds
  import opened SocketBooks
  import opened SocketRuns

  // ----- One turn of the event loop

  /** No identifier is left for a new request: all 255 of its endpoint are outstanding. */
  ghost predicate NoIdLeft(s: Socket, r: Request) {
    r.id == 0 && forall id :: 1 <= id <= 255 ==> Has(s.requestsMap, Key(r.endpoint, id))
  }

  /** What becomes of a request whose turn it is: the reason it is not sent, or nothing. */
  ghost function NotSentFor(s: Socket, r: Request, marshalOk: bool, writeOk: bool): Option<Outcome> {
    if NoIdLeft(s, r) then Some(NoIdentifier)
    else if !marshalOk then Some(NotMarshalled)
    else if !s.life.open || !writeOk then Some(NotWritten)
    else None
  }

  /** What a turn tells a channel. */
  ghost function TurnTells(s: Socket, m: Msg, marshalOk: bool, writeOk: bool, c: nat): seq<Outcome> {
    match m
    case Response(k, v) =>
      if !Has(s.requestsMap, k) || s.requestsMap[k.endpoint][k.id].rchan != c then []
      else if v == Good then [Answer(k)] else [Rejected(k, v)]
    case CancelRequest(k) =>
      if Has(s.requestsMap, k) && s.requestsMap[k.endpoint][k.id].rchan == c then [Timeout] else []
    case Transmit(r) =>
      var reason := NotSentFor(s, r, marshalOk, writeOk);
      if r.rchan == c && reason.Some? then [reason.value] else []
    case ReadError => seq(|Waiting(Flat(s.requestsMap), c)|, _ => Cancelled)
    case SetDownCommand => seq(|Waiting(Flat(s.requestsMap), c)|, _ => Cancelled)
    case SocketClose => []
  }

  lemma IdFoundIff(s: Socket, r: Request)
    requires InRange(s)
    ensures GetNextRadiusId(s, r.endpoint, r.id).1.None? <==> NoIdLeft(s, r)
  {
    if r.id == 0 {
      FreshIdIsFree(s, r.endpoint);
      forall x: nat ensures Has(s.requestsMap, Key(r.endpoint, x)) <==> Key(r.endpoint, x) in Flat(s.requestsMap) {
        FlatHas(s.requestsMap, Key(r.endpoint, x));
      }
    }
  }

  lemma TransmitChannels(s: Socket, r: Request, marshalOk: bool, writeOk: bool)
    requires InRange(s)
    ensures var reason := NotSentFor(s, r, marshalOk, writeOk);
      HandleTransmit(s, r, marshalOk, writeOk).channels ==
      if reason.Some? then Told(s.channels, r.rchan, reason.value) else s.channels
  {
    var (t, id) := GetNextRadiusId(s, r.endpoint, r.id);
    IdFoundIff(s, r);
    assert t.channels == s.channels && t.life == s.life;
    if id.None? {
    } else if !marshalOk {
    } else if !(s.life.open && writeOk) {
    } else if r.endpoint !in t.requestsMap {
    } else {
    }
  }

  lemma TransmitTells(s: Socket, r: Request, marshalOk: bool, writeOk: bool, c: nat)
    requires InRange(s)
    ensures var t := HandleTransmit(s, r, marshalOk, writeOk);
      && (c in s.channels.mail ==> c in t.channels.mail)
      && (c in s.channels.mail ==>
          t.channels.mail[c] == s.channels.mail[c] + TurnTells(s, Transmit(r), marshalOk, writeOk, c))
      && (c !in s.channels.mail && r.rchan != c ==> c !in t.channels.mail)
  {
    TransmitChannels(s, r, marshalOk, writeOk);
    assert c in s.channels.mail ==> s.channels.mail[c] + [] == s.channels.mail[c];
    if NotSentFor(s, r, marshalOk, writeOk).Some? {} else {}
  }

  lemma DownTells(s: Socket, terminated: bool, c: nat)
    ensures var t := GoDown(s, terminated);
      && (c in t.channels.mail <==> c in s.channels.mail)
      && (c in s.channels.mail ==>
          t.channels.mail[c] == s.channels.mail[c] + seq(|Waiting(Flat(s.requestsMap), c)|, _ => Cancelled))
  {
  }

  lemma ToldByTurn(s: Socket, m: Msg, marshalOk: bool, writeOk: bool, c: nat)
    requires InRange(s) && c in s.channels.mail
    ensures var t := Handle(s, m, marshalOk, writeOk);
      && c in t.channels.mail
      && t.channels.mail[c] == s.channels.mail[c] + TurnTells(s, m, marshalOk, writeOk, c)
  {
    assert s.channels.mail[c] + [] == s.channels.mail[c];
    match m
    case Transmit(r) => TransmitTells(s, r, marshalOk, writeOk, c);
    case Response(k, v) => if Has(s.requestsMap, k) {} else {}
    case CancelRequest(k) => if Has(s.requestsMap, k) {} else {}
    case ReadError => DownTells(s, s.life.terminated, c);
    case SetDownCommand => DownTells(s, true, c);
    case SocketClose =>
  }

  lemma NobodyNew(s: Socket, m: Msg, marshalOk: bool, writeOk: bool, c: nat)
    requires InRange(s) && c !in s.channels.mail && Waiting(Flat(s.requestsMap), c) == {}
    requires m.Transmit? ==> m.request.rchan != c
    ensures c !in Handle(s, m, marshalOk, writeOk).channels.mail
  {
    match m
    case Transmit(r) => TransmitTells(s, r, marshalOk, writeOk, c);
    case Response(k, v) =>
      if Has(s.requestsMap, k) {
        FlatHas(s.requestsMap, k);
        assert k !in Waiting(Flat(s.requestsMap), c);
      }
    case CancelRequest(k) =>
      if Has(s.requestsMap, k) {
        FlatHas(s.requestsMap, k);
        assert k !in Waiting(Flat(s.requestsMap), c);
      }
    case ReadError => DownTells(s, s.life.terminated, c);
    case SetDownCommand => DownTells(s, true, c);
    case SocketClose =>
  }

  /** What a turn writes or reports: a request that nothing hinders under its identifier, and down for what ends it. */
  ghost predicate TurnPuts(s: Socket, m: Msg, marshalOk: bool, writeOk: bool, put: seq<Output>) {
    match m
    case Transmit(r) =>
      if NotSentFor(s, r, marshalOk, writeOk).Some? then put == []
      else
        && |put| == 1 && put[0].Wrote? && put[0].request == r.(id := put[0].request.id)
        && (if r.id != 0 then put[0].request.id == r.id
            else 1 <= put[0].request.id <= 255 && !Has(s.requestsMap, Key(r.endpoint, put[0].request.id)))
    case ReadError => put == [Down]
    case SetDownCommand => put == [Down]
    case _ => put == []
  }

  lemma TransmitPuts(s: Socket, r: Request, marshalOk: bool, writeOk: bool) returns (put: seq<Output>)
    requires InRange(s) && !HandleTransmit(s, r, marshalOk, writeOk).life.phase.Crashed?
    ensures HandleTransmit(s, r, marshalOk, writeOk).outputs == s.outputs + put
    ensures TurnPuts(s, Transmit(r), marshalOk, writeOk, put)
  {
    var (t, id) := GetNextRadiusId(s, r.endpoint, r.id);
    IdFoundIff(s, r);
    assert t.outputs == s.outputs && t.life == s.life && s.outputs + [] == s.outputs;
    put := if id.None? || !marshalOk || !s.life.open || !writeOk then [] else [Wrote(r.(id := id.value))];
    if id.Some? && r.id == 0 {
      FreshIdIsFree(s, r.endpoint);
      FlatHas(s.requestsMap, Key(r.endpoint, id.value));
    }
    if id.None? {
    } else if !marshalOk {
    } else if !(s.life.open && writeOk) {
    } else {
    }
  }

  lemma OthersPut(s: Socket, m: Msg, marshalOk: bool, writeOk: bool)
    requires !m.Transmit?
    ensures Handle(s, m, marshalOk, writeOk).outputs ==
            s.outputs + if m.ReadError? || m.SetDownCommand? then [Down] else []
  {
    assert s.outputs + [] == s.outputs;
    match m
    case Response(k, v) => if Has(s.requestsMap, k) {} else {}
    case CancelRequest(k) => if Has(s.requestsMap, k) {} else {}
    case ReadError =>
    case SetDownCommand =>
    case SocketClose =>
  }

  lemma PutByTurn(s: Socket, m: Msg, marshalOk: bool, writeOk: bool) returns (put: seq<Output>)
    requires InRange(s) && !Handle(s, m, marshalOk, writeOk).life.phase.Crashed?
    ensures Handle(s, m, marshalOk, writeOk).outputs == s.outputs + put
    ensures TurnPuts(s, m, marshalOk, writeOk, put)
  {
    if m.Transmit? {
      put := TransmitPuts(s, m.request, marshalOk, writeOk);
    } else {
      put := if m.ReadError? || m.SetDownCommand? then [Down] else [];
      OthersPut(s, m, marshalOk, writeOk);
    }
  }

  /** A turn sends nothing to the loop itself but, for a request that could not be written, the command to go down. */
  lemma QueuedByTurn(s: Socket, m: Msg, marshalOk: bool, writeOk: bool)
    requires InRange(s) && !Handle(s, m, marshalOk, writeOk).life.phase.Crashed?
    ensures Handle(s, m, marshalOk, writeOk).queue == s.queue +
            if m.Transmit? && NotSentFor(s, m.request, marshalOk, writeOk) == Some(NotWritten)
            then [SetDownCommand] else []
  {
    assert s.queue + [] == s.queue;
    match m
    case Transmit(r) =>
      var (t, id) := GetNextRadiusId(s, r.endpoint, r.id);
      IdFoundIff(s, r);
      assert t.queue == s.queue && t.life == s.life;
      if id.None? {
      } else if !marshalOk {
      } else if !(s.life.open && writeOk) {
      } else {
      }
    case Response(k, v) => if Has(s.requestsMap, k) {} else {}
    case CancelRequest(k) => if Has(s.requestsMap, k) {} else {}
    case ReadError =>
    case SetDownCommand =>
    case SocketClose =>
  }

  /**
   What the callers, the reader and the timers send to the loop: a failed read only while the socket was not set down,
   and from a timer the same request with one try less, or its cancellation after the last.
   */
  function Posts(s: Socket, e: Event): seq<Msg>
    requires Enabled(s, e)
  {
    match e
    case Turn(_, _) => []
    case Sends(endpoint, tries, c, codeOk) => if codeOk then [Transmit(Request(endpoint, 0, tries, c))] else []
    case SetsDown => [SetDownCommand]
    case Reads(k, v) => [Response(k, v)]
    case ReadEnds => if s.life.terminated then [] else [ReadError]
    case TimerFires(_) => []
    case TimerSends(t) =>
      var r := s.timers.live[t].request;
      [if r.tries > 1 then Transmit(Request(r.endpoint, r.id, r.tries - 1, r.rchan))
       else CancelRequest(Key(r.endpoint, r.id))]
    case Leaves => []
    case Closes => [SocketClose]
  }

  lemma PostedByEvent(s: Socket, e: Event)
    requires Enabled(s, e) && !e.Turn?
    ensures Step(s, e).queue == s.queue + Posts(s, e)
  {
    assert s.queue + [] == s.queue;
    match e
    case Sends(_, _, _, codeOk) => if codeOk {} else {}
    case SetsDown =>
    case Reads(_, _) =>
    case ReadEnds => if s.life.terminated {} else {}
    case TimerFires(_) =>
    case TimerSends(_) =>
    case Leaves =>
    case Closes =>
  }

  // ----- Runs

  /** The event tells a channel this. */
  ghost predicate Causes(s: Socket, e: Event, c: nat, o: Outcome) {
    match e
    case Turn(marshalOk, writeOk) =>
      s.queue != [] && c in s.channels.mail && o in TurnTells(s, s.queue[0], marshalOk, writeOk, c)
    case Sends(_, _, rchan, codeOk) => rchan == c && !codeOk && o == NotARequest
    case _ => false
  }

  lemma TellsAlike(s: Socket, t: Socket, m: Msg, marshalOk: bool, writeOk: bool, c: nat)
    requires t.requestsMap == s.requestsMap && t.life == s.life
    ensures TurnTells(t, m, marshalOk, writeOk, c) == TurnTells(s, m, marshalOk, writeOk, c)
  {
    if m.Transmit? {
      assert NoIdLeft(t, m.request) == NoIdLeft(s, m.request);
    }
  }

  lemma TurnTellsIff(s: Socket, e: Event, t: Socket, c: nat, o: Outcome)
    requires Leads(s, e, t) && e.Turn? && InRange(s) && HandedIn(BooksOf(s))
    ensures c in t.channels.mail <==> c in s.channels.mail
    ensures c in t.channels.mail ==>
      (o in t.channels.mail[c] <==>
       o in s.channels.mail[c] || o in TurnTells(s, s.queue[0], e.marshalOk, e.writeOk, c))
  {
    var popped, m := s.(queue := s.queue[1..]), s.queue[0];
    assert InRange(popped);
    TellsAlike(s, popped, m, e.marshalOk, e.writeOk, c);
    if c in s.channels.mail {
      ToldByTurn(popped, m, e.marshalOk, e.writeOk, c);
    } else {
      assert s.queue[0] in s.queue;
      forall k ensures k !in Waiting(Flat(s.requestsMap), c) {
      }
      assert Waiting(Flat(s.requestsMap), c) == {};
      NobodyNew(popped, m, e.marshalOk, e.writeOk, c);
    }
  }

  lemma SendTellsIff(s: Socket, e: Event, t: Socket, c: nat, o: Outcome)
    requires Leads(s, e, t) && e.Sends?
    ensures c in t.channels.mail && o in t.channels.mail[c] <==>
            (c in s.channels.mail && o in s.channels.mail[c]) || (e.rchan == c && !e.codeOk && o == NotARequest)
  {
    if e.codeOk {
      assert t.channels.mail == s.channels.mail[e.rchan := []];
    } else {
      assert [] + [NotARequest] == [NotARequest];
    }
  }

  lemma RestTellsNobody(s: Socket, e: Event)
    requires Enabled(s, e) && !e.Turn? && !e.Sends?
    ensures Step(s, e).channels == s.channels
  {
    match e
    case SetsDown =>
    case Reads(_, _) =>
    case ReadEnds => if s.life.terminated {} else {}
    case TimerFires(_) =>
    case TimerSends(_) =>
    case Leaves =>
    case Closes =>
  }

  /** A step tells a channel something exactly if it causes it; it takes nothing back. */
  lemma StepTells(s: Socket, e: Event, t: Socket, c: nat, o: Outcome)
    requires Leads(s, e, t) && InRange(s) && HandedIn(BooksOf(s))
    ensures c in t.channels.mail && o in t.channels.mail[c] <==>
            (c in s.channels.mail && o in s.channels.mail[c]) || Causes(s, e, c, o)
  {
    if e.Turn? {
      TurnTellsIff(s, e, t, c, o);
    } else if e.Sends? {
      SendTellsIff(s, e, t, c, o);
    } else {
      RestTellsNobody(s, e);
    }
  }

  ghost function Telling(c: nat, o: Outcome): (Socket, Event) -> bool {
    (s, e) => Causes(s, e, c, o)
  }

  /** Some event of the run told a channel this. */
  ghost predicate Caused(states: seq<Socket>, events: seq<Event>, c: nat, o: Outcome)
    requires |states| == |events| + 1
  {
    Runs.Sometime(Telling(c, o), states, events)
  }

  /**
   A caller is told an answer, or what was wrong with it, exactly if a response was handled for its outstanding request;
   of a timeout if its cancellation was, of a cancellation if the socket went down, and otherwise why it was not sent.
   */
  lemma {:induction false} EveryOutcomeHasItsCause(states: seq<Socket>, events: seq<Event>, c: nat, o: Outcome)
    requires IsRun(states, events)
    ensures c in Last(states).channels.mail && o in Last(states).channels.mail[c] <==> Caused(states, events, c, o)
    decreases |events|
  {
    if events != [] {
      var before, done := Front(states), Front(events);
      EveryOutcomeHasItsCause(before, done, c, o);
      RunIsSteady(before, done);
      RunIsHandedIn(before, done, BooksOf(Last(before)));
      Runs.SometimeBefore(Telling(c, o), states, events);
      StepTells(Last(before), Last(events), Last(states), c, o);
    }
  }

  // ----- Nothing is written after the socket went down

  lemma LifeByTurn(s: Socket, m: Msg, marshalOk: bool, writeOk: bool)
    requires !Handle(s, m, marshalOk, writeOk).life.phase.Crashed?
    ensures Handle(s, m, marshalOk, writeOk).life ==
      match m
      case SocketClose => s.life.(phase := Ended)
      case ReadError => s.life.(open := false)
      case SetDownCommand => s.life.(open := false, terminated := true)
      case _ => s.life
  {
    match m
    case Transmit(r) =>
      var (t, id) := GetNextRadiusId(s, r.endpoint, r.id);
      if id.None? {
      } else if !marshalOk {
      } else if !(s.life.open && writeOk) {
      } else {
      }
    case Response(k, v) => if Has(s.requestsMap, k) {} else {}
    case CancelRequest(k) => if Has(s.requestsMap, k) {} else {}
    case ReadError =>
    case SetDownCommand =>
    case SocketClose =>
  }

  /** Down was reported exactly if the socket is shut, and only down is reported after down. */
  ghost predicate DownLast(open: bool, outputs: seq<Output>) {
    && (open <==> Down !in outputs)
    && forall i, j :: 0 <= i < j < |outputs| && outputs[i] == Down ==> outputs[j] == Down
  }

  lemma PutKeepsDownLast(open: bool, outputs: seq<Output>, put: seq<Output>)
    requires DownLast(open, outputs) && |put| <= 1 && (put != [] ==> open || put[0] == Down)
    ensures DownLast(open && Down !in put, outputs + put)
  {
    var all := outputs + put;
    forall i, j | 0 <= i < j < |all| && all[i] == Down ensures all[j] == Down {
      assert outputs[i] == Down;
    }
  }

  lemma OnlyDownWhenShut(s: Socket, m: Msg, marshalOk: bool, writeOk: bool, put: seq<Output>)
    requires TurnPuts(s, m, marshalOk, writeOk, put)
    ensures |put| <= 1 && (put != [] ==> s.life.open || put[0] == Down)
    ensures Down in put <==> m.ReadError? || m.SetDownCommand?
  {
    match m
    case Transmit(r) => if NotSentFor(s, r, marshalOk, writeOk).Some? {} else {}
    case Response(_, _) =>
    case CancelRequest(_) =>
    case ReadError =>
    case SetDownCommand =>
    case SocketClose =>
  }

  lemma HandleKeepsDownLast(s: Socket, m: Msg, marshalOk: bool, writeOk: bool)
    requires InRange(s) && !Handle(s, m, marshalOk, writeOk).life.phase.Crashed? && DownLast(s.life.open, s.outputs)
    ensures var t := Handle(s, m, marshalOk, writeOk); DownLast(t.life.open, t.outputs)
  {
    LifeByTurn(s, m, marshalOk, writeOk);
    var put := PutByTurn(s, m, marshalOk, writeOk);
    OnlyDownWhenShut(s, m, marshalOk, writeOk, put);
    PutKeepsDownLast(s.life.open, s.outputs, put);
  }

  lemma TurnKeepsDownLast(s: Socket, e: Event, t: Socket)
    requires Leads(s, e, t) && e.Turn? && Steady(s) && DownLast(s.life.open, s.outputs)
    ensures DownLast(t.life.open, t.outputs)
  {
    StepBooks(s, e);
    HandleKeepsDownLast(s.(queue := s.queue[1..]), s.queue[0], e.marshalOk, e.writeOk);
  }

  lemma StepKeepsDownLast(s: Socket, e: Event, t: Socket)
    requires Leads(s, e, t) && Steady(s) && DownLast(s.life.open, s.outputs)
    ensures DownLast(t.life.open, t.outputs)
  {
    match e
    case Turn(_, _) => TurnKeepsDownLast(s, e, t);
    case Sends(_, _, _, codeOk) => if codeOk {} else {}
    case SetsDown =>
    case Reads(_, _) =>
    case ReadEnds => if s.life.terminated {} else {}
    case TimerFires(_) =>
    case TimerSends(_) =>
    case Leaves =>
    case Closes =>
  }

  /** Over every run nothing is written after down was reported; it was exactly if the socket is shut. */
  lemma {:induction false} NothingWrittenAfterDown(states: seq<Socket>, events: seq<Event>)
    requires IsRun(states, events)
    ensures DownLast(Last(states).life.open, Last(states).outputs)
    decreases |events|
  {
    if events != [] {
      NothingWrittenAfterDown(Front(states), Front(events));
      RunIsSteady(Front(states), Front(events));
      StepKeepsDownLast(Last(Front(states)), Last(events), Last(states));
    }
  }
}
