/**
 One RADIUS client socket as an actor: its event loop, its read loop and its timers, and what
 they do to the queue, the outstanding requests, the wait group and the response channels.
 */
module SocketSpec {
  import opened Common
  import opened Outstanding
  import Runs

  const MAX_ID := 255

  datatype Key = Key(endpoint: string, id: nat)

  /** A request to send. Id 0 asks for a fresh identifier; another one makes it a retransmission under that id. */
  datatype Request = Request(endpoint: string, id: nat, tries: int, rchan: nat)

  /** What the checks of a received packet say. */
  datatype Verdict = Good | BadAuthenticator | Undecodable

  datatype Outcome =
    | Answer(key: Key)
    | Rejected(key: Key, verdict: Verdict)
    | Timeout
    | Cancelled
    | NoIdentifier
    | NotMarshalled
    | NotWritten
    | NotARequest

  datatype Msg =
    | SocketClose
    | ReadError
    | SetDownCommand
    | Response(key: Key, verdict: Verdict)
    | Transmit(request: Request)
    | CancelRequest(key: Key)

  datatype Output = Wrote(request: Request) | Down

  datatype Phase = InUse | Closing | Ended | Crashed

  /** `leaving` goroutines sent their message and did not yet call Done. */
  datatype Life = Life(terminated: bool, open: bool, reading: bool, leaving: nat, phase: Phase)

  type Nested = map<string, map<nat, RequestContext>>

  /** A timer carries the request it would cancel or send again, a channel the endpoint asked. */
  datatype Socket = Socket(
    queue: seq<Msg>,
    requestsMap: Nested,
    lastRadiusIdMap: map<string, nat>,
    timers: Timers<Request>,
    wg: int,
    channels: Channels<Outcome, string>,
    outputs: seq<Output>,
    life: Life)

  function New(): Socket {
    Socket([], map[], map[], Timers(map[], 0), 0, Channels(map[], map[], map[]), [], Life(false, true, true, 0, InUse))
  }

  function KeyOf(r: Request): Key {
    Key(r.endpoint, r.id)
  }

  function Flat(m: Nested): map<Key, RequestContext> {
    map endpoint, id | endpoint in m && id in m[endpoint] :: Key(endpoint, id) := m[endpoint][id]
  }

  predicate Has(m: Nested, k: Key) {
    k.endpoint in m && k.id in m[k.endpoint]
  }

  function With(m: Nested, k: Key, context: RequestContext): Nested
    requires k.endpoint in m
  {
    var ids: map<nat, RequestContext> := m[k.endpoint][k.id := context];
    m[k.endpoint := ids]
  }

  function Without(m: Nested, k: Key): Nested
    requires Has(m, k)
  {
    m[k.endpoint := m[k.endpoint] - {k.id}]
  }

  function Post(s: Socket, m: Msg): Socket {
    s.(queue := s.queue + [m])
  }

  function Reply(s: Socket, c: nat, o: Outcome): Socket {
    s.(channels := Told(s.channels, c, o))
  }

  /** Stopping an armed timer gives back its wait; stopping another one does nothing. */
  function StopTimer(s: Socket, t: nat): Socket {
    s.(timers := if Armed(s.timers.live, t) then s.timers.(live := s.timers.live - {t}) else s.timers,
       wg := if Armed(s.timers.live, t) then s.wg - 1 else s.wg)
  }

  /** Every outstanding request is told, every armed timer stopped, and every endpoint forgotten. */
  function CancelThese(s: Socket, out: map<Key, RequestContext>): Socket {
    var stopped := Stopped(out, s.timers.live);
    s.(
      timers := s.timers.(live := s.timers.live - stopped),
      wg := s.wg - |stopped|,
      channels := AllTold(s.channels, out, Cancelled),
      requestsMap := map[])
  }

  function CancelAll(s: Socket): Socket {
    CancelThese(s, Flat(s.requestsMap))
  }

  // ----- Identifiers

  function NextId(id: nat): nat {
    if id == MAX_ID then 1 else id + 1
  }

  /** The first of the next `tries` identifiers after `id` that is not busy. */
  function FirstFree<T>(busy: map<nat, T>, id: nat, tries: nat): Option<nat>
    decreases tries
  {
    if tries == 0 then None
    else if NextId(id) !in busy then Some(NextId(id))
    else FirstFree(busy, NextId(id), tries - 1)
  }

  function Known(s: Socket, endpoint: string): map<nat, RequestContext> {
    if endpoint in s.requestsMap then s.requestsMap[endpoint] else map[]
  }

  function LastId(s: Socket, endpoint: string): nat {
    if endpoint in s.lastRadiusIdMap then s.lastRadiusIdMap[endpoint] else 0
  }

  function GetNextRadiusId(s: Socket, endpoint: string, current: nat): (Socket, Option<nat>) {
    if current != 0 then (s, Some(current))
    else
      var id := FirstFree(Known(s, endpoint), LastId(s, endpoint), MAX_ID);
      var last := if id.Some? then id.value else if endpoint in s.lastRadiusIdMap then LastId(s, endpoint) else 1;
      (s.(requestsMap := s.requestsMap[endpoint := Known(s, endpoint)],
          lastRadiusIdMap := s.lastRadiusIdMap[endpoint := last]), id)
  }

  // ----- The event loop

  function Done(s: Socket): Socket {
    s.(wg := s.wg - 1)
  }

  /** The request is on the wire: it is outstanding, with a timer of its own. */
  function Sent(s: Socket, r: Request): Socket
    requires r.endpoint in s.requestsMap
  {
    s.(outputs := s.outputs + [Wrote(r)],
       requestsMap := With(s.requestsMap, KeyOf(r), RequestContext(r.rchan, s.timers.next)),
       timers := Timers(s.timers.live[s.timers.next := Timer(r, false)], s.timers.next + 1),
       wg := s.wg + 1)
  }

  function TransmitAs(s: Socket, r: Request, marshalOk: bool, writeOk: bool): Socket {
    if !marshalOk then Done(Reply(s, r.rchan, NotMarshalled))
    else if !(s.life.open && writeOk) then Done(Post(Reply(s, r.rchan, NotWritten), SetDownCommand))
    else if r.endpoint !in s.requestsMap then s.(life := s.life.(phase := Crashed))
    else Done(Sent(s, r))
  }

  function HandleTransmit(s: Socket, r: Request, marshalOk: bool, writeOk: bool): Socket {
    var (t, id) := GetNextRadiusId(s, r.endpoint, r.id);
    if id.None? then Done(Reply(t, r.rchan, NoIdentifier))
    else TransmitAs(t, r.(id := id.value), marshalOk, writeOk)
  }

  function HandleResponse(s: Socket, k: Key, v: Verdict): Socket {
    if !Has(s.requestsMap, k) then s
    else
      var context := s.requestsMap[k.endpoint][k.id];
      var t := StopTimer(s, context.timer).(requestsMap := Without(s.requestsMap, k));
      Reply(t, context.rchan, if v.Good? then Answer(k) else Rejected(k, v))
  }

  function HandleCancel(s: Socket, k: Key): Socket {
    if !Has(s.requestsMap, k) then s
    else Reply(s, s.requestsMap[k.endpoint][k.id].rchan, Timeout).(requestsMap := Without(s.requestsMap, k))
  }

  function CloseSocket(s: Socket, terminated: bool): Socket {
    s.(life := s.life.(terminated := terminated, open := false))
  }

  function ReportDown(s: Socket): Socket {
    s.(outputs := s.outputs + [Down])
  }

  function GoDown(s: Socket, terminated: bool): Socket {
    ReportDown(CancelAll(CloseSocket(s, terminated)))
  }

  function Handle(s: Socket, m: Msg, marshalOk: bool, writeOk: bool): Socket {
    match m
    case SocketClose => s.(life := s.life.(phase := Ended))
    case ReadError => GoDown(s, s.life.terminated)
    case SetDownCommand => GoDown(s, true)
    case Response(k, v) => HandleResponse(s, k, v)
    case Transmit(r) => HandleTransmit(s, r, marshalOk, writeOk)
    case CancelRequest(k) => HandleCancel(s, k)
  }

  // ----- What happens around the event loop

  function Open(s: Socket, endpoint: string, c: nat): Socket {
    s.(channels := Channels(s.channels.mail[c := []], s.channels.closes[c := 0], s.channels.asked[c := endpoint]))
  }

  /** A caller hands in a packet with a channel of its own. `codeOk` says whether the packet is a request. */
  function SendRequest(s: Socket, endpoint: string, tries: int, c: nat, codeOk: bool): Socket {
    var t := Open(s, endpoint, c);
    if !codeOk then Reply(t, c, NotARequest)
    else Post(t.(wg := t.wg + 1), Transmit(Request(endpoint, 0, tries, c)))
  }

  /** A timer's last act: with tries left the request goes to the queue again, holding the wait group. */
  function TimerAct(r: Request): Msg {
    if r.tries <= 1 then CancelRequest(KeyOf(r)) else Transmit(r.(tries := r.tries - 1))
  }

  function TimerSend(s: Socket, t: nat): Socket
    requires t in s.timers.live
  {
    var m := TimerAct(s.timers.live[t].request);
    Post(s.(timers := s.timers.(live := s.timers.live - {t}),
            wg := if m.Transmit? then s.wg + 1 else s.wg,
            life := s.life.(leaving := s.life.leaving + 1)), m)
  }

  function ReadEnd(s: Socket): Socket {
    var t := s.(life := s.life.(reading := false));
    if s.life.terminated then t else Post(t, ReadError)
  }

  // ----- Runs

  datatype Event =
    | Turn(marshalOk: bool, writeOk: bool)
    | Sends(endpoint: string, tries: int, rchan: nat, codeOk: bool)
    | SetsDown
    | Reads(key: Key, verdict: Verdict)
    | ReadEnds
    | TimerFires(timer: nat)
    | TimerSends(timer: nat)
    | Leaves
    | Closes

  predicate Enabled(s: Socket, e: Event) {
    !s.life.phase.Crashed? && !s.life.phase.Ended? &&
    match e
    case Turn(_, _) => s.queue != []
    case Sends(_, _, c, _) => s.life.phase.InUse? && c !in s.channels.mail
    case SetsDown => s.life.phase.InUse?
    case Reads(_, _) => s.life.reading
    case ReadEnds => s.life.reading
    case TimerFires(t) => Armed(s.timers.live, t)
    case TimerSends(t) => t in s.timers.live && s.timers.live[t].running
    case Leaves => s.life.leaving > 0
    case Closes => s.life.phase.InUse? && !s.life.reading && s.wg == 0
  }

  function Step(s: Socket, e: Event): Socket
    requires Enabled(s, e)
  {
    match e
    case Turn(marshalOk, writeOk) => Handle(s.(queue := s.queue[1..]), s.queue[0], marshalOk, writeOk)
    case Sends(endpoint, tries, c, codeOk) => SendRequest(s, endpoint, tries, c, codeOk)
    case SetsDown => Post(s, SetDownCommand)
    case Reads(k, v) => Post(s, Response(k, v))
    case ReadEnds => ReadEnd(s)
    case TimerFires(t) => s.(timers := s.timers.(live := s.timers.live[t := s.timers.live[t].(running := true)]))
    case TimerSends(t) => TimerSend(s, t)
    case Leaves => s.(life := s.life.(leaving := s.life.leaving - 1), wg := s.wg - 1)
    case Closes => Post(s.(life := s.life.(phase := Closing)), SocketClose)
  }

  ghost predicate Starts(s: Socket) {
    s == New()
  }

  ghost predicate Leads(s: Socket, e: Event, t: Socket) {
    Enabled(s, e) && t == Step(s, e)
  }

  ghost predicate IsRun(states: seq<Socket>, events: seq<Event>) {
    Runs.IsRun(Starts, Leads, states, events)
  }

  lemma RunGoesOn(states: seq<Socket>, events: seq<Event>, e: Event)
    requires IsRun(states, events) && Enabled(Last(states), e)
    ensures IsRun(states + [Step(Last(states), e)], events + [e])
  {
    Runs.GoesOn(Starts, Leads, states, events, e, Step(Last(states), e));
  }

  // ----- The nested map as one map

  lemma FlatHas(m: Nested, k: Key)
    ensures k in Flat(m) <==> Has(m, k)
    ensures Has(m, k) ==> Flat(m)[k] == m[k.endpoint][k.id]
  {
    assert k == Key(k.endpoint, k.id);
  }

  lemma FlatEmpty()
    ensures Flat(map[]) == map[]
  {
    forall k ensures k !in Flat(map[]) {
      FlatHas(map[], k);
    }
  }

  lemma FlatWithout(m: Nested, k: Key)
    requires Has(m, k)
    ensures Flat(Without(m, k)) == Flat(m) - {k}
  {
    forall j: Key ensures j in Flat(Without(m, k)) <==> j in Flat(m) - {k} {
      FlatHas(m, j);
      FlatHas(Without(m, k), j);
    }
  }

  lemma FlatWith(m: Nested, k: Key, context: RequestContext)
    requires k.endpoint in m
    ensures Flat(With(m, k, context)) == Flat(m)[k := context]
  {
    var after := With(m, k, context);
    forall j: Key ensures j in Flat(after) <==> j in Flat(m)[k := context] {
      FlatHas(m, j);
      FlatHas(after, j);
    }
  }

  lemma FlatKnown(m: Nested, endpoint: string)
    ensures Flat(m[endpoint := if endpoint in m then m[endpoint] else map[]]) == Flat(m)
  {
    var after := m[endpoint := if endpoint in m then m[endpoint] else map[]];
    forall j: Key ensures j in Flat(after) <==> j in Flat(m) {
      FlatHas(m, j);
      FlatHas(after, j);
    }
  }
}
