/**
 One Diameter peer as an actor: its event loop, the goroutines around it and what they do to
 the queue, the outstanding requests, the timers, the wait group and the response channels.
 */
module PeerSpec {
  import opened Common
  import opened Outstanding
  import Runs

  const StatusConnecting := 1
  const StatusConnected := 2
  const StatusEngaged := 3
  const StatusTerminating := 4
  const StatusTerminated := 5

  const MAX_UNANSWERED_WATCHDOG_REQUESTS := 2

  datatype Command = CapabilitiesExchange | DeviceWatchdog | DisconnectPeer | OtherCommand

  /**
   `sound` is the verdict of the peer's own checks: a known Origin-Host from a valid address in a
   Capabilities-Exchange, a successful Result-Code in an answer.
   */
  datatype Message = Message(
    isRequest: bool, applicationId: nat, command: Command, hopByHopId: nat, host: string, sound: bool)

  datatype Outcome = Answer(message: Message) | Timeout | Cancelled | NotSent | Invalid

  /** What waits in the event loop channel. */
  datatype Msg =
    | PeerClose
    | ConnectionEstablished
    | ConnectionError
    | ReadEOF
    | ReadError
    | WriteError
    | PeerUp(host: string)
    | PeerSetDown
    | Egress(message: Message, rchan: Option<nat>, waited: bool)
    | Ingress(message: Message)
    | CancelRequest(hopByHopId: nat)
    | Watchdog

  datatype Output = Wrote(message: Message) | Up(host: string) | Down

  /** The goroutines around the event loop; a leaving one has sent its message and not yet called Done. */
  datatype Around = Around(connecting: bool, reading: bool, handlers: nat, leaving: nat)

  /** In use, with PeerClose sent, with the event loop ended, or ended by a panic. */
  datatype Phase = InUse | Closing | Ended | Crashed

  /** A timer carries the hop id it would cancel, a channel the hop id of the request it was handed in with. */
  datatype Peer = Peer(
    status: int,
    queue: seq<Msg>,
    requestsMap: map<nat, RequestContext>,
    timers: Timers<nat>,
    wg: int,
    outstandingDWA: nat,
    host: string,
    around: Around,
    channels: Channels<Outcome, nat>,
    outputs: seq<Output>,
    phase: Phase)

  function Active(host: string): Peer {
    Peer(StatusConnecting, [], map[], Timers(map[], 0), 1, 0, host, Around(true, false, 0, 0),
         Channels(map[], map[], map[]), [], InUse)
  }

  function Passive(): Peer {
    Peer(StatusConnected, [], map[], Timers(map[], 0), 0, 0, "", Around(false, true, 0, 0),
         Channels(map[], map[], map[]), [], InUse)
  }

  function Post(s: Peer, m: Msg): Peer {
    s.(queue := s.queue + [m])
  }

  function Own(m: Message): Msg {
    Egress(m, None, false)
  }

  function Request(command: Command, hop: nat): Message {
    Message(true, 0, command, hop, "", true)
  }

  function AnswerTo(m: Message): Message {
    m.(isRequest := false)
  }

  // ----- Response channels

  function Reply(s: Peer, c: nat, o: Outcome): Peer {
    s.(channels := Told(s.channels, c, o))
  }

  function ReplyIfWaited(s: Peer, rchan: Option<nat>, o: Outcome): Peer {
    match rchan
    case None => s
    case Some(c) => Reply(s, c, o)
  }

  /** Stopping an armed timer gives back its wait; stopping another one does nothing. */
  function StopTimer(s: Peer, t: nat): Peer {
    s.(timers := if Armed(s.timers.live, t) then s.timers.(live := s.timers.live - {t}) else s.timers,
       wg := if Armed(s.timers.live, t) then s.wg - 1 else s.wg)
  }

  /** Every outstanding request is told, and every armed timer stopped. */
  function CancelAll(s: Peer): Peer {
    var stopped := Stopped(s.requestsMap, s.timers.live);
    s.(
      timers := s.timers.(live := s.timers.live - stopped),
      wg := s.wg - |stopped|,
      channels := AllTold(s.channels, s.requestsMap, Cancelled),
      requestsMap := map[])
  }

  function TerminateActions(s: Peer): Peer {
    var t := CancelAll(s.(status := StatusTerminated));
    t.(outputs := t.outputs + [Down])
  }

  // ----- The event loop

  predicate Sendable(s: Peer, m: Message) {
    (s.status == StatusConnected && m.applicationId == 0) || s.status == StatusEngaged
  }

  predicate IsDisconnectAnswer(m: Message) {
    !m.isRequest && m.applicationId == 0 && m.command.DisconnectPeer?
  }

  function Started(s: Peer, m: Message, c: nat): Peer {
    s.(
      wg := s.wg + 1,
      timers := Timers(s.timers.live[s.timers.next := Timer(m.hopByHopId, false)], s.timers.next + 1),
      requestsMap := s.requestsMap[m.hopByHopId := RequestContext(c, s.timers.next)])
  }

  function Written(s: Peer, m: Message, rchan: Option<nat>): Peer {
    var t := s.(outputs := s.outputs + [Wrote(m)]);
    if m.isRequest && rchan.Some? then Started(t, m, rchan.value) else t
  }

  function NotWritten(s: Peer, m: Message, rchan: Option<nat>): Peer {
    var t := Post(s, WriteError).(status := StatusTerminating);
    if m.isRequest then ReplyIfWaited(t, rchan, NotSent) else t
  }

  function Send(s: Peer, m: Message, rchan: Option<nat>, writeOk: bool): Peer {
    var t := if IsDisconnectAnswer(m) then Post(s, PeerSetDown).(status := StatusTerminating) else s;
    if writeOk then Written(t, m, rchan) else NotWritten(t, m, rchan)
  }

  function HandleEgress(s: Peer, m: Message, rchan: Option<nat>, waited: bool, writeOk: bool): Peer {
    if Sendable(s, m) && m.isRequest && m.hopByHopId in s.requestsMap then
      s.(phase := Crashed)
    else
      var t := if Sendable(s, m) then Send(s, m, rchan, writeOk) else ReplyIfWaited(s, rchan, NotSent);
      if waited then t.(wg := t.wg - 1) else t
  }

  /** A received Capabilities-Exchange request: the answer goes first, then the verdict. */
  function HandleCER(s: Peer, m: Message): Peer {
    if s.status != StatusConnected then
      Post(s, PeerSetDown).(status := StatusTerminating)
    else
      var t := Post(s, Own(AnswerTo(m)));
      if m.sound then Post(t, PeerUp(m.host)).(host := m.host)
      else Post(t, PeerSetDown).(status := StatusTerminating)
  }

  function HandleBaseRequest(s: Peer, m: Message): Peer {
    match m.command
    case CapabilitiesExchange => HandleCER(s, m)
    case DeviceWatchdog => Post(s, Own(AnswerTo(m)))
    case DisconnectPeer => Post(s, Own(AnswerTo(m)))
    case OtherCommand => s
  }

  function HandleBaseAnswer(s: Peer, m: Message): Peer {
    match m.command
    case CapabilitiesExchange =>
      if m.sound then Post(s, PeerUp(s.host))
      else Post(s.(status := StatusTerminating), PeerSetDown)
    case DeviceWatchdog =>
      if !m.sound then Post(s.(status := StatusTerminating), PeerSetDown)
      else if s.outstandingDWA > 0 then s.(outstandingDWA := s.outstandingDWA - 1)
      else s
    case _ => s
  }

  function HandleAnswer(s: Peer, m: Message): Peer {
    if m.hopByHopId !in s.requestsMap then s
    else
      var context := s.requestsMap[m.hopByHopId];
      var t := Reply(StopTimer(s, context.timer), context.rchan, Answer(m));
      t.(requestsMap := t.requestsMap - {m.hopByHopId})
  }

  function HandleIngress(s: Peer, m: Message): Peer {
    if m.isRequest then
      if m.applicationId == 0 then HandleBaseRequest(s, m)
      else s.(wg := s.wg + 1, around := s.around.(handlers := s.around.handlers + 1))
    else
      if m.applicationId == 0 then HandleBaseAnswer(s, m) else HandleAnswer(s, m)
  }

  function HandleCancel(s: Peer, hop: nat): Peer {
    if hop !in s.requestsMap then s
    else
      var t := Reply(s, s.requestsMap[hop].rchan, Timeout);
      t.(requestsMap := t.requestsMap - {hop})
  }

  function HandleWatchdog(s: Peer, newHop: nat): Peer {
    var t := if s.outstandingDWA > MAX_UNANSWERED_WATCHDOG_REQUESTS
             then Post(s.(status := StatusTerminating), PeerSetDown) else s;
    Post(t, Own(Request(DeviceWatchdog, newHop))).(outstandingDWA := t.outstandingDWA + 1)
  }

  function Terminate(s: Peer): Peer {
    if s.status < StatusTerminated then TerminateActions(s) else s
  }

  /**
   One turn of the event loop. `writeOk` says whether a write would succeed, `newHop` is the id of a new own request.
   */
  function Handle(s: Peer, m: Msg, writeOk: bool, newHop: nat): Peer {
    match m
    case PeerClose => s.(phase := Ended)
    case ConnectionEstablished =>
      Post(s.(status := StatusConnected, around := s.around.(reading := true)),
          Own(Request(CapabilitiesExchange, newHop)))
    case ConnectionError =>
      if s.status < StatusTerminated then s.(status := StatusTerminated, outputs := s.outputs + [Down]) else s
    case ReadEOF => Terminate(s)
    case ReadError => Terminate(s)
    case WriteError => Terminate(s)
    case PeerUp(host) =>
      if s.status < StatusEngaged then s.(status := StatusEngaged, outputs := s.outputs + [Up(host)]) else s
    case PeerSetDown => Terminate(s)
    case Egress(message, rchan, waited) => HandleEgress(s, message, rchan, waited, writeOk)
    case Ingress(message) => HandleIngress(s, message)
    case CancelRequest(hop) => HandleCancel(s, hop)
    case Watchdog => HandleWatchdog(s, newHop)
  }

  function Tick(s: Peer): Peer {
    if s.status == StatusEngaged then Post(s, Watchdog)
    else if s.status > StatusEngaged then s
    else Post(s, PeerSetDown)
  }

  function Open(s: Peer, m: Message, c: nat): Peer {
    s.(channels := Channels(s.channels.mail[c := []], s.channels.closes[c := 0], s.channels.asked[c := m.hopByHopId]))
  }

  /** A caller hands in a request with a channel of its own. */
  function Exchange(s: Peer, m: Message, c: nat): Peer {
    var t := Open(s, m, c);
    if m.applicationId == 0 || !m.isRequest then Reply(t, c, Invalid)
    else Post(t.(wg := t.wg + 1), Egress(m, Some(c), true))
  }

  // ----- Runs

  datatype Event =
    | Turn(writeOk: bool, newHop: nat)
    | Ticks
    | Exchanges(message: Message, rchan: nat)
    | SetsDown
    | ConnectEnds(ok: bool)
    | Reads(message: Message)
    | ReadEnds(eof: bool)
    | TimerFires(timer: nat)
    | TimerSends(timer: nat)
    | HandlerEnds(answer: Message)
    | Leaves
    | Closes

  /**
   When the event can happen. Closing comes after the reader and the wait group are done, and ends the use of the peer.
   */
  predicate Enabled(s: Peer, e: Event) {
    !s.phase.Crashed? && !s.phase.Ended? &&
    match e
    case Turn(_, _) => s.queue != []
    case Ticks => s.phase.InUse?
    case Exchanges(_, c) => s.phase.InUse? && c !in s.channels.mail
    case SetsDown => s.phase.InUse?
    case ConnectEnds(_) => s.around.connecting
    case Reads(_) => s.around.reading
    case ReadEnds(_) => s.around.reading
    case TimerFires(t) => Armed(s.timers.live, t)
    case TimerSends(t) => t in s.timers.live && s.timers.live[t].running
    case HandlerEnds(_) => s.around.handlers > 0
    case Leaves => s.around.leaving > 0
    case Closes => s.phase.InUse? && !s.around.reading && s.wg == 0
  }

  function Step(s: Peer, e: Event): Peer
    requires Enabled(s, e)
  {
    match e
    case Turn(writeOk, newHop) => Handle(s.(queue := s.queue[1..]), s.queue[0], writeOk, newHop)
    case Ticks => Tick(s)
    case Exchanges(m, c) => Exchange(s, m, c)
    case SetsDown => Post(s, PeerSetDown)
    case ConnectEnds(ok) =>
      Post(s.(around := s.around.(connecting := false, leaving := s.around.leaving + 1)),
           if ok then ConnectionEstablished else ConnectionError)
    case Reads(m) => Post(s, Ingress(m))
    case ReadEnds(eof) => Post(s.(around := s.around.(reading := false)), if eof then ReadEOF else ReadError)
    case TimerFires(t) => s.(timers := s.timers.(live := s.timers.live[t := s.timers.live[t].(running := true)]))
    case TimerSends(t) =>
      Post(s.(timers := s.timers.(live := s.timers.live - {t}), around := s.around.(leaving := s.around.leaving + 1)),
           CancelRequest(s.timers.live[t].request))
    case HandlerEnds(answer) =>
      Post(s.(around := s.around.(handlers := s.around.handlers - 1, leaving := s.around.leaving + 1)), Own(answer))
    case Leaves => s.(around := s.around.(leaving := s.around.leaving - 1), wg := s.wg - 1)
    case Closes => Post(s.(phase := Closing), PeerClose)
  }

  ghost predicate Starts(s: Peer) {
    s == Passive() || exists host :: s == Active(host)
  }

  ghost predicate Leads(s: Peer, e: Event, t: Peer) {
    Enabled(s, e) && t == Step(s, e)
  }

  ghost predicate IsRun(states: seq<Peer>, events: seq<Event>) {
    Runs.IsRun(Starts, Leads, states, events)
  }

  lemma RunGoesOn(states: seq<Peer>, events: seq<Event>, e: Event)
    requires IsRun(states, events) && Enabled(Last(states), e)
    ensures IsRun(states + [Step(Last(states), e)], events + [e])
  {
    Runs.GoesOn(Starts, Leads, states, events, e, Step(Last(states), e));
  }

  lemma NextInRun(states: seq<Peer>, events: seq<Event>, i: nat)
    requires IsRun(states, events) && i < |events|
    ensures Leads(states[i], events[i], states[i + 1])
  {
    Runs.Next(Starts, Leads, states, events, i);
  }
}
