/** Why a caller of a peer is told what it is told, what the peer writes and reports, and how two peers get engaged. */
module PeerOutcomes {
  import opened Common
  import opened Outstanding
  import Runs
  import opened PeerSpec
  import opened PeerTheorems

  // ----- One turn of the event loop

  /** Base messages go out once connected, all messages once engaged. */
  predicate MayGo(s: Peer, m: Message) {
    s.status == 3 || (s.status == 2 && m.applicationId == 0)
  }

  /** A message that ends the process: a request under a hop id that is outstanding. */
  predicate Repeats(s: Peer, m: Msg) {
    m.Egress? && MayGo(s, m.message) && m.message.isRequest && m.message.hopByHopId in s.requestsMap
  }

  predicate Ends(m: Msg) {
    m.ReadEOF? || m.ReadError? || m.WriteError? || m.PeerSetDown?
  }

  /** What a turn tells a channel. */
  function TurnTells(s: Peer, m: Msg, writeOk: bool, c: nat): seq<Outcome> {
    match m
    case Ingress(a) =>
      if !a.isRequest && a.applicationId != 0 && a.hopByHopId in s.requestsMap && s.requestsMap[a.hopByHopId].rchan == c
      then [Answer(a)] else []
    case CancelRequest(hop) =>
      if hop in s.requestsMap && s.requestsMap[hop].rchan == c then [Timeout] else []
    case Egress(r, rchan, _) =>
      if rchan == Some(c) && (!MayGo(s, r) || (r.isRequest && !writeOk && !Repeats(s, m))) then [NotSent] else []
    case _ =>
      if Ends(m) && s.status < 5 then seq(|Waiting(s.requestsMap, c)|, _ => Cancelled) else []
  }

  lemma EgressTells(s: Peer, r: Message, rchan: Option<nat>, waited: bool, writeOk: bool, c: nat)
    ensures var t := HandleEgress(s, r, rchan, waited, writeOk);
      var tells := TurnTells(s, Egress(r, rchan, waited), writeOk, c);
      && (c in s.channels.mail ==> c in t.channels.mail && t.channels.mail[c] == s.channels.mail[c] + tells)
      && (c !in s.channels.mail && rchan != Some(c) ==> c !in t.channels.mail)
  {
    assert c in s.channels.mail ==> s.channels.mail[c] + [] == s.channels.mail[c];
    if Repeats(s, Egress(r, rchan, waited)) {
    } else if MayGo(s, r) {
      if writeOk {} else { if r.isRequest {} else {} }
    } else {
    }
  }

  lemma ToldByTurn(s: Peer, m: Msg, writeOk: bool, newHop: nat, c: nat)
    requires c in s.channels.mail
    ensures var t := Handle(s, m, writeOk, newHop);
      c in t.channels.mail && t.channels.mail[c] == s.channels.mail[c] + TurnTells(s, m, writeOk, c)
  {
    assert s.channels.mail[c] + [] == s.channels.mail[c];
    match m
    case Egress(r, rchan, waited) => EgressTells(s, r, rchan, waited, writeOk, c);
    case Ingress(a) =>
      if a.applicationId == 0 {
        BaseTellsNobody(s, a);
      } else if !a.isRequest && a.hopByHopId in s.requestsMap {
      }
    case CancelRequest(hop) => if hop in s.requestsMap {} else {}
    case Watchdog => if s.outstandingDWA > MAX_UNANSWERED_WATCHDOG_REQUESTS {} else {}
    case PeerClose =>
    case ConnectionEstablished =>
    case ConnectionError => if s.status < 5 {} else {}
    case PeerUp(_) => if s.status < 3 {} else {}
    case ReadEOF => if s.status < 5 {} else {}
    case ReadError => if s.status < 5 {} else {}
    case WriteError => if s.status < 5 {} else {}
    case PeerSetDown => if s.status < 5 {} else {}
  }

  lemma BaseTellsNobody(s: Peer, a: Message)
    requires a.applicationId == 0
    ensures HandleIngress(s, a).channels == s.channels && HandleIngress(s, a).outputs == s.outputs
  {
    if a.isRequest {
      match a.command
      case CapabilitiesExchange => if s.status == StatusConnected { if a.sound {} else {} }
      case DeviceWatchdog =>
      case DisconnectPeer =>
      case OtherCommand =>
    } else {
      match a.command
      case CapabilitiesExchange => if a.sound {} else {}
      case DeviceWatchdog => if a.sound { if s.outstandingDWA > 0 {} else {} } else {}
      case DisconnectPeer =>
      case OtherCommand =>
    }
  }

  /** What a turn writes or reports: the message that may go, up before the peer is engaged, down before it ended. */
  function TurnPuts(s: Peer, m: Msg, writeOk: bool): seq<Output> {
    match m
    case Egress(r, _, _) => if MayGo(s, r) && !Repeats(s, m) && writeOk then [Wrote(r)] else []
    case PeerUp(host) => if s.status < 3 then [Up(host)] else []
    case _ => if (Ends(m) || m.ConnectionError?) && s.status < 5 then [Down] else []
  }

  lemma PutByTurn(s: Peer, m: Msg, writeOk: bool, newHop: nat)
    ensures Handle(s, m, writeOk, newHop).outputs == s.outputs + TurnPuts(s, m, writeOk)
  {
    assert s.outputs + [] == s.outputs;
    match m
    case Egress(r, rchan, waited) =>
      if Repeats(s, m) {
      } else if MayGo(s, r) {
        if writeOk {} else { if r.isRequest {} else {} }
      } else {
      }
    case Ingress(a) =>
      if a.applicationId == 0 {
        BaseTellsNobody(s, a);
      } else if !a.isRequest && a.hopByHopId in s.requestsMap {
      }
    case CancelRequest(hop) => if hop in s.requestsMap {} else {}
    case Watchdog => if s.outstandingDWA > MAX_UNANSWERED_WATCHDOG_REQUESTS {} else {}
    case PeerClose =>
    case ConnectionEstablished =>
    case ConnectionError => if s.status < 5 {} else {}
    case PeerUp(_) => if s.status < 3 {} else {}
    case ReadEOF => if s.status < 5 {} else {}
    case ReadError => if s.status < 5 {} else {}
    case WriteError => if s.status < 5 {} else {}
    case PeerSetDown => if s.status < 5 {} else {}
  }

  /** What a turn sends to the event loop itself: messages of the base protocol, and how the peer goes on. */
  function TurnQueues(s: Peer, m: Msg, writeOk: bool, newHop: nat): seq<Msg> {
    match m
    case ConnectionEstablished => [Egress(Message(true, 0, CapabilitiesExchange, newHop, "", true), None, false)]
    case Watchdog =>
      (if s.outstandingDWA > 2 then [PeerSetDown] else [])
      + [Egress(Message(true, 0, DeviceWatchdog, newHop, "", true), None, false)]
    case Egress(r, _, _) =>
      if !MayGo(s, r) || Repeats(s, m) then []
      else
        (if !r.isRequest && r.applicationId == 0 && r.command.DisconnectPeer? then [PeerSetDown] else [])
        + if writeOk then [] else [WriteError]
    case Ingress(a) =>
      if a.applicationId != 0 then []
      else if a.isRequest then
        var answer := [Egress(a.(isRequest := false), None, false)];
        if a.command.DeviceWatchdog? || a.command.DisconnectPeer? then answer
        else if a.command.OtherCommand? then []
        else if s.status != 2 then [PeerSetDown]
        else answer + if a.sound then [PeerUp(a.host)] else [PeerSetDown]
      else if a.command.CapabilitiesExchange? then [if a.sound then PeerUp(s.host) else PeerSetDown]
      else if a.command.DeviceWatchdog? && !a.sound then [PeerSetDown]
      else []
    case _ => []
  }

  lemma QueuedByTurn(s: Peer, m: Msg, writeOk: bool, newHop: nat)
    ensures Handle(s, m, writeOk, newHop).queue == s.queue + TurnQueues(s, m, writeOk, newHop)
  {
    assert s.queue + [] == s.queue;
    match m
    case Egress(r, rchan, waited) => EgressQueues(s, r, rchan, waited, writeOk);
    case Ingress(a) =>
      if a.applicationId == 0 {
        BaseQueues(s, a);
      } else if !a.isRequest && a.hopByHopId in s.requestsMap {
      }
    case CancelRequest(hop) => if hop in s.requestsMap {} else {}
    case Watchdog => if s.outstandingDWA > 2 {} else {}
    case PeerClose =>
    case ConnectionEstablished =>
    case ConnectionError => if s.status < 5 {} else {}
    case PeerUp(_) => if s.status < 3 {} else {}
    case ReadEOF => if s.status < 5 {} else {}
    case ReadError => if s.status < 5 {} else {}
    case WriteError => if s.status < 5 {} else {}
    case PeerSetDown => if s.status < 5 {} else {}
  }

  lemma EgressQueues(s: Peer, r: Message, rchan: Option<nat>, waited: bool, writeOk: bool)
    ensures HandleEgress(s, r, rchan, waited, writeOk).queue ==
            s.queue + TurnQueues(s, Egress(r, rchan, waited), writeOk, 0)
  {
    assert s.queue + [] == s.queue;
    if Repeats(s, Egress(r, rchan, waited)) {
    } else if MayGo(s, r) {
      if writeOk {} else { if r.isRequest {} else {} }
    } else {
    }
  }

  lemma BaseQueues(s: Peer, a: Message)
    requires a.applicationId == 0
    ensures HandleIngress(s, a).queue == s.queue + TurnQueues(s, Ingress(a), true, 0)
  {
    assert s.queue + [] == s.queue;
    if a.isRequest {
      match a.command
      case CapabilitiesExchange => if s.status == 2 { if a.sound {} else {} }
      case DeviceWatchdog =>
      case DisconnectPeer =>
      case OtherCommand =>
    } else {
      match a.command
      case CapabilitiesExchange => if a.sound {} else {}
      case DeviceWatchdog => if a.sound { if s.outstandingDWA > 0 {} else {} } else {}
      case DisconnectPeer =>
      case OtherCommand =>
    }
  }

  /** Where a turn leaves the peer: connecting 1, connected 2, engaged 3, terminating 4, terminated 5. */
  function TurnStatus(s: Peer, m: Msg, writeOk: bool): int {
    match m
    case ConnectionEstablished => 2
    case PeerUp(_) => if s.status < 3 then 3 else s.status
    case Watchdog => if s.outstandingDWA > 2 then 4 else s.status
    case Egress(r, _, _) =>
      if MayGo(s, r) && !Repeats(s, m)
         && (!writeOk || (!r.isRequest && r.applicationId == 0 && r.command.DisconnectPeer?))
      then 4 else s.status
    case Ingress(a) =>
      if a.applicationId != 0 then s.status
      else if a.command.CapabilitiesExchange? && (!a.sound || (a.isRequest && s.status != 2)) then 4
      else if a.command.DeviceWatchdog? && !a.isRequest && !a.sound then 4
      else s.status
    case _ => if (Ends(m) || m.ConnectionError?) && s.status < 5 then 5 else s.status
  }

  lemma StatusByTurn(s: Peer, m: Msg, writeOk: bool, newHop: nat)
    ensures Handle(s, m, writeOk, newHop).status == TurnStatus(s, m, writeOk)
  {
    match m
    case Egress(r, rchan, waited) =>
      if Repeats(s, m) {
      } else if MayGo(s, r) {
        if writeOk {} else { if r.isRequest {} else {} }
      } else {
      }
    case Ingress(a) =>
      if a.applicationId == 0 {
        BaseStatus(s, a);
      } else if !a.isRequest && a.hopByHopId in s.requestsMap {
      }
    case CancelRequest(hop) => if hop in s.requestsMap {} else {}
    case Watchdog => if s.outstandingDWA > 2 {} else {}
    case PeerClose =>
    case ConnectionEstablished =>
    case ConnectionError => if s.status < 5 {} else {}
    case PeerUp(_) => if s.status < 3 {} else {}
    case ReadEOF => if s.status < 5 {} else {}
    case ReadError => if s.status < 5 {} else {}
    case WriteError => if s.status < 5 {} else {}
    case PeerSetDown => if s.status < 5 {} else {}
  }

  lemma BaseStatus(s: Peer, a: Message)
    requires a.applicationId == 0
    ensures HandleIngress(s, a).status == TurnStatus(s, Ingress(a), true)
    ensures HandleIngress(s, a).host ==
            if a.isRequest && a.command.CapabilitiesExchange? && s.status == 2 && a.sound then a.host else s.host
  {
    if a.isRequest {
      match a.command
      case CapabilitiesExchange => if s.status == 2 { if a.sound {} else {} }
      case DeviceWatchdog =>
      case DisconnectPeer =>
      case OtherCommand =>
    } else {
      match a.command
      case CapabilitiesExchange => if a.sound {} else {}
      case DeviceWatchdog => if a.sound { if s.outstandingDWA > 0 {} else {} } else {}
      case DisconnectPeer =>
      case OtherCommand =>
    }
  }

  /** What the callers, the reader, the connection, the handlers and the timers send to the loop. */
  function Posts(s: Peer, e: Event): seq<Msg>
    requires Enabled(s, e)
  {
    match e
    case Turn(_, _) => []
    case Ticks => if s.status == 3 then [Watchdog] else if s.status > 3 then [] else [PeerSetDown]
    case Exchanges(m, c) => if m.isRequest && m.applicationId != 0 then [Egress(m, Some(c), true)] else []
    case SetsDown => [PeerSetDown]
    case ConnectEnds(ok) => [if ok then ConnectionEstablished else ConnectionError]
    case Reads(m) => [Ingress(m)]
    case ReadEnds(eof) => [if eof then ReadEOF else ReadError]
    case TimerFires(_) => []
    case TimerSends(t) => [CancelRequest(s.timers.live[t].request)]
    case HandlerEnds(answer) => [Egress(answer, None, false)]
    case Leaves => []
    case Closes => [PeerClose]
  }

  lemma PostedByEvent(s: Peer, e: Event)
    requires Enabled(s, e) && !e.Turn?
    ensures Step(s, e).queue == s.queue + Posts(s, e)
  {
    assert s.queue + [] == s.queue;
    match e
    case Ticks => if s.status == 3 {} else {}
    case Exchanges(m, _) => if m.isRequest && m.applicationId != 0 {} else {}
    case SetsDown =>
    case ConnectEnds(_) =>
    case Reads(_) =>
    case ReadEnds(_) =>
    case TimerFires(_) =>
    case TimerSends(_) =>
    case HandlerEnds(_) =>
    case Leaves =>
    case Closes =>
  }

  // ----- Runs

  /** The event tells a channel this. */
  ghost predicate Causes(s: Peer, e: Event, c: nat, o: Outcome) {
    match e
    case Turn(writeOk, _) => s.queue != [] && c in s.channels.mail && o in TurnTells(s, s.queue[0], writeOk, c)
    case Exchanges(m, rchan) => rchan == c && o == Invalid && (m.applicationId == 0 || !m.isRequest)
    case _ => false
  }

  lemma NobodyNew(s: Peer, m: Msg, writeOk: bool, newHop: nat, c: nat)
    requires c !in s.channels.mail && Waiting(s.requestsMap, c) == {} && (m.Egress? ==> m.rchan != Some(c))
    ensures c !in Handle(s, m, writeOk, newHop).channels.mail
  {
    match m
    case Egress(r, rchan, waited) => EgressTells(s, r, rchan, waited, writeOk, c);
    case Ingress(a) =>
      if a.applicationId == 0 {
        BaseTellsNobody(s, a);
      } else if !a.isRequest && a.hopByHopId in s.requestsMap {
        assert a.hopByHopId !in Waiting(s.requestsMap, c);
      }
    case CancelRequest(hop) =>
      if hop in s.requestsMap {
        assert hop !in Waiting(s.requestsMap, c);
      }
    case Watchdog => if s.outstandingDWA > MAX_UNANSWERED_WATCHDOG_REQUESTS {} else {}
    case PeerClose =>
    case ConnectionEstablished =>
    case ConnectionError => if s.status < 5 {} else {}
    case PeerUp(_) => if s.status < 3 {} else {}
    case ReadEOF => if s.status < 5 {} else {}
    case ReadError => if s.status < 5 {} else {}
    case WriteError => if s.status < 5 {} else {}
    case PeerSetDown => if s.status < 5 {} else {}
  }

  lemma TurnTellsIff(s: Peer, e: Event, t: Peer, c: nat, o: Outcome)
    requires Leads(s, e, t) && e.Turn? && Sound(s, None)
    ensures c in t.channels.mail <==> c in s.channels.mail
    ensures c in t.channels.mail ==>
      (o in t.channels.mail[c] <==> o in s.channels.mail[c] || o in TurnTells(s, s.queue[0], e.writeOk, c))
  {
    var popped, m := s.(queue := s.queue[1..]), s.queue[0];
    assert TurnTells(popped, m, e.writeOk, c) == TurnTells(s, m, e.writeOk, c) by {
      if m.Egress? {
        assert Repeats(popped, m) == Repeats(s, m);
      }
    }
    if c in s.channels.mail {
      ToldByTurn(popped, m, e.writeOk, e.newHop, c);
    } else {
      assert Placed(BooksOf(s), None, c);
      NobodyNew(popped, m, e.writeOk, e.newHop, c);
    }
  }

  /** A step tells a channel something exactly if it causes it; it takes nothing back. */
  lemma StepTells(s: Peer, e: Event, t: Peer, c: nat, o: Outcome)
    requires Leads(s, e, t) && Sound(s, None)
    ensures c in t.channels.mail && o in t.channels.mail[c] <==>
            (c in s.channels.mail && o in s.channels.mail[c]) || Causes(s, e, c, o)
  {
    match e
    case Turn(_, _) => TurnTellsIff(s, e, t, c, o);
    case Exchanges(m, rchan) => if m.applicationId == 0 || !m.isRequest {} else {}
    case Ticks => if s.status == StatusEngaged {} else {}
    case SetsDown =>
    case ConnectEnds(_) =>
    case Reads(_) =>
    case ReadEnds(_) =>
    case TimerFires(_) =>
    case TimerSends(_) =>
    case HandlerEnds(_) =>
    case Leaves =>
    case Closes =>
  }

  ghost function Telling(c: nat, o: Outcome): (Peer, Event) -> bool {
    (s, e) => Causes(s, e, c, o)
  }

  /** Some event of the run told a channel this. */
  ghost predicate Caused(states: seq<Peer>, events: seq<Event>, c: nat, o: Outcome)
    requires |states| == |events| + 1
  {
    Runs.Sometime(Telling(c, o), states, events)
  }

  /**
   A caller is told an answer exactly if one was read for its request while that was outstanding, of a timeout if its
   cancellation was handled, of a cancellation if the peer went down, that it was not sent if the peer could not or did
   not write it, and that it is invalid if it was no request or of the base protocol.
   */
  lemma {:induction false} EveryOutcomeHasItsCause(states: seq<Peer>, events: seq<Event>, c: nat, o: Outcome)
    requires IsRun(states, events)
    ensures c in Last(states).channels.mail && o in Last(states).channels.mail[c] <==> Caused(states, events, c, o)
    decreases |events|
  {
    if events != [] {
      EveryOutcomeHasItsCause(Front(states), Front(events), c, o);
      RunIsSound(Front(states), Front(events));
      Runs.SometimeBefore(Telling(c, o), states, events);
      StepTells(Last(Front(states)), Last(events), Last(states), c, o);
    }
  }

  // ----- How it goes when nothing goes wrong

  /** The events, one after the other, lead from one state to another. */
  ghost predicate Plays(s: Peer, events: seq<Event>, t: Peer)
    decreases |events|
  {
    if events == [] then t == s
    else Enabled(s, events[0]) && Plays(Step(s, events[0]), events[1..], t)
  }

  lemma {:induction false} PlaysMore(s: Peer, events: seq<Event>, t: Peer, e: Event)
    requires Plays(s, events, t) && Enabled(t, e)
    ensures Plays(s, events + [e], Step(t, e))
    decreases |events|
  {
    if events == [] {
      assert ([] + [e])[1..] == [];
    } else {
      assert (events + [e])[1..] == events[1..] + [e];
      PlaysMore(Step(s, events[0]), events[1..], t, e);
    }
  }

  lemma Popped(s: Peer, m: Msg)
    requires s.queue == [m]
    ensures s.(queue := s.queue[1..]) == s.(queue := [])
  {
  }

  /** A base message of the peer's own that is alone in the queue of a connected peer is written. */
  lemma OwnIsWritten(s: Peer, m: Message, hop: nat)
    requires s.phase.InUse? && s.queue == [Egress(m, None, false)] && m.applicationId == 0 && 2 <= s.status <= 3
    requires !(m.isRequest && m.hopByHopId in s.requestsMap) && !m.command.DisconnectPeer?
    ensures Enabled(s, Turn(true, hop))
    ensures Step(s, Turn(true, hop)) == s.(queue := [], outputs := s.outputs + [Wrote(m)])
  {
    Popped(s, s.queue[0]);
  }

  lemma {:induction false} PlaysBoth(s: Peer, events: seq<Event>, t: Peer, more: seq<Event>, u: Peer)
    requires Plays(s, events, t) && Plays(t, more, u)
    ensures Plays(s, events + more, u)
    decreases |events|
  {
    if events == [] {
      assert [] + more == more;
    } else {
      assert (events + more)[0] == events[0] && (events + more)[1..] == events[1..] + more;
      PlaysBoth(Step(s, events[0]), events[1..], t, more, u);
    }
  }

  /** A connection that gets established makes the peer ask for the capabilities of the other side. */
  lemma ActiveAsks(s: Peer, hop: nat) returns (t: Peer)
    requires s.phase.InUse? && s.status == 1 && s.queue == [] && s.around.connecting && hop !in s.requestsMap
    ensures Plays(s, [ConnectEnds(true), Turn(true, hop), Turn(true, hop)], t)
    ensures t.status == 2 && t.queue == [] && t.around.reading && t.phase.InUse? && t.host == s.host
    ensures t.outputs == s.outputs + [Wrote(Message(true, 0, CapabilitiesExchange, hop, "", true))]
  {
    var cer := Message(true, 0, CapabilitiesExchange, hop, "", true);
    var done: seq<Event> := [];
    PlaysMore(s, done, s, ConnectEnds(true));
    t, done := Step(s, ConnectEnds(true)), done + [ConnectEnds(true)];
    Popped(t, ConnectionEstablished);
    PlaysMore(s, done, t, Turn(true, hop));
    t, done := Step(t, Turn(true, hop)), done + [Turn(true, hop)];
    OwnIsWritten(t, cer, hop);
    PlaysMore(s, done, t, Turn(true, hop));
    t, done := Step(t, Turn(true, hop)), done + [Turn(true, hop)];
    assert done == [ConnectEnds(true), Turn(true, hop), Turn(true, hop)];
  }

  lemma AskedGetsEngaged(s: Peer, hop: nat, a: Message) returns (t: Peer)
    requires s.phase.InUse? && s.status == 2 && s.queue == [] && s.around.reading
    requires !a.isRequest && a.applicationId == 0 && a.command.CapabilitiesExchange? && a.sound
    ensures Plays(s, [Reads(a), Turn(true, hop), Turn(true, hop)], t)
    ensures t.status == 3 && t.queue == [] && t.outputs == s.outputs + [Up(s.host)]
  {
    var done: seq<Event> := [];
    PlaysMore(s, done, s, Reads(a));
    t, done := Step(s, Reads(a)), done + [Reads(a)];
    Popped(t, Ingress(a));
    PlaysMore(s, done, t, Turn(true, hop));
    t, done := Step(t, Turn(true, hop)), done + [Turn(true, hop)];
    Popped(t, PeerUp(s.host));
    PlaysMore(s, done, t, Turn(true, hop));
    t, done := Step(t, Turn(true, hop)), done + [Turn(true, hop)];
    assert done == [Reads(a), Turn(true, hop), Turn(true, hop)];
  }

  /** A connection that gets established and answered makes the peer engaged, and it reports up for its host. */
  lemma ActiveGetsEngaged(s: Peer, hop: nat, a: Message) returns (t: Peer)
    requires s.phase.InUse? && s.status == 1 && s.queue == [] && s.around.connecting && hop !in s.requestsMap
    requires !a.isRequest && a.applicationId == 0 && a.command.CapabilitiesExchange? && a.sound
    ensures Plays(s,
        [ConnectEnds(true), Turn(true, hop), Turn(true, hop)] + [Reads(a), Turn(true, hop), Turn(true, hop)], t)
    ensures t.status == 3 && t.queue == []
    ensures t.outputs == s.outputs + [Wrote(Message(true, 0, CapabilitiesExchange, hop, "", true)), Up(s.host)]
  {
    var asked := ActiveAsks(s, hop);
    t := AskedGetsEngaged(asked, hop, a);
    PlaysBoth(s, [ConnectEnds(true), Turn(true, hop), Turn(true, hop)], asked,
              [Reads(a), Turn(true, hop), Turn(true, hop)], t);
  }

  lemma AnswerIsWritten(s: Peer, answer: Message, host: string, hop: nat)
    requires s.phase.InUse? && s.queue == [Egress(answer, None, false), PeerUp(host)] && s.status == 2
    requires !answer.isRequest && answer.applicationId == 0 && !answer.command.DisconnectPeer?
    ensures Enabled(s, Turn(true, hop))
    ensures Step(s, Turn(true, hop)) == s.(queue := [PeerUp(host)], outputs := s.outputs + [Wrote(answer)])
  {
    assert s.queue[1..] == [PeerUp(host)];
  }

  /** An accepted connection on which a sound request comes in gets its answer, and reports up for the host in it. */
  lemma PassiveGetsEngaged(s: Peer, hop: nat, a: Message) returns (t: Peer)
    requires s.phase.InUse? && s.status == 2 && s.queue == [] && s.around.reading
    requires a.isRequest && a.applicationId == 0 && a.command.CapabilitiesExchange? && a.sound
    ensures Plays(s, [Reads(a), Turn(true, hop), Turn(true, hop), Turn(true, hop)], t)
    ensures t.status == 3 && t.queue == [] && t.host == a.host
    ensures t.outputs == s.outputs + [Wrote(a.(isRequest := false)), Up(a.host)]
  {
    var done: seq<Event> := [];
    PlaysMore(s, done, s, Reads(a));
    t, done := Step(s, Reads(a)), done + [Reads(a)];
    Popped(t, Ingress(a));
    PlaysMore(s, done, t, Turn(true, hop));
    t, done := Step(t, Turn(true, hop)), done + [Turn(true, hop)];
    assert t.queue == [Egress(a.(isRequest := false), None, false), PeerUp(a.host)];
    AnswerIsWritten(t, a.(isRequest := false), a.host, hop);
    PlaysMore(s, done, t, Turn(true, hop));
    t, done := Step(t, Turn(true, hop)), done + [Turn(true, hop)];
    Popped(t, PeerUp(a.host));
    PlaysMore(s, done, t, Turn(true, hop));
    t, done := Step(t, Turn(true, hop)), done + [Turn(true, hop)];
    assert done == [Reads(a), Turn(true, hop), Turn(true, hop), Turn(true, hop)];
  }

  /** A request handed to an idle engaged peer is written and waits with a timer of its own. */
  lemma RequestIsWritten(s: Peer, m: Message, c: nat, hop: nat) returns (t: Peer)
    requires s.phase.InUse? && s.status == 3 && s.queue == [] && c !in s.channels.mail
    requires m.isRequest && m.applicationId != 0 && m.hopByHopId !in s.requestsMap
    ensures Plays(s, [Exchanges(m, c), Turn(true, hop)], t)
    ensures t.outputs == s.outputs + [Wrote(m)] && t.queue == [] && t.status == 3 && t.phase.InUse?
    ensures t.around == s.around && c in t.channels.mail && t.channels.mail[c] == []
    ensures t.requestsMap == s.requestsMap[m.hopByHopId := RequestContext(c, s.timers.next)]
    ensures t.timers.live == s.timers.live[s.timers.next := Timer(m.hopByHopId, false)]
  {
    var done: seq<Event> := [];
    PlaysMore(s, done, s, Exchanges(m, c));
    t, done := Step(s, Exchanges(m, c)), done + [Exchanges(m, c)];
    Popped(t, Egress(m, Some(c), true));
    PlaysMore(s, done, t, Turn(true, hop));
    t, done := Step(t, Turn(true, hop)), done + [Turn(true, hop)];
    assert done == [Exchanges(m, c), Turn(true, hop)];
  }

  /** Its answer, when read, is told to the caller and to nobody else, and the timer is stopped. */
  lemma RequestIsAnswered(s: Peer, a: Message, c: nat, timer: nat, hop: nat) returns (t: Peer)
    requires s.phase.InUse? && s.queue == [] && s.around.reading && c in s.channels.mail && s.channels.mail[c] == []
    requires !a.isRequest && a.applicationId != 0
    requires a.hopByHopId in s.requestsMap && s.requestsMap[a.hopByHopId] == RequestContext(c, timer)
    ensures Plays(s, [Reads(a), Turn(true, hop)], t)
    ensures t.channels.mail == s.channels.mail[c := [Answer(a)]] && t.requestsMap == s.requestsMap - {a.hopByHopId}
    ensures Armed(s.timers.live, timer) ==> t.timers.live == s.timers.live - {timer}
  {
    var done: seq<Event> := [];
    PlaysMore(s, done, s, Reads(a));
    t, done := Step(s, Reads(a)), done + [Reads(a)];
    Popped(t, Ingress(a));
    PlaysMore(s, done, t, Turn(true, hop));
    t, done := Step(t, Turn(true, hop)), done + [Turn(true, hop)];
    assert done == [Reads(a), Turn(true, hop)] && [] + [Answer(a)] == [Answer(a)];
  }

  /** If the timer fires first, the caller is told of a timeout. */
  lemma RequestTimesOut(s: Peer, request: nat, c: nat, timer: nat, hop: nat) returns (t: Peer)
    requires s.phase.InUse? && s.queue == [] && c in s.channels.mail && s.channels.mail[c] == []
    requires request in s.requestsMap && s.requestsMap[request] == RequestContext(c, timer)
    requires timer in s.timers.live && s.timers.live[timer] == Timer(request, false)
    ensures Plays(s, [TimerFires(timer), TimerSends(timer), Turn(true, hop)], t)
    ensures t.channels.mail == s.channels.mail[c := [Timeout]] && t.requestsMap == s.requestsMap - {request}
    ensures t.timers.live == s.timers.live - {timer}
  {
    var done: seq<Event> := [];
    PlaysMore(s, done, s, TimerFires(timer));
    t, done := Step(s, TimerFires(timer)), done + [TimerFires(timer)];
    PlaysMore(s, done, t, TimerSends(timer));
    t, done := Step(t, TimerSends(timer)), done + [TimerSends(timer)];
    Popped(t, CancelRequest(request));
    PlaysMore(s, done, t, Turn(true, hop));
    t, done := Step(t, Turn(true, hop)), done + [Turn(true, hop)];
    assert done == [TimerFires(timer), TimerSends(timer), Turn(true, hop)] && [] + [Outcome.Timeout] == [Timeout];
  }
}
