/** The Diameter peer object: the event loop and the calls into it, each proved to be a step of the specification. */
module DiamPeer {
  import opened Common
  import opened Outstanding
  import opened PeerSpec
  import opened PeerTheorems

  ghost predicate Answerable(s: Peer) {
    forall hop :: hop in s.requestsMap ==>
      s.requestsMap[hop].rchan in s.channels.mail && s.requestsMap[hop].rchan in s.channels.closes
  }

  lemma SoundIsAnswerable(s: Peer)
    requires Sound(s, None)
    ensures Answerable(s)
  {
  }

  /** One round of the loop over the outstanding requests. */
  function CancelOne(s: Peer, hop: nat): Peer
    requires hop in s.requestsMap
  {
    var t := Reply(StopTimer(s, s.requestsMap[hop].timer), s.requestsMap[hop].rchan, Cancelled);
    t.(requestsMap := t.requestsMap - {hop})
  }

  /** The order in which the outstanding requests are cancelled does not matter. */
  lemma CancelledOneByOne(s: Peer, hop: nat)
    requires hop in s.requestsMap && Answerable(s)
    ensures CancelAll(CancelOne(s, hop)) == CancelAll(s) && Answerable(CancelOne(s, hop))
  {
    OneFewerStopped(s.requestsMap, s.timers.live, hop);
    ToldOneByOne(s.channels, s.requestsMap, hop, Cancelled);
  }

  lemma NothingToCancel(s: Peer)
    requires s.requestsMap == map[]
    ensures CancelAll(s) == s
  {
    assert Stopped(s.requestsMap, s.timers.live) == {};
    NobodyTold(s.channels, s.requestsMap, Cancelled);
  }

  class DiameterPeer {
    var status: int
    var eventLoopChannel: seq<Msg>
    var requestsMap: map<nat, RequestContext>
    var timers: Timers<nat>
    var wg: int
    var outstandingDWA: nat
    var host: string
    var around: Around
    var channels: Channels<PeerSpec.Outcome, nat>
    var outputs: seq<Output>
    var phase: Phase
    ghost var states: seq<Peer>
    ghost var events: seq<Event>

    ghost function View(): Peer
      reads this
    {
      Peer(status, eventLoopChannel, requestsMap, timers, wg, outstandingDWA, host, around, channels, outputs, phase)
    }

    /** The object is where a run of the specification leads. */
    ghost predicate Valid()
      reads this
    {
      IsRun(states, events) && Last(states) == View()
    }

    constructor NewActiveDiameterPeer(diameterHost: string)
      ensures Valid() && View() == Active(diameterHost)
    {
      status, eventLoopChannel, requestsMap, timers := StatusConnecting, [], map[], Timers(map[], 0);
      outstandingDWA, host, outputs, phase := 0, diameterHost, [], InUse;
      channels := Channels(map[], map[], map[]);
      wg := 1;
      around := Around(true, false, 0, 0);
      states, events := [Active(diameterHost)], [];
    }

    constructor NewPassiveDiameterPeer()
      ensures Valid() && View() == Passive()
    {
      status, eventLoopChannel, requestsMap, timers := StatusConnected, [], map[], Timers(map[], 0);
      outstandingDWA, host, outputs, phase := 0, "", [], InUse;
      channels := Channels(map[], map[], map[]);
      wg := 0;
      around := Around(false, true, 0, 0);
      states, events := [Passive()], [];
    }

    /** Notes the step just made. */
    ghost method Record(e: Event)
      requires IsRun(states, events) && Enabled(Last(states), e) && View() == Step(Last(states), e)
      modifies this`states, this`events
      ensures Valid() && events == old(events) + [e] && states == old(states) + [View()]
    {
      RunGoesOn(states, events, e);
      states, events := states + [View()], events + [e];
    }

    // ----- Pieces of the event loop

    method Send(m: Msg)
      modifies this`eventLoopChannel
      ensures View() == Post(old(View()), m)
    {
      eventLoopChannel := eventLoopChannel + [m];
    }

    /** Sends on a response channel and closes it. */
    method Answer(c: nat, o: Outcome)
      modifies this`channels
      ensures View() == Reply(old(View()), c, o)
    {
      channels := Told(channels, c, o);
    }

    method Stop(t: nat)
      modifies this`timers, this`wg
      ensures View() == StopTimer(old(View()), t)
    {
      if t in timers.live && !timers.live[t].running {
        timers := timers.(live := timers.live - {t});
        wg := wg - 1;
      }
    }

    method CancelAll()
      requires Answerable(View())
      modifies this`requestsMap, this`timers, this`wg, this`channels
      ensures View() == PeerSpec.CancelAll(old(View()))
    {
      while requestsMap.Keys != {}
        invariant Answerable(View()) && PeerSpec.CancelAll(View()) == PeerSpec.CancelAll(old(View()))
        decreases requestsMap.Keys
      {
        var hop :| hop in requestsMap.Keys;
        CancelledOneByOne(View(), hop);
        var requestContext := requestsMap[hop];
        Stop(requestContext.timer);
        Answer(requestContext.rchan, Cancelled);
        requestsMap := requestsMap - {hop};
      }
      NothingToCancel(View());
    }

    method TerminateActions()
      requires Answerable(View())
      modifies this`status, this`requestsMap, this`timers, this`wg, this`channels, this`outputs
      ensures View() == PeerSpec.TerminateActions(old(View()))
    {
      status := StatusTerminated;
      CancelAll();
      outputs := outputs + [Down];
    }

    method Terminate()
      requires Answerable(View())
      modifies this`status, this`requestsMap, this`timers, this`wg, this`channels, this`outputs
      ensures View() == PeerSpec.Terminate(old(View()))
    {
      if status < StatusTerminated {
        TerminateActions();
      }
    }

    // ----- Messages to the other side

    method WriteMessage(m: Message, rchan: Option<nat>, writeOk: bool)
      modifies this`eventLoopChannel, this`status, this`outputs, this`wg, this`timers, this`requestsMap, this`channels
      ensures View() == PeerSpec.Send(old(View()), m, rchan, writeOk)
    {
      if !m.isRequest && m.applicationId == 0 && m.command.DisconnectPeer? {
        Send(PeerSetDown);
        status := StatusTerminating;
      }
      if !writeOk {
        Send(WriteError);
        status := StatusTerminating;
        if m.isRequest && rchan.Some? {
          Answer(rchan.value, NotSent);
        }
      } else {
        outputs := outputs + [Wrote(m)];
        if m.isRequest && rchan.Some? {
          wg := wg + 1;
          requestsMap := requestsMap[m.hopByHopId := RequestContext(rchan.value, timers.next)];
          timers := Timers(timers.live[timers.next := Timer(m.hopByHopId, false)], timers.next + 1);
        }
      }
    }

    method HandleEgress(m: Message, rchan: Option<nat>, waited: bool, writeOk: bool)
      modifies this`eventLoopChannel, this`status, this`outputs, this`wg, this`timers, this`requestsMap, this`channels
      modifies this`phase
      ensures View() == PeerSpec.HandleEgress(old(View()), m, rchan, waited, writeOk)
    {
      if (status == StatusConnected && m.applicationId == 0) || status == StatusEngaged {
        if m.isRequest && m.hopByHopId in requestsMap {
          phase := Crashed;
          return;
        }
        WriteMessage(m, rchan, writeOk);
      } else if rchan.Some? {
        Answer(rchan.value, NotSent);
      }
      if waited {
        wg := wg - 1;
      }
    }

    // ----- Messages from the other side

    method HandleCER(m: Message)
      modifies this`eventLoopChannel, this`status, this`host
      ensures View() == PeerSpec.HandleCER(old(View()), m)
    {
      if status != StatusConnected {
        Send(PeerSetDown);
        status := StatusTerminating;
        return;
      }
      Send(Own(AnswerTo(m)));
      if m.sound {
        host := m.host;
        Send(PeerUp(m.host));
      } else {
        Send(PeerSetDown);
        status := StatusTerminating;
      }
    }

    method HandleBaseRequest(m: Message)
      modifies this`eventLoopChannel, this`status, this`host
      ensures View() == PeerSpec.HandleBaseRequest(old(View()), m)
    {
      match m.command
      case CapabilitiesExchange => HandleCER(m);
      case DeviceWatchdog => Send(Own(AnswerTo(m)));
      case DisconnectPeer => Send(Own(AnswerTo(m)));
      case OtherCommand =>
    }

    method HandleBaseAnswer(m: Message)
      modifies this`eventLoopChannel, this`status, this`outstandingDWA
      ensures View() == PeerSpec.HandleBaseAnswer(old(View()), m)
    {
      match m.command
      case CapabilitiesExchange =>
        if m.sound {
          Send(PeerUp(host));
        } else {
          status := StatusTerminating;
          Send(PeerSetDown);
        }
      case DeviceWatchdog =>
        if !m.sound {
          status := StatusTerminating;
          Send(PeerSetDown);
        } else if outstandingDWA > 0 {
          outstandingDWA := outstandingDWA - 1;
        }
      case DisconnectPeer =>
      case OtherCommand =>
    }

    method HandleAnswer(m: Message)
      modifies this`timers, this`wg, this`channels, this`requestsMap
      ensures View() == PeerSpec.HandleAnswer(old(View()), m)
    {
      if m.hopByHopId in requestsMap {
        var requestContext := requestsMap[m.hopByHopId];
        Stop(requestContext.timer);
        Answer(requestContext.rchan, Outcome.Answer(m));
        requestsMap := requestsMap - {m.hopByHopId};
      }
    }

    method HandleIngress(m: Message)
      modifies this`eventLoopChannel, this`status, this`host, this`outstandingDWA, this`timers, this`wg, this`channels
      modifies this`requestsMap, this`around
      ensures View() == PeerSpec.HandleIngress(old(View()), m)
    {
      if m.isRequest {
        if m.applicationId == 0 {
          HandleBaseRequest(m);
        } else {
          wg := wg + 1;
          around := around.(handlers := around.handlers + 1);
        }
      } else {
        if m.applicationId == 0 {
          HandleBaseAnswer(m);
        } else {
          HandleAnswer(m);
        }
      }
    }

    method HandleCancel(hop: nat)
      modifies this`channels, this`requestsMap
      ensures View() == PeerSpec.HandleCancel(old(View()), hop)
    {
      if hop in requestsMap {
        Answer(requestsMap[hop].rchan, Timeout);
        requestsMap := requestsMap - {hop};
      }
    }

    method HandleWatchdog(newHop: nat)
      modifies this`eventLoopChannel, this`status, this`outstandingDWA
      ensures View() == PeerSpec.HandleWatchdog(old(View()), newHop)
    {
      if outstandingDWA > MAX_UNANSWERED_WATCHDOG_REQUESTS {
        status := StatusTerminating;
        Send(PeerSetDown);
      }
      Send(Own(Request(DeviceWatchdog, newHop)));
      outstandingDWA := outstandingDWA + 1;
    }

    // ----- The event loop

    method Dispatch(m: Msg, writeOk: bool, newHop: nat)
      requires Answerable(View())
      modifies this
      ensures View() == Handle(old(View()), m, writeOk, newHop)
      ensures states == old(states) && events == old(events)
    {
      match m
      case PeerClose => phase := Ended;
      case ConnectionEstablished =>
        around := around.(reading := true);
        status := StatusConnected;
        Send(Own(Request(CapabilitiesExchange, newHop)));
      case ConnectionError =>
        if status < StatusTerminated {
          status := StatusTerminated;
          outputs := outputs + [Down];
        }
      case ReadEOF => Terminate();
      case ReadError => Terminate();
      case WriteError => Terminate();
      case PeerUp(upHost) =>
        if status < StatusEngaged {
          status := StatusEngaged;
          outputs := outputs + [Up(upHost)];
        }
      case PeerSetDown => Terminate();
      case Egress(message, rchan, waited) => HandleEgress(message, rchan, waited, writeOk);
      case Ingress(message) => HandleIngress(message);
      case CancelRequest(hop) => HandleCancel(hop);
      case Watchdog => HandleWatchdog(newHop);
    }

    /** One turn: takes the first message and handles it. */
    method EventLoopTurn(writeOk: bool, newHop: nat)
      requires Valid() && Enabled(View(), Turn(writeOk, newHop))
      modifies this
      ensures Valid() && events == old(events) + [Turn(writeOk, newHop)]
    {
      RunIsSound(states, events);
      SoundIsAnswerable(View());
      var m := eventLoopChannel[0];
      eventLoopChannel := eventLoopChannel[1..];
      Dispatch(m, writeOk, newHop);
      Record(Turn(writeOk, newHop));
    }

    /** The watchdog ticker. */
    method WatchdogTick()
      requires Valid() && Enabled(View(), Ticks)
      modifies this`eventLoopChannel, this`states, this`events
      ensures Valid() && events == old(events) + [Ticks]
    {
      if status == StatusEngaged {
        Send(Watchdog);
      } else if status > StatusEngaged {
      } else {
        Send(PeerSetDown);
      }
      Record(Ticks);
    }

    // ----- Calls from outside

    method DiameterExchange(m: Message, rchan: nat)
      requires Valid() && Enabled(View(), Exchanges(m, rchan))
      modifies this`eventLoopChannel, this`channels, this`wg, this`states, this`events
      ensures Valid() && events == old(events) + [Exchanges(m, rchan)]
    {
      channels := Channels(channels.mail[rchan := []], channels.closes[rchan := 0],
          channels.asked[rchan := m.hopByHopId]);
      if m.applicationId == 0 {
        Answer(rchan, Invalid);
      } else if !m.isRequest {
        Answer(rchan, Invalid);
      } else {
        wg := wg + 1;
        Send(Egress(m, Some(rchan), true));
      }
      Record(Exchanges(m, rchan));
    }

    method SetDown()
      requires Valid() && Enabled(View(), SetsDown)
      modifies this`eventLoopChannel, this`states, this`events
      ensures Valid() && events == old(events) + [SetsDown]
    {
      Send(PeerSetDown);
      Record(SetsDown);
    }

    /** What Close does once the read loop is done and the wait group at zero. */
    method Close()
      requires Valid() && Enabled(View(), Closes)
      modifies this`eventLoopChannel, this`phase, this`states, this`events
      ensures Valid() && events == old(events) + [Closes]
    {
      phase := Closing;
      Send(PeerClose);
      Record(Closes);
    }

    // ----- The goroutine of a timer that expired, in its three moments

    method TimerExpires(t: nat)
      requires Valid() && Enabled(View(), TimerFires(t))
      modifies this`timers, this`states, this`events
      ensures Valid() && events == old(events) + [TimerFires(t)]
    {
      timers := timers.(live := timers.live[t := timers.live[t].(running := true)]);
      Record(TimerFires(t));
    }

    method TimerCancels(t: nat)
      requires Valid() && Enabled(View(), TimerSends(t))
      modifies this`timers, this`eventLoopChannel, this`around, this`states, this`events
      ensures Valid() && events == old(events) + [TimerSends(t)]
    {
      Send(CancelRequest(timers.live[t].request));
      timers := timers.(live := timers.live - {t});
      around := around.(leaving := around.leaving + 1);
      Record(TimerSends(t));
    }

    method GoroutineDone()
      requires Valid() && Enabled(View(), Leaves)
      modifies this`around, this`wg, this`states, this`events
      ensures Valid() && events == old(events) + [Leaves]
    {
      around := around.(leaving := around.leaving - 1);
      wg := wg - 1;
      Record(Leaves);
    }
  }
}
