/** The wait group and the timers of a Diameter peer, and what they mean for closing it. */
module PeerTimers {
  import opened Common
  import opened Outstanding
  import opened PeerSpec
  import opened PeerTheorems

  /** The part of a peer that knows about timers; `owed` is the wait group less its goroutines other than timers. */
  datatype Clock = Clock(
    queue: seq<Msg>,
    requestsMap: map<nat, RequestContext>,
    timers: map<nat, Timer<nat>>,
    nextTimer: nat,
    owed: int)

  function ClockOf(s: Peer): Clock {
    Clock(s.queue, s.requestsMap, s.timers.live, s.timers.next, s.wg - Goroutines(s))
  }

  function Goroutines(s: Peer): nat {
    (if s.around.connecting then 1 else 0) + s.around.handlers + s.around.leaving
  }

  function WaitedIn(queue: seq<Msg>): nat {
    if queue == [] then 0
    else (if queue[0].Egress? && queue[0].waited then 1 else 0) + WaitedIn(queue[1..])
  }

  lemma {:induction false} WaitedInConcat(a: seq<Msg>, b: seq<Msg>)
    ensures WaitedIn(a + b) == WaitedIn(a) + WaitedIn(b)
  {
    if a == [] {
      assert a + b == b;
    } else {
      assert (a + b)[1..] == a[1..] + b;
      WaitedInConcat(a[1..], b);
    }
  }

  ghost predicate TimersFit(requestsMap: map<nat, RequestContext>, timers: map<nat, Timer<nat>>, nextTimer: nat) {
    && (forall t :: t in timers ==> t < nextTimer)
    && (forall hop :: hop in requestsMap ==> requestsMap[hop].timer < nextTimer)
    && (forall hop :: hop in requestsMap && requestsMap[hop].timer in timers ==>
        timers[requestsMap[hop].timer].request == hop)
  }

  /**
   An outstanding request has a live timer, or its cancellation waits in the queue; `exempt` is being cancelled now.
   */
  ghost predicate Covered(k: Clock, exempt: Option<nat>) {
    forall hop :: hop in k.requestsMap && exempt != Some(hop) ==>
      k.requestsMap[hop].timer in k.timers || CancelRequest(hop) in k.queue
  }

  /** `debt` counts a waited message that left the queue and was not given back yet. */
  ghost predicate Timely(k: Clock, debt: nat, exempt: Option<nat>) {
    && k.owed == WaitedIn(k.queue) + |k.timers| + debt
    && TimersFit(k.requestsMap, k.timers, k.nextTimer)
    && Covered(k, exempt)
  }

  // ----- What happens to the clock

  predicate AllPlain(ms: seq<Msg>) {
    ms == [] || (Plain(ms[0]) && AllPlain(ms[1..]))
  }

  lemma {:induction false} PlainOwesNothing(ms: seq<Msg>)
    requires AllPlain(ms)
    ensures WaitedIn(ms) == 0
  {
    if ms != [] {
      PlainOwesNothing(ms[1..]);
    }
  }

  lemma PostedIsTimely(k: Clock, ms: seq<Msg>, debt: nat, exempt: Option<nat>)
    requires Timely(k, debt, exempt) && AllPlain(ms)
    ensures Timely(k.(queue := k.queue + ms), debt, exempt)
  {
    WaitedInConcat(k.queue, ms);
    PlainOwesNothing(ms);
  }

  lemma RemovedTimer(timers: map<nat, Timer<nat>>, t: nat)
    requires t in timers
    ensures |timers - {t}| == |timers| - 1
  {
    assert (timers - {t}).Keys == timers.Keys - {t};
  }

  /** The request is gone and its timer stopped if it was armed. */
  function StoppedClock(k: Clock, hop: nat): Clock
    requires hop in k.requestsMap
  {
    var timer := k.requestsMap[hop].timer;
    k.(requestsMap := k.requestsMap - {hop},
       timers := if Armed(k.timers, timer) then k.timers - {timer} else k.timers,
       owed := if Armed(k.timers, timer) then k.owed - 1 else k.owed)
  }

  lemma StoppedIsTimely(k: Clock, hop: nat)
    requires Timely(k, 0, None) && hop in k.requestsMap
    ensures Timely(StoppedClock(k, hop), 0, None)
  {
    var timer := k.requestsMap[hop].timer;
    if Armed(k.timers, timer) {
      RemovedTimer(k.timers, timer);
      forall h | h in k.requestsMap && h != hop ensures k.requestsMap[h].timer != timer {
        assert k.timers[timer].request == hop;
      }
    }
  }

  lemma AllStoppedIsTimely(k: Clock)
    requires Timely(k, 0, None)
    ensures var stopped := Stopped(k.requestsMap, k.timers);
      Timely(k.(requestsMap := map[], timers := k.timers - stopped, owed := k.owed - |stopped|), 0, None)
  {
    var stopped := Stopped(k.requestsMap, k.timers);
    assert stopped <= k.timers.Keys;
    assert (k.timers - stopped).Keys == k.timers.Keys - stopped;
  }

  lemma StartedIsTimely(k: Clock, hop: nat, c: nat, debt: nat)
    requires Timely(k, debt, None) && hop !in k.requestsMap
    ensures Timely(StartedClock(k, hop, c), debt, None)
  {
    assert k.timers[k.nextTimer := Timer(hop, false)].Keys == k.timers.Keys + {k.nextTimer};
  }

  lemma PoppedIsTimely(k: Clock)
    requires Timely(k, 0, None) && k.queue != []
    ensures var m := k.queue[0];
      Timely(k.(queue := k.queue[1..]), if m.Egress? && m.waited then 1 else 0,
             if m.CancelRequest? then Some(m.hopByHopId) else None)
  {
    var m := k.queue[0];
    forall hop | hop in k.requestsMap && CancelRequest(hop) in k.queue && m != CancelRequest(hop)
      ensures CancelRequest(hop) in k.queue[1..]
    {
    }
  }

  lemma SentIsTimely(k: Clock, t: nat)
    requires Timely(k, 0, None) && t in k.timers
    ensures Timely(k.(timers := k.timers - {t}, owed := k.owed - 1,
                      queue := k.queue + [CancelRequest(k.timers[t].request)]), 0, None)
  {
    RemovedTimer(k.timers, t);
    WaitedInConcat(k.queue, [CancelRequest(k.timers[t].request)]);
  }

  lemma FiredIsTimely(k: Clock, t: nat)
    requires Timely(k, 0, None) && t in k.timers
    ensures Timely(k.(timers := k.timers[t := k.timers[t].(running := true)]), 0, None)
  {
    assert k.timers[t := k.timers[t].(running := true)].Keys == k.timers.Keys;
  }

  // ----- What the event loop does

  ghost predicate Timed(s: Peer) {
    Timely(ClockOf(s), 0, None)
  }

  lemma PostIsTimed(s: Peer, t: Peer, ms: seq<Msg>)
    requires Timed(s) && AllPlain(ms) && ClockOf(t) == ClockOf(s).(queue := s.queue + ms)
    ensures Timed(t)
  {
    PostedIsTimely(ClockOf(s), ms, 0, None);
  }

  lemma TerminateIsTimed(s: Peer)
    requires Timed(s)
    ensures Timed(Terminate(s))
  {
    AllStoppedIsTimely(ClockOf(s));
    if s.status < StatusTerminated {
      var stopped := Stopped(s.requestsMap, s.timers.live);
      assert ClockOf(Terminate(s)) ==
             ClockOf(s).(requestsMap := map[], timers := s.timers.live - stopped, owed := ClockOf(s).owed - |stopped|);
    } else {
      assert Terminate(s) == s;
    }
  }

  /** The queue after a write: a shutdown for a disconnect answer, and the write error if there was one. */
  function SendPosts(m: Message, writeOk: bool): seq<Msg> {
    (if IsDisconnectAnswer(m) then [PeerSetDown] else []) + (if writeOk then [] else [WriteError])
  }

  function StartedClock(k: Clock, hop: nat, c: nat): Clock {
    k.(requestsMap := k.requestsMap[hop := RequestContext(c, k.nextTimer)],
       timers := k.timers[k.nextTimer := Timer(hop, false)],
       nextTimer := k.nextTimer + 1, owed := k.owed + 1)
  }

  lemma ClockOfSend(s: Peer, m: Message, rchan: Option<nat>, writeOk: bool)
    ensures var posted := ClockOf(s).(queue := s.queue + SendPosts(m, writeOk));
      ClockOf(Send(s, m, rchan, writeOk)) ==
      if writeOk && m.isRequest && rchan.Some? then StartedClock(posted, m.hopByHopId, rchan.value) else posted
  {
    var t := if IsDisconnectAnswer(m) then Post(s, PeerSetDown).(status := StatusTerminating) else s;
    assert s.queue + [] == s.queue && t.queue + [] == t.queue;
    if writeOk {
      if IsDisconnectAnswer(m) {} else {}
      assert t.queue == s.queue + SendPosts(m, writeOk);
      assert Send(s, m, rchan, writeOk) == Written(t, m, rchan);
      if m.isRequest && rchan.Some? {} else {}
    } else {
      assert t.queue + [WriteError] == s.queue + SendPosts(m, writeOk);
      assert Send(s, m, rchan, writeOk) == NotWritten(t, m, rchan);
    }
  }

  lemma SendIsTimely(s: Peer, m: Message, rchan: Option<nat>, writeOk: bool, debt: nat)
    requires Timely(ClockOf(s), debt, None) && (m.isRequest ==> m.hopByHopId !in s.requestsMap)
    ensures Timely(ClockOf(Send(s, m, rchan, writeOk)), debt, None)
  {
    var posted := ClockOf(s).(queue := s.queue + SendPosts(m, writeOk));
    PostedIsTimely(ClockOf(s), SendPosts(m, writeOk), debt, None);
    ClockOfSend(s, m, rchan, writeOk);
    if writeOk && m.isRequest && rchan.Some? {
      StartedIsTimely(posted, m.hopByHopId, rchan.value, debt);
    }
  }

  lemma PaidIsTimed(s: Peer, t: Peer, waited: bool)
    requires Timely(ClockOf(s), if waited then 1 else 0, None)
    requires ClockOf(t) == ClockOf(s).(owed := ClockOf(s).owed - if waited then 1 else 0)
    ensures Timed(t)
  {
  }

  lemma EgressIsTimed(s: Peer, m: Message, rchan: Option<nat>, waited: bool, writeOk: bool)
    requires Timely(ClockOf(s), if waited then 1 else 0, None)
    ensures var t := HandleEgress(s, m, rchan, waited, writeOk); !t.phase.Crashed? ==> Timed(t)
  {
    if !(Sendable(s, m) && m.isRequest && m.hopByHopId in s.requestsMap) {
      var t := if Sendable(s, m) then Send(s, m, rchan, writeOk) else ReplyIfWaited(s, rchan, NotSent);
      if Sendable(s, m) {
        SendIsTimely(s, m, rchan, writeOk, if waited then 1 else 0);
      } else {
        assert ClockOf(t) == ClockOf(s);
      }
      PaidIsTimed(t, HandleEgress(s, m, rchan, waited, writeOk), waited);
    }
  }

  lemma ClockOfAnswer(s: Peer, m: Message)
    requires m.hopByHopId in s.requestsMap
    ensures ClockOf(HandleAnswer(s, m)) == StoppedClock(ClockOf(s), m.hopByHopId)
  {
    var context := s.requestsMap[m.hopByHopId];
    var stopped := StopTimer(s, context.timer);
    var t := Reply(stopped, context.rchan, Answer(m));
    assert ClockOf(t) == ClockOf(stopped);
    assert HandleAnswer(s, m) == t.(requestsMap := t.requestsMap - {m.hopByHopId});
  }

  lemma AnswerIsTimed(s: Peer, m: Message)
    requires Timed(s) && m.hopByHopId in s.requestsMap
    ensures Timed(HandleAnswer(s, m))
  {
    StoppedIsTimely(ClockOf(s), m.hopByHopId);
    ClockOfAnswer(s, m);
  }

  lemma CancelIsTimed(s: Peer, hop: nat)
    requires Timely(ClockOf(s), 0, Some(hop))
    ensures Timed(HandleCancel(s, hop))
  {
    if hop in s.requestsMap {
      assert ClockOf(HandleCancel(s, hop)) == ClockOf(s).(requestsMap := s.requestsMap - {hop});
    }
  }

  /** What the event loop posts to itself when it handles a base message of another peer. */
  function BasePosts(s: Peer, m: Message): seq<Msg> {
    match m.command
    case CapabilitiesExchange =>
      if !m.isRequest then [if m.sound then PeerUp(s.host) else PeerSetDown]
      else if s.status != StatusConnected then [PeerSetDown]
      else [Own(AnswerTo(m)), if m.sound then PeerUp(m.host) else PeerSetDown]
    case DeviceWatchdog => if m.isRequest then [Own(AnswerTo(m))] else if m.sound then [] else [PeerSetDown]
    case DisconnectPeer => if m.isRequest then [Own(AnswerTo(m))] else []
    case OtherCommand => []
  }

  lemma ClockOfBaseRequest(s: Peer, m: Message)
    requires m.isRequest
    ensures ClockOf(HandleBaseRequest(s, m)) == ClockOf(s).(queue := s.queue + BasePosts(s, m))
  {
    if m.command.CapabilitiesExchange? {
      ClockOfCER(s, m);
      assert HandleBaseRequest(s, m) == HandleCER(s, m);
    } else if m.command.OtherCommand? {
      assert HandleBaseRequest(s, m) == s && BasePosts(s, m) == [] && s.queue + [] == s.queue;
    } else {
      assert HandleBaseRequest(s, m) == Post(s, Own(AnswerTo(m))) && BasePosts(s, m) == [Own(AnswerTo(m))];
    }
  }

  lemma ClockOfBaseAnswer(s: Peer, m: Message)
    requires !m.isRequest
    ensures ClockOf(HandleBaseAnswer(s, m)) == ClockOf(s).(queue := s.queue + BasePosts(s, m))
  {
    assert s.queue + [] == s.queue;
    if (m.command.CapabilitiesExchange? || m.command.DeviceWatchdog?) && !m.sound {
      assert HandleBaseAnswer(s, m) == Post(s.(status := StatusTerminating), PeerSetDown);
      assert BasePosts(s, m) == [PeerSetDown];
    } else if m.command.CapabilitiesExchange? {
      assert HandleBaseAnswer(s, m) == Post(s, PeerUp(s.host)) && BasePosts(s, m) == [PeerUp(s.host)];
    } else {
      assert BasePosts(s, m) == [];
      if m.command.DeviceWatchdog? && s.outstandingDWA > 0 {
        assert HandleBaseAnswer(s, m) == s.(outstandingDWA := s.outstandingDWA - 1);
      } else {
        assert HandleBaseAnswer(s, m) == s;
      }
    }
  }

  lemma ClockOfCER(s: Peer, m: Message)
    requires m.isRequest && m.command.CapabilitiesExchange?
    ensures ClockOf(HandleCER(s, m)) == ClockOf(s).(queue := s.queue + BasePosts(s, m))
  {
    if s.status == StatusConnected {
      var answer := Own(AnswerTo(m));
      var verdict := if m.sound then PeerUp(m.host) else PeerSetDown;
      assert s.queue + [answer] + [verdict] == s.queue + [answer, verdict];
    }
  }

  lemma BaseIngressIsTimed(s: Peer, m: Message)
    requires Timed(s) && m.applicationId == 0
    ensures Timed(HandleIngress(s, m))
  {
    if m.isRequest {
      ClockOfBaseRequest(s, m);
    } else {
      ClockOfBaseAnswer(s, m);
    }
    PostIsTimed(s, HandleIngress(s, m), BasePosts(s, m));
  }

  lemma WatchdogIsTimed(s: Peer, newHop: nat)
    requires Timed(s)
    ensures Timed(HandleWatchdog(s, newHop))
  {
    var ms := (if s.outstandingDWA > MAX_UNANSWERED_WATCHDOG_REQUESTS then [PeerSetDown] else [])
      + [Own(Request(DeviceWatchdog, newHop))];
    assert HandleWatchdog(s, newHop).queue == s.queue + ms;
    PostIsTimed(s, HandleWatchdog(s, newHop), ms);
  }

  lemma SameClock(s: Peer, t: Peer)
    requires Timed(s) && ClockOf(t) == ClockOf(s)
    ensures Timed(t)
  {
  }

  lemma HandleIsTimed(s: Peer, m: Msg, writeOk: bool, newHop: nat)
    requires Timely(ClockOf(s), if m.Egress? && m.waited then 1 else 0,
                    if m.CancelRequest? then Some(m.hopByHopId) else None)
    ensures var t := Handle(s, m, writeOk, newHop); !t.phase.Crashed? ==> Timed(t)
  {
    var t := Handle(s, m, writeOk, newHop);
    match m
    case Egress(message, rchan, waited) => EgressIsTimed(s, message, rchan, waited, writeOk);
    case Ingress(message) =>
      if message.applicationId == 0 {
        BaseIngressIsTimed(s, message);
      } else if !message.isRequest && message.hopByHopId in s.requestsMap {
        AnswerIsTimed(s, message);
      } else {
        SameClock(s, t);
      }
    case CancelRequest(hop) => CancelIsTimed(s, hop);
    case ConnectionEstablished => PostIsTimed(s, t, [Own(Request(CapabilitiesExchange, newHop))]);
    case Watchdog => WatchdogIsTimed(s, newHop);
    case ReadEOF => TerminateIsTimed(s);
    case ReadError => TerminateIsTimed(s);
    case WriteError => TerminateIsTimed(s);
    case PeerSetDown => TerminateIsTimed(s);
    case PeerClose => SameClock(s, t);
    case ConnectionError => SameClock(s, t);
    case PeerUp(_) => SameClock(s, t);
  }

  lemma ExchangeIsTimed(s: Peer, m: Message, c: nat)
    requires Timed(s)
    ensures Timed(Exchange(s, m, c))
  {
    if m.applicationId == 0 || !m.isRequest {
      SameClock(s, Exchange(s, m, c));
    } else {
      WaitedInConcat(s.queue, [Egress(m, Some(c), true)]);
      var k := ClockOf(s);
      assert ClockOf(Exchange(s, m, c)) == k.(queue := k.queue + [Egress(m, Some(c), true)], owed := k.owed + 1);
    }
  }

  lemma TurnIsTimed(s: Peer, writeOk: bool, newHop: nat)
    requires Timed(s) && Enabled(s, Turn(writeOk, newHop))
    ensures var t := Step(s, Turn(writeOk, newHop)); !t.phase.Crashed? ==> Timed(t)
  {
    var popped := s.(queue := s.queue[1..]);
    PoppedIsTimely(ClockOf(s));
    assert ClockOf(popped) == ClockOf(s).(queue := s.queue[1..]);
    HandleIsTimed(popped, s.queue[0], writeOk, newHop);
  }

  lemma StepIsTimed(s: Peer, e: Event)
    requires Enabled(s, e) && Timed(s)
    ensures !Step(s, e).phase.Crashed? ==> Timed(Step(s, e))
  {
    var t := Step(s, e);
    match e
    case Turn(writeOk, newHop) => TurnIsTimed(s, writeOk, newHop);
    case Ticks =>
      if s.status == StatusEngaged { PostIsTimed(s, t, [Watchdog]); }
      else if s.status > StatusEngaged { SameClock(s, t); }
      else { PostIsTimed(s, t, [PeerSetDown]); }
    case Exchanges(m, c) => ExchangeIsTimed(s, m, c);
    case SetsDown => PostIsTimed(s, t, [PeerSetDown]);
    case ConnectEnds(ok) => PostIsTimed(s, t, [if ok then ConnectionEstablished else ConnectionError]);
    case Reads(m) => PostIsTimed(s, t, [Ingress(m)]);
    case ReadEnds(eof) => PostIsTimed(s, t, [if eof then ReadEOF else ReadError]);
    case TimerFires(i) =>
      FiredIsTimely(ClockOf(s), i);
      assert ClockOf(t) == ClockOf(s).(timers := s.timers.live[i := s.timers.live[i].(running := true)]);
    case TimerSends(i) =>
      SentIsTimely(ClockOf(s), i);
      assert ClockOf(t) == ClockOf(s).(timers := s.timers.live - {i}, owed := ClockOf(s).owed - 1,
                                       queue := s.queue + [CancelRequest(s.timers.live[i].request)]);
    case HandlerEnds(answer) => PostIsTimed(s, t, [Own(answer)]);
    case Leaves => SameClock(s, t);
    case Closes => PostIsTimed(s, t, [PeerClose]);
  }

  lemma {:induction false} RunIsTimed(states: seq<Peer>, events: seq<Event>)
    requires IsRun(states, events)
    ensures !Last(states).phase.Crashed? ==> Timed(Last(states))
  {
    if events != [] {
      RunIsTimed(Front(states), Front(events));
      StepIsTimed(Last(Front(states)), Last(events));
    }
  }

  /** The wait group is the number of obligations in flight, and so never negative. */
  lemma WaitGroupCountsObligations(states: seq<Peer>, events: seq<Event>)
    requires IsRun(states, events) && !Last(states).phase.Crashed?
    ensures var s := Last(states); s.wg == Goroutines(s) + WaitedIn(s.queue) + |s.timers.live|
  {
    RunIsTimed(states, events);
  }

  /** No outstanding request is forgotten: its timer is live or its cancellation is queued. */
  lemma OutstandingRequestsEnd(states: seq<Peer>, events: seq<Event>, hop: nat)
    requires IsRun(states, events) && !Last(states).phase.Crashed? && hop in Last(states).requestsMap
    ensures var s := Last(states); var t := s.requestsMap[hop].timer;
      (t in s.timers.live && s.timers.live[t].request == hop) || CancelRequest(hop) in s.queue
  {
    RunIsTimed(states, events);
  }
}
