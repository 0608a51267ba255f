/** The lifecycle of a Diameter peer: when it is up, what it writes, and how it goes down. */
module PeerStatus {
  import opened Common
  import opened Outstanding
  import Runs
  import opened PeerSpec
  import opened PeerTheorems

  /** The part of a peer that knows about its lifecycle. */
  datatype Life = Life(status: int, queue: seq<Msg>, outputs: seq<Output>, waiting: set<nat>, connecting: bool,
      reading: bool)

  function LifeOf(s: Peer): Life {
    Life(s.status, s.queue, s.outputs, s.requestsMap.Keys, s.around.connecting, s.around.reading)
  }

  predicate IsLink(m: Msg) {
    m.ConnectionEstablished? || m.ConnectionError?
  }

  function LinksIn(queue: seq<Msg>): nat {
    if queue == [] then 0 else (if IsLink(queue[0]) then 1 else 0) + LinksIn(queue[1..])
  }

  /** The result of the connection attempt is still to come or to be handled. */
  function Links(l: Life): nat {
    (if l.connecting then 1 else 0) + LinksIn(l.queue)
  }

  function Ups(outputs: seq<Output>): nat {
    if outputs == [] then 0 else Ups(Front(outputs)) + if Last(outputs).Up? then 1 else 0
  }

  /** Every message of another application is written after the peer was reported up. */
  predicate UpFirst(outputs: seq<Output>) {
    outputs != [] ==>
      && UpFirst(Front(outputs))
      && (Last(outputs).Wrote? && Last(outputs).message.applicationId != 0 ==> Ups(Front(outputs)) > 0)
  }

  predicate ShutdownQueued(queue: seq<Msg>) {
    PeerSetDown in queue || WriteError in queue
  }

  /** Nothing was read and nobody was told before there was a connection. */
  ghost predicate Unconnected(l: Life) {
    && (l.status == StatusConnecting || l.status == StatusTerminated)
    && !l.reading && l.waiting == {} && Ups(l.outputs) == 0
    && forall m :: m in l.queue ==> !m.Ingress? && !m.PeerUp? && !m.Watchdog?
  }

  ghost predicate Lively(l: Life) {
    && StatusConnecting <= l.status <= StatusTerminated
    && Links(l) <= 1
    && (Links(l) == 1 ==> Unconnected(l))
    && (l.status == StatusTerminating ==> ShutdownQueued(l.queue))
    && (l.waiting != {} ==> l.status == StatusEngaged || l.status == StatusTerminating)
    && (l.status < StatusEngaged ==> Ups(l.outputs) == 0)
    && (l.status == StatusEngaged ==> Ups(l.outputs) == 1)
    && Ups(l.outputs) <= 1
    && UpFirst(l.outputs)
  }

  lemma {:induction false} LinksInConcat(a: seq<Msg>, b: seq<Msg>)
    ensures LinksIn(a + b) == LinksIn(a) + LinksIn(b)
  {
    if a == [] {
      assert a + b == b;
    } else {
      assert (a + b)[1..] == a[1..] + b;
      LinksInConcat(a[1..], b);
    }
  }

  // ----- What happens to the lifecycle

  /** `popped` was taken from the queue; a link or a shutdown no longer counts. */
  ghost predicate LivelyBut(l: Life, popped: Msg) {
    Lively(l.(queue := [popped] + l.queue))
  }

  lemma PoppedIsLively(l: Life)
    requires Lively(l) && l.queue != []
    ensures LivelyBut(l.(queue := l.queue[1..]), l.queue[0])
  {
    assert [l.queue[0]] + l.queue[1..] == l.queue;
  }

  predicate Ordinary(ms: seq<Msg>) {
    forall m :: m in ms ==> !IsLink(m)
  }

  lemma {:induction false} OrdinaryHasNoLinks(ms: seq<Msg>)
    requires Ordinary(ms)
    ensures LinksIn(ms) == 0
  {
    if ms != [] {
      assert ms[0] in ms;
      OrdinaryHasNoLinks(ms[1..]);
    }
  }

  lemma LinksAfter(popped: Msg, queue: seq<Msg>, ms: seq<Msg>)
    requires Ordinary(ms)
    ensures LinksIn([popped] + queue) == (if IsLink(popped) then 1 else 0) + LinksIn(queue)
    ensures LinksIn(queue + ms) == LinksIn(queue)
  {
    assert ([popped] + queue)[1..] == queue;
    LinksInConcat(queue, ms);
    OrdinaryHasNoLinks(ms);
  }

  /** A turn that posts and forgets requests, or goes to Terminating with a shutdown posted. */
  lemma TurnIsLively(l: Life, popped: Msg, ms: seq<Msg>, t: Life)
    requires LivelyBut(l, popped) && Ordinary(ms) && !IsLink(popped)
    requires popped.Ingress? || forall m :: m in ms ==> !m.Ingress? && !m.PeerUp? && !m.Watchdog?
    requires t == l.(queue := l.queue + ms, waiting := t.waiting, status := t.status) && t.waiting <= l.waiting
    requires t.status == l.status ==> popped != PeerSetDown && popped != WriteError
    requires t.status != l.status ==> t.status == StatusTerminating && ShutdownQueued(ms)
    requires t.status != l.status ==>
               popped.Ingress? || popped.Watchdog? || l.status == StatusEngaged || l.status == StatusConnected
    ensures Lively(t)
  {
    LinksAfter(popped, l.queue, ms);
    assert popped in [popped] + l.queue;
  }

  /** The connection is closed and everybody told. */
  lemma TerminatedIsLively(l: Life, popped: Msg, t: Life)
    requires LivelyBut(l, popped) && !IsLink(popped)
    requires
      if l.status < StatusTerminated
      then t == l.(status := StatusTerminated, waiting := {}, outputs := l.outputs + [Down])
             else t == l
    ensures Lively(t)
  {
    LinksAfter(popped, l.queue, []);
    assert forall m :: m in l.queue ==> m in [popped] + l.queue;
    assert l.status < StatusTerminated ==> Front(t.outputs) == l.outputs;
  }

  /** A message is written, and the queue may get a shutdown. */
  lemma WroteIsLively(l: Life, popped: Msg, m: Message, ms: seq<Msg>, t: Life)
    requires LivelyBut(l, popped) && Ordinary(ms) && popped.Egress?
    requires (l.status == StatusConnected && m.applicationId == 0) || l.status == StatusEngaged
    requires forall x :: x in ms ==> !x.Ingress? && !x.PeerUp? && !x.Watchdog?
    requires t == l.(queue := l.queue + ms, waiting := t.waiting, outputs := l.outputs + [Wrote(m)], status := t.status)
    requires t.waiting == l.waiting || (l.status == StatusEngaged)
    requires t.status == l.status || (t.status == StatusTerminating && ShutdownQueued(ms))
    ensures Lively(t)
  {
    LinksAfter(popped, l.queue, ms);
    assert Front(t.outputs) == l.outputs;
  }

  /** The first turn of a connected active peer. */
  lemma EstablishedIsLively(l: Life, cer: Msg, t: Life)
    requires LivelyBut(l, ConnectionEstablished) && cer.Egress?
    requires t == l.(status := StatusConnected, reading := true, queue := l.queue + [cer])
    ensures Lively(t)
  {
    LinksAfter(ConnectionEstablished, l.queue, [cer]);
  }

  lemma FailedIsLively(l: Life, t: Life)
    requires LivelyBut(l, ConnectionError)
    requires t ==
             if l.status < StatusTerminated then l.(status := StatusTerminated, outputs := l.outputs + [Down]) else l
    ensures Lively(t)
  {
    LinksAfter(ConnectionError, l.queue, []);
    assert l.status < StatusTerminated ==> Front(t.outputs) == l.outputs;
  }

  lemma UpIsLively(l: Life, host: string, t: Life)
    requires LivelyBut(l, PeerUp(host))
    requires t == if l.status < StatusEngaged then l.(status := StatusEngaged, outputs := l.outputs + [Up(host)]) else l
    ensures Lively(t)
  {
    LinksAfter(PeerUp(host), l.queue, []);
    assert PeerUp(host) in [PeerUp(host)] + l.queue;
    assert l.status < StatusEngaged ==> Front(t.outputs) == l.outputs;
  }

  /** Something arrives from outside the event loop. */
  lemma ArrivalIsLively(l: Life, m: Msg, t: Life)
    requires Lively(l) && !IsLink(m) && !m.PeerUp?
    requires (m.Ingress? ==> l.reading) && (m.Watchdog? ==> l.status == StatusEngaged)
    requires t == l.(queue := l.queue + [m], reading := t.reading) && (t.reading ==> l.reading)
    ensures Lively(t)
  {
    LinksInConcat(l.queue, [m]);
  }

  lemma ConnectIsLively(l: Life, m: Msg, t: Life)
    requires Lively(l) && l.connecting && IsLink(m) && t == l.(connecting := false, queue := l.queue + [m])
    ensures Lively(t)
  {
    LinksInConcat(l.queue, [m]);
  }

  // ----- What the event loop does

  lemma ServedIsLively(s: Peer, popped: Msg, t: Peer, ms: seq<Msg>)
    requires LivelyBut(LifeOf(s), popped) && Ordinary(ms) && popped.Ingress?
    requires LifeOf(t) == LifeOf(s).(queue := s.queue + ms, status := t.status)
    requires t.status == s.status || (t.status == StatusTerminating && ShutdownQueued(ms))
    ensures Lively(LifeOf(t))
  {
    TurnIsLively(LifeOf(s), popped, ms, LifeOf(t));
  }

  lemma CERIsLively(s: Peer, m: Message)
    requires LivelyBut(LifeOf(s), Ingress(m))
    ensures Lively(LifeOf(HandleCER(s, m)))
  {
    var t, answer := HandleCER(s, m), Own(AnswerTo(m));
    if s.status != StatusConnected {
      ServedIsLively(s, Ingress(m), t, [PeerSetDown]);
    } else if m.sound {
      assert s.queue + [answer] + [PeerUp(m.host)] == s.queue + [answer, PeerUp(m.host)];
      ServedIsLively(s, Ingress(m), t, [answer, PeerUp(m.host)]);
    } else {
      assert s.queue + [answer] + [PeerSetDown] == s.queue + [answer, PeerSetDown];
      ServedIsLively(s, Ingress(m), t, [answer, PeerSetDown]);
    }
  }

  lemma BaseRequestIsLively(s: Peer, m: Message)
    requires LivelyBut(LifeOf(s), Ingress(m))
    ensures Lively(LifeOf(HandleBaseRequest(s, m)))
  {
    var t := HandleBaseRequest(s, m);
    if m.command.CapabilitiesExchange? {
      CERIsLively(s, m);
    } else if m.command.OtherCommand? {
      assert s.queue + [] == s.queue;
      ServedIsLively(s, Ingress(m), t, []);
    } else {
      ServedIsLively(s, Ingress(m), t, [Own(AnswerTo(m))]);
    }
  }

  lemma BaseAnswerIsLively(s: Peer, m: Message)
    requires LivelyBut(LifeOf(s), Ingress(m))
    ensures Lively(LifeOf(HandleBaseAnswer(s, m)))
  {
    var t := HandleBaseAnswer(s, m);
    if (m.command.CapabilitiesExchange? || m.command.DeviceWatchdog?) && !m.sound {
      ServedIsLively(s, Ingress(m), t, [PeerSetDown]);
    } else if m.command.CapabilitiesExchange? {
      ServedIsLively(s, Ingress(m), t, [PeerUp(s.host)]);
    } else {
      assert s.queue + [] == s.queue;
      ServedIsLively(s, Ingress(m), t, []);
    }
  }

  lemma IngressIsLively(s: Peer, m: Message)
    requires LivelyBut(LifeOf(s), Ingress(m))
    ensures Lively(LifeOf(HandleIngress(s, m)))
  {
    if m.applicationId == 0 {
      if m.isRequest {
        BaseRequestIsLively(s, m);
      } else {
        BaseAnswerIsLively(s, m);
      }
    } else {
      assert s.queue + [] == s.queue;
      TurnIsLively(LifeOf(s), Ingress(m), [], LifeOf(HandleIngress(s, m)));
    }
  }

  lemma SendIsLively(s: Peer, popped: Msg, m: Message, rchan: Option<nat>, writeOk: bool)
    requires LivelyBut(LifeOf(s), popped) && popped.Egress? && Sendable(s, m)
    ensures rchan.None? || m.applicationId != 0 ==> Lively(LifeOf(Send(s, m, rchan, writeOk)))
  {
    var t := Send(s, m, rchan, writeOk);
    var ms := (if IsDisconnectAnswer(m) then [PeerSetDown] else []) + (if writeOk then [] else [WriteError]);
    if rchan.None? || m.applicationId != 0 {
      assert s.queue + [] == s.queue;
      if writeOk {
        if IsDisconnectAnswer(m) {
          assert ms == [PeerSetDown];
          WroteIsLively(LifeOf(s), popped, m, ms, LifeOf(t));
        } else {
          assert ms == [];
          WroteIsLively(LifeOf(s), popped, m, ms, LifeOf(t));
        }
      } else {
        assert t.queue == s.queue + ms;
        TurnIsLively(LifeOf(s), popped, ms, LifeOf(t));
      }
    }
  }

  lemma EgressIsLively(s: Peer, popped: Msg, m: Message, rchan: Option<nat>, waited: bool, writeOk: bool)
    requires LivelyBut(LifeOf(s), popped) && popped.Egress? && (rchan.Some? ==> m.applicationId != 0)
    ensures Lively(LifeOf(HandleEgress(s, m, rchan, waited, writeOk)))
  {
    var t := HandleEgress(s, m, rchan, waited, writeOk);
    if Sendable(s, m) && !(m.isRequest && m.hopByHopId in s.requestsMap) {
      SendIsLively(s, popped, m, rchan, writeOk);
      assert LifeOf(t) == LifeOf(Send(s, m, rchan, writeOk));
    } else {
      assert s.queue + [] == s.queue;
      assert LifeOf(t) == LifeOf(s);
      TurnIsLively(LifeOf(s), popped, [], LifeOf(t));
    }
  }

  lemma TerminateIsLively(s: Peer, popped: Msg)
    requires LivelyBut(LifeOf(s), popped) && !IsLink(popped)
    ensures Lively(LifeOf(Terminate(s)))
  {
    var t := Terminate(s);
    if s.status < StatusTerminated {
      assert LifeOf(t) == LifeOf(s).(status := StatusTerminated, waiting := {}, outputs := s.outputs + [Down]);
    } else {
      assert t == s;
    }
    TerminatedIsLively(LifeOf(s), popped, LifeOf(t));
  }

  lemma WatchdogIsLively(s: Peer, newHop: nat)
    requires LivelyBut(LifeOf(s), Watchdog)
    ensures Lively(LifeOf(HandleWatchdog(s, newHop)))
  {
    var t, dwr := HandleWatchdog(s, newHop), Own(Request(DeviceWatchdog, newHop));
    if s.outstandingDWA > MAX_UNANSWERED_WATCHDOG_REQUESTS {
      assert t.queue == s.queue + [PeerSetDown, dwr];
      TurnIsLively(LifeOf(s), Watchdog, [PeerSetDown, dwr], LifeOf(t));
    } else {
      TurnIsLively(LifeOf(s), Watchdog, [dwr], LifeOf(t));
    }
  }

  lemma QuietIsLively(s: Peer, popped: Msg, t: Peer)
    requires LivelyBut(LifeOf(s), popped) && (popped.PeerClose? || popped.CancelRequest?)
    requires LifeOf(t) == LifeOf(s).(waiting := t.requestsMap.Keys) && t.requestsMap.Keys <= s.requestsMap.Keys
    ensures Lively(LifeOf(t))
  {
    assert s.queue + [] == s.queue;
    TurnIsLively(LifeOf(s), popped, [], LifeOf(t));
  }

  lemma HandleIsLively(s: Peer, m: Msg, writeOk: bool, newHop: nat)
    requires LivelyBut(LifeOf(s), m) && (m.Egress? && m.rchan.Some? ==> m.message.applicationId != 0)
    ensures Lively(LifeOf(Handle(s, m, writeOk, newHop)))
  {
    var t := Handle(s, m, writeOk, newHop);
    match m
    case Egress(message, rchan, waited) => EgressIsLively(s, m, message, rchan, waited, writeOk);
    case Ingress(message) => IngressIsLively(s, message);
    case ConnectionEstablished => EstablishedIsLively(LifeOf(s), Own(Request(CapabilitiesExchange, newHop)), LifeOf(t));
    case ConnectionError => FailedIsLively(LifeOf(s), LifeOf(t));
    case PeerUp(host) => UpIsLively(LifeOf(s), host, LifeOf(t));
    case Watchdog => WatchdogIsLively(s, newHop);
    case ReadEOF => TerminateIsLively(s, m);
    case ReadError => TerminateIsLively(s, m);
    case WriteError => TerminateIsLively(s, m);
    case PeerSetDown => TerminateIsLively(s, m);
    case PeerClose => QuietIsLively(s, m, t);
    case CancelRequest(hop) => QuietIsLively(s, m, t);
  }

  lemma PostIsLively(s: Peer, t: Peer, m: Msg)
    requires Lively(LifeOf(s)) && !IsLink(m) && !m.PeerUp?
    requires (m.Ingress? ==> s.around.reading) && (m.Watchdog? ==> s.status == StatusEngaged)
    requires LifeOf(t) == LifeOf(s).(queue := s.queue + [m], reading := t.around.reading)
    requires t.around.reading ==> s.around.reading
    ensures Lively(LifeOf(t))
  {
    ArrivalIsLively(LifeOf(s), m, LifeOf(t));
  }

  lemma StepIsLively(s: Peer, e: Event)
    requires Enabled(s, e) && Lively(LifeOf(s)) && Sound(s, None)
    ensures Lively(LifeOf(Step(s, e)))
  {
    var t := Step(s, e);
    match e
    case Turn(writeOk, newHop) =>
      var popped := s.(queue := s.queue[1..]);
      PoppedIsLively(LifeOf(s));
      PoppedBalances(BooksOf(s));
      assert LifeOf(popped) == LifeOf(s).(queue := s.queue[1..]);
      HandleIsLively(popped, s.queue[0], writeOk, newHop);
    case Ticks =>
      if s.status == StatusEngaged { PostIsLively(s, t, Watchdog); }
      else if s.status > StatusEngaged { assert LifeOf(t) == LifeOf(s); }
      else { PostIsLively(s, t, PeerSetDown); }
    case Exchanges(m, c) =>
      if m.applicationId == 0 || !m.isRequest {
        assert LifeOf(t) == LifeOf(s);
      } else {
        PostIsLively(s, t, Egress(m, Some(c), true));
      }
    case SetsDown => PostIsLively(s, t, PeerSetDown);
    case ConnectEnds(ok) =>
      ConnectIsLively(LifeOf(s), if ok then ConnectionEstablished else ConnectionError, LifeOf(t));
    case Reads(m) => PostIsLively(s, t, Ingress(m));
    case ReadEnds(eof) => PostIsLively(s, t, if eof then ReadEOF else ReadError);
    case TimerFires(_) => assert LifeOf(t) == LifeOf(s);
    case TimerSends(i) => PostIsLively(s, t, CancelRequest(s.timers.live[i].request));
    case HandlerEnds(answer) => PostIsLively(s, t, Own(answer));
    case Leaves => assert LifeOf(t) == LifeOf(s);
    case Closes => PostIsLively(s, t, PeerClose);
  }

  lemma {:induction false} RunIsLively(states: seq<Peer>, events: seq<Event>)
    requires IsRun(states, events) && !Last(states).phase.Crashed?
    ensures Lively(LifeOf(Last(states)))
  {
    if events != [] {
      assert !Last(Front(states)).phase.Crashed?;
      RunIsLively(Front(states), Front(events));
      RunIsSound(Front(states), Front(events));
      StepIsLively(Last(Front(states)), Last(events));
    }
  }

  /**
   Over every run: one PeerUp at most, no message of another application before it, a shutdown on its
   way while terminating, and outstanding requests only while engaged or terminating.
   */
  lemma EveryRunIsOrderly(states: seq<Peer>, events: seq<Event>)
    requires IsRun(states, events) && !Last(states).phase.Crashed?
    ensures var s := Last(states);
      && Ups(s.outputs) <= 1 && UpFirst(s.outputs)
      && (s.status == StatusTerminating ==> PeerSetDown in s.queue || WriteError in s.queue)
      && (s.requestsMap != map[] ==> s.status == StatusEngaged || s.status == StatusTerminating)
  {
    RunIsLively(states, events);
    assert Last(states).requestsMap != map[] ==> Last(states).requestsMap.Keys != {};
  }

  // ----- Going down for good

  /** The connection is reported established to a peer that was shut down while connecting. */
  predicate Revives(s: Peer, e: Event) {
    Enabled(s, e) && e.Turn? && s.queue[0].ConnectionEstablished? && s.status >= StatusTerminating
  }

  /** A peer that is down handles a message that makes another one go down. */
  predicate Relapses(s: Peer, e: Event) {
    Enabled(s, e) && e.Turn? && s.status == StatusTerminated &&
    match s.queue[0]
    case Ingress(m) =>
      m.applicationId == 0 &&
      if m.isRequest then m.command.CapabilitiesExchange?
      else (m.command.CapabilitiesExchange? || m.command.DeviceWatchdog?) && !m.sound
    case Watchdog => s.outstandingDWA > MAX_UNANSWERED_WATCHDOG_REQUESTS
    case _ => false
  }

  /**
   A step leads back from termination exactly when it handles a late connection, and from being down also by a relapse.
   */
  lemma OnlyLateConnectionsRevive(s: Peer, e: Event)
    requires Enabled(s, e) && s.status >= StatusTerminating
    ensures Step(s, e).status >= StatusTerminating <==> !Revives(s, e)
    ensures s.status == StatusTerminated ==>
              (Step(s, e).status == StatusTerminated <==> !Revives(s, e) && !Relapses(s, e))
  {
    match e
    case Turn(writeOk, newHop) =>
      var popped, m := s.(queue := s.queue[1..]), s.queue[0];
      match m {
        case Ingress(message) =>
          if message.applicationId == 0 {
            if message.isRequest {
              match message.command {
                case CapabilitiesExchange =>
                case DeviceWatchdog =>
                case DisconnectPeer =>
                case OtherCommand =>
              }
            } else {
              match message.command {
                case CapabilitiesExchange => if message.sound {} else {}
                case DeviceWatchdog => if message.sound {} else {}
                case DisconnectPeer =>
                case OtherCommand =>
              }
            }
          }
        case Watchdog => if s.outstandingDWA > MAX_UNANSWERED_WATCHDOG_REQUESTS {} else {}
        case _ =>
      }
    case _ =>
  }

  ghost predicate StaysDown(states: seq<Peer>) {
    forall i ::
        0 <= i < |states| - 1 && states[i].status >= StatusTerminating ==> states[i + 1].status >= StatusTerminating
  }

  ghost predicate NeverRevives(states: seq<Peer>, events: seq<Event>)
    requires |states| == |events| + 1
  {
    forall i :: 0 <= i < |events| ==> !Revives(states[i], events[i])
  }

  /** Once going down a peer stays down, over a whole run, if and only if no late connection is handled. */
  lemma StaysDownIff(states: seq<Peer>, events: seq<Event>)
    requires IsRun(states, events)
    ensures StaysDown(states) <==> NeverRevives(states, events)
  {
    forall i | 0 <= i < |events|
      ensures (states[i].status >= StatusTerminating ==> states[i + 1].status >= StatusTerminating) <==>
              !Revives(states[i], events[i])
    {
      NextInRun(states, events, i);
      if states[i].status >= StatusTerminating {
        OnlyLateConnectionsRevive(states[i], events[i]);
      }
    }
    if StaysDown(states) {
      forall i | 0 <= i < |events| ensures !Revives(states[i], events[i]) {
        assert states[i].status >= StatusTerminating ==> states[i + 1].status >= StatusTerminating;
      }
    }
  }

  /** A peer that was reported down is not reported up again. */
  predicate NoUpAfterDown(outputs: seq<Output>) {
    outputs != [] ==> NoUpAfterDown(Front(outputs)) && (Last(outputs).Up? ==> Down !in Front(outputs))
  }

  lemma {:induction false} DownIsFinal(states: seq<Peer>, events: seq<Event>)
    requires IsRun(states, events) && NeverRevives(states, events)
    ensures NoUpAfterDown(Last(states).outputs)
    ensures Down in Last(states).outputs ==> Last(states).status >= StatusTerminating
  {
    if events != [] {
      var s, e := Last(Front(states)), Last(events);
      assert forall i :: 0 <= i < |Front(events)| ==> Front(states)[i] == states[i] && Front(events)[i] == events[i];
      DownIsFinal(Front(states), Front(events));
      assert s == states[|events| - 1] && Last(states) == Step(s, e);
      StepKeepsDown(s, e);
    }
  }

  lemma StepKeepsDown(s: Peer, e: Event)
    requires Enabled(s, e) && !Revives(s, e) && NoUpAfterDown(s.outputs)
    requires Down in s.outputs ==> s.status >= StatusTerminating
    ensures NoUpAfterDown(Step(s, e).outputs)
    ensures Down in Step(s, e).outputs ==> Step(s, e).status >= StatusTerminating
  {
    var t := Step(s, e);
    if s.status >= StatusTerminating {
      OnlyLateConnectionsRevive(s, e);
    }
    OutputsOf(s, e);
    assert t.outputs != s.outputs ==> Front(t.outputs) == s.outputs;
  }

  /** The event reports the peer up: the handshake is complete, and nothing but the status can hold it back. */
  predicate ComesUp(s: Peer, e: Event) {
    Enabled(s, e) && e.Turn? && s.queue[0].PeerUp? && s.status < StatusEngaged
  }

  /** The event reports the peer down: its connection is gone or given up, and it was not terminated before. */
  predicate GoesDown(s: Peer, e: Event) {
    Enabled(s, e) && e.Turn? && s.status < StatusTerminated &&
    match s.queue[0]
    case ConnectionError => true
    case ReadEOF => true
    case ReadError => true
    case WriteError => true
    case PeerSetDown => true
    case _ => false
  }

  predicate Reports(s: Peer, e: Event) {
    ComesUp(s, e) || GoesDown(s, e)
  }

  /** A step adds at most one output: an up where the peer comes up, or a down where it goes down. */
  lemma OutputsOf(s: Peer, e: Event)
    requires Enabled(s, e)
    ensures var t := Step(s, e);
      || t.outputs == s.outputs
      || (GoesDown(s, e) && t.outputs == s.outputs + [Down] && t.status == StatusTerminated)
      || (ComesUp(s, e) && t.outputs == s.outputs + [Up(s.queue[0].host)])
      || exists m :: t.outputs == s.outputs + [Wrote(m)]
  {
    match e
    case Turn(writeOk, newHop) =>
      var popped, m := s.(queue := s.queue[1..]), s.queue[0];
      match m {
        case Egress(message, rchan, waited) =>
          if Sendable(popped, message) && !(message.isRequest && message.hopByHopId in s.requestsMap) {
            if writeOk {} else {}
          }
        case Ingress(message) =>
          if message.applicationId == 0 {
            if message.isRequest {
              match message.command {
                case CapabilitiesExchange =>
                case DeviceWatchdog =>
                case DisconnectPeer =>
                case OtherCommand =>
              }
            } else {
              match message.command {
                case CapabilitiesExchange => if message.sound {} else {}
                case DeviceWatchdog => if message.sound {} else {}
                case DisconnectPeer =>
                case OtherCommand =>
              }
            }
          }
        case _ =>
      }
    case _ =>
  }

  lemma UpWhenComingUp(s: Peer, e: Event)
    requires ComesUp(s, e)
    ensures Step(s, e).outputs == s.outputs + [Up(s.queue[0].host)]
  {
  }

  lemma DownWhenGoingDown(s: Peer, e: Event)
    requires GoesDown(s, e)
    ensures Step(s, e).outputs == s.outputs + [Down]
  {
    match s.queue[0]
    case ConnectionError =>
    case ReadEOF =>
    case ReadError =>
    case WriteError =>
    case PeerSetDown =>
  }

  /** A late connection at `i` after the peer was reported down, and the peer coming up at `j` after that. */
  ghost predicate BackAfterDown(states: seq<Peer>, events: seq<Event>, i: nat, j: nat)
    requires |states| == |events| + 1
  {
    i < j < |events| && Revives(states[i], events[i]) && Down in states[i].outputs && ComesUp(states[j], events[j])
  }

  lemma {:induction false} OutputsGrow(states: seq<Peer>, events: seq<Event>, i: nat, j: nat)
    requires IsRun(states, events) && i <= j < |states|
    ensures states[i].outputs <= states[j].outputs
    decreases j
  {
    if i < j {
      OutputsGrow(states, events, i, j - 1);
      NextInRun(states, events, j - 1);
      OutputsOf(states[j - 1], events[j - 1]);
    }
  }

  lemma {:induction false} UpAfterDownStays(before: seq<Output>, after: seq<Output>)
    requires before <= after && NoUpAfterDown(after)
    ensures NoUpAfterDown(before)
    decreases |after|
  {
    if |before| < |after| {
      UpAfterDownStays(before, Front(after));
    } else {
      assert before == after;
    }
  }

  /** A peer reported down is terminated as long as no late connection is handled after the report. */
  lemma {:induction false} DownWithoutRevival(states: seq<Peer>, events: seq<Event>, j: nat)
    requires IsRun(states, events) && j < |states| && Down in states[j].outputs
    requires forall i :: 0 <= i < j && Revives(states[i], events[i]) ==> Down !in states[i].outputs
    ensures states[j].status >= StatusTerminating
    decreases j
  {
    if j == 0 {
      Runs.Prefix(Starts, Leads, states, events, 0);
    } else {
      NextInRun(states, events, j - 1);
      var s, e := states[j - 1], events[j - 1];
      OutputsOf(s, e);
      if Down in s.outputs {
        DownWithoutRevival(states, events, j - 1);
        OnlyLateConnectionsRevive(s, e);
      }
    }
  }

  /** No late connection and no relapse comes after the peer was reported down. */
  ghost predicate StaysReported(states: seq<Peer>, events: seq<Event>, j: nat)
    requires j <= |events| < |states|
  {
    forall i ::
        0 <= i < j && (Revives(states[i], events[i]) || Relapses(states[i], events[i])) ==> Down !in states[i].outputs
  }

  lemma {:induction false} DownWithoutRelapse(states: seq<Peer>, events: seq<Event>, j: nat)
    requires IsRun(states, events) && j < |states| && Down in states[j].outputs
    requires StaysReported(states, events, j)
    ensures states[j].status == StatusTerminated
    decreases j
  {
    if j == 0 {
      Runs.Prefix(Starts, Leads, states, events, 0);
    } else {
      NextInRun(states, events, j - 1);
      var s, e := states[j - 1], events[j - 1];
      OutputsOf(s, e);
      if Down in s.outputs {
        DownWithoutRelapse(states, events, j - 1);
        OnlyLateConnectionsRevive(s, e);
      }
    }
  }

  lemma NotBackAfterDown(states: seq<Peer>, events: seq<Event>, j: nat)
    requires IsRun(states, events) && j < |states| && !NoUpAfterDown(states[j].outputs)
    ensures exists i: nat, k: nat :: BackAfterDown(states, events, i, k)
    decreases j
  {
    if j == 0 {
      Runs.Prefix(Starts, Leads, states, events, 0);
    } else {
      NextInRun(states, events, j - 1);
      var s, e := states[j - 1], events[j - 1];
      OutputsOf(s, e);
      if !NoUpAfterDown(s.outputs) {
        NotBackAfterDown(states, events, j - 1);
      } else {
        assert states[j].outputs != s.outputs && Front(states[j].outputs) == s.outputs;
        assert ComesUp(s, e) && Down in s.outputs;
        if forall i :: 0 <= i < j - 1 && Revives(states[i], events[i]) ==> Down !in states[i].outputs {
          DownWithoutRevival(states, events, j - 1);
        } else {
          var i :| 0 <= i < j - 1 && Revives(states[i], events[i]) && Down in states[i].outputs;
          assert BackAfterDown(states, events, i, j - 1);
        }
      }
    }
  }

  /**
   A peer is reported up after it was reported down exactly when a late connection after the report completes its
   handshake.
   */
  lemma NoUpAfterDownIff(states: seq<Peer>, events: seq<Event>)
    requires IsRun(states, events)
    ensures NoUpAfterDown(Last(states).outputs) <==> !exists i: nat, j: nat :: BackAfterDown(states, events, i, j)
  {
    if i: nat, j: nat :| BackAfterDown(states, events, i, j) {
      OutputsGrow(states, events, i, j);
      OutputsGrow(states, events, j + 1, |events|);
      NextInRun(states, events, j);
      UpWhenComingUp(states[j], events[j]);
      assert Front(states[j + 1].outputs) == states[j].outputs;
      if NoUpAfterDown(Last(states).outputs) {
        UpAfterDownStays(states[j + 1].outputs, Last(states).outputs);
      }
    }
    if !NoUpAfterDown(Last(states).outputs) {
      NotBackAfterDown(states, events, |events|);
    }
  }

  /** After it was reported down a peer is reported neither up nor down. */
  predicate DownIsLast(outputs: seq<Output>) {
    outputs != [] ==>
    && DownIsLast(Front(outputs))
    && (Last(outputs).Up? || Last(outputs).Down? ==> Down !in Front(outputs))
  }

  /** A late connection or a relapse at `i` after the peer was reported down, and a report at `j` after that. */
  ghost predicate HeardAfterDown(states: seq<Peer>, events: seq<Event>, i: nat, j: nat)
    requires |states| == |events| + 1
  {
    && i < j < |events|
    && (Revives(states[i], events[i]) || Relapses(states[i], events[i])) && Down in states[i].outputs
    && Reports(states[j], events[j])
  }

  ghost predicate NeverHeardAfterDown(states: seq<Peer>, events: seq<Event>)
    requires |states| == |events| + 1
  {
    !exists i: nat, j: nat :: HeardAfterDown(states, events, i, j)
  }

  lemma {:induction false} LastStays(before: seq<Output>, after: seq<Output>)
    requires before <= after && DownIsLast(after)
    ensures DownIsLast(before)
    decreases |after|
  {
    if |before| < |after| {
      LastStays(before, Front(after));
    } else {
      assert before == after;
    }
  }

  lemma ReportedAgain(states: seq<Peer>, events: seq<Event>, j: nat)
    requires IsRun(states, events) && j < |states| && !DownIsLast(states[j].outputs)
    ensures !NeverHeardAfterDown(states, events)
    decreases j
  {
    if j == 0 {
      Runs.Prefix(Starts, Leads, states, events, 0);
    } else {
      NextInRun(states, events, j - 1);
      var s, e := states[j - 1], events[j - 1];
      OutputsOf(s, e);
      if !DownIsLast(s.outputs) {
        ReportedAgain(states, events, j - 1);
      } else {
        assert states[j].outputs != s.outputs && Front(states[j].outputs) == s.outputs;
        assert Reports(s, e) && Down in s.outputs;
        if StaysReported(states, events, j - 1) {
          DownWithoutRelapse(states, events, j - 1);
        } else {
          var i :| 0 <= i < j - 1 && (Revives(states[i], events[i]) || Relapses(states[i], events[i]))
              && Down in states[i].outputs;
          assert HeardAfterDown(states, events, i, j - 1);
        }
      }
    }
  }

  lemma ReportIsHeard(states: seq<Peer>, events: seq<Event>, i: nat, j: nat)
    requires IsRun(states, events) && HeardAfterDown(states, events, i, j)
    ensures !DownIsLast(Last(states).outputs)
  {
    OutputsGrow(states, events, i, j);
    OutputsGrow(states, events, j + 1, |events|);
    NextInRun(states, events, j);
    if ComesUp(states[j], events[j]) {
      UpWhenComingUp(states[j], events[j]);
    } else {
      DownWhenGoingDown(states[j], events[j]);
    }
    assert Front(states[j + 1].outputs) == states[j].outputs;
    if DownIsLast(Last(states).outputs) {
      LastStays(states[j + 1].outputs, Last(states).outputs);
    }
  }

  /**
   Being reported down is the last that is heard of a peer over a run, unless a late connection or a relapse
   after the report is followed by an event that reports, and only then not.
   */
  lemma DownIsLastIff(states: seq<Peer>, events: seq<Event>)
    requires IsRun(states, events)
    ensures DownIsLast(Last(states).outputs) <==> NeverHeardAfterDown(states, events)
  {
    if i: nat, j: nat :| HeardAfterDown(states, events, i, j) {
      ReportIsHeard(states, events, i, j);
    }
    if !DownIsLast(Last(states).outputs) {
      ReportedAgain(states, events, |events|);
    }
  }

  /** A peer that is down, with a bad watchdog answer still to be handled. */
  function DownWith(dwa: Message): Peer {
    Passive().(queue := [Ingress(dwa)], status := StatusTerminated, outputs := [Down])
  }

  lemma GoesDownWith(dwa: Message) returns (states: seq<Peer>, events: seq<Event>)
    ensures IsRun(states, events) && Last(states) == DownWith(dwa)
  {
    var s := Passive();
    states, events := [s], [];
    RunGoesOn(states, events, SetsDown);
    var s1 := s.(queue := [PeerSetDown]);
    states, events := states + [s1], events + [SetsDown];
    RunGoesOn(states, events, Reads(dwa));
    var s2 := s.(queue := [PeerSetDown, Ingress(dwa)]);
    states, events := states + [s2], events + [Reads(dwa)];
    RunGoesOn(states, events, Turn(true, 7));
    assert s2.queue[1..] == [Ingress(dwa)];
    TerminatesAlone(s2.(queue := [Ingress(dwa)]));
    states, events := states + [DownWith(dwa)], events + [Turn(true, 7)];
  }

  lemma GoesDownAgain(s: Peer, dwa: Message, t: Peer, u: Peer)
    requires s == DownWith(dwa) && !dwa.isRequest && dwa.applicationId == 0 && dwa.command.DeviceWatchdog? && !dwa.sound
    requires t == s.(queue := [PeerSetDown], status := StatusTerminating)
    requires u == s.(queue := [], outputs := [Down, Down])
    ensures Leads(s, Turn(true, 7), t) && Leads(t, Turn(true, 7), u)
  {
    assert s.queue[1..] == [] && t.queue[1..] == [];
    TerminatesAlone(t.(queue := []));
  }

  /** A watchdog answer with an error, behind the shutdown in the queue, makes a peer report down twice. */
  lemma DownTwice() returns (states: seq<Peer>, events: seq<Event>)
    ensures IsRun(states, events) && Last(states).outputs == [Down, Down]
  {
    var dwa := Message(false, 0, DeviceWatchdog, 7, "", false);
    states, events := GoesDownWith(dwa);
    var s := DownWith(dwa);
    var t, u := s.(queue := [PeerSetDown], status := StatusTerminating), s.(queue := [], outputs := [Down, Down]);
    GoesDownAgain(s, dwa, t, u);
    RunGoesOn(states, events, Turn(true, 7));
    states, events := states + [t], events + [Turn(true, 7)];
    RunGoesOn(states, events, Turn(true, 7));
    states, events := states + [u], events + [Turn(true, 7)];
  }

  lemma TerminatesAlone(s: Peer)
    requires s.status < StatusTerminated && s.requestsMap == map[]
    ensures Terminate(s) == s.(status := StatusTerminated, outputs := s.outputs + [Down])
  {
    assert Stopped(s.requestsMap, s.timers.live) == {};
    NobodyTold(s.channels, s.requestsMap, Cancelled);
  }

  /** A peer shut down while connecting is reported down, and then finds itself connected. */
  lemma LateConnection(host: string) returns (states: seq<Peer>, events: seq<Event>)
    ensures IsRun(states, events)
    ensures Last(states) == Active(host).(
              status := StatusConnected, queue := [Own(Request(CapabilitiesExchange, 7))],
              around := Around(false, true, 0, 1), outputs := [Down])
  {
    var s := Active(host);
    states, events := [s], [];
    RunGoesOn(states, events, SetsDown);
    states, events := states + [Step(s, SetsDown)], events + [SetsDown];
    var s1 := s.(queue := [PeerSetDown]);
    assert Last(states) == s1;
    RunGoesOn(states, events, Turn(true, 7));
    states, events := states + [Step(s1, Turn(true, 7))], events + [Turn(true, 7)];
    var s2 := s.(status := StatusTerminated, outputs := [Down]);
    assert Last(states) == s2 by {
      assert s1.queue[1..] == [] && Stopped(s.requestsMap, s.timers.live) == {};
      NobodyTold(s.channels, s.requestsMap, Cancelled);
    }
    RunGoesOn(states, events, ConnectEnds(true));
    states, events := states + [Step(s2, ConnectEnds(true))], events + [ConnectEnds(true)];
    var s3 := s2.(queue := [ConnectionEstablished], around := Around(false, false, 0, 1));
    assert Last(states) == s3;
    RunGoesOn(states, events, Turn(true, 7));
    states, events := states + [Step(s3, Turn(true, 7))], events + [Turn(true, 7)];
    assert s3.queue[1..] == [];
  }

  /** It completes the handshake and is reported up after it was reported down. */
  lemma LateConnectionComesUp(host: string) returns (states: seq<Peer>, events: seq<Event>)
    ensures IsRun(states, events) && Last(states).outputs == [Down, Wrote(Request(CapabilitiesExchange, 7)), Up(host)]
  {
    states, events := LateConnection(host);
    var cer, cea := Request(CapabilitiesExchange, 7), Message(false, 0, CapabilitiesExchange, 7, host, true);
    var s := Last(states);
    RunGoesOn(states, events, Turn(true, 7));
    states, events := states + [Step(s, Turn(true, 7))], events + [Turn(true, 7)];
    var s1 := s.(queue := [], outputs := [Down, Wrote(cer)]);
    assert Last(states) == s1 by { assert s.queue[1..] == []; }
    RunGoesOn(states, events, Reads(cea));
    states, events := states + [Step(s1, Reads(cea))], events + [Reads(cea)];
    var s2 := s1.(queue := [Ingress(cea)]);
    assert Last(states) == s2;
    RunGoesOn(states, events, Turn(true, 7));
    states, events := states + [Step(s2, Turn(true, 7))], events + [Turn(true, 7)];
    var s3 := s1.(queue := [PeerUp(host)]);
    assert Last(states) == s3 by { assert s2.queue[1..] == []; }
    RunGoesOn(states, events, Turn(true, 7));
    states, events := states + [Step(s3, Turn(true, 7))], events + [Turn(true, 7)];
  }
}
