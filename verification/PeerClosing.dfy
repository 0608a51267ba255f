/** What Close() leaves behind: no request without an answer. */
module PeerClosing {
  import opened Common
  import opened Outstanding
  import opened PeerSpec
  import opened PeerTheorems
  import opened PeerTimers

  /** The part of the queue that is handled before the event loop ends. */
  function Ahead(queue: seq<Msg>): seq<Msg> {
    if queue == [] || queue[0].PeerClose? then [] else [queue[0]] + Ahead(queue[1..])
  }

  lemma {:induction false} AheadOfLonger(queue: seq<Msg>, ms: seq<Msg>)
    requires PeerClose in queue
    ensures Ahead(queue + ms) == Ahead(queue)
  {
    if !queue[0].PeerClose? {
      assert (queue + ms)[1..] == queue[1..] + ms;
      AheadOfLonger(queue[1..], ms);
    }
  }

  lemma {:induction false} AheadOfLast(queue: seq<Msg>)
    requires PeerClose !in queue
    ensures Ahead(queue + [PeerClose]) == queue
  {
    if queue != [] {
      assert (queue + [PeerClose])[1..] == queue[1..] + [PeerClose];
      AheadOfLast(queue[1..]);
    }
  }

  ghost predicate NobodyWaits(queue: seq<Msg>) {
    forall m :: m in queue ==> Plain(m)
  }

  /** Nothing new can wait, and what is outstanding is cancelled before the event loop ends. */
  ghost predicate Finishing(requestsMap: map<nat, RequestContext>, timers: map<nat, Timer<nat>>, queue: seq<Msg>) {
    && timers == map[] && NobodyWaits(queue)
    && forall hop :: hop in requestsMap ==> CancelRequest(hop) in Ahead(queue)
  }

  ghost predicate Closed(s: Peer) {
    match s.phase
    case InUse => PeerClose !in s.queue
    case Closing => PeerClose in s.queue && Finishing(s.requestsMap, s.timers.live, s.queue)
    case Ended => s.requestsMap == map[] && NobodyWaits(s.queue)
    case Crashed => true
  }

  /** A turn only adds messages at the end, none of them PeerClose, and a plain message starts no timer. */
  ghost predicate Grows(s: Peer, t: Peer, waits: bool) {
    && |s.queue| <= |t.queue| && t.queue[..|s.queue|] == s.queue
    && (forall m :: m in t.queue[|s.queue|..] ==> !m.PeerClose? && Plain(m))
    && t.phase == s.phase
    && (!waits ==> t.requestsMap.Keys <= s.requestsMap.Keys && t.timers.live.Keys <= s.timers.live.Keys)
  }

  lemma GrowsBy(s: Peer, t: Peer, ms: seq<Msg>, waits: bool)
    requires t.queue == s.queue + ms && t.phase == s.phase
    requires forall m :: m in ms ==> !m.PeerClose? && Plain(m)
    requires !waits ==> t.requestsMap.Keys <= s.requestsMap.Keys && t.timers.live.Keys <= s.timers.live.Keys
    ensures Grows(s, t, waits)
  {
    assert t.queue[|s.queue|..] == ms;
  }

  lemma SendGrows(s: Peer, m: Message, rchan: Option<nat>, writeOk: bool)
    ensures Grows(s, Send(s, m, rchan, writeOk), rchan.Some?)
  {
    ClockOfSend(s, m, rchan, writeOk);
    var t := Send(s, m, rchan, writeOk);
    var k := ClockOf(t);
    assert k.queue == t.queue && k.requestsMap == t.requestsMap && k.timers == t.timers.live;
    assert t.phase == s.phase by {
      if IsDisconnectAnswer(m) { if writeOk {} else {} } else { if writeOk {} else {} }
    }
    GrowsBy(s, t, SendPosts(m, writeOk), rchan.Some?);
  }

  lemma EgressGrows(s: Peer, m: Message, rchan: Option<nat>, waited: bool, writeOk: bool)
    ensures var t := HandleEgress(s, m, rchan, waited, writeOk); t.phase.Crashed? || Grows(s, t, rchan.Some?)
  {
    var t := HandleEgress(s, m, rchan, waited, writeOk);
    if Sendable(s, m) && m.isRequest && m.hopByHopId in s.requestsMap {
    } else if Sendable(s, m) {
      SendGrows(s, m, rchan, writeOk);
      var u := Send(s, m, rchan, writeOk);
      assert t.queue == u.queue && t.phase == u.phase && t.requestsMap == u.requestsMap && t.timers == u.timers;
    } else {
      assert s.queue + [] == s.queue;
      GrowsBy(s, t, [], rchan.Some?);
    }
  }

  lemma IngressGrows(s: Peer, m: Message)
    ensures Grows(s, HandleIngress(s, m), false)
  {
    var t := HandleIngress(s, m);
    if m.applicationId == 0 {
      if m.isRequest {
        ClockOfBaseRequest(s, m);
        PhaseOfBaseRequest(s, m);
      } else {
        ClockOfBaseAnswer(s, m);
        PhaseOfBaseAnswer(s, m);
      }
      var k := ClockOf(t);
      assert k.queue == t.queue && k.requestsMap == t.requestsMap && k.timers == t.timers.live;
      GrowsBy(s, t, BasePosts(s, m), false);
    } else {
      assert s.queue + [] == s.queue;
      if !m.isRequest && m.hopByHopId in s.requestsMap {
        ClockOfAnswer(s, m);
        var k := ClockOf(t);
        assert k.queue == t.queue && k.requestsMap == t.requestsMap && k.timers == t.timers.live;
      }
      GrowsBy(s, t, [], false);
    }
  }

  lemma PhaseOfBaseRequest(s: Peer, m: Message)
    ensures HandleBaseRequest(s, m).phase == s.phase
  {
    match m.command
    case CapabilitiesExchange => if s.status == StatusConnected { if m.sound {} else {} } else {}
    case DeviceWatchdog =>
    case DisconnectPeer =>
    case OtherCommand =>
  }

  lemma PhaseOfBaseAnswer(s: Peer, m: Message)
    ensures HandleBaseAnswer(s, m).phase == s.phase
  {
    match m.command
    case CapabilitiesExchange => if m.sound {} else {}
    case DeviceWatchdog => if m.sound { if s.outstandingDWA > 0 {} else {} } else {}
    case DisconnectPeer =>
    case OtherCommand =>
  }

  lemma HandleGrows(s: Peer, m: Msg, writeOk: bool, newHop: nat)
    requires !m.PeerClose?
    ensures var t := Handle(s, m, writeOk, newHop); t.phase.Crashed? || Grows(s, t, m.Egress? && m.rchan.Some?)
  {
    var t := Handle(s, m, writeOk, newHop);
    match m
    case Egress(message, rchan, waited) => EgressGrows(s, message, rchan, waited, writeOk);
    case Ingress(message) => IngressGrows(s, message);
    case ConnectionEstablished => GrowsBy(s, t, [Own(Request(CapabilitiesExchange, newHop))], false);
    case Watchdog =>
      if s.outstandingDWA > MAX_UNANSWERED_WATCHDOG_REQUESTS {
        assert t.queue == s.queue + [PeerSetDown, Own(Request(DeviceWatchdog, newHop))];
        GrowsBy(s, t, [PeerSetDown, Own(Request(DeviceWatchdog, newHop))], false);
      } else {
        GrowsBy(s, t, [Own(Request(DeviceWatchdog, newHop))], false);
      }
    case CancelRequest(hop) =>
      assert s.queue + [] == s.queue;
      GrowsBy(s, t, [], false);
    case ReadEOF => TerminateGrows(s);
    case ReadError => TerminateGrows(s);
    case WriteError => TerminateGrows(s);
    case PeerSetDown => TerminateGrows(s);
    case ConnectionError => QuietGrows(s, t);
    case PeerUp(_) => QuietGrows(s, t);
  }

  lemma QuietGrows(s: Peer, t: Peer)
    requires t.queue == s.queue && t.phase == s.phase && t.requestsMap == s.requestsMap && t.timers == s.timers
    ensures Grows(s, t, false)
  {
    assert s.queue + [] == s.queue;
    GrowsBy(s, t, [], false);
  }

  lemma TerminateGrows(s: Peer)
    ensures Grows(s, Terminate(s), false)
  {
    var t := Terminate(s);
    assert s.queue + [] == s.queue;
    if s.status < StatusTerminated {
      GrowsBy(s, t, [], false);
    } else {
      QuietGrows(s, t);
    }
  }

  lemma PoppedFinishing(requestsMap: map<nat, RequestContext>, timers: map<nat, Timer<nat>>, queue: seq<Msg>,
        left: map<nat, RequestContext>)
    requires queue != [] && !queue[0].PeerClose? && Finishing(requestsMap, timers, queue)
    requires left.Keys <= requestsMap.Keys && (queue[0].CancelRequest? ==> queue[0].hopByHopId !in left)
    ensures Finishing(left, timers, queue[1..])
  {
    assert Ahead(queue) == [queue[0]] + Ahead(queue[1..]);
  }

  lemma LongerFinishing(requestsMap: map<nat, RequestContext>, timers: map<nat, Timer<nat>>, queue: seq<Msg>,
        ms: seq<Msg>)
    requires Finishing(requestsMap, timers, queue) && PeerClose in queue && NobodyWaits(ms)
    ensures Finishing(requestsMap, timers, queue + ms)
  {
    AheadOfLonger(queue, ms);
  }

  lemma TurnIsClosed(s: Peer, writeOk: bool, newHop: nat)
    requires Enabled(s, Turn(writeOk, newHop)) && Closed(s)
    ensures Closed(Step(s, Turn(writeOk, newHop)))
  {
    var popped, m := s.(queue := s.queue[1..]), s.queue[0];
    var t := Step(s, Turn(writeOk, newHop));
    assert m in s.queue;
    if m.PeerClose? {
      assert t == popped.(phase := Ended);
      if s.phase.Closing? {
        assert Ahead(s.queue) == [];
        assert s.requestsMap.Keys == {};
      }
    } else {
      HandleGrows(popped, m, writeOk, newHop);
      if !t.phase.Crashed? {
        var ms := t.queue[|popped.queue|..];
        assert t.queue == popped.queue + ms;
        if s.phase.Closing? {
          assert Plain(m);
          assert m.CancelRequest? ==> m.hopByHopId !in t.requestsMap;
          assert t.timers.live.Keys == {};
          PoppedFinishing(s.requestsMap, s.timers.live, s.queue, t.requestsMap);
          LongerFinishing(t.requestsMap, t.timers.live, popped.queue, ms);
        } else {
          assert forall x :: x in t.queue ==> x in popped.queue || x in ms;
        }
      }
    }
  }

  lemma ArrivalIsClosed(s: Peer, t: Peer, m: Msg)
    requires Closed(s) && !s.phase.Ended? && !m.PeerClose? && t.phase == s.phase
    requires t.queue == s.queue + [m] && t.requestsMap == s.requestsMap
    requires s.phase.InUse? || (Plain(m) && t.timers.live.Keys <= s.timers.live.Keys)
    ensures Closed(t)
  {
    if s.phase.Closing? {
      LongerFinishing(s.requestsMap, s.timers.live, s.queue, [m]);
      assert t.timers.live.Keys == {};
    }
  }

  lemma StepIsClosed(s: Peer, e: Event)
    requires Enabled(s, e) && Closed(s) && Timed(s) && Sound(s, None)
    ensures Closed(Step(s, e))
  {
    var t := Step(s, e);
    match e
    case Turn(writeOk, newHop) => TurnIsClosed(s, writeOk, newHop);
    case Ticks =>
      if s.status == StatusEngaged { ArrivalIsClosed(s, t, Watchdog); }
      else if s.status > StatusEngaged { assert t == s; }
      else { ArrivalIsClosed(s, t, PeerSetDown); }
    case Exchanges(m, c) =>
      if m.applicationId == 0 || !m.isRequest {
        assert t.phase == s.phase && t.queue == s.queue;
      } else {
        ArrivalIsClosed(s, t, Egress(m, Some(c), true));
      }
    case SetsDown => ArrivalIsClosed(s, t, PeerSetDown);
    case ConnectEnds(ok) => ArrivalIsClosed(s, t, if ok then ConnectionEstablished else ConnectionError);
    case Reads(m) => ArrivalIsClosed(s, t, Ingress(m));
    case ReadEnds(eof) => ArrivalIsClosed(s, t, if eof then ReadEOF else ReadError);
    case TimerFires(i) => assert t.phase == s.phase && t.queue == s.queue && t.requestsMap == s.requestsMap;
    case TimerSends(i) => ArrivalIsClosed(s, t, CancelRequest(s.timers.live[i].request));
    case HandlerEnds(answer) => ArrivalIsClosed(s, t, Own(answer));
    case Leaves =>
      assert t.phase == s.phase && t.queue == s.queue && t.requestsMap == s.requestsMap && t.timers == s.timers;
    case Closes =>
      assert forall m :: m in s.queue ==> ProperMsg(s.channels.asked, m);
      CloseIsClosed(s);
  }

  /** With the wait group at zero nobody waits, and every outstanding request has its cancellation queued. */
  lemma CloseIsClosed(s: Peer)
    requires Enabled(s, Closes) && Closed(s) && Timed(s)
    requires forall m :: m in s.queue ==> (m.Egress? && m.rchan.Some? ==> m.waited)
    ensures Closed(Step(s, Closes))
  {
    AheadOfLast(s.queue);
    assert s.timers.live.Keys == {};
    NoneWaited(s.queue);
  }

  lemma {:induction false} NoneWaited(queue: seq<Msg>)
    requires WaitedIn(queue) == 0
    ensures forall m :: m in queue ==> !(m.Egress? && m.waited)
  {
    if queue != [] {
      NoneWaited(queue[1..]);
    }
  }

  lemma {:induction false} RunIsClosed(states: seq<Peer>, events: seq<Event>)
    requires IsRun(states, events)
    ensures Closed(Last(states))
  {
    if events != [] {
      RunIsClosed(Front(states), Front(events));
      RunIsTimed(Front(states), Front(events));
      RunIsSound(Front(states), Front(events));
      StepIsClosed(Last(Front(states)), Last(events));
    }
  }

  /** When the event loop has ended, every channel ever handed in got one message and was closed once. */
  lemma ClosedPeerAnsweredEverybody(states: seq<Peer>, events: seq<Event>, c: nat)
    requires IsRun(states, events) && Last(states).phase.Ended? && c in Last(states).channels.mail
    ensures var s := Last(states); |s.channels.mail[c]| == 1 && c in s.channels.closes && s.channels.closes[c] == 1
  {
    RunIsClosed(states, events);
    RunIsSound(states, events);
    var s := Last(states);
    assert Placed(BooksOf(s), None, c);
    NotQueued(s.queue, c);
    assert Waiting(s.requestsMap, c) == {};
  }

  lemma {:induction false} NotQueued(queue: seq<Msg>, c: nat)
    requires NobodyWaits(queue)
    ensures QueuedOn(queue, c) == 0
  {
    if queue != [] {
      assert queue[0] in queue;
      assert forall m :: m in queue[1..] ==> m in queue;
      NotQueued(queue[1..], c);
    }
  }
}
