/** When a peer ends in a panic: a request is to be sent under a hop id that is outstanding. */
module PeerHops {
  import opened Common
  import Runs
  import opened PeerSpec
  import opened PeerTimers
  import opened PeerClosing

  /** The event handles a request that could be sent, under a hop id that is outstanding. */
  predicate Collides(s: Peer, e: Event) {
    Enabled(s, e) && e.Turn? &&
    match s.queue[0]
    case Egress(m, _, _) => Sendable(s, m) && m.isRequest && m.hopByHopId in s.requestsMap
    case _ => false
  }

  /** A step ends in a panic exactly when it collides. */
  lemma CrashesIff(s: Peer, e: Event)
    requires Enabled(s, e)
    ensures Step(s, e).phase.Crashed? <==> Collides(s, e)
  {
    match e
    case Turn(writeOk, newHop) =>
      var popped, m := s.(queue := s.queue[1..]), s.queue[0];
      if !m.PeerClose? && !Collides(s, e) {
        if m.Egress? {
          EgressStays(popped, m.message, m.rchan, m.waited, writeOk);
        } else {
          HandleGrows(popped, m, writeOk, newHop);
          OthersStay(popped, m, writeOk, newHop);
        }
      }
    case Ticks => if s.status == StatusEngaged {} else {}
    case Exchanges(m, _) => if m.applicationId == 0 || !m.isRequest {} else {}
    case SetsDown =>
    case ConnectEnds(_) =>
    case Reads(_) =>
    case ReadEnds(_) =>
    case TimerFires(_) =>
    case TimerSends(_) =>
    case HandlerEnds(_) =>
    case Leaves =>
    case Closes =>
  }

  lemma EgressStays(s: Peer, m: Message, rchan: Option<nat>, waited: bool, writeOk: bool)
    requires !(Sendable(s, m) && m.isRequest && m.hopByHopId in s.requestsMap)
    ensures HandleEgress(s, m, rchan, waited, writeOk).phase == s.phase
  {
    if Sendable(s, m) {
      SendGrows(s, m, rchan, writeOk);
    }
  }

  lemma OthersStay(s: Peer, m: Msg, writeOk: bool, newHop: nat)
    requires !m.PeerClose? && !m.Egress?
    ensures Handle(s, m, writeOk, newHop).phase == s.phase
  {
    match m
    case Ingress(message) => IngressGrows(s, message);
    case ConnectionEstablished =>
    case Watchdog => if s.outstandingDWA > MAX_UNANSWERED_WATCHDOG_REQUESTS {} else {}
    case CancelRequest(_) =>
    case ReadEOF => TerminateGrows(s);
    case ReadError => TerminateGrows(s);
    case WriteError => TerminateGrows(s);
    case PeerSetDown => TerminateGrows(s);
    case ConnectionError =>
    case PeerUp(_) =>
  }

  ghost predicate NeverCollides(states: seq<Peer>, events: seq<Event>)
    requires |states| == |events| + 1
  {
    forall i :: 0 <= i < |events| ==> !Collides(states[i], events[i])
  }

  /** A run ends in a panic if and only if an event of it collides, which then is the last one. */
  lemma CrashedIff(states: seq<Peer>, events: seq<Event>)
    requires IsRun(states, events)
    ensures Last(states).phase.Crashed? <==> !NeverCollides(states, events)
    ensures forall i :: 0 <= i < |events| && Collides(states[i], events[i]) ==> i == |events| - 1
  {
    if events == [] {
      Runs.Prefix(Starts, Leads, states, events, 0);
    } else {
      NextInRun(states, events, |events| - 1);
      CrashesIff(states[|events| - 1], Last(events));
      forall i | 0 <= i < |events| && Collides(states[i], events[i]) ensures i == |events| - 1 {
        NextInRun(states, events, i);
        CrashesIff(states[i], events[i]);
        if i + 1 < |events| {
          NextInRun(states, events, i + 1);
        }
      }
    }
  }

  // ----- Hop ids that do not collide

  /** The hop id of a request that is handed in and queued. */
  function HopsOf(e: Event): set<nat> {
    match e
    case Exchanges(m, _) => if m.applicationId == 0 || !m.isRequest then {} else {m.hopByHopId}
    case _ => {}
  }

  function AllHops(events: seq<Event>): set<nat> {
    if events == [] then {} else AllHops(Front(events)) + HopsOf(Last(events))
  }

  /** No two requests are handed in with the same hop id. */
  predicate DistinctHops(events: seq<Event>) {
    events != [] ==> DistinctHops(Front(events)) && HopsOf(Last(events)) !! AllHops(Front(events))
  }

  /** The peer's own requests, and what a handler might send, keep away from those hop ids. */
  predicate KeepsAway(e: Event, hops: set<nat>) {
    match e
    case Turn(_, newHop) => newHop !in hops
    case HandlerEnds(answer) => answer.isRequest ==> answer.hopByHopId !in hops
    case _ => true
  }

  /**
   Messages of the peer itself: nobody waits for them, and requests among them have a hop id that is not handed in.
   */
  ghost predicate OwnOnly(ms: seq<Msg>, hops: set<nat>) {
    forall m :: m in ms && m.Egress? ==> m.rchan.None? && (m.message.isRequest ==> m.message.hopByHopId !in hops)
  }

  predicate Waited(m: Msg) {
    m.Egress? && m.rchan.Some?
  }

  /** Every waited request is queued or outstanding once under its hop id. */
  ghost predicate Apart(queue: seq<Msg>, outstanding: set<nat>, used: set<nat>, hops: set<nat>) {
    && outstanding <= used
    && (forall m :: m in queue && Waited(m) ==> m.message.hopByHopId in used - outstanding)
    && (forall m :: m in queue && m.Egress? && m.rchan.None? && m.message.isRequest ==> m.message.hopByHopId !in hops)
    && (forall i, j :: 0 <= i < j < |queue| && Waited(queue[i]) && Waited(queue[j]) ==>
          queue[i].message.hopByHopId != queue[j].message.hopByHopId)
  }

  lemma HandlePosts(s: Peer, m: Msg, writeOk: bool, newHop: nat, hops: set<nat>) returns (ms: seq<Msg>)
    requires !m.PeerClose? && newHop !in hops
    ensures var t := Handle(s, m, writeOk, newHop); t.phase.Crashed? || (t.queue == s.queue + ms && OwnOnly(ms, hops))
  {
    match m
    case Egress(message, rchan, waited) =>
      if Sendable(s, message) {
        ms := SendPosts(message, writeOk);
        ClockOfSend(s, message, rchan, writeOk);
        var u := Send(s, message, rchan, writeOk);
        assert ClockOf(u).queue == u.queue;
      } else {
        ms := [];
        assert s.queue + [] == s.queue;
      }
    case Ingress(message) => ms := IngressPosts(s, message, hops);
    case ConnectionEstablished => ms := [Own(Request(CapabilitiesExchange, newHop))];
    case Watchdog =>
      if s.outstandingDWA > MAX_UNANSWERED_WATCHDOG_REQUESTS {
        ms := [PeerSetDown, Own(Request(DeviceWatchdog, newHop))];
        assert s.queue + [PeerSetDown] + [Own(Request(DeviceWatchdog, newHop))] == s.queue + ms;
      } else {
        ms := [Own(Request(DeviceWatchdog, newHop))];
      }
    case ConnectionError => ms := NoPosts(s);
    case PeerUp(_) => ms := NoPosts(s);
    case CancelRequest(_) => ms := NoPosts(s);
    case ReadEOF => ms := NoPosts(s);
    case ReadError => ms := NoPosts(s);
    case WriteError => ms := NoPosts(s);
    case PeerSetDown => ms := NoPosts(s);
  }

  lemma NoPosts(s: Peer) returns (ms: seq<Msg>)
    ensures ms == [] && s.queue == s.queue + ms
  {
    ms := [];
  }

  lemma IngressPosts(s: Peer, m: Message, hops: set<nat>) returns (ms: seq<Msg>)
    ensures HandleIngress(s, m).queue == s.queue + ms && OwnOnly(ms, hops)
  {
    if m.applicationId == 0 {
      ms := BasePosts(s, m);
      if m.isRequest { ClockOfBaseRequest(s, m); } else { ClockOfBaseAnswer(s, m); }
      assert ClockOf(HandleIngress(s, m)).queue == HandleIngress(s, m).queue;
    } else {
      ms := [];
      assert s.queue + [] == s.queue;
      if !m.isRequest && m.hopByHopId in s.requestsMap {
        ClockOfAnswer(s, m);
        assert ClockOf(HandleIngress(s, m)).queue == HandleIngress(s, m).queue;
      }
    }
  }

  lemma OutstandingAfter(s: Peer, m: Msg, writeOk: bool, newHop: nat)
    requires !m.PeerClose?
    ensures var t := Handle(s, m, writeOk, newHop);
      t.phase.Crashed? || t.requestsMap.Keys <= s.requestsMap.Keys + WaitedHop(m)
  {
    if m.Egress? && m.rchan.Some? {
      if Sendable(s, m.message) {
        ClockOfSend(s, m.message, m.rchan, writeOk);
        var u := Send(s, m.message, m.rchan, writeOk);
        assert ClockOf(u).requestsMap == u.requestsMap;
      }
    } else {
      HandleGrows(s, m, writeOk, newHop);
    }
  }

  function WaitedHop(m: Msg): set<nat> {
    if Waited(m) then {m.message.hopByHopId} else {}
  }

  lemma TurnKeepsApart(queue: seq<Msg>, out: set<nat>, left: set<nat>, ms: seq<Msg>, used: set<nat>, hops: set<nat>)
    requires queue != [] && Apart(queue, out, used, hops) && left <= out + WaitedHop(queue[0]) && OwnOnly(ms, hops)
    ensures Apart(queue[1..] + ms, left, used, hops)
  {
    var after := queue[1..] + ms;
    forall m | m in after && Waited(m) ensures m.message.hopByHopId in used - left {
      var i :| 0 <= i < |after| && after[i] == m;
      assert m !in ms && queue[i + 1] == m && queue[0] in queue;
    }
    forall i, j | 0 <= i < j < |after| && Waited(after[i]) && Waited(after[j])
      ensures after[i].message.hopByHopId != after[j].message.hopByHopId
    {
      assert after[i] in after && after[j] in after && after[i] !in ms && after[j] !in ms;
      assert after[i] == queue[i + 1] && after[j] == queue[j + 1];
    }
    assert queue[0] in queue;
  }

  lemma PostKeepsApart(queue: seq<Msg>, out: set<nat>, m: Msg, used: set<nat>, hops: set<nat>)
    requires Apart(queue, out, used, hops) && OwnOnly([m], hops)
    ensures Apart(queue + [m], out, used, hops)
  {
    assert m in [m];
  }

  lemma WaitKeepsApart(queue: seq<Msg>, out: set<nat>, m: Msg, used: set<nat>, hops: set<nat>)
    requires Apart(queue, out, used, hops) && Waited(m) && m.message.hopByHopId !in used
    ensures Apart(queue + [m], out, used + {m.message.hopByHopId}, hops)
  {
    var after := queue + [m];
    forall i, j | 0 <= i < j < |after| && Waited(after[i]) && Waited(after[j])
      ensures after[i].message.hopByHopId != after[j].message.hopByHopId
    {
      assert after[i] == queue[i] && queue[i] in queue;
    }
  }

  ghost predicate IsApart(s: Peer, used: set<nat>, hops: set<nat>) {
    Apart(s.queue, s.requestsMap.Keys, used, hops)
  }

  lemma TurnStaysApart(s: Peer, e: Event, t: Peer, used: set<nat>, hops: set<nat>)
    requires e.Turn? && Leads(s, e, t) && !t.phase.Crashed? && IsApart(s, used, hops) && KeepsAway(e, hops)
    ensures IsApart(t, used, hops)
  {
    var popped, m := s.(queue := s.queue[1..]), s.queue[0];
    if m.PeerClose? {
      assert s.queue[1..] + [] == s.queue[1..];
      TurnKeepsApart(s.queue, s.requestsMap.Keys, t.requestsMap.Keys, [], used, hops);
    } else {
      var ms := HandlePosts(popped, m, e.writeOk, e.newHop, hops);
      OutstandingAfter(popped, m, e.writeOk, e.newHop);
      TurnKeepsApart(s.queue, s.requestsMap.Keys, t.requestsMap.Keys, ms, used, hops);
    }
  }

  lemma StepStaysApart(s: Peer, e: Event, t: Peer, used: set<nat>, hops: set<nat>)
    requires Leads(s, e, t) && !t.phase.Crashed? && IsApart(s, used, hops)
    requires KeepsAway(e, hops) && HopsOf(e) !! used
    ensures IsApart(t, used + HopsOf(e), hops)
  {
    match e
    case Turn(_, _) => TurnStaysApart(s, e, t, used, hops);
    case Exchanges(m, c) =>
      if m.applicationId != 0 && m.isRequest {
        WaitKeepsApart(s.queue, s.requestsMap.Keys, Egress(m, Some(c), true), used, hops);
      }
    case Ticks =>
      if s.status == StatusEngaged {
        PostKeepsApart(s.queue, s.requestsMap.Keys, Watchdog, used, hops);
      } else if s.status < StatusEngaged {
        PostKeepsApart(s.queue, s.requestsMap.Keys, PeerSetDown, used, hops);
      }
    case SetsDown => PostKeepsApart(s.queue, s.requestsMap.Keys, PeerSetDown, used, hops);
    case ConnectEnds(ok) =>
      PostKeepsApart(s.queue, s.requestsMap.Keys, if ok then ConnectionEstablished else ConnectionError, used, hops);
    case Reads(m) => PostKeepsApart(s.queue, s.requestsMap.Keys, Ingress(m), used, hops);
    case ReadEnds(eof) => PostKeepsApart(s.queue, s.requestsMap.Keys, if eof then ReadEOF else ReadError, used, hops);
    case TimerFires(_) =>
    case TimerSends(i) =>
      PostKeepsApart(s.queue, s.requestsMap.Keys, CancelRequest(s.timers.live[i].request), used, hops);
    case HandlerEnds(answer) => PostKeepsApart(s.queue, s.requestsMap.Keys, Own(answer), used, hops);
    case Leaves =>
    case Closes => PostKeepsApart(s.queue, s.requestsMap.Keys, PeerClose, used, hops);
  }

  lemma ApartNeverCollides(s: Peer, e: Event, used: set<nat>, hops: set<nat>)
    requires Enabled(s, e) && IsApart(s, used, hops) && used <= hops
    ensures !Collides(s, e)
  {
    if e.Turn? {
      assert s.queue[0] in s.queue;
    }
  }

  lemma {:induction false} RunStaysApart(states: seq<Peer>, events: seq<Event>, hops: set<nat>)
    requires IsRun(states, events) && DistinctHops(events) && AllHops(events) <= hops
    requires forall e :: e in events ==> KeepsAway(e, hops)
    ensures IsApart(Last(states), AllHops(events), hops) && !Last(states).phase.Crashed?
    decreases |events|
  {
    if events != [] {
      var s, e := Last(Front(states)), Last(events);
      assert e in events && forall f :: f in Front(events) ==> f in events;
      RunStaysApart(Front(states), Front(events), hops);
      ApartNeverCollides(s, e, AllHops(Front(events)), hops);
      CrashesIff(s, e);
      StepStaysApart(s, e, Last(states), AllHops(Front(events)), hops);
    }
  }

  /** If the hop ids handed in are different and the peer's own requests keep away from them, no run ends in a panic. */
  lemma DistinctHopsNeverCrash(states: seq<Peer>, events: seq<Event>)
    requires IsRun(states, events) && DistinctHops(events)
    requires forall e :: e in events ==> KeepsAway(e, AllHops(events))
    ensures !Last(states).phase.Crashed? && NeverCollides(states, events)
  {
    RunStaysApart(states, events, AllHops(events));
    CrashedIff(states, events);
  }
}
