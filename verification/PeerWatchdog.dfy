/** What the count of watchdog requests counts, and when it shuts a peer down. */
module PeerWatchdog {
  import opened Common
  import Runs
  import opened PeerSpec

  /** The messages the event loop has handled, in order. */
  function Handled(states: seq<Peer>, events: seq<Event>): seq<Msg>
    requires |states| == |events| + 1
  {
    if events == [] then []
    else
      var s := states[|events| - 1];
      Handled(Front(states), Front(events)) + if Last(events).Turn? && s.queue != [] then [s.queue[0]] else []
  }

  /** A successful answer to a watchdog request. */
  predicate IsGoodAnswer(m: Msg) {
    && m.Ingress? && !m.message.isRequest && m.message.applicationId == 0
    && m.message.command.DeviceWatchdog? && m.message.sound
  }

  function Watchdogs(ms: seq<Msg>): nat {
    if ms == [] then 0 else Watchdogs(Front(ms)) + if Last(ms).Watchdog? then 1 else 0
  }

  /** The good answers among them that came while a watchdog request was unanswered. */
  function Answers(ms: seq<Msg>): (n: nat)
    ensures n <= Watchdogs(ms)
  {
    if ms == [] then 0
    else
      var n := Answers(Front(ms));
      if IsGoodAnswer(Last(ms)) && n < Watchdogs(Front(ms)) then n + 1 else n
  }

  function Unanswered(ms: seq<Msg>): nat {
    Watchdogs(ms) - Answers(ms)
  }

  /** What handling a message does to the count. */
  lemma CountAfter(s: Peer, m: Msg, writeOk: bool, newHop: nat)
    ensures Handle(s, m, writeOk, newHop).outstandingDWA ==
            if m.Watchdog? then s.outstandingDWA + 1
            else if IsGoodAnswer(m) && s.outstandingDWA > 0 then s.outstandingDWA - 1
            else s.outstandingDWA
  {
    match m
    case Egress(message, rchan, waited) =>
      if Sendable(s, message) && !(message.isRequest && message.hopByHopId in s.requestsMap) {
        if writeOk {} else {}
      }
    case Ingress(message) =>
      if message.applicationId == 0 {
        if message.isRequest {
          match message.command {
            case CapabilitiesExchange => if s.status == StatusConnected { if message.sound {} else {} }
            case DeviceWatchdog =>
            case DisconnectPeer =>
            case OtherCommand =>
          }
        } else {
          match message.command {
            case CapabilitiesExchange => if message.sound {} else {}
            case DeviceWatchdog => if message.sound {} else {}
            case DisconnectPeer =>
            case OtherCommand =>
          }
        }
      } else if !message.isRequest && message.hopByHopId in s.requestsMap {
      }
    case Watchdog => if s.outstandingDWA > MAX_UNANSWERED_WATCHDOG_REQUESTS {} else {}
    case CancelRequest(hop) => if hop in s.requestsMap {} else {}
    case PeerClose =>
    case ConnectionEstablished =>
    case ConnectionError =>
    case ReadEOF =>
    case ReadError =>
    case WriteError =>
    case PeerUp(_) =>
    case PeerSetDown =>
  }

  lemma CountElsewhere(s: Peer, e: Event)
    requires Enabled(s, e) && !e.Turn?
    ensures Step(s, e).outstandingDWA == s.outstandingDWA
  {
    match e
    case Ticks => if s.status == StatusEngaged {} else {}
    case Exchanges(m, _) => if m.applicationId == 0 || !m.isRequest {} else {}
    case SetsDown =>
    case ConnectEnds(_) =>
    case Reads(_) =>
    case ReadEnds(_) =>
    case TimerFires(_) =>
    case TimerSends(_) =>
    case HandlerEnds(_) =>
    case Leaves =>
    case Closes =>
  }

  /** The count is the number of watchdogs handled less the good answers handled while one was unanswered. */
  lemma {:induction false} CountsUnanswered(states: seq<Peer>, events: seq<Event>)
    requires IsRun(states, events)
    ensures Last(states).outstandingDWA == Unanswered(Handled(states, events))
    decreases |events|
  {
    if events != [] {
      var s, e := Last(Front(states)), Last(events);
      assert states[|events| - 1] == s;
      CountsUnanswered(Front(states), Front(events));
      var before := Handled(Front(states), Front(events));
      if e.Turn? {
        CountAfter(s.(queue := s.queue[1..]), s.queue[0], e.writeOk, e.newHop);
        assert Front(before + [s.queue[0]]) == before;
        assert Handled(states, events) == before + [s.queue[0]];
      } else {
        CountElsewhere(s, e);
        assert before + [] == before;
      }
    }
  }

  /** A watchdog shuts the peer down exactly when more than two are unanswered; it always sends a request of its own. */
  lemma TickShutsDownIff(states: seq<Peer>, events: seq<Event>, e: Event)
    requires IsRun(states, events) && Enabled(Last(states), e) && e.Turn? && Last(states).queue[0].Watchdog?
    ensures var s, t := Last(states), Step(Last(states), e);
      var unanswered := Unanswered(Handled(states, events));
      && t.status == (if unanswered > 2 then StatusTerminating else s.status)
      && t.queue == s.queue[1..] + (if unanswered > 2 then [PeerSetDown] else []) +
                    [Egress(Message(true, 0, DeviceWatchdog, e.newHop, "", true), None, false)]
  {
    CountsUnanswered(states, events);
    var left := Last(states).queue[1..];
    assert left + [] == left;
  }

  // ----- A peer that answers

  /** Between any two watchdogs there is a good answer. */
  ghost predicate AnsweredBetween(ms: seq<Msg>) {
    forall i, j :: 0 <= i < j < |ms| && ms[i].Watchdog? && ms[j].Watchdog? ==>
      exists k :: i < k < j && IsGoodAnswer(ms[k])
  }

  /** Since this watchdog no good answer came. */
  ghost predicate Waits(ms: seq<Msg>, i: int) {
    0 <= i < |ms| && ms[i].Watchdog? && forall k :: i < k < |ms| ==> !IsGoodAnswer(ms[k])
  }

  lemma {:induction false} AnsweredLeavesOne(ms: seq<Msg>)
    requires AnsweredBetween(ms)
    ensures Unanswered(ms) <= 1 && (Unanswered(ms) == 1 ==> exists i :: Waits(ms, i))
    decreases |ms|
  {
    if ms != [] {
      var front, m := Front(ms), Last(ms);
      assert AnsweredBetween(front) by {
        forall i, j | 0 <= i < j < |front| && front[i].Watchdog? && front[j].Watchdog?
          ensures exists k :: i < k < j && IsGoodAnswer(front[k])
        {
          assert ms[i] == front[i] && ms[j] == front[j];
          var k :| i < k < j && IsGoodAnswer(ms[k]);
          assert IsGoodAnswer(front[k]);
        }
      }
      AnsweredLeavesOne(front);
      if m.Watchdog? {
        FrontIsAnswered(ms);
        assert Waits(ms, |front|);
      } else if Unanswered(ms) == 1 {
        var i :| Waits(front, i);
        assert Waits(ms, i);
      }
    }
  }

  lemma AnswerCame(ms: seq<Msg>, i: nat)
    requires AnsweredBetween(ms) && i < |ms| - 1 && ms[i].Watchdog? && Last(ms).Watchdog?
    ensures !Waits(Front(ms), i)
  {
    var k :| i < k < |ms| - 1 && IsGoodAnswer(ms[k]);
    assert Front(ms)[k] == ms[k];
  }

  /** Where the next watchdog is handled nothing is unanswered. */
  lemma FrontIsAnswered(ms: seq<Msg>)
    requires ms != [] && AnsweredBetween(ms) && Last(ms).Watchdog?
    requires Unanswered(Front(ms)) == 1 ==> exists i :: Waits(Front(ms), i)
    requires Unanswered(Front(ms)) <= 1
    ensures Unanswered(Front(ms)) == 0
  {
    if Unanswered(Front(ms)) == 1 {
      var i :| Waits(Front(ms), i);
      AnswerCame(ms, i);
    }
  }

  lemma PrefixIsAnswered(ms: seq<Msg>, more: seq<Msg>)
    requires AnsweredBetween(ms + more)
    ensures AnsweredBetween(ms)
  {
    var all := ms + more;
    forall i, j | 0 <= i < j < |ms| && ms[i].Watchdog? && ms[j].Watchdog?
      ensures exists k :: i < k < j && IsGoodAnswer(ms[k])
    {
      assert all[i] == ms[i] && all[j] == ms[j];
      var k :| i < k < j && IsGoodAnswer(all[k]);
      assert IsGoodAnswer(ms[k]);
    }
  }

  lemma {:induction false} HandledBefore(states: seq<Peer>, events: seq<Event>, i: nat)
    requires |states| == |events| + 1 && i < |states|
    ensures Handled(states[..i + 1], events[..i]) <= Handled(states, events)
    decreases |events|
  {
    if i == |events| {
      assert states[..i + 1] == states && events[..i] == events;
    } else {
      HandledBefore(Front(states), Front(events), i);
      assert Front(states)[..i + 1] == states[..i + 1] && Front(events)[..i] == events[..i];
    }
  }

  lemma HandledNext(states: seq<Peer>, events: seq<Event>, i: nat)
    requires |states| == |events| + 1 && i < |events| && events[i].Turn? && states[i].queue != []
    ensures Handled(states[..i + 1], events[..i]) + [states[i].queue[0]] <= Handled(states, events)
  {
    HandledBefore(states, events, i + 1);
    var before, done := states[..i + 2], events[..i + 1];
    assert Front(before) == states[..i + 1] && Front(done) == events[..i] && Last(done) == events[i];
    assert before[i] == states[i];
  }

  /** A watchdog all of whose predecessors were answered leaves the peer's status alone. */
  lemma AnsweredTick(states: seq<Peer>, events: seq<Event>, e: Event, ms: seq<Msg>)
    requires IsRun(states, events) && ms == Handled(states, events)
    requires Enabled(Last(states), e) && e.Turn? && Last(states).queue[0].Watchdog?
    requires AnsweredBetween(ms + [Last(states).queue[0]])
    ensures Step(Last(states), e).status == Last(states).status
  {
    var m := Last(states).queue[0];
    PrefixIsAnswered(ms, [m]);
    AnsweredLeavesOne(ms);
    assert Front(ms + [m]) == ms && Last(ms + [m]) == m;
    FrontIsAnswered(ms + [m]);
    TickShutsDownIff(states, events, e);
  }

  /** A peer that answers each watchdog before the next one is handled is never shut down by a watchdog. */
  lemma AnsweringPeerStaysUp(states: seq<Peer>, events: seq<Event>, i: nat)
    requires IsRun(states, events) && AnsweredBetween(Handled(states, events))
    requires i < |events| && events[i].Turn? && states[i].queue != [] && states[i].queue[0].Watchdog?
    ensures states[i + 1].status == states[i].status
  {
    var before, done := states[..i + 1], events[..i];
    Runs.Prefix(Starts, Leads, states, events, i);
    NextInRun(states, events, i);
    HandledNext(states, events, i);
    var all, ms := Handled(states, events), Handled(before, done) + [states[i].queue[0]];
    assert all == ms + all[|ms|..];
    PrefixIsAnswered(ms, all[|ms|..]);
    assert Last(before) == states[i];
    AnsweredTick(before, done, events[i], Handled(before, done));
  }

  /** Every tick on an engaged peer queues a watchdog; before that a tick gives the connection up. */
  lemma TickQueues(s: Peer)
    requires s.phase.InUse? && Enabled(s, Ticks) && 1 <= s.status
    ensures Step(s, Ticks).queue == s.queue +
            (if s.status == 3 then [Watchdog] else if s.status == 1 || s.status == 2 then [PeerSetDown] else [])
    ensures Step(s, Ticks).status == s.status
  {
    assert s.queue + [] == s.queue;
  }
}
