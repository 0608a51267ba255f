/**
 What the peers of a router report, and what the router makes of it: the hypotheses about reports follow from the
 peers.
 */
module RouterPeers {
  import opened Common
  import Peer = PeerSpec
  import PeerStatus
  import opened PeersTable
  import opened RouterClosing

  /** What a peer reports, in order: the messages it writes are not for the router. */
  function Reported(outputs: seq<Peer.Output>): seq<Peer.Output> {
    if outputs == [] then []
    else Reported(Front(outputs)) + if Last(outputs).Wrote? then [] else [Last(outputs)]
  }

  function ReportOf(e: Event, p: nat): seq<Peer.Output> {
    match e
    case Ups(q, host) => if p == q then [Peer.Up(host)] else []
    case Downs(q, _, _) => if p == q then [Peer.Down] else []
    case Accepts(_) => []
    case Updates(_, _) => []
    case SetsDown => []
  }

  /** What the router received of a peer. */
  function Received(events: seq<Event>, p: nat): seq<Peer.Output> {
    if events == [] then [] else Received(Front(events), p) + ReportOf(Last(events), p)
  }

  lemma {:induction false} ReportedDownIsLast(outputs: seq<Peer.Output>)
    requires PeerStatus.DownIsLast(outputs)
    ensures PeerStatus.DownIsLast(Reported(outputs)) && (Peer.Down in Reported(outputs) <==> Peer.Down in outputs)
  {
    if outputs != [] {
      ReportedDownIsLast(Front(outputs));
      assert outputs == Front(outputs) + [Last(outputs)];
      if !Last(outputs).Wrote? {
        assert Front(Reported(outputs)) == Reported(Front(outputs));
      } else {
        assert Reported(outputs) == Reported(Front(outputs));
      }
    }
  }

  lemma {:induction false} PrefixDownIsLast(before: seq<Peer.Output>, after: seq<Peer.Output>)
    requires before <= after && PeerStatus.DownIsLast(after)
    ensures PeerStatus.DownIsLast(before)
    decreases |after|
  {
    if |before| < |after| {
      PrefixDownIsLast(before, Front(after));
    } else {
      assert before == after;
    }
  }

  lemma {:induction false} DownsAreReceived(states: seq<Router>, events: seq<Event>, p: nat)
    requires IsRun(states, events)
    ensures p in Last(states).downs <==> Peer.Down in Received(events, p)
  {
    if events != [] {
      DownsAreReceived(Front(states), Front(events), p);
      StepGrows(Last(Front(states)), Last(events));
    }
  }

  /** Every peer is heard of last when it reports down. */
  ghost predicate FinalReports(events: seq<Event>) {
    forall p: nat :: PeerStatus.DownIsLast(Received(events, p))
  }

  lemma FinalReportsBefore(events: seq<Event>)
    requires events != [] && FinalReports(events)
    ensures FinalReports(Front(events))
  {
    forall p: nat ensures PeerStatus.DownIsLast(Received(Front(events), p)) {
      PrefixDownIsLast(Received(Front(events), p), Received(events, p));
    }
  }

  /** Then no peer comes up late, and each reports down once. */
  lemma {:induction false} FinalReportsAreInOrder(states: seq<Router>, events: seq<Event>)
    requires IsRun(states, events) && FinalReports(events)
    ensures NoLateUps(states, events) && DownOnce(events)
  {
    if events != [] {
      var before, done, e := Front(states), Front(events), Last(events);
      FinalReportsBefore(events);
      FinalReportsAreInOrder(before, done);
      assert forall i :: 0 <= i < |done| ==> before[i] == states[i] && done[i] == events[i];
      assert Last(before) == states[|done|];
      if e.Ups? || e.Downs? {
        LastReportIsInOrder(before, done, events, e.peer);
      }
    }
  }

  lemma LastReportIsInOrder(before: seq<Router>, done: seq<Event>, events: seq<Event>, p: nat)
    requires IsRun(before, done) && events != [] && done == Front(events) && FinalReports(events)
    requires (Last(events).Ups? || Last(events).Downs?) && Last(events).peer == p
    ensures p !in Last(before).downs
    ensures forall i :: 0 <= i < |done| && done[i].Downs? ==> done[i].peer != p
  {
    assert PeerStatus.DownIsLast(Received(events, p));
    assert Front(Received(events, p)) == Received(done, p);
    DownsAreReceived(before, done, p);
    forall i | 0 <= i < |done| && done[i].Downs? ensures done[i].peer != p {
      NextInRun(before, done, i);
      StepGrows(before[i], done[i]);
      RunGrows(before, done, i + 1, |done|);
    }
  }

  /** A run of a peer in which no late connection or relapse after it reported down led to another report. */
  ghost predicate IsFinalPeer(states: seq<Peer.Peer>, events: seq<Peer.Event>) {
    Peer.IsRun(states, events) && |states| == |events| + 1 && PeerStatus.NeverHeardAfterDown(states, events)
  }

  /** The router received of a peer what such a run reports, or the first part of it. */
  ghost predicate FromFinalPeer(events: seq<Event>, p: nat) {
    exists peerStates, peerEvents ::
        IsFinalPeer(peerStates, peerEvents) && Received(events, p) <= Reported(Last(peerStates).outputs)
  }

  /**
   A router whose peers are all such peers: no entry ever holds a peer that is down, and after an orderly
   shutdown the done channel is closed once, when the last peer is down.
   */
  lemma FinalPeersEndWell(states: seq<Router>, events: seq<Event>)
    requires IsRun(states, events)
    requires forall p: nat :: FromFinalPeer(events, p)
    ensures NoGhosts(Last(states))
    ensures Orderly(states, events) && Last(states).terminated ==>
              Last(states).closes == if AllDown(Last(states)) then 1 else 0
  {
    forall p: nat ensures PeerStatus.DownIsLast(Received(events, p)) {
      assert FromFinalPeer(events, p);
      var peerStates, peerEvents :| IsFinalPeer(peerStates, peerEvents)
          && Received(events, p) <= Reported(Last(peerStates).outputs);
      PeerStatus.DownIsLastIff(peerStates, peerEvents);
      ReportedDownIsLast(Last(peerStates).outputs);
      PrefixDownIsLast(Received(events, p), Reported(Last(peerStates).outputs));
    }
    FinalReportsAreInOrder(states, events);
    NoEntryHoldsADownPeer(states, events);
    if Orderly(states, events) && Last(states).terminated {
      OrderlyClosesOnce(states, events);
    }
  }
}
