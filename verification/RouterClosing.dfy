/**
 How often the Diameter router closes its done channel, over whole runs: once is right, a second time ends the process.
 */
module RouterClosing {
  import opened Common
  import Runs
  import opened PeersTable

  /** What can be seen before an event about its closing the channel. */
  ghost predicate Ends(s: Router, e: Event) {
    match e
    case SetsDown => TablePeers(s.table) == {}
    case Downs(p, configHost, conf) =>
      s.terminated && TablePeers(if configHost in conf then s.table else s.table - {""}) <= {p}
    case Accepts(_) => false
    case Updates(_, _) => false
    case Ups(_, _) => false
  }

  lemma VacatedPeers(table: map<string, Entry>, p: nat)
    ensures TablePeers(Vacated(table, p)) == TablePeers(table) - {p}
  {
    var v := Vacated(table, p);
    forall q | q in TablePeers(table) && q != p ensures q in TablePeers(v) {
      var h :| h in table && table[h].peer == Some(q);
      assert h in v && v[h].peer == Some(q);
    }
  }

  lemma DownEndsIff(s: Router, p: nat, configHost: string, conf: Conf)
    requires s.terminated
    ensures var left := TablePeers(if configHost in conf then s.table else s.table - {""});
      var t := PeerDown(s, p, configHost, conf);
      t.closes == (if left <= {p} then s.closes + 1 else s.closes) && TablePeers(t.table) == left - {p}
  {
    var kept := if configHost in conf then s.table else s.table - {""};
    VacatedPeers(kept, p);
    assert Vacated(s.table, p) - {""} == Vacated(s.table - {""}, p);
  }

  /** An event closes the channel exactly when it ends the router's wait, and then the router is idle. */
  lemma ClosesIff(s: Router, e: Event)
    ensures Step(s, e).closes == (if Ends(s, e) then s.closes + 1 else s.closes)
    ensures Ends(s, e) ==> Idle(Step(s, e))
  {
    match e
    case Accepts(_) =>
    case Updates(_, _) =>
    case Ups(_, _) =>
    case Downs(p, configHost, conf) => if s.terminated { DownEndsIff(s, p, configHost, conf); } else {}
    case SetsDown =>
  }

  /** Shut down, and with no peer in the table. */
  ghost predicate Idle(s: Router) {
    s.terminated && TablePeers(s.table) == {}
  }

  ghost predicate AllDown(s: Router) {
    s.known <= s.downs
  }

  // ----- Counting

  lemma PrefixIsRun(states: seq<Router>, events: seq<Event>, i: nat)
    requires IsRun(states, events) && i < |states|
    ensures IsRun(states[..i + 1], events[..i]) && Last(states[..i + 1]) == states[i]
  {
    Runs.Prefix(Starts, Leads, states, events, i);
  }

  lemma StartsNew(states: seq<Router>, events: seq<Event>)
    requires IsRun(states, events)
    ensures states[0] == New()
  {
    PrefixIsRun(states, events, 0);
  }

  lemma NextInRun(states: seq<Router>, events: seq<Event>, i: nat)
    requires IsRun(states, events) && i < |events|
    ensures Leads(states[i], events[i], states[i + 1])
  {
    Runs.Next(Starts, Leads, states, events, i);
  }

  /** Nothing that was known, down, shut down or closed is so no longer. */
  lemma {:induction false} RunGrows(states: seq<Router>, events: seq<Event>, i: nat, j: nat)
    requires IsRun(states, events) && i <= j < |states|
    ensures states[i].known <= states[j].known && states[i].downs <= states[j].downs
    ensures (states[i].terminated ==> states[j].terminated) && states[i].closes <= states[j].closes
    decreases j
  {
    if i < j {
      RunGrows(states, events, i, j - 1);
      NextInRun(states, events, j - 1);
      StepGrows(states[j - 1], events[j - 1]);
    }
  }

  lemma StepGrows(s: Router, e: Event)
    ensures var t := Step(s, e);
      s.known <= t.known && s.downs <= t.downs && (s.terminated ==> t.terminated) && s.closes <= t.closes
    ensures !e.Downs? ==> Step(s, e).downs == s.downs
    ensures !e.SetsDown? ==> Step(s, e).terminated == s.terminated
    ensures e.Downs? ==> Step(s, e).downs == s.downs + {e.peer}
  {
    match e
    case Accepts(_) =>
    case Updates(_, _) =>
    case Ups(p, host) => if Wins(s, p, host) {} else {}
    case Downs(_, _, _) => if s.terminated {} else {}
    case SetsDown =>
  }

  ghost predicate EndsTwice(states: seq<Router>, events: seq<Event>)
    requires |states| == |events| + 1
  {
    exists i, j :: 0 <= i < j < |events| && Ends(states[i], events[i]) && Ends(states[j], events[j])
  }

  lemma {:induction false} ClosedBySomeEnd(states: seq<Router>, events: seq<Event>, j: nat) returns (i: nat)
    requires IsRun(states, events) && j < |states| && states[j].closes > 0
    ensures i < j && Ends(states[i], events[i])
    decreases j
  {
    StartsNew(states, events);
    NextInRun(states, events, j - 1);
    ClosesIff(states[j - 1], events[j - 1]);
    if Ends(states[j - 1], events[j - 1]) {
      i := j - 1;
    } else {
      i := ClosedBySomeEnd(states, events, j - 1);
    }
  }

  lemma {:induction false} ClosedMoreThanOnce(states: seq<Router>, events: seq<Event>, j: nat)
    requires IsRun(states, events) && j < |states| && states[j].closes > 1
    ensures EndsTwice(states, events)
    decreases j
  {
    StartsNew(states, events);
    NextInRun(states, events, j - 1);
    ClosesIff(states[j - 1], events[j - 1]);
    if Ends(states[j - 1], events[j - 1]) {
      var i := ClosedBySomeEnd(states, events, j - 1);
    } else {
      ClosedMoreThanOnce(states, events, j - 1);
    }
  }

  /** Over a run the channel is closed at most once exactly when no event ends the wait after another one did. */
  lemma ClosedAtMostOnceIff(states: seq<Router>, events: seq<Event>)
    requires IsRun(states, events)
    ensures Last(states).closes <= 1 <==> !EndsTwice(states, events)
  {
    if Last(states).closes > 1 {
      ClosedMoreThanOnce(states, events, |events|);
    }
    if i, j :| 0 <= i < j < |events| && Ends(states[i], events[i]) && Ends(states[j], events[j]) {
      NextInRun(states, events, i);
      ClosesIff(states[i], events[i]);
      NextInRun(states, events, j);
      ClosesIff(states[j], events[j]);
      RunGrows(states, events, i + 1, j);
      RunGrows(states, events, j + 1, |events|);
    }
  }

  // ----- Runs of peers that end

  /** Each peer reports down once, as it does when its event loop terminates. */
  predicate DownOnce(events: seq<Event>) {
    forall i, j :: 0 <= i < j < |events| && events[i].Downs? && events[j].Downs? ==> events[i].peer != events[j].peer
  }

  predicate ShutDownOnce(events: seq<Event>) {
    forall i, j :: 0 <= i < j < |events| ==> !(events[i].SetsDown? && events[j].SetsDown?)
  }

  lemma {:induction false} DownWasReported(states: seq<Router>, events: seq<Event>, j: nat, p: nat) returns (i: nat)
    requires IsRun(states, events) && j < |states| && p in states[j].downs
    ensures i < j && events[i].Downs? && events[i].peer == p
    decreases j
  {
    StartsNew(states, events);
    NextInRun(states, events, j - 1);
    StepGrows(states[j - 1], events[j - 1]);
    if p in states[j - 1].downs {
      i := DownWasReported(states, events, j - 1, p);
    } else {
      i := j - 1;
    }
  }

  lemma {:induction false} ShutDownBefore(states: seq<Router>, events: seq<Event>, j: nat) returns (i: nat)
    requires IsRun(states, events) && j < |states| && states[j].terminated
    ensures i < j && events[i].SetsDown?
    decreases j
  {
    StartsNew(states, events);
    NextInRun(states, events, j - 1);
    StepGrows(states[j - 1], events[j - 1]);
    if events[j - 1].SetsDown? {
      i := j - 1;
    } else {
      i := ShutDownBefore(states, events, j - 1);
    }
  }

  /** When the table of a router shut down is empty, no peer is left. */
  ghost predicate NoneLeftWhenIdle(states: seq<Router>) {
    forall i :: 0 <= i < |states| && Idle(states[i]) ==> AllDown(states[i])
  }

  /** Once an idle router has no peer left, nothing happens any more but connections that are accepted. */
  lemma AfterTheLastPeer(states: seq<Router>, events: seq<Event>, i: nat)
    requires IsRun(states, events) && NoLateUps(states, events) && DownOnce(events) && ShutDownOnce(events)
    requires i < |events| && Idle(states[i]) && AllDown(states[i])
    ensures events[i].Accepts? && Idle(states[i + 1]) && !AllDown(states[i + 1])
  {
    NextInRun(states, events, i);
    PrefixIsRun(states, events, i);
    RunKeeps(states[..i + 1], events[..i]);
    match events[i]
    case Accepts(p) => assert p !in states[i].downs && p in states[i + 1].known;
    case Updates(_, _) =>
    case Ups(_, _) =>
    case Downs(p, _, _) =>
      var k := DownWasReported(states, events, i, p);
    case SetsDown =>
      var k := ShutDownBefore(states, events, i);
  }

  lemma EndIsTheLastEvent(states: seq<Router>, events: seq<Event>, i: nat)
    requires IsRun(states, events) && NoLateUps(states, events) && DownOnce(events) && ShutDownOnce(events)
    requires NoneLeftWhenIdle(states) && i < |events| && Ends(states[i], events[i])
    ensures i + 1 == |events|
  {
    NextInRun(states, events, i);
    ClosesIff(states[i], events[i]);
    if i + 1 < |events| {
      AfterTheLastPeer(states, events, i + 1);
    }
  }

  /**
   A peer left at some point of a run at whose end all are down reports down later, and the last report closes the
   channel.
   */
  lemma {:induction false} TheLastReportCloses(states: seq<Router>, events: seq<Event>, i: nat, p: nat)
    requires IsRun(states, events) && NoLateUps(states, events) && AllDown(Last(states))
    requires i < |states| && states[i].terminated && p in states[i].known && p !in states[i].downs
    ensures Last(states).closes > states[i].closes
    decreases |events|
  {
    RunGrows(states, events, i, |events|);
    assert i < |events|;
    var before, done, e := Front(states), Front(events), Last(events);
    NextInRun(states, events, |done|);
    StepGrows(states[|done|], e);
    RunGrows(states, events, i, |done|);
    if e.Downs? {
      NoEntryHoldsADownPeer(states, events);
      RunKeeps(states, events);
      assert TablePeers(Last(states).table) == {};
      ClosesWhenEmpty(states[|done|], e);
    } else {
      assert before[i] == states[i] && Last(before) == states[|done|];
      assert NoLateUps(before, done) by {
        assert forall k :: 0 <= k < |done| ==> before[k] == states[k] && done[k] == events[k];
      }
      TheLastReportCloses(before, done, i, p);
    }
  }

  lemma ClosesWhenEmpty(s: Router, e: Event)
    requires e.Downs? && s.terminated && TablePeers(Step(s, e).table) == {}
    ensures Step(s, e).closes == s.closes + 1
  {
    DownEndsIff(s, e.peer, e.configHost, e.conf);
    ClosesIff(s, e);
  }

  /**
   In a run at whose end every peer is down, the channel was closed at most once exactly when no peer was left
   whenever the table was empty after the shutdown: a connection that never got an entry, or lost it, is one too many.
   */
  lemma ClosedOnceIffNoneLeft(states: seq<Router>, events: seq<Event>)
    requires IsRun(states, events) && NoLateUps(states, events) && DownOnce(events) && ShutDownOnce(events)
    requires AllDown(Last(states))
    ensures Last(states).closes <= 1 <==> NoneLeftWhenIdle(states)
  {
    ClosedAtMostOnceIff(states, events);
    if NoneLeftWhenIdle(states) {
      if i, j :| 0 <= i < j < |events| && Ends(states[i], events[i]) && Ends(states[j], events[j]) {
        EndIsTheLastEvent(states, events, i);
      }
    } else {
      var i :| 0 <= i < |states| && Idle(states[i]) && !AllDown(states[i]);
      var p :| p in states[i].known && p !in states[i].downs;
      PrefixIsRun(states, events, i);
      RunKeeps(states[..i + 1], events[..i]);
      TheLastReportCloses(states, events, i, p);
    }
  }

  // ----- A shutdown that is orderly

  /** Every peer there is has an entry, or is down already. */
  ghost predicate NoStrays(s: Router) {
    s.known <= s.downs + TablePeers(s.table)
  }

  /** No connection is accepted any more, and who reports up has the entry of the host already. */
  ghost predicate Quiet(s: Router, e: Event) {
    && !e.Accepts?
    && (e.Ups? ==> e.host in s.table && s.table[e.host].peer == Some(e.peer))
  }

  /** The router is shut down once, at a point where every peer has an entry, and things are quiet from then on. */
  ghost predicate Orderly(states: seq<Router>, events: seq<Event>)
    requires |states| == |events| + 1
  {
    && ShutDownOnce(events)
    && (forall i :: 0 <= i < |events| && events[i].SetsDown? ==> NoStrays(states[i]))
    && (forall i :: 0 <= i < |events| && states[i].terminated ==> Quiet(states[i], events[i]))
  }

  lemma StepKeepsNoStrays(s: Router, e: Event)
    requires WellFormed(s) && Enabled(s, e) && NoStrays(s) && s.terminated && Quiet(s, e)
    ensures NoStrays(Step(s, e))
  {
    match e
    case Updates(_, _) =>
    case Ups(p, host) =>
      assert s.table[host := Entry(Some(p), true)].Keys == s.table.Keys;
      SameWhenUp(s.table, host, p);
    case Downs(p, configHost, conf) =>
      assert s.table - {""} == s.table;
      DownEndsIff(s, p, configHost, conf);
    case SetsDown =>
    case Accepts(_) =>
  }

  lemma SameWhenUp(table: map<string, Entry>, host: string, p: nat)
    requires host in table && table[host].peer == Some(p)
    ensures TablePeers(table) <= TablePeers(table[host := Entry(Some(p), true)])
  {
    var after := table[host := Entry(Some(p), true)];
    forall q | q in TablePeers(table) ensures q in TablePeers(after) {
      var h :| h in table && table[h].peer == Some(q);
      assert h in after && after[h].peer == Some(q);
    }
  }

  lemma {:induction false} OrderlyHasNoStrays(states: seq<Router>, events: seq<Event>, j: nat)
    requires IsRun(states, events) && Orderly(states, events) && j < |states| && states[j].terminated
    ensures NoStrays(states[j])
    decreases j
  {
    StartsNew(states, events);
    NextInRun(states, events, j - 1);
    StepGrows(states[j - 1], events[j - 1]);
    if events[j - 1].SetsDown? {
      assert NoStrays(states[j - 1]);
    } else {
      OrderlyHasNoStrays(states, events, j - 1);
      PrefixIsRun(states, events, j - 1);
      RunKeeps(states[..j], events[..j - 1]);
      StepKeepsNoStrays(states[j - 1], events[j - 1]);
    }
  }

  /** After an orderly shutdown the channel is closed once, when the last peer is down. */
  lemma OrderlyClosesOnce(states: seq<Router>, events: seq<Event>)
    requires IsRun(states, events) && NoLateUps(states, events) && DownOnce(events) && Orderly(states, events)
    requires Last(states).terminated
    ensures Last(states).closes == if AllDown(Last(states)) then 1 else 0
  {
    forall i | 0 <= i < |states| && Idle(states[i]) ensures AllDown(states[i]) {
      OrderlyHasNoStrays(states, events, i);
    }
    ClosedAtMostOnceIff(states, events);
    if i, j :| 0 <= i < j < |events| && Ends(states[i], events[i]) && Ends(states[j], events[j]) {
      EndIsTheLastEvent(states, events, i);
    }
    RunKeeps(states, events);
    NoEntryHoldsADownPeer(states, events);
    if Last(states).closes > 0 {
      var i := ClosedBySomeEnd(states, events, |events|);
      EndIsTheLastEvent(states, events, i);
      NextInRun(states, events, i);
      ClosesIff(states[i], events[i]);
    }
  }

  /**
   A connection accepted but never engaged that goes down after an idle router was shut down closes the channel once
   more.
   */
  lemma ClosesTwice() returns (states: seq<Router>, events: seq<Event>)
    ensures IsRun(states, events) && Last(states).closes == 2
  {
    var s0 := New();
    var s1 := s0.(known := {0});
    RunGoesOn([s0], [], Accepts(0));
    states, events := [s0] + [s1], [] + [Accepts(0)];
    RunGoesOn(states, events, SetsDown);
    var s2 := s1.(terminated := true, closes := 1);
    assert TablePeers(map[]) == {} && s1.setDowns + {} == s1.setDowns;
    assert Step(s1, SetsDown) == s2;
    states, events := states + [s2], events + [SetsDown];
    RunGoesOn(states, events, Downs(0, "", map[]));
    assert Vacated(s2.table, 0) == s2.table && s2.table - {""} == s2.table;
    states, events := states + [Step(s2, Downs(0, "", map[]))], events + [Downs(0, "", map[])];
  }
}
