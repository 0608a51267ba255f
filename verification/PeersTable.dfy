/** The peers table of the Diameter router: which peer stands for a host when several report up, down or not at all. */
module PeersTable {
  import opened Common
  import Runs

  /** A peer is known by a number; the entry of a passive host has none until one reports up. */
  datatype Entry = Entry(peer: Option<nat>, isEngaged: bool)

  /** For each configured host, whether connections to it are opened from here. */
  type Conf = map<string, bool>

  /**
   `known` are the peers there ever were, `upAs` the host each reported up for, `downs` those that reported down,
   `setDowns` those told to go down, and `closes` how often the done channel was closed.
   */
  datatype Router = Router(
    table: map<string, Entry>,
    terminated: bool,
    known: set<nat>,
    upAs: map<nat, string>,
    downs: set<nat>,
    setDowns: set<nat>,
    closes: nat)

  function New(): Router {
    Router(map[], false, {}, map[], {}, {}, 0)
  }

  function SetDownOf(s: Router, p: nat): Router {
    s.(setDowns := s.setDowns + {p})
  }

  function TablePeers(table: map<string, Entry>): set<nat> {
    set h | h in table && table[h].peer.Some? :: table[h].peer.value
  }

  /** The new entry of a host whose peer reported up. */
  predicate Wins(s: Router, p: nat, host: string) {
    host in s.table && (s.table[host].peer == Some(p) || !(s.table[host].peer.Some? && s.table[host].isEngaged))
  }

  function PeerUp(s: Router, p: nat, host: string): Router {
    var r := s.(upAs := s.upAs[p := host]);
    if host !in s.table then SetDownOf(r, p)
    else
      var entry := s.table[host];
      var t :=
        if Wins(s, p, host) then
          var told := if entry.peer.Some? && entry.peer != Some(p) then SetDownOf(r, entry.peer.value) else r;
          told.(table := s.table[host := Entry(Some(p), true)])
        else SetDownOf(r, p);
      if s.terminated then SetDownOf(t, p) else t
  }

  /** The entries without a peer that is gone. */
  function Vacated(table: map<string, Entry>, p: nat): map<string, Entry> {
    map h | h in table :: if table[h].peer == Some(p) then Entry(None, false) else table[h]
  }

  function CloseIfEmpty(s: Router): Router {
    if TablePeers(s.table) == {} then s.(closes := s.closes + 1) else s
  }

  /** A peer whose host is not configured takes the entry of the empty host with it, not its own. */
  function PeerDown(s: Router, p: nat, configHost: string, conf: Conf): Router {
    var vacated := Vacated(s.table, p);
    var t := s.(downs := s.downs + {p}, table := if configHost in conf then vacated else vacated - {""});
    if s.terminated then CloseIfEmpty(t) else t
  }

  function SetDown(s: Router): Router {
    CloseIfEmpty(s.(terminated := true, setDowns := s.setDowns + TablePeers(s.table)))
  }

  /** The configured hosts that need a new peer. */
  function NeedsPeer(table: map<string, Entry>, conf: Conf): set<string> {
    set h | h in conf && conf[h] && (h !in table || table[h].peer.None?)
  }

  /** What is left of the table: the configured hosts and those whose peer is not down yet. */
  function Kept(table: map<string, Entry>, conf: Conf): map<string, Entry> {
    map h | h in table && (h in conf || table[h].peer.Some?) :: table[h]
  }

  function UnconfiguredPeers(table: map<string, Entry>, conf: Conf): set<nat> {
    set h | h in table && h !in conf && table[h].peer.Some? :: table[h].peer.value
  }

  /** An entry for each configured host, with its new peer if it has one. */
  function Filled(table: map<string, Entry>, conf: Conf, spawned: map<string, nat>): map<string, Entry> {
    map h | h in table.Keys + conf.Keys ::
      if h in spawned then Entry(Some(spawned[h]), false) else if h in table then table[h] else Entry(None, false)
  }

  function UpdatePeersTable(s: Router, conf: Conf, spawned: map<string, nat>): Router {
    s.(setDowns := s.setDowns + UnconfiguredPeers(s.table, conf),
       table := Filled(Kept(s.table, conf), conf, spawned),
       known := s.known + spawned.Values)
  }

  // ----- Runs

  /** `spawned` are the peers made for hosts that need one. */
  datatype Event =
    | Accepts(peer: nat)
    | Updates(conf: Conf, spawned: map<string, nat>)
    | Ups(peer: nat, host: string)
    | Downs(peer: nat, configHost: string, conf: Conf)
    | SetsDown

  ghost predicate Injective(m: map<string, nat>) {
    forall g, h :: g in m && h in m && m[g] == m[h] ==> g == h
  }

  /** New peers are new, and configured hosts have a name. */
  ghost predicate Enabled(s: Router, e: Event) {
    match e
    case Accepts(p) => p !in s.known
    case Updates(conf, spawned) =>
      && !s.terminated && "" !in conf && spawned.Keys == NeedsPeer(s.table, conf)
      && Injective(spawned) && spawned.Values !! s.known
    case Ups(p, _) => p in s.known
    case Downs(p, _, conf) => p in s.known && "" !in conf
    case SetsDown => true
  }

  function Step(s: Router, e: Event): Router {
    match e
    case Accepts(p) => s.(known := s.known + {p})
    case Updates(conf, spawned) => UpdatePeersTable(s, conf, spawned)
    case Ups(p, host) => PeerUp(s, p, host)
    case Downs(p, configHost, conf) => PeerDown(s, p, configHost, conf)
    case SetsDown => SetDown(s)
  }

  ghost predicate Starts(s: Router) {
    s == New()
  }

  ghost predicate Leads(s: Router, e: Event, t: Router) {
    Enabled(s, e) && t == Step(s, e)
  }

  ghost predicate IsRun(states: seq<Router>, events: seq<Event>) {
    Runs.IsRun(Starts, Leads, states, events)
  }

  lemma RunGoesOn(states: seq<Router>, events: seq<Event>, e: Event)
    requires IsRun(states, events) && Enabled(Last(states), e)
    ensures IsRun(states + [Step(Last(states), e)], events + [e])
  {
    Runs.GoesOn(Starts, Leads, states, events, e, Step(Last(states), e));
  }

  // ----- What every run keeps

  /** A peer that is up stands for its host, engaged, or was told to go down. */
  ghost predicate Resolved(s: Router) {
    forall p :: p in s.upAs && p !in s.downs && p !in s.setDowns ==>
      s.upAs[p] in s.table && s.table[s.upAs[p]] == Entry(Some(p), true)
  }

  /** An engaged entry has a peer, peers of the table are known, and no host is without a name. */
  ghost predicate WellFormed(s: Router) {
    && (forall h :: h in s.table && s.table[h].isEngaged ==> s.table[h].peer.Some?)
    && TablePeers(s.table) <= s.known && s.upAs.Keys <= s.known && s.downs <= s.known && s.setDowns <= s.known
    && "" !in s.table
  }

  /** Once terminated every peer of the table was told to go down, and as long as the router waits there is one. */
  ghost predicate Finishing(s: Router) {
    s.terminated ==> TablePeers(s.table) <= s.setDowns && (s.closes == 0 ==> TablePeers(s.table) != {})
  }

  lemma TablePeersOfUpdate(table: map<string, Entry>, h: string, entry: Entry)
    ensures TablePeers(table[h := entry]) <= TablePeers(table) + if entry.peer.Some? then {entry.peer.value} else {}
    ensures entry.peer.Some? ==> entry.peer.value in TablePeers(table[h := entry])
  {
    assert h in table[h := entry];
  }

  lemma UpKeeps(s: Router, p: nat, host: string)
    requires WellFormed(s) && Resolved(s) && Finishing(s) && p in s.known
    ensures var t := PeerUp(s, p, host); WellFormed(t) && Resolved(t) && Finishing(t)
  {
    var t := PeerUp(s, p, host);
    if host in s.table {
      TablePeersOfUpdate(s.table, host, Entry(Some(p), true));
      if Wins(s, p, host) {
        assert s.table[host].peer.Some? ==> s.table[host].peer.value in TablePeers(s.table);
        if s.table[host].peer.Some? && s.table[host].peer != Some(p) {} else {}
      } else {
      }
    }
  }

  lemma DownKeeps(s: Router, p: nat, configHost: string, conf: Conf)
    requires WellFormed(s) && Resolved(s) && Finishing(s) && p in s.known
    ensures var t := PeerDown(s, p, configHost, conf); WellFormed(t) && Resolved(t) && Finishing(t)
  {
    var vacated := Vacated(s.table, p);
    assert TablePeers(vacated) <= TablePeers(s.table);
    assert vacated - {""} == vacated;
    if s.terminated {} else {}
  }

  lemma UpdateKeeps(s: Router, conf: Conf, spawned: map<string, nat>)
    requires WellFormed(s) && Resolved(s) && Finishing(s) && Enabled(s, Updates(conf, spawned))
    ensures var t := UpdatePeersTable(s, conf, spawned); WellFormed(t) && Resolved(t) && Finishing(t)
  {
    var t := UpdatePeersTable(s, conf, spawned);
    forall p | p in TablePeers(t.table) ensures p in t.known {
      var h :| h in t.table && t.table[h].peer == Some(p);
      if h in spawned {
        assert p in spawned.Values;
      } else {
        assert p in TablePeers(s.table);
      }
    }
    assert UnconfiguredPeers(s.table, conf) <= TablePeers(s.table);
    forall p | p in t.upAs && p !in t.downs && p !in t.setDowns
      ensures t.upAs[p] in t.table && t.table[t.upAs[p]] == Entry(Some(p), true)
    {
      var h := s.upAs[p];
      assert h in s.table && s.table[h] == Entry(Some(p), true);
      assert h !in NeedsPeer(s.table, conf);
    }
  }

  lemma SetDownKeeps(s: Router)
    requires WellFormed(s) && Resolved(s) && Finishing(s)
    ensures var t := SetDown(s); WellFormed(t) && Resolved(t) && Finishing(t)
  {
    if TablePeers(s.table) == {} {} else {}
  }

  lemma StepKeeps(s: Router, e: Event)
    requires WellFormed(s) && Resolved(s) && Finishing(s) && Enabled(s, e)
    ensures var t := Step(s, e); WellFormed(t) && Resolved(t) && Finishing(t)
  {
    match e
    case Accepts(_) =>
    case Updates(conf, spawned) => UpdateKeeps(s, conf, spawned);
    case Ups(p, host) => UpKeeps(s, p, host);
    case Downs(p, configHost, conf) => DownKeeps(s, p, configHost, conf);
    case SetsDown => SetDownKeeps(s);
  }

  lemma {:induction false} RunKeeps(states: seq<Router>, events: seq<Event>)
    requires IsRun(states, events)
    ensures WellFormed(Last(states)) && Resolved(Last(states)) && Finishing(Last(states))
  {
    if events != [] {
      RunKeeps(Front(states), Front(events));
      StepKeeps(Last(Front(states)), Last(events));
    }
  }

  /** Every peer that reported up and not down is the engaged entry of its host, or was told to go down. */
  lemma EveryUpPeerIsResolved(states: seq<Router>, events: seq<Event>, p: nat)
    requires IsRun(states, events)
    requires var s := Last(states); p in s.upAs && p !in s.downs
    ensures var s := Last(states);
      p in s.setDowns || (s.upAs[p] in s.table && s.table[s.upAs[p]] == Entry(Some(p), true))
  {
    RunKeeps(states, events);
  }

  /** No two peers up for the same host are both left alone. */
  lemma OnePeerPerHost(states: seq<Router>, events: seq<Event>, p: nat, q: nat)
    requires IsRun(states, events)
    requires var s := Last(states);
      p in s.upAs && q in s.upAs && s.upAs[p] == s.upAs[q] && p !in s.downs && q !in s.downs
    ensures var s := Last(states); p == q || p in s.setDowns || q in s.setDowns
  {
    RunKeeps(states, events);
  }

  /** When the router is shut down, every peer that may still report down was told to, so the last one ends the wait. */
  lemma ShutdownReachesEveryPeer(states: seq<Router>, events: seq<Event>)
    requires IsRun(states, events) && Last(states).terminated
    ensures var s := Last(states);
      && TablePeers(s.table) <= s.setDowns
      && (forall p :: p in s.upAs && p !in s.downs ==> p in s.setDowns)
      && (s.closes == 0 ==> TablePeers(s.table) != {})
  {
    RunKeeps(states, events);
    var s := Last(states);
    forall p | p in s.upAs && p !in s.downs ensures p in s.setDowns || p in TablePeers(s.table) {
    }
  }

  // ----- Peers that went down

  /** No entry holds a peer that already reported down. */
  ghost predicate NoGhosts(s: Router) {
    TablePeers(s.table) !! s.downs
  }

  /** A peer reports up after down, and gets its entry. */
  predicate GhostEnters(s: Router, e: Event) {
    e.Ups? && e.peer in s.downs && Wins(s, e.peer, e.host)
  }

  /** A step puts a peer that is down into the table exactly if that peer reports up after down and gets its entry. */
  lemma NoGhostsIff(s: Router, e: Event)
    requires WellFormed(s) && NoGhosts(s) && Enabled(s, e)
    ensures NoGhosts(Step(s, e)) <==> !GhostEnters(s, e)
  {
    var t := Step(s, e);
    match e
    case Accepts(_) =>
    case Updates(conf, spawned) =>
      forall p | p in TablePeers(t.table) ensures p !in t.downs {
        var h :| h in t.table && t.table[h].peer == Some(p);
        if h in spawned {
          assert p in spawned.Values;
        } else {
          assert p in TablePeers(s.table);
        }
      }
    case Ups(p, host) =>
      if Wins(s, p, host) {
        TablePeersOfUpdate(s.table, host, Entry(Some(p), true));
        assert t.table == s.table[host := Entry(Some(p), true)] && t.downs == s.downs;
      } else {
        assert t.table == s.table && t.downs == s.downs;
      }
    case Downs(p, configHost, conf) =>
      assert TablePeers(t.table) <= TablePeers(s.table);
      assert p !in TablePeers(t.table);
    case SetsDown =>
  }

  ghost predicate NeverGhosts(states: seq<Router>) {
    forall i :: 0 <= i < |states| ==> NoGhosts(states[i])
  }

  lemma NoGhostsNext(states: seq<Router>, events: seq<Event>, i: nat)
    requires IsRun(states, events) && i < |events| && NoGhosts(states[i])
    ensures NoGhosts(states[i + 1]) <==> !GhostEnters(states[i], events[i])
  {
    Runs.Prefix(Starts, Leads, states, events, i);
    Runs.Next(Starts, Leads, states, events, i);
    RunKeeps(states[..i + 1], events[..i]);
    NoGhostsIff(states[i], events[i]);
  }

  lemma {:induction false} NoGhostEntered(states: seq<Router>, events: seq<Event>, i: nat)
    requires IsRun(states, events) && i < |states|
    requires forall j :: 0 <= j < |events| ==> !GhostEnters(states[j], events[j])
    ensures NoGhosts(states[i])
    decreases i
  {
    if i == 0 {
      Runs.Prefix(Starts, Leads, states, events, 0);
    } else {
      NoGhostEntered(states, events, i - 1);
      NoGhostsNext(states, events, i - 1);
    }
  }

  /**
   At no point of a run an entry holds a peer that is down, if and only if no peer that is down gets an entry by
   reporting up.
   */
  lemma NeverGhostsIff(states: seq<Router>, events: seq<Event>)
    requires IsRun(states, events)
    ensures NeverGhosts(states) <==> forall i :: 0 <= i < |events| ==> !GhostEnters(states[i], events[i])
  {
    if NeverGhosts(states) {
      forall i | 0 <= i < |events| ensures !GhostEnters(states[i], events[i]) {
        assert NoGhosts(states[i]) && NoGhosts(states[i + 1]);
        NoGhostsNext(states, events, i);
      }
    }
    if forall i :: 0 <= i < |events| ==> !GhostEnters(states[i], events[i]) {
      forall i | 0 <= i < |states| ensures NoGhosts(states[i]) {
        NoGhostEntered(states, events, i);
      }
    }
  }

  /** A configured host with its first peer. */
  function Spawned(host: string): Router {
    Router(map[host := Entry(Some(0), false)], false, {0}, map[], {}, {}, 0)
  }

  lemma FirstUpdate(host: string)
    requires host != ""
    ensures Leads(New(), Updates(map[host := true], map[host := 0]), Spawned(host))
  {
    var conf: Conf := map[host := true];
    var spawned, s := map[host := 0], New();
    assert NeedsPeer(s.table, conf) == {host} && spawned.Values == {0};
    assert UnconfiguredPeers(s.table, conf) == {} && Kept(s.table, conf) == map[];
    assert Filled(map[], conf, spawned) == Spawned(host).table;
  }

  lemma FirstDown(host: string, conf: Conf, t: Router)
    requires host != "" && conf == map[host := true]
    requires t == Spawned(host).(downs := {0}, table := map[host := Entry(None, false)])
    ensures Leads(Spawned(host), Downs(0, host, conf), t)
  {
    assert Vacated(Spawned(host).table, 0) == t.table;
  }

  /** A peer that reports up after it reported down is back in the table for good. */
  lemma GhostStays(host: string) returns (states: seq<Router>, events: seq<Event>)
    requires host != ""
    ensures IsRun(states, events) && 0 in Last(states).downs && Last(states).table == map[host := Entry(Some(0), true)]
  {
    var conf: Conf := map[host := true];
    FirstUpdate(host);
    RunGoesOn([New()], [], Updates(conf, map[host := 0]));
    states, events := [New()] + [Spawned(host)], [] + [Updates(conf, map[host := 0])];
    var t := Spawned(host).(downs := {0}, table := map[host := Entry(None, false)]);
    FirstDown(host, conf, t);
    RunGoesOn(states, events, Downs(0, host, conf));
    states, events := states + [t], events + [Downs(0, host, conf)];
    RunGoesOn(states, events, Ups(0, host));
    states, events := states + [PeerUp(t, 0, host)], events + [Ups(0, host)];
  }

  ghost predicate NoLateUps(states: seq<Router>, events: seq<Event>)
    requires |states| == |events| + 1
  {
    forall i :: 0 <= i < |events| && events[i].Ups? ==> events[i].peer !in states[i].downs
  }

  /** If no peer reports up after it reported down, no entry ever holds a peer that is down. */
  lemma {:induction false} NoEntryHoldsADownPeer(states: seq<Router>, events: seq<Event>)
    requires IsRun(states, events) && NoLateUps(states, events)
    ensures NoGhosts(Last(states))
  {
    if events != [] {
      var before, done := Front(states), Front(events);
      assert NoLateUps(before, done) by {
        assert forall i :: 0 <= i < |done| ==> before[i] == states[i] && done[i] == events[i];
      }
      RunKeeps(before, done);
      NoEntryHoldsADownPeer(before, done);
      assert Last(before) == states[|done|];
      NoGhostsIff(Last(before), Last(events));
    }
  }

  // ----- Hosts of the table

  /**
   Only an update changes the hosts of the table: a host no longer configured keeps its entry when its peer goes down.
   */
  lemma OnlyUpdatesChangeHosts(s: Router, e: Event)
    requires WellFormed(s) && Enabled(s, e) && !e.Updates?
    ensures Step(s, e).table.Keys == s.table.Keys
  {
    match e
    case Accepts(_) =>
    case Ups(p, host) => if Wins(s, p, host) {} else {}
    case Downs(p, _, _) =>
      assert Vacated(s.table, p) - {""} == Vacated(s.table, p);
      if s.terminated {} else {}
    case SetsDown =>
  }

  /** The hosts the last update left, nothing before the first. */
  ghost function UpdatedHosts(states: seq<Router>, events: seq<Event>): set<string>
    requires |states| == |events| + 1
  {
    if events == [] then {}
    else if Last(events).Updates? then
      var before := states[|events| - 1].table;
      Last(events).conf.Keys + set h | h in before && before[h].peer.Some?
    else UpdatedHosts(Front(states), Front(events))
  }

  /** At any point of a run the table has the hosts configured at the last update and those that had a peer then. */
  lemma {:induction false} HostsAreThoseOfTheLastUpdate(states: seq<Router>, events: seq<Event>)
    requires IsRun(states, events)
    ensures Last(states).table.Keys == UpdatedHosts(states, events)
  {
    if events != [] {
      var s, e := Last(Front(states)), Last(events);
      assert states[|events| - 1] == s;
      HostsAreThoseOfTheLastUpdate(Front(states), Front(events));
      RunKeeps(Front(states), Front(events));
      if e.Updates? {
        assert Last(states).table.Keys == Kept(s.table, e.conf).Keys + e.conf.Keys;
      } else {
        OnlyUpdatesChangeHosts(s, e);
      }
    }
  }
}
