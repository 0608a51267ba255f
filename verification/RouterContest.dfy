/** Which of several peers of a host keeps its entry, and what an update, an up or a down does to each entry. */
module RouterContest {
  import opened Common
  import Runs
  import opened PeersTable

  // ----- One report

  /** A peer that reports up for a host without an engaged peer gets its entry, and the one it replaces is told. */
  lemma ReporterGetsFreeEntry(s: Router, p: nat, h: string)
    requires h in s.table && !(s.table[h].isEngaged && s.table[h].peer.Some?)
    ensures var t := Step(s, Ups(p, h));
      && t.table == s.table[h := Entry(Some(p), true)]
      && t.setDowns == s.setDowns + (if s.table[h].peer.Some? then {s.table[h].peer.value} - {p} else {})
                       + (if s.terminated then {p} else {})
      && t.upAs == s.upAs[p := h] && t.downs == s.downs && t.terminated == s.terminated && t.closes == s.closes
  {
    if s.table[h].peer.Some? {
      if s.table[h].peer == Some(p) {} else {}
    } else {
    }
  }

  /** The engaged peer of a host keeps its entry: another one that reports up for it is told to go down, and only it. */
  lemma EngagedPeerKeepsEntry(s: Router, q: nat, p: nat, h: string)
    requires h in s.table && s.table[h] == Entry(Some(q), true)
    ensures var t := Step(s, Ups(p, h));
      && t.table == s.table
      && t.setDowns == s.setDowns + (if p != q || s.terminated then {p} else {})
      && t.upAs == s.upAs[p := h] && t.downs == s.downs && t.terminated == s.terminated && t.closes == s.closes
  {
    assert s.table[h := Entry(Some(q), true)] == s.table;
    if p == q {} else {}
    if s.terminated {} else {}
  }

  /** A peer that reports up for a host the table does not have is told to go down. */
  lemma StrangerGoesDown(s: Router, p: nat, h: string)
    requires h !in s.table
    ensures var t := Step(s, Ups(p, h)); t.table == s.table && t.setDowns == s.setDowns + {p}
  {
  }

  // ----- Updates and downs

  /**
   An update leaves peers and their entries alone, tells exactly those of hosts no longer configured, makes a new peer
   for each host to connect to that has none, and empty entries for the other hosts; the rest is forgotten.
   */
  lemma AfterUpdate(s: Router, conf: Conf, spawned: map<string, nat>, h: string)
    requires WellFormed(s) && Enabled(s, Updates(conf, spawned))
    ensures var t, has := Step(s, Updates(conf, spawned)), h in s.table && s.table[h].peer.Some?;
      && (h in t.table <==> h in conf || has)
      && (has ==> t.table[h] == s.table[h] && (h !in conf ==> s.table[h].peer.value in t.setDowns))
      && (h in conf && conf[h] && !has ==>
          h in spawned && spawned[h] in t.known - s.known && t.table[h] == Entry(Some(spawned[h]), false))
      && (h in conf && !conf[h] && !has ==> t.table[h] == Entry(None, false))
  {
    assert h in spawned <==> h in NeedsPeer(s.table, conf);
    if h in spawned {
      assert spawned[h] in spawned.Values;
    }
  }

  lemma OnlyUnconfiguredAreTold(s: Router, conf: Conf, spawned: map<string, nat>, p: nat)
    requires Enabled(s, Updates(conf, spawned)) && p !in s.setDowns
    ensures p in Step(s, Updates(conf, spawned)).setDowns <==>
            exists h :: h in s.table && h !in conf && s.table[h].peer == Some(p)
  {
  }

  /** When a peer goes down its entries are emptied and no other entry changes. */
  lemma AfterDown(s: Router, p: nat, configHost: string, conf: Conf)
    requires WellFormed(s)
    ensures var t := Step(s, Downs(p, configHost, conf));
      && t.table.Keys == s.table.Keys && t.downs == s.downs + {p} && t.setDowns == s.setDowns
      && forall h :: h in s.table ==>
        t.table[h] == if s.table[h].peer == Some(p) then Entry(None, false) else s.table[h]
  {
    assert Vacated(s.table, p) - {""} == Vacated(s.table, p);
    if s.terminated {} else {}
  }

  // ----- Runs

  lemma ToldStays(s: Router, e: Event, p: nat)
    requires p in s.setDowns
    ensures p in Step(s, e).setDowns
  {
    match e
    case Accepts(_) =>
    case Updates(_, _) =>
    case Ups(q, h) => if h in s.table { if Wins(s, q, h) {} else {} } else {}
    case Downs(_, _, _) => if s.terminated {} else {}
    case SetsDown =>
  }

  lemma EntryStays(s: Router, e: Event, h: string, q: nat)
    requires WellFormed(s) && Enabled(s, e) && h in s.table && s.table[h] == Entry(Some(q), true)
    requires !(e.Downs? && e.peer == q)
    ensures h in Step(s, e).table && Step(s, e).table[h] == Entry(Some(q), true)
  {
    match e
    case Accepts(_) =>
    case Updates(conf, spawned) => AfterUpdate(s, conf, spawned, h);
    case Ups(p, host) =>
      if host == h {
        EngagedPeerKeepsEntry(s, q, p, h);
      } else if host in s.table {
        if Wins(s, p, host) {} else {}
      } else {
      }
    case Downs(p, configHost, conf) => AfterDown(s, p, configHost, conf);
    case SetsDown =>
  }

  /** Other peers that reported up for the host were told, and the engaged one was not told for it. */
  ghost predicate Defended(states: seq<Router>, events: seq<Event>, i: nat, j: nat, h: string, q: nat)
    requires i <= j < |states| == |events| + 1
  {
    forall k :: i <= k < j && events[k].Ups? && events[k].host == h && events[k].peer != q ==>
      events[k].peer in states[j].setDowns && states[k + 1].setDowns == states[k].setDowns + {events[k].peer}
  }

  /**
   From a state in which a peer is the engaged entry of a host it stays exactly that until it reports down, across
   updates and a shutdown; every other peer that reports up for the host meanwhile is told to go down, and only it.
   */
  lemma {:induction false} EngagedPeerWins(states: seq<Router>, events: seq<Event>, i: nat, j: nat, h: string, q: nat)
    requires IsRun(states, events) && i <= j < |states|
    requires h in states[i].table && states[i].table[h] == Entry(Some(q), true)
    requires forall k :: i <= k < j ==> !(events[k].Downs? && events[k].peer == q)
    ensures h in states[j].table && states[j].table[h] == Entry(Some(q), true)
    ensures Defended(states, events, i, j, h, q)
    decreases j
  {
    if i < j {
      EngagedPeerWins(states, events, i, j - 1, h, q);
      var s, e, t := states[j - 1], events[j - 1], states[j];
      Runs.Prefix(Starts, Leads, states, events, j - 1);
      RunKeeps(states[..j], events[..j - 1]);
      Runs.Next(Starts, Leads, states, events, j - 1);
      EntryStays(s, e, h, q);
      forall k | i <= k < j && events[k].Ups? && events[k].host == h && events[k].peer != q
        ensures events[k].peer in t.setDowns && states[k + 1].setDowns == states[k].setDowns + {events[k].peer}
      {
        if k < j - 1 {
          ToldStays(s, e, events[k].peer);
        } else {
          EngagedPeerKeepsEntry(s, q, e.peer, h);
        }
      }
    }
  }
}
