/** The part of the Diameter router that keeps the peers table, as the object it is. */
module DiameterRouter {
  import opened Common
  import opened PeersTable

  class DiameterRouter {
    var diameterPeersTable: map<string, Entry>
    var terminated: bool
    var nextPeer: nat
    var setDowns: set<nat>
    var closes: nat
    ghost var upAs: map<nat, string>
    ghost var downs: set<nat>
    ghost var known: set<nat>
    ghost var states: seq<Router>
    ghost var events: seq<Event>

    ghost function View(): Router
      reads this
    {
      Router(diameterPeersTable, terminated, known, upAs, downs, setDowns, closes)
    }

    /** The object is where a run of the specification leads. */
    ghost predicate Valid()
      reads this
    {
      IsRun(states, events) && Last(states) == View() && forall p :: p in known ==> p < nextPeer
    }

    constructor NewDiameterRouter()
      ensures Valid() && View() == New()
    {
      diameterPeersTable, terminated, nextPeer, setDowns, closes := map[], false, 0, {}, 0;
      upAs, downs, known := map[], {}, {};
      states, events := [New()], [];
    }

    /** Notes the step just made. */
    ghost method Record(e: Event)
      requires IsRun(states, events) && Enabled(Last(states), e) && View() == Step(Last(states), e)
      requires forall p :: p in known ==> p < nextPeer
      modifies this`states, this`events
      ensures Valid() && events == old(events) + [e]
    {
      RunGoesOn(states, events, e);
      states, events := states + [View()], events + [e];
    }

    /** A peer for an accepted connection. */
    method AcceptPeer() returns (p: nat)
      requires Valid()
      modifies this`nextPeer, this`known, this`states, this`events
      ensures Valid() && events == old(events) + [Accepts(p)]
    {
      p := nextPeer;
      nextPeer := nextPeer + 1;
      known := known + {p};
      Record(Accepts(p));
    }

    method HandlePeerUp(sender: nat, host: string)
      requires Valid() && Enabled(View(), Ups(sender, host))
      modifies this`diameterPeersTable, this`setDowns, this`upAs, this`states, this`events
      ensures Valid() && events == old(events) + [Ups(sender, host)]
    {
      upAs := upAs[sender := host];
      if host in diameterPeersTable {
        var peerEntry := diameterPeersTable[host];
        if peerEntry.peer != Some(sender) {
          if peerEntry.peer.Some? && peerEntry.isEngaged {
            setDowns := setDowns + {sender};
          } else {
            if peerEntry.peer.Some? {
              setDowns := setDowns + {peerEntry.peer.value};
            }
            diameterPeersTable := diameterPeersTable[host := Entry(Some(sender), true)];
          }
        } else {
          diameterPeersTable := diameterPeersTable[host := peerEntry.(isEngaged := true)];
        }
        if terminated {
          setDowns := setDowns + {sender};
        }
      } else {
        setDowns := setDowns + {sender};
      }
      Record(Ups(sender, host));
    }

    /** The loop over the table that looks for a peer. */
    method FindPeer() returns (found: bool)
      ensures found <==> TablePeers(diameterPeersTable) != {}
    {
      var left := diameterPeersTable.Keys;
      while left != {}
        invariant left <= diameterPeersTable.Keys
        invariant forall h :: h in diameterPeersTable.Keys - left ==> diameterPeersTable[h].peer.None?
      {
        var h :| h in left;
        if diameterPeersTable[h].peer.Some? {
          assert diameterPeersTable[h].peer.value in TablePeers(diameterPeersTable);
          return true;
        }
        left := left - {h};
      }
      return false;
    }

    method CloseIfEmpty()
      modifies this`closes
      ensures View() == PeersTable.CloseIfEmpty(old(View()))
    {
      var found := FindPeer();
      if !found {
        closes := closes + 1;
      }
    }

    /** The loop that empties the entries of a peer. */
    method Vacate(sender: nat)
      modifies this`diameterPeersTable
      ensures View() == old(View()).(table := Vacated(old(diameterPeersTable), sender))
    {
      var left := diameterPeersTable.Keys;
      ghost var whole := diameterPeersTable;
      while left != {}
        invariant left <= diameterPeersTable.Keys == whole.Keys
        invariant forall h :: h in whole ==>
                    diameterPeersTable[h] == if h in left then whole[h] else Vacated(whole, sender)[h]
      {
        var h :| h in left;
        if diameterPeersTable[h].peer == Some(sender) {
          diameterPeersTable := diameterPeersTable[h := Entry(None, false)];
        }
        left := left - {h};
      }
      assert diameterPeersTable == Vacated(whole, sender);
    }

    method HandlePeerDown(sender: nat, configHost: string, conf: Conf)
      requires Valid() && Enabled(View(), Downs(sender, configHost, conf))
      modifies this`diameterPeersTable, this`closes, this`downs, this`states, this`events
      ensures Valid() && events == old(events) + [Downs(sender, configHost, conf)]
    {
      downs := downs + {sender};
      Vacate(sender);
      if configHost !in conf {
        diameterPeersTable := diameterPeersTable - {""};
      }
      if terminated {
        CloseIfEmpty();
      }
      Record(Downs(sender, configHost, conf));
    }

    method HandleSetDown()
      requires Valid()
      modifies this`terminated, this`setDowns, this`closes, this`states, this`events
      ensures Valid() && events == old(events) + [SetsDown]
    {
      terminated := true;
      SetDownPeers();
      CloseIfEmpty();
      Record(SetsDown);
    }

    /** The loop that tells every peer of the table to go down. */
    method SetDownPeers()
      modifies this`setDowns
      ensures View() == old(View()).(setDowns := old(setDowns) + TablePeers(diameterPeersTable))
    {
      var left := diameterPeersTable.Keys;
      ghost var before := setDowns;
      while left != {}
        invariant left <= diameterPeersTable.Keys
        invariant setDowns == before +
          set h | h in diameterPeersTable.Keys - left && diameterPeersTable[h].peer.Some?
            :: diameterPeersTable[h].peer.value
      {
        var h :| h in left;
        ghost var done := diameterPeersTable.Keys - left;
        left := left - {h};
        assert diameterPeersTable.Keys - left == done + {h};
        if diameterPeersTable[h].peer.Some? {
          setDowns := setDowns + {diameterPeersTable[h].peer.value};
        }
      }
      assert diameterPeersTable.Keys - left == diameterPeersTable.Keys;
    }

    // ----- Updating the table

    /** The first loop of an update: unconfigured hosts go away, or their peers are told to go down. */
    method RemoveUnconfigured(conf: Conf)
      modifies this`diameterPeersTable, this`setDowns
      ensures View() == old(View()).(
                table := Kept(old(diameterPeersTable), conf),
                setDowns := old(setDowns) + UnconfiguredPeers(old(diameterPeersTable), conf))
    {
      ghost var whole, before := diameterPeersTable, setDowns;
      var left := diameterPeersTable.Keys;
      while left != {}
        invariant left <= diameterPeersTable.Keys <= whole.Keys
        invariant forall h :: h in whole ==> (h in diameterPeersTable <==> h in left || h in Kept(whole, conf))
        invariant forall h :: h in diameterPeersTable ==> diameterPeersTable[h] == whole[h]
        invariant setDowns == before + UnconfiguredPeers(map h | h in whole && h !in left :: whole[h], conf)
      {
        var h :| h in left;
        ghost var seen := map g | g in whole && g !in left :: whole[g];
        left := left - {h};
        assert (map g | g in whole && g !in left :: whole[g]) == seen[h := whole[h]];
        OneMoreSeen(seen, h, whole[h], conf);
        if h !in conf {
          if diameterPeersTable[h].peer.Some? {
            setDowns := setDowns + {diameterPeersTable[h].peer.value};
          } else {
            diameterPeersTable := diameterPeersTable - {h};
          }
        }
      }
      assert diameterPeersTable == Kept(whole, conf);
      assert (map h | h in whole && h !in left :: whole[h]) == whole;
    }

    /** A configured host gets an entry, with a new peer if it is to be connected to and has none. */
    method FillHost(host: string, active: bool) returns (needed: bool)
      modifies this`diameterPeersTable, this`nextPeer
      ensures var table := old(diameterPeersTable);
        && needed == (active && (host !in table || table[host].peer.None?))
        && nextPeer == old(nextPeer) + (if needed then 1 else 0)
        && diameterPeersTable ==
          if needed then table[host := Entry(Some(old(nextPeer)), false)]
          else if host in table then table else table[host := Entry(None, false)]
    {
      needed := active && (host !in diameterPeersTable || diameterPeersTable[host].peer.None?);
      if needed {
        diameterPeersTable := diameterPeersTable[host := Entry(Some(nextPeer), false)];
        nextPeer := nextPeer + 1;
      } else if host !in diameterPeersTable {
        diameterPeersTable := diameterPeersTable[host := Entry(None, false)];
      }
    }

    /** The second loop of an update: an entry for each configured host, and a new peer where one is needed. */
    method FillConfigured(conf: Conf) returns (ghost spawned: map<string, nat>)
      requires forall p :: p in known ==> p < nextPeer
      modifies this`diameterPeersTable, this`nextPeer
      ensures spawned.Keys == NeedsPeer(old(diameterPeersTable), conf) && Injective(spawned) && spawned.Values !! known
      ensures forall p :: p in spawned.Values ==> p < nextPeer
      ensures nextPeer >= old(nextPeer)
      ensures View() == old(View()).(table := Filled(old(diameterPeersTable), conf, spawned))
    {
      ghost var whole := diameterPeersTable;
      var left := conf.Keys;
      spawned := map[];
      while left != {}
        invariant left <= conf.Keys && nextPeer >= old(nextPeer)
        invariant Injective(spawned)
        invariant forall h :: h in spawned ==> old(nextPeer) <= spawned[h] < nextPeer
        invariant FilledSoFar(whole, conf, left, spawned, diameterPeersTable)
      {
        var host :| host in left;
        ghost var next, table := nextPeer, diameterPeersTable;
        var needed := FillHost(host, conf[host]);
        FillOneMore(whole, conf, left, spawned, table, host, next, needed, diameterPeersTable);
        left := left - {host};
        if needed {
          spawned := spawned[host := next];
        }
      }
      AllFilled(whole, conf, spawned, diameterPeersTable);
    }

    method UpdatePeersTable(conf: Conf) returns (ghost spawned: map<string, nat>)
      requires Valid() && !terminated && "" !in conf
      modifies this`diameterPeersTable, this`setDowns, this`nextPeer, this`known, this`states, this`events
      ensures Valid() && events == old(events) + [Updates(conf, spawned)]
    {
      RemoveUnconfigured(conf);
      SameNeeds(old(diameterPeersTable), conf);
      spawned := FillConfigured(conf);
      known := known + spawned.Values;
      Record(Updates(conf, spawned));
    }
  }

  /** The table in the middle of the second loop of an update. */
  ghost predicate FilledSoFar(whole: map<string, Entry>, conf: Conf, left: set<string>, spawned: map<string, nat>,
        table: map<string, Entry>)
  {
    && spawned.Keys == NeedsPeer(whole, conf) - left
    && table.Keys == whole.Keys + (conf.Keys - left)
    && forall h :: h in table ==>
      table[h] ==
      if h in spawned then Entry(Some(spawned[h]), false) else if h in whole then whole[h] else Entry(None, false)
  }

  lemma FillOneMore(whole: map<string, Entry>, conf: Conf, left: set<string>, spawned: map<string, nat>,
        table: map<string, Entry>, host: string, next: nat, needed: bool, after: map<string, Entry>)
    requires FilledSoFar(whole, conf, left, spawned, table) && host in left && host in conf
    requires needed == (conf[host] && (host !in table || table[host].peer.None?))
    requires after ==
      if needed then table[host := Entry(Some(next), false)]
      else if host in table then table else table[host := Entry(None, false)]
    ensures FilledSoFar(whole, conf, left - {host}, if needed then spawned[host := next] else spawned, after)
  {
    assert host in table <==> host in whole;
    if needed {} else {}
  }

  lemma AllFilled(whole: map<string, Entry>, conf: Conf, spawned: map<string, nat>, table: map<string, Entry>)
    requires FilledSoFar(whole, conf, {}, spawned, table)
    ensures spawned.Keys == NeedsPeer(whole, conf) && table == Filled(whole, conf, spawned)
  {
  }

  lemma OneMoreSeen(seen: map<string, Entry>, h: string, entry: Entry, conf: Conf)
    requires h !in seen
    ensures UnconfiguredPeers(seen[h := entry], conf) ==
      UnconfiguredPeers(seen, conf) + if h !in conf && entry.peer.Some? then {entry.peer.value} else {}
  {
    var more := seen[h := entry];
    forall p | p in UnconfiguredPeers(seen, conf) ensures p in UnconfiguredPeers(more, conf) {
      var g :| g in seen && g !in conf && seen[g].peer == Some(p);
      assert more[g] == seen[g];
    }
    if h !in conf && entry.peer.Some? {
      assert more[h].peer == entry.peer;
    }
  }

  lemma SameNeeds(table: map<string, Entry>, conf: Conf)
    ensures NeedsPeer(Kept(table, conf), conf) == NeedsPeer(table, conf)
  {
  }
}
