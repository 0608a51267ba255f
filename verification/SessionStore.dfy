/** The in-memory store of RADIUS sessions: a map by id, secondary indexes and three linked lists. */
module SessionStore {
  import opened Common
  import opened Packets
  import opened SessionEntry
  import opened StoreTheorems
  import StoreIndexes
  import StoreRuns
  import Spec = StoreSpec

  /** The outcome of a query: the source dereferences a nil entry when an index names an id that is gone. */
  datatype Found = Packets(packets: seq<Packet>) | NilDereference

  class RadiusSessionStore {
    const conf: Spec.Conf
    const acceptedSessions: EntryList
    const startedSessions: EntryList
    const stoppedSessions: EntryList
    var sessions: map<string, Entry>
    var indexes: Spec.Index
    ghost var made: nat
    ghost var history: seq<Spec.Event>

    ghost function View(): Spec.Store
      reads this`sessions, this`indexes, this`made, acceptedSessions, startedSessions, stoppedSessions
    {
      Spec.Store(
        Entries(sessions),
        indexes,
        Values(acceptedSessions.nodes), Values(startedSessions.nodes), Values(stoppedSessions.nodes),
        made)
    }

    ghost function ListRepr(): set<object>
      reads acceptedSessions, startedSessions, stoppedSessions
    {
      acceptedSessions.Repr + startedSessions.Repr + stoppedSessions.Repr
    }

    /** Three sound lists that share nothing. */
    ghost predicate SoundLists()
      reads acceptedSessions, startedSessions, stoppedSessions
      reads ListRepr()
    {
      && acceptedSessions.Valid() && startedSessions.Valid() && stoppedSessions.Valid()
      && acceptedSessions.Repr !! startedSessions.Repr !! stoppedSessions.Repr
      && this !in ListRepr()
    }

    ghost function AllNodes(): seq<Entry>
      reads acceptedSessions, startedSessions, stoppedSessions
    {
      acceptedSessions.nodes + startedSessions.nodes + stoppedSessions.nodes
    }

    ghost predicate InLists(e: Entry)
      reads acceptedSessions, startedSessions, stoppedSessions
    {
      e in AllNodes()
    }

    /** The objects are in order: sound lists, no stored entry outside them, a map for each index. */
    ghost predicate Sound()
      reads this`sessions, this`indexes, acceptedSessions, startedSessions, stoppedSessions
      reads ListRepr()
    {
      && SoundLists()
      && (forall id :: id in sessions ==> InLists(sessions[id]))
      && (forall c :: c in conf.indexConf ==> c.indexName in indexes)
    }

    /** The store is what the packets and purges so far make of an empty one. */
    ghost predicate Valid()
      reads this, acceptedSessions, startedSessions, stoppedSessions
      reads ListRepr()
    {
      Sound() && View() == Spec.Run(conf, history)
    }

    constructor (conf: Spec.Conf)
      ensures this.conf == conf && Valid() && history == []
      ensures fresh(ListRepr())
    {
      this.conf := conf;
      acceptedSessions := new EntryList();
      startedSessions := new EntryList();
      stoppedSessions := new EntryList();
      sessions := map[];
      indexes := map c | c in conf.indexConf :: c.indexName := map[];
      made, history := 0, [];
    }

    // ----- Reading

    method BuildId(packet: Packet) returns (id: string)
      ensures id == Spec.SessionId(conf, packet)
    {
      id := "";
      for i := 0 to |conf.idAttributes|
        invariant id == Spec.JoinId(conf.idAttributes[..i], packet)
      {
        assert Front(conf.idAttributes[..i + 1]) == conf.idAttributes[..i];
        id := id + packet.GetString(conf.idAttributes[i]);
        id := id + "/";
      }
      assert conf.idAttributes[..|conf.idAttributes|] == conf.idAttributes;
      id := Spec.TrimSlash(id);
    }

    /** Whether the packet is to be stored, and the entry it replaces. */
    method CheckInsert(id: string, packetType: int, packet: Packet) returns (doInsert: bool, existing: Entry?)
      ensures doInsert == Spec.DoInsert(View(), id, packetType, packet)
      ensures doInsert ==> existing == if id in sessions then sessions[id] else null
    {
      if id !in sessions {
        return true, null;
      }
      existing := sessions[id];
      if packetType > existing.packetType {
        return true, existing;
      }
      if packet.GetInt("Acct-Session-Time") > existing.packet.GetInt("Acct-Session-Time") {
        return true, existing;
      }
      if packet.GetInt("Event-Timestamp") > existing.packet.GetInt("Event-Timestamp") {
        return true, existing;
      }
      return false, null;
    }

    /** A live session that holds a unique value the packet claims, if there is one. */
    method CheckUnique(packet: Packet) returns (found: bool, offendingId: string, offendingIndex: string)
      ensures found <==> exists c, id :: c in conf.indexConf && Spec.Offends(View(), c, packet, id)
      ensures found ==> Spec.Justifies(View(), conf, packet, offendingId, offendingIndex)
    {
      for i := 0 to |conf.indexConf|
        invariant forall c, id :: c in conf.indexConf[..i] ==> !Spec.Offends(View(), c, packet, id)
      {
        var c := conf.indexConf[i];
        if c.isUnique {
          match packet.GetText(c.indexName)
          case None =>
          case Some(value) =>
            var ids := Spec.Held(indexes, c.indexName, value);
            while ids != {}
              invariant ids <= Spec.Held(indexes, c.indexName, value)
              invariant forall id :: Spec.Offends(View(), c, packet, id) ==> id in ids
            {
              var id :| id in ids;
              if id in sessions && sessions[id].packetType != Spec.PACKET_TYPE_ACCOUNTING_STOP {
                assert Spec.Offends(View(), c, packet, id);
                return true, id, c.indexName;
              }
              ids := ids - {id};
            }
        }
        assert forall id :: !Spec.Offends(View(), c, packet, id);
        assert forall d :: d in conf.indexConf[..i + 1] <==> d in conf.indexConf[..i] || d == c;
      }
      assert conf.indexConf[..|conf.indexConf|] == conf.indexConf;
      return false, "", "";
    }

    // ----- Indexes

    /** The indexes with the id filed under the packet's values. */
    method AddToIndexes(packet: Packet, id: string) returns (ix: Spec.Index)
      requires forall c :: c in conf.indexConf ==> c.indexName in indexes
      ensures ix == Spec.AddToIndexes(indexes, conf.indexConf, packet, id)
      ensures forall c :: c in conf.indexConf ==> c.indexName in ix
    {
      ix := indexes;
      for i := 0 to |conf.indexConf|
        invariant ix == Spec.AddToIndexes(indexes, conf.indexConf[..i], packet, id)
        invariant forall c :: c in conf.indexConf ==> c.indexName in ix
      {
        assert Front(conf.indexConf[..i + 1]) == conf.indexConf[..i];
        var name := conf.indexConf[i].indexName;
        match packet.GetText(name)
        case None =>
        case Some(value) =>
          if value in ix[name] {
            ix := ix[name := ix[name][value := ix[name][value] + {id}]];
          } else {
            assert {} + {id} == {id};
            ix := ix[name := ix[name][value := {id}]];
          }
      }
      assert conf.indexConf[..|conf.indexConf|] == conf.indexConf;
    }

    lemma DropOne(before: Spec.Index, name: string, value: string, id: string, after: Spec.Index)
      requires name in before
      requires value !in before[name] ==> after == before[name := before[name] - {value}]
      requires value in before[name] && before[name][value] - {id} != {} ==>
                 after == before[name := before[name][value := before[name][value] - {id}]]
      requires value in before[name] && before[name][value] - {id} == {} ==>
                 after == before[name := before[name][value := {}]][name := before[name][value := {}] - {value}]
      ensures after == Spec.DropId(before, name, value, id)
    {
      assert before[name][value := {}] - {value} == before[name] - {value};
    }

    /** The indexes without the id under the packet's values; a value that names nobody goes away. */
    method DropFromIndexes(packet: Packet, id: string) returns (ix: Spec.Index)
      requires forall c :: c in conf.indexConf ==> c.indexName in indexes
      ensures ix == Spec.DropFromIndexes(indexes, conf.indexConf, packet, id)
      ensures forall c :: c in conf.indexConf ==> c.indexName in ix
    {
      ix := indexes;
      for i := 0 to |conf.indexConf|
        invariant ix == Spec.DropFromIndexes(indexes, conf.indexConf[..i], packet, id)
        invariant forall c :: c in conf.indexConf ==> c.indexName in ix
      {
        assert Front(conf.indexConf[..i + 1]) == conf.indexConf[..i];
        var name := conf.indexConf[i].indexName;
        match packet.GetText(name)
        case None =>
        case Some(value) =>
          ghost var before := ix;
          if value in ix[name] {
            ix := ix[name := ix[name][value := ix[name][value] - {id}]];
          }
          if value !in ix[name] || ix[name][value] == {} {
            ix := ix[name := ix[name] - {value}];
          }
          DropOne(before, name, value, id, ix);
      }
      assert conf.indexConf[..|conf.indexConf|] == conf.indexConf;
    }

    // ----- Lists

    function ListOf(packetType: int): EntryList {
      if packetType == Spec.PACKET_TYPE_ACCESS_REQUEST then acceptedSessions
      else if Spec.IsStarted(packetType) then startedSessions
      else stoppedSessions
    }

    /** Adds a new entry to the list of its type. */
    method AddToList(e: Entry)
      requires SoundLists() && e.next == null && 1 <= e.packetType <= 4
      requires e !in ListRepr()
      modifies e, ListRepr()
      ensures SoundLists()
      ensures acceptedSessions.nodes == old(acceptedSessions.nodes) + if e.packetType == 1 then [e] else []
      ensures startedSessions.nodes == old(startedSessions.nodes) + if Spec.IsStarted(e.packetType) then [e] else []
      ensures stoppedSessions.nodes == old(stoppedSessions.nodes) + if e.packetType == 4 then [e] else []
      ensures ListRepr() <= old(ListRepr()) + {e}
    {
      if e.packetType == Spec.PACKET_TYPE_ACCESS_REQUEST {
        acceptedSessions.Add(e);
      } else if Spec.IsStarted(e.packetType) {
        startedSessions.Add(e);
      } else if e.packetType == Spec.PACKET_TYPE_ACCOUNTING_STOP {
        stoppedSessions.Add(e);
      }
    }

    method Link(e: Entry)
      requires SoundLists() && e.next == null && 1 <= e.packetType <= 4
      requires e !in ListRepr()
      modifies this`made, e, ListRepr()
      ensures SoundLists()
      ensures View() == Spec.Link(old(View()), e.Value())
      ensures acceptedSessions.nodes == old(acceptedSessions.nodes) + if e.packetType == 1 then [e] else []
      ensures startedSessions.nodes == old(startedSessions.nodes) + if Spec.IsStarted(e.packetType) then [e] else []
      ensures stoppedSessions.nodes == old(stoppedSessions.nodes) + if e.packetType == 4 then [e] else []
      ensures ListRepr() <= old(ListRepr()) + {e}
    {
      ghost var before, lists := View(), ListOf(e.packetType).nodes;
      AppendedValue(lists, e);
      AddToList(e);
      made := made + 1;
      ghost var after := View();
      assert after.sessions == before.sessions && after.indexes == before.indexes && after.made == before.made + 1;
      if e.packetType == Spec.PACKET_TYPE_ACCESS_REQUEST {
        assert after.accepted == before.accepted + [e.Value()];
        assert after.started == before.started && after.stopped == before.stopped;
      } else if Spec.IsStarted(e.packetType) {
        assert after.started == before.started + [e.Value()];
        assert after.accepted == before.accepted && after.stopped == before.stopped;
      } else {
        assert after.stopped == before.stopped + [e.Value()];
        assert after.accepted == before.accepted && after.started == before.started;
      }
    }

    /** The entry is once in the list of its type. */
    ghost predicate InOwnList(e: Entry)
      reads acceptedSessions, startedSessions, stoppedSessions
    {
      && 1 <= e.packetType <= 4
      && e in ListOf(e.packetType).nodes
      && Distinct(Values(ListOf(e.packetType).nodes))
    }

    lemma FiledInOwnList(e: Entry)
      requires WellListed(View()) && InLists(e)
      ensures InOwnList(e)
      ensures e in acceptedSessions.nodes ==> ListOf(e.packetType) == acceptedSessions
      ensures e in startedSessions.nodes ==> ListOf(e.packetType) == startedSessions
      ensures e in stoppedSessions.nodes ==> ListOf(e.packetType) == stoppedSessions
    {
      ValuesOf(acceptedSessions.nodes);
      ValuesOf(startedSessions.nodes);
      ValuesOf(stoppedSessions.nodes);
    }

    /** Takes an entry out of its list. */
    method Unlink(e: Entry) returns (ghost k: nat)
      requires SoundLists() && InOwnList(e)
      modifies ListRepr()
      ensures SoundLists()
      ensures View() == Spec.Unlink(old(View()), e.Value())
      ensures ListRepr() <= old(ListRepr())
      ensures k < |old(ListOf(e.packetType).nodes)| && old(ListOf(e.packetType).nodes)[k] == e
      ensures ListOf(e.packetType).nodes ==
              old(ListOf(e.packetType).nodes)[..k] + old(ListOf(e.packetType).nodes)[k + 1..]
      ensures forall x :: x in old(AllNodes()) && x != e ==> x in AllNodes()
      ensures e.next == old(e.next)
    {
      if e.packetType == Spec.PACKET_TYPE_ACCESS_REQUEST {
        k := acceptedSessions.Remove(e);
        RemovedValue(old(acceptedSessions.nodes), k);
      } else if Spec.IsStarted(e.packetType) {
        k := startedSessions.Remove(e);
        RemovedValue(old(startedSessions.nodes), k);
      } else if e.packetType == Spec.PACKET_TYPE_ACCOUNTING_STOP {
        k := stoppedSessions.Remove(e);
        RemovedValue(old(stoppedSessions.nodes), k);
      }
    }

    /** Replaces the map and the indexes, the lists staying as they are. */
    method Settle(stored: map<string, Entry>, ix: Spec.Index)
      requires SoundLists() && (forall id :: id in stored ==> InLists(stored[id]))
      requires forall c :: c in conf.indexConf ==> c.indexName in ix
      modifies this`sessions, this`indexes
      ensures Sound() && View() == old(View()).(sessions := Entries(stored), indexes := ix)
    {
      sessions, indexes := stored, ix;
    }

    /** Removes an entry from its list, from the indexes and, by its id, from the map. */
    method DeleteEntry(e: Entry) returns (ghost k: nat)
      requires Sound() && InOwnList(e)
      requires forall id :: id in sessions && sessions[id] == e ==> id == e.id
      modifies this`sessions, this`indexes, ListRepr()
      ensures Sound()
      ensures View() == Spec.Delete(old(View()), conf, e.Value())
      ensures ListRepr() <= old(ListRepr())
      ensures k < |old(ListOf(e.packetType).nodes)| && old(ListOf(e.packetType).nodes)[k] == e
      ensures ListOf(e.packetType).nodes ==
              old(ListOf(e.packetType).nodes)[..k] + old(ListOf(e.packetType).nodes)[k + 1..]
      ensures e.next == old(e.next)
    {
      assert Entries(sessions - {e.id}) == Entries(sessions) - {e.id};
      var dropped := DropFromIndexes(e.packet, e.id);
      k := Unlink(e);
      assert forall id :: id in sessions - {e.id} ==> InLists(sessions[id]);
      Settle(sessions - {e.id}, dropped);
    }

    // ----- Pushing

    /** Links the new entry and unlinks the replaced one, unless that is a stopped one. */
    method Relink(e: Entry, existing: Entry?)
      requires Sound() && e.next == null && e !in ListRepr() && 1 <= e.packetType <= 4
      requires existing == if e.id in sessions then sessions[e.id] else null
      requires existing != null ==> InOwnList(existing) && Older(Values(ListOf(existing.packetType).nodes), e.serial)
      requires forall id :: id in sessions && sessions[id] == existing ==> id == e.id
      modifies this`made, e, ListRepr()
      ensures SoundLists() && ListRepr() <= old(ListRepr()) + {e}
      ensures View() == Spec.Relink(old(View()), e.Value())
      ensures InLists(e)
      ensures forall id :: id in sessions && id != e.id ==> InLists(sessions[id])
    {
      Link(e);
      if existing != null && existing.packetType != Spec.PACKET_TYPE_ACCOUNTING_STOP {
        AppendedIsDistinct(Values(old(ListOf(existing.packetType).nodes)), e.Value());
        AppendedValue(old(ListOf(existing.packetType).nodes), e);
        ghost var k := Unlink(existing);
      }
    }

    lemma FiledBefore(id: string)
      requires Sound() && Filed(View()) && id in sessions
      ensures InOwnList(sessions[id]) && Older(Values(ListOf(sessions[id].packetType).nodes), made)
    {
      FiledInOwnList(sessions[id]);
    }

    /** The entry to be stored: a filtered copy of the packet and the store's own attributes. */
    method NewEntry(packet: Packet, id: string, packetType: int, now: int) returns (e: Entry)
      requires id == Spec.SessionId(conf, packet)
      ensures fresh(e) && e.next == null
      ensures e.Value() == Spec.NewSession(View(), conf, packetType, packet, now)
    {
      var packetCopy := packet.Copy(conf.attributes);
      var expires := Spec.UnixMilli(now + Spec.Lifetime(conf, packetType));
      packetCopy := packetCopy.Add(Spec.NumberAvp("SessionStore-Expires", expires));
      packetCopy := packetCopy.Add(Spec.NumberAvp("SessionStore-LastUpdated", Spec.UnixMilli(now)));
      packetCopy := packetCopy.Add(Avp("SessionStore-Id", id, 0));
      e := new Entry(id, packetType, packetCopy, expires, made);
    }

    /** The indexes after an insertion: refreshed unless the replaced session began with accounting. */
    method Refresh(packet: Packet, id: string, existing: Entry?) returns (refreshed: Spec.Index)
      requires Sound() && existing == if id in sessions then sessions[id] else null
      ensures refreshed == Spec.Reindex(View(), conf, packet, id)
      ensures forall c :: c in conf.indexConf ==> c.indexName in refreshed
    {
      refreshed := indexes;
      if existing == null || existing.packetType == Spec.PACKET_TYPE_ACCESS_REQUEST {
        refreshed := AddToIndexes(packet, id);
      }
    }

    /** Puts a new entry in its list, in the map and in the indexes, and the replaced one out of its list. */
    method Insert(packet: Packet, e: Entry, existing: Entry?)
      requires Sound() && e.next == null && e !in ListRepr() && 1 <= e.packetType <= 4
      requires existing == if e.id in sessions then sessions[e.id] else null
      requires existing != null ==> InOwnList(existing) && Older(Values(ListOf(existing.packetType).nodes), e.serial)
      requires forall id :: id in sessions && sessions[id] == existing ==> id == e.id
      modifies this`sessions, this`indexes, this`made, e, ListRepr()
      ensures Sound() && ListRepr() <= old(ListRepr()) + {e}
      ensures View() == Spec.Insert(old(View()), conf, packet, e.Value())
    {
      var refreshed := Refresh(packet, e.id, existing);
      assert Entries(sessions[e.id := e]) == Entries(sessions)[e.id := e.Value()];
      Relink(e, existing);
      Settle(sessions[e.id := e], refreshed);
    }

    /** Whether the packet gets in, and if not because of a unique value, whose. */
    method Admit(packet: Packet)
      returns (ok: bool, id: string, packetType: int, existing: Entry?, offendingId: string, offendingIndex: string)
      ensures ok <==> Spec.Inserts(View(), conf, packet)
      ensures ok ==> id == Spec.SessionId(conf, packet) && Spec.PacketType(packet) == Some(packetType)
      ensures ok ==> existing == if id in sessions then sessions[id] else null
      ensures Refused(packet) ==>
                Spec.Justifies(View(), conf, packet, offendingId, offendingIndex)
      ensures !Refused(packet) ==> offendingId == "" && offendingIndex == ""
    {
      ok, existing, offendingId, offendingIndex := false, null, "", "";
      id := BuildId(packet);
      packetType := 0;
      if packet.code == ACCESS_REQUEST {
        packetType := Spec.PACKET_TYPE_ACCESS_REQUEST;
      } else if packet.GetInt("Acct-Status-Type") == 1 {
        packetType := Spec.PACKET_TYPE_ACCOUNTING_START;
      } else if packet.GetInt("Acct-Status-Type") == 3 {
        packetType := Spec.PACKET_TYPE_ACCOUNTING_INTERIM;
      } else if packet.GetInt("Acct-Status-Type") == 2 {
        packetType := Spec.PACKET_TYPE_ACCOUNTING_STOP;
      } else {
        return;
      }
      ok, existing := CheckInsert(id, packetType, packet);
      if ok && packetType == Spec.PACKET_TYPE_ACCESS_REQUEST {
        var found, i, n := CheckUnique(packet);
        if found {
          ok, offendingId, offendingIndex := false, i, n;
        }
      }
    }

    /** A new access request that claims a taken value. */
    ghost predicate Refused(packet: Packet)
      reads this, acceptedSessions, startedSessions, stoppedSessions
    {
      && packet.code == ACCESS_REQUEST
      && Spec.DoInsert(View(), Spec.SessionId(conf, packet), Spec.PACKET_TYPE_ACCESS_REQUEST, packet)
      && Spec.Rejected(View(), conf, Spec.PACKET_TYPE_ACCESS_REQUEST, packet)
    }

    lemma HistoryIsFiled()
      requires Valid()
      ensures Filed(View())
    {
      StoreRuns.EveryRunIsFiled(conf, history);
    }

    /** Stores a packet that gets in. */
    method PushEntry(packet: Packet, id: string, packetType: int, existing: Entry?, now: int)
      requires Sound() && Filed(View()) && Spec.Inserts(View(), conf, packet)
      requires id == Spec.SessionId(conf, packet) && Spec.PacketType(packet) == Some(packetType)
      requires existing == if id in sessions then sessions[id] else null
      modifies this`sessions, this`indexes, this`made, ListRepr()
      ensures Sound() && fresh(ListRepr() - old(ListRepr()))
      ensures View() == Spec.Push(old(View()), conf, packet, now)
    {
      if existing != null {
        FiledBefore(id);
      }
      OneIdEach();
      var e := NewEntry(packet, id, packetType, now);
      Insert(packet, e, existing);
    }

    /** Notes the event that led here. */
    ghost method Record(e: Spec.Event)
      requires Sound() && View() == Spec.Step(Spec.Run(conf, history), conf, e)
      modifies this`history
      ensures Valid() && history == old(history) + [e]
    {
      StoreRuns.RunExtends(conf, history, e);
      history := history + [e];
    }

    method PushAdmitted(packet: Packet, id: string, packetType: int, existing: Entry?, now: int)
      requires Valid() && Spec.Inserts(View(), conf, packet)
      requires id == Spec.SessionId(conf, packet) && Spec.PacketType(packet) == Some(packetType)
      requires existing == if id in sessions then sessions[id] else null
      modifies this`sessions, this`indexes, this`made, this`history, ListRepr()
      ensures Valid() && fresh(ListRepr() - old(ListRepr()))
      ensures history == old(history) + [Spec.Received(packet, now)]
    {
      HistoryIsFiled();
      PushEntry(packet, id, packetType, existing, now);
      Record(Spec.Received(packet, now));
    }

    method PassOver(packet: Packet, now: int)
      requires Valid() && !Spec.Inserts(View(), conf, packet)
      modifies this`history
      ensures Valid() && history == old(history) + [Spec.Received(packet, now)]
    {
      Record(Spec.Received(packet, now));
    }

    /** Adds a packet. Gives the offending session and index when a unique value is taken. */
    method PushPacket(packet: Packet, now: int) returns (offendingId: string, offendingIndex: string)
      requires Valid()
      modifies this`sessions, this`indexes, this`made, this`history, ListRepr()
      ensures Valid() && fresh(ListRepr() - old(ListRepr()))
      ensures history == old(history) + [Spec.Received(packet, now)]
      ensures old(Refused(packet)) ==>
                Spec.Justifies(old(View()), conf, packet, offendingId, offendingIndex)
      ensures !old(Refused(packet)) ==> offendingId == "" && offendingIndex == ""
    {
      var ok, id, packetType, existing, i, n := Admit(packet);
      if ok {
        PushAdmitted(packet, id, packetType, existing, now);
      } else {
        PassOver(packet, now);
      }
      offendingId, offendingIndex := i, n;
    }

    /** No entry is stored under two ids. */
    lemma OneIdEach()
      requires Filed(View())
      ensures forall i :: i in sessions ==> sessions[i].id == i
    {
      forall i | i in sessions ensures sessions[i].id == i {
        assert View().sessions[i].id == i;
      }
    }

    // ----- Expiring

    ghost predicate IsList(list: EntryList) {
      list == acceptedSessions || list == startedSessions || list == stoppedSessions
    }

    /** Deletes the entry at a position of a list. */
    method DeleteAt(list: EntryList, entry: Entry, ghost at: nat, ghost view: Spec.Store)
      requires Sound() && View() == view && Filed(view) && IsList(list)
      requires at < |list.nodes| && list.nodes[at] == entry
      modifies this`sessions, this`indexes, ListRepr()
      ensures Sound() && ListRepr() <= old(ListRepr())
      ensures View() == Spec.Delete(view, conf, entry.Value())
      ensures list.nodes == old(list.nodes)[..at] + old(list.nodes)[at + 1..]
      ensures entry.next == old(entry.next)
    {
      FiledInOwnList(entry);
      OneIdEach();
      assert list == ListOf(entry.packetType);
      assert Values(list.nodes)[at] == entry.Value();
      ghost var k := DeleteEntry(entry);
      assert k == at;
    }

    /** Deletes the entry at a position of a list if it is at or below the cutoff. */
    method ExpireEntry(list: EntryList, entry: Entry, cutoffTime: int, ghost at: nat, ghost view: Spec.Store)
      requires Sound() && View() == view && Filed(view) && IsList(list)
      requires at < |list.nodes| && list.nodes[at] == entry
      modifies this`sessions, this`indexes, ListRepr()
      ensures Sound() && ListRepr() <= old(ListRepr())
      ensures View() == if entry.expires <= cutoffTime then Spec.Delete(view, conf, entry.Value()) else view
      ensures list.nodes ==
              if entry.expires <= cutoffTime then old(list.nodes)[..at] + old(list.nodes)[at + 1..] else old(list.nodes)
      ensures entry.next == if at + 1 < |old(list.nodes)| then old(list.nodes)[at + 1] else null
    {
      NextOf(list, at);
      if entry.expires <= cutoffTime {
        DeleteAt(list, entry, at, view);
      }
    }

    lemma NextOf(list: EntryList, at: nat)
      requires Sound() && IsList(list) && at < |list.nodes|
      ensures list.nodes[at].next == if at + 1 < |list.nodes| then list.nodes[at + 1] else null
    {
    }

    /** The walk stands at position `at` of what is left of a list and at position `i` of the list as it was. */
    ghost predicate Walking(list: EntryList, at: nat, all: seq<Entry>, i: nat, entry: Entry?, view: Spec.Store,
          cutoffTime: int)
      reads this`sessions, this`indexes, this`made, acceptedSessions, startedSessions, stoppedSessions, list
    {
      && i <= |all| && at <= |list.nodes| && list.nodes[at..] == all[i..]
      && entry == (if i < |all| then all[i] else null)
      && View() == Spec.ExpireAmong(view, conf, Values(all[..i]), cutoffTime)
    }

    /** One step of the walk, from an entry that may be gone when the next one is looked up. */
    method ExpireNext(list: EntryList, entry: Entry, cutoffTime: int, ghost at: nat, ghost all: seq<Entry>,
          ghost i: nat, ghost view: Spec.Store)
      returns (next: Entry?, ghost after: nat)
      requires Sound() && IsList(list) && Walking(list, at, all, i, entry, view, cutoffTime)
      requires Filed(view) && Distinct(Values(all)) && StoreRuns.Among(view, Values(all))
      modifies this`sessions, this`indexes, ListRepr()
      ensures Sound() && ListRepr() <= old(ListRepr())
      ensures Walking(list, after, all, i + 1, next, view, cutoffTime)
    {
      MovedOn(list.nodes, at, all, i);
      var step := WalkStep(view, conf, all, i, cutoffTime);
      ExpireEntry(list, entry, cutoffTime, at, step);
      after := if entry.expires <= cutoffTime then at else at + 1;
      next := entry.next;
    }

    /** Walks a list from its head, deleting the entries at or below the cutoff as it goes. */
    method ExpireEntries(list: EntryList, olderThan: int)
      requires Sound() && Filed(View()) && IsList(list)
      modifies this`sessions, this`indexes, ListRepr()
      ensures Sound() && ListRepr() <= old(ListRepr())
      ensures View() == Spec.ExpireAmong(old(View()), conf, Values(old(list.nodes)), Spec.UnixMilli(olderThan))
    {
      var cutoffTime := Spec.UnixMilli(olderThan);
      ghost var all, view := list.nodes, View();
      ghost var at: nat, i: nat := 0, 0;
      ListValues(list);
      var entry := list.head;
      while entry != null
        invariant Sound() && ListRepr() <= old(ListRepr())
        invariant Walking(list, at, all, i, entry, view, cutoffTime)
        decreases |all| - i
      {
        entry, at := ExpireNext(list, entry, cutoffTime, at, all, i, view);
        i := i + 1;
      }
      assert all[..i] == all;
    }

    lemma ListValues(list: EntryList)
      requires Sound() && Filed(View()) && IsList(list)
      ensures Distinct(Values(list.nodes)) && StoreRuns.Among(View(), Values(list.nodes))
    {
      forall x | x in Values(list.nodes) ensures x in ListFor(View(), x.packetType) {
        var k :| 0 <= k < |list.nodes| && Values(list.nodes)[k] == x;
      }
    }

    /** Purges the three lists, accepted and stopped sessions by the limbo date. */
    method ExpireAllEntries(currentExpireDate: int, currentLimboDate: int)
      requires Valid()
      modifies this`sessions, this`indexes, this`history, ListRepr()
      ensures Valid() && ListRepr() <= old(ListRepr())
      ensures history == old(history) + [Spec.Purged(currentExpireDate, currentLimboDate)]
    {
      ghost var view := View();
      HistoryIsFiled();
      ExpireEntries(acceptedSessions, currentLimboDate);
      WalkIsFiled(view, view.accepted, Spec.UnixMilli(currentLimboDate));
      ghost var view1 := View();
      ExpireEntries(startedSessions, currentExpireDate);
      WalkIsFiled(view1, view1.started, Spec.UnixMilli(currentExpireDate));
      ExpireEntries(stoppedSessions, currentLimboDate);
      Record(Spec.Purged(currentExpireDate, currentLimboDate));
    }

    lemma WalkIsFiled(view: Spec.Store, entries: seq<Spec.Session>, cutoff: int)
      requires Filed(view) && (entries == view.accepted || entries == view.started || entries == view.stopped)
      requires View() == Spec.ExpireAmong(view, conf, entries, cutoff)
      ensures Filed(View())
    {
      StoreRuns.ExpireAmongKeepsFiled(view, conf, entries, cutoff, 0);
    }

    // ----- Querying

    predicate Passes(id: string, activeOnly: bool)
      reads this
    {
      id in sessions && (activeOnly ==> sessions[id].packetType != Spec.PACKET_TYPE_ACCOUNTING_STOP)
    }

    /** The index is configured, and no packet so far replaced a stopped session or changed an indexed value. */
    ghost predicate Answers(indexName: string)
      reads this, acceptedSessions, startedSessions, stoppedSessions, ListRepr()
    {
      && Valid() && (exists c :: c in conf.indexConf && c.indexName == indexName)
      && StoreRuns.StopsAreFinal(conf, history) && StoreRuns.ValuesAreSteady(conf, history)
    }

    lemma AnswersLikeAScan(indexName: string, indexValue: string)
      requires Answers(indexName)
      ensures forall id :: id in Spec.Held(indexes, indexName, indexValue) <==>
              StoreIndexes.Scanned(View(), indexName, indexValue, id)
    {
      StoreRuns.ExactIffSteady(conf, history);
      var c :| c in conf.indexConf && c.indexName == indexName;
      assert StoreIndexes.IndexExact(View(), conf);
    }

    /**
     The packets filed under a value, stopped sessions left out if so asked; the source reports an unknown index as no
     packets.
     */
    method FindByIndex(indexName: string, indexValue: string, activeOnly: bool)
        returns (found: Found, ghost ids: seq<string>)
      ensures found.NilDereference? <==> exists id :: id in Spec.Held(indexes, indexName, indexValue) && id !in sessions
      ensures found.Packets? ==>
                && |found.packets| == |ids|
                && (forall i :: 0 <= i < |ids| ==> ids[i] in sessions && found.packets[i] == sessions[ids[i]].packet)
                && (forall i, j :: 0 <= i < j < |ids| ==> ids[i] != ids[j])
                && (forall id :: id in ids <==> (id in Spec.Held(indexes, indexName, indexValue)
                    && Passes(id, activeOnly)))
      ensures Answers(indexName) ==>
                && found.Packets?
                && (forall id :: id in ids <==> (StoreIndexes.Scanned(View(), indexName, indexValue, id)
                    && Passes(id, activeOnly)))
    {
      if Answers(indexName) {
        AnswersLikeAScan(indexName, indexValue);
      }
      ghost var all := Spec.Held(indexes, indexName, indexValue);
      var left := Spec.Held(indexes, indexName, indexValue);
      var packets := [];
      ids := [];
      while left != {}
        invariant left <= all && (forall id :: id in all - left ==> id in sessions)
        invariant |packets| == |ids|
        invariant forall i :: 0 <= i < |ids| ==> ids[i] in sessions && packets[i] == sessions[ids[i]].packet
        invariant forall i, j :: 0 <= i < j < |ids| ==> ids[i] != ids[j]
        invariant forall id :: id in ids <==> (id in all - left && Passes(id, activeOnly))
      {
        var id :| id in left;
        if id !in sessions {
          return NilDereference, ids;
        }
        left := left - {id};
        assert id !in ids;
        if !(activeOnly && sessions[id].packetType == Spec.PACKET_TYPE_ACCOUNTING_STOP) {
          packets, ids := packets + [sessions[id].packet], ids + [id];
        }
      }
      found := Packets(packets);
    }
  }

  /** Before each entry of the walk the lists are in order, and the entry does what the specification says. */
  lemma WalkStep(view: Spec.Store, conf: Spec.Conf, all: seq<Entry>, i: nat, cutoff: int) returns (before: Spec.Store)
    requires i < |all| && Filed(view) && Distinct(Values(all)) && StoreRuns.Among(view, Values(all))
    ensures before == Spec.ExpireAmong(view, conf, Values(all[..i]), cutoff) && Filed(before)
    ensures Spec.ExpireAmong(view, conf, Values(all[..i + 1]), cutoff) ==
            if all[i].expires <= cutoff then Spec.Delete(before, conf, all[i].Value()) else before
  {
    before := Spec.ExpireAmong(view, conf, Values(all[..i]), cutoff);
    assert Values(all[..i]) == Values(all)[..i];
    StoreRuns.ExpireAmongKeepsFiled(view, conf, Values(all[..i]), cutoff, 0);
    assert Front(Values(all[..i + 1])) == Values(all[..i]) && Last(Values(all[..i + 1])) == all[i].Value();
  }

  /** The walk stands at position `at` of what is left of the list and at position `i` of the original. */
  lemma MovedOn(l: seq<Entry>, at: nat, all: seq<Entry>, i: nat)
    requires i < |all| && at <= |l| && l[at..] == all[i..]
    ensures at < |l| && l[at] == all[i]
    ensures if at + 1 < |l| then i + 1 < |all| && l[at + 1] == all[i + 1] else i + 1 == |all|
    ensures (l[..at] + l[at + 1..])[at..] == all[i + 1..] == l[at + 1..]
  {
    assert |l| - at == |all| - i;
    assert l[at] == l[at..][0];
    assert l[at + 1..] == l[at..][1..];
    if at + 1 < |l| { assert l[at + 1] == l[at..][1]; }
  }

  lemma AppendedValue(nodes: seq<Entry>, e: Entry)
    ensures Values(nodes + [e]) == Values(nodes) + [e.Value()]
  {
  }

  lemma ValuesOf(nodes: seq<Entry>)
    ensures forall e :: e in nodes ==> e.Value() in Values(nodes)
  {
    forall e | e in nodes ensures e.Value() in Values(nodes) {
      var k :| 0 <= k < |nodes| && nodes[k] == e;
      assert Values(nodes)[k] == e.Value();
    }
  }

  lemma RemovedValue(nodes: seq<Entry>, k: nat)
    requires k < |nodes| && Distinct(Values(nodes))
    ensures Values(nodes[..k] + nodes[k + 1..]) == Spec.Without(Values(nodes), nodes[k].Value())
    ensures forall x :: x in nodes[..k] + nodes[k + 1..] <==> x in nodes && x != nodes[k]
  {
    var l := Values(nodes);
    assert forall i :: 0 <= i < |nodes| && i != k ==> l[i].serial != l[k].serial;
    WithoutAt(l, k);
    assert Values(nodes[..k] + nodes[k + 1..]) == l[..k] + l[k + 1..];
    forall x | x in nodes && x != nodes[k] ensures x in nodes[..k] + nodes[k + 1..] {
      var i :| 0 <= i < |nodes| && nodes[i] == x;
      if i < k { assert nodes[..k][i] == x; } else { assert nodes[k + 1..][i - k - 1] == x; }
    }
    assert forall i :: 0 <= i < |nodes| && i != k ==> nodes[i].Value() == l[i];
  }
}
