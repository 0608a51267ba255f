/** When the secondary indexes say the same as a scan of the sessions, and what that buys. */
module StoreIndexes {
  import opened Common
  import opened Packets
  import opened StoreSpec

  ghost predicate Indexed(indexConf: seq<IndexConf>, name: string) {
    exists c :: c in indexConf && c.indexName == name
  }

  lemma {:induction false} AddedIds(ix: Index, indexConf: seq<IndexConf>, p: Packet, id: string, name: string,
        value: string)
    ensures Held(AddToIndexes(ix, indexConf, p, id), name, value) ==
            Held(ix, name, value) + if Indexed(indexConf, name) && p.GetText(name) == Some(value) then {id} else {}
  {
    if indexConf != [] {
      AddedIds(ix, Front(indexConf), p, id, name, value);
      assert forall c :: c in indexConf <==> c in Front(indexConf) || c == Last(indexConf);
    }
  }

  lemma {:induction false} DroppedIds(ix: Index, indexConf: seq<IndexConf>, p: Packet, id: string, name: string,
        value: string)
    ensures Held(DropFromIndexes(ix, indexConf, p, id), name, value) ==
            Held(ix, name, value) - if Indexed(indexConf, name) && p.GetText(name) == Some(value) then {id} else {}
  {
    if indexConf != [] {
      DroppedIds(ix, Front(indexConf), p, id, name, value);
      assert forall c :: c in indexConf <==> c in Front(indexConf) || c == Last(indexConf);
    }
  }

  /** A scan of the sessions would find `id` for this value. */
  ghost predicate Scanned(s: Store, name: string, value: string, id: string) {
    id in s.sessions && s.sessions[id].packet.GetText(name) == Some(value)
  }

  /** No index entry dangles and none is missing. */
  ghost predicate IndexExact(s: Store, conf: Conf) {
    forall c, value, id :: c in conf.indexConf ==>
      (id in Held(s.indexes, c.indexName, value) <==> Scanned(s, c.indexName, value, id))
  }

  function PriorText(s: Store, id: string, name: string): Option<string> {
    if id in s.sessions then s.sessions[id].packet.GetText(name) else None
  }

  /**
   The values under which the id is filed after the insertion of `e` are the one it had and, when the
   indexes are refreshed, the one the packet claims. Both have to be the value that gets stored.
   */
  predicate Steady(s: Store, p: Packet, e: Session, name: string) {
    var prior, stored := PriorText(s, e.id, name), e.packet.GetText(name);
    var claimed := if Refreshes(s, e.id) then p.GetText(name) else prior;
    && (prior.Some? ==> prior == stored)
    && (claimed.Some? ==> claimed == stored)
    && (stored.Some? ==> stored == prior || stored == claimed)
  }

  lemma FiledUnder(s: Store, conf: Conf, p: Packet, e: Session, c: IndexConf, value: string, id: string)
    requires IndexExact(s, conf) && c in conf.indexConf
    ensures id in Held(Reindex(s, conf, p, e.id), c.indexName, value) <==>
            || Scanned(s, c.indexName, value, id)
            || (id == e.id && Refreshes(s, e.id) && p.GetText(c.indexName) == Some(value))
  {
    AddedIds(s.indexes, conf.indexConf, p, e.id, c.indexName, value);
    assert id in Held(s.indexes, c.indexName, value) <==> Scanned(s, c.indexName, value, id);
  }

  lemma InsertKeepsIndexIff(s: Store, conf: Conf, p: Packet, e: Session)
    requires IndexExact(s, conf)
    ensures IndexExact(Insert(s, conf, p, e), conf) <==>
            forall c :: c in conf.indexConf ==> Steady(s, p, e, c.indexName)
  {
    var t := Insert(s, conf, p, e);
    if forall c :: c in conf.indexConf ==> Steady(s, p, e, c.indexName) {
      forall c, value, id | c in conf.indexConf
        ensures id in Held(t.indexes, c.indexName, value) <==> Scanned(t, c.indexName, value, id)
      {
        FiledUnder(s, conf, p, e, c, value, id);
        assert Steady(s, p, e, c.indexName);
      }
    }
    if IndexExact(t, conf) {
      forall c | c in conf.indexConf ensures Steady(s, p, e, c.indexName) {
        var name := c.indexName;
        forall value: string
          ensures (PriorText(s, e.id, name) == Some(value) || (Refreshes(s, e.id) && p.GetText(name) == Some(value)))
                  <==> e.packet.GetText(name) == Some(value)
        {
          FiledUnder(s, conf, p, e, c, value, e.id);
          assert e.id in Held(t.indexes, name, value) <==> Scanned(t, name, value, e.id);
        }
      }
    }
  }

  ghost predicate IndexStable(s: Store, conf: Conf, p: Packet, now: int) {
    Inserts(s, conf, p) ==>
      forall c :: c in conf.indexConf ==>
        Steady(s, p, NewSession(s, conf, PacketType(p).value, p, now), c.indexName)
  }

  /** A push keeps index queries equal to scans exactly when the indexed values are steady. */
  lemma PushKeepsIndexIff(s: Store, conf: Conf, p: Packet, now: int)
    requires IndexExact(s, conf)
    ensures IndexExact(Push(s, conf, p, now), conf) <==> IndexStable(s, conf, p, now)
  {
    if Inserts(s, conf, p) {
      InsertKeepsIndexIff(s, conf, p, NewSession(s, conf, PacketType(p).value, p, now));
    }
  }

  /** No index is kept on an attribute that the store itself adds. */
  ghost predicate Indexable(conf: Conf) {
    forall c :: c in conf.indexConf ==>
      c.indexName !in ["SessionStore-Expires", "SessionStore-LastUpdated", "SessionStore-Id"]
  }

  lemma StoredText(conf: Conf, packetType: int, p: Packet, now: int, name: string)
    requires name !in ["SessionStore-Expires", "SessionStore-LastUpdated", "SessionStore-Id"]
    ensures StoredPacket(conf, packetType, p, now).GetText(name) ==
            if name in conf.attributes then p.GetText(name) else None
  {
    var p0 := p.Copy(conf.attributes);
    var a1 := NumberAvp("SessionStore-Expires", Expires(conf, packetType, now));
    var a2 := NumberAvp("SessionStore-LastUpdated", UnixMilli(now));
    var a3 := Avp("SessionStore-Id", SessionId(conf, p), 0);
    FirstOfKept(p.avps, conf.attributes, name);
    FirstOfAppended(p0.avps, a1, name);
    FirstOfAppended(p0.Add(a1).avps, a2, name);
    FirstOfAppended(p0.Add(a1).Add(a2).avps, a3, name);
  }

  // ----- Unique indexes

  predicate Live(s: Store, id: string) {
    id in s.sessions && s.sessions[id].packetType != PACKET_TYPE_ACCOUNTING_STOP
  }

  /** No two sessions that are not stopped share a value of a unique index. */
  ghost predicate UniquelyHeld(s: Store, conf: Conf) {
    forall c, value, id, id' ::
      && c in conf.indexConf && c.isUnique
      && Live(s, id) && Live(s, id')
      && Scanned(s, c.indexName, value, id) && Scanned(s, c.indexName, value, id')
      ==> id == id'
  }

  /** Some other live session has the value of a unique index that `e` would have. */
  ghost predicate Taken(s: Store, conf: Conf, e: Session) {
    exists c, value, id ::
      && c in conf.indexConf && c.isUnique
      && id != e.id && Live(s, id) && Scanned(s, c.indexName, value, id)
      && e.packet.GetText(c.indexName) == Some(value)
  }

  lemma InsertKeepsUniqueIff(s: Store, conf: Conf, p: Packet, e: Session)
    requires UniquelyHeld(s, conf)
    ensures UniquelyHeld(Insert(s, conf, p, e), conf) <==>
            e.packetType == PACKET_TYPE_ACCOUNTING_STOP || !Taken(s, conf, e)
  {
    var t := Insert(s, conf, p, e);
    assert t.sessions == s.sessions[e.id := e];
    assert forall id :: id != e.id ==> (Live(t, id) <==> Live(s, id));
    assert forall id, name, value :: id != e.id ==> (Scanned(t, name, value, id) <==> Scanned(s, name, value, id));
    if Taken(s, conf, e) && e.packetType != PACKET_TYPE_ACCOUNTING_STOP {
      var c, value, id :|
        && c in conf.indexConf && c.isUnique
        && id != e.id && Live(s, id) && Scanned(s, c.indexName, value, id)
        && e.packet.GetText(c.indexName) == Some(value);
      assert Scanned(t, c.indexName, value, id) && Scanned(t, c.indexName, value, e.id) && Live(t, id) && Live(t, e.id);
    }
  }

  /** An access request never breaks uniqueness: the indexes answer for the sessions, so the check is complete. */
  lemma AccessRequestKeepsUnique(s: Store, conf: Conf, p: Packet, now: int)
    requires IndexExact(s, conf) && UniquelyHeld(s, conf) && Indexable(conf)
    requires p.code == ACCESS_REQUEST
    ensures UniquelyHeld(Push(s, conf, p, now), conf)
  {
    if Inserts(s, conf, p) {
      var e := NewSession(s, conf, PACKET_TYPE_ACCESS_REQUEST, p, now);
      InsertKeepsUniqueIff(s, conf, p, e);
      if Taken(s, conf, e) {
        var c, value, id :|
          && c in conf.indexConf && c.isUnique
          && id != e.id && Live(s, id) && Scanned(s, c.indexName, value, id)
          && e.packet.GetText(c.indexName) == Some(value);
        StoredText(conf, PACKET_TYPE_ACCESS_REQUEST, p, now, c.indexName);
        assert id in Held(s.indexes, c.indexName, value);
        assert Offends(s, c, p, id);
        assert false;
      }
    }
  }

  /** The packet gets in, and makes a live session with a unique value that another one has. */
  ghost predicate TakesOver(s: Store, conf: Conf, p: Packet, now: int) {
    && Inserts(s, conf, p) && PacketType(p) != Some(PACKET_TYPE_ACCOUNTING_STOP)
    && Taken(s, conf, NewSession(s, conf, PacketType(p).value, p, now))
  }

  /** A push keeps unique values unique exactly when it does not take one over. */
  lemma PushKeepsUniqueIff(s: Store, conf: Conf, p: Packet, now: int)
    requires UniquelyHeld(s, conf)
    ensures UniquelyHeld(Push(s, conf, p, now), conf) <==> !TakesOver(s, conf, p, now)
  {
    if Inserts(s, conf, p) {
      InsertKeepsUniqueIff(s, conf, p, NewSession(s, conf, PacketType(p).value, p, now));
    }
  }

  /** An update of a live session that repeats the unique values it holds. */
  ghost predicate RepeatsUnique(s: Store, conf: Conf, p: Packet) {
    && Live(s, SessionId(conf, p))
    && forall c :: c in conf.indexConf && c.isUnique ==>
         p.GetText(c.indexName) == s.sessions[SessionId(conf, p)].packet.GetText(c.indexName)
  }

  /** No other live session has a unique value that the packet has. */
  ghost predicate ClaimsFree(s: Store, conf: Conf, p: Packet) {
    forall c, value, id ::
      && c in conf.indexConf && c.isUnique && p.GetText(c.indexName) == Some(value)
      && Live(s, id) && Scanned(s, c.indexName, value, id)
      ==> id == SessionId(conf, p)
  }

  lemma AccountingTakesNothing(s: Store, conf: Conf, p: Packet, now: int)
    requires UniquelyHeld(s, conf) && Indexable(conf) && (RepeatsUnique(s, conf, p) || ClaimsFree(s, conf, p))
    ensures !TakesOver(s, conf, p, now)
  {
    if TakesOver(s, conf, p, now) {
      var e := NewSession(s, conf, PacketType(p).value, p, now);
      var c, value, id :|
        && c in conf.indexConf && c.isUnique
        && id != e.id && Live(s, id) && Scanned(s, c.indexName, value, id)
        && e.packet.GetText(c.indexName) == Some(value);
      StoredText(conf, PacketType(p).value, p, now, c.indexName);
      assert p.GetText(c.indexName) == Some(value);
      if RepeatsUnique(s, conf, p) {
        assert Scanned(s, c.indexName, value, e.id);
      }
    }
  }

  /** A rejected packet claims a value that a live session holds, and leaves no trace. */
  lemma RejectionIsJustified(s: Store, conf: Conf, p: Packet, now: int)
    requires IndexExact(s, conf)
    requires p.code == ACCESS_REQUEST && DoInsert(s, SessionId(conf, p), PACKET_TYPE_ACCESS_REQUEST, p)
    ensures Rejected(s, conf, PACKET_TYPE_ACCESS_REQUEST, p) <==>
            exists c, id :: && c in conf.indexConf && c.isUnique && p.GetText(c.indexName).Some? && Live(s, id)
                            && Scanned(s, c.indexName, p.GetText(c.indexName).value, id)
    ensures Rejected(s, conf, PACKET_TYPE_ACCESS_REQUEST, p) ==> Push(s, conf, p, now) == s
  {
    forall c, id | c in conf.indexConf && c.isUnique && p.GetText(c.indexName).Some?
      ensures Offends(s, c, p, id) <==> Live(s, id) && Scanned(s, c.indexName, p.GetText(c.indexName).value, id)
    {
      assert id in Held(s.indexes, c.indexName, p.GetText(c.indexName).value) <==>
             Scanned(s, c.indexName, p.GetText(c.indexName).value, id);
    }
  }
}
