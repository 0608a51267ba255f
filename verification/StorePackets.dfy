/** What a packet comes to in the store, number by number: its type, whether it gets in, what is kept and until when. */
module StorePackets {
  import opened Common
  import opened Packets
  import opened StoreSpec
  import opened StoreTheorems
  import opened StoreExpiry
  import Decimal

  /** An access request comes before a start, a start before an interim update, and that before a stop. */
  lemma TypesOfPackets(p: Packet)
    ensures PacketType(p) ==
      if p.code == 1 then Some(1)
      else if p.GetInt("Acct-Status-Type") == 1 then Some(2)
      else if p.GetInt("Acct-Status-Type") == 3 then Some(3)
      else if p.GetInt("Acct-Status-Type") == 2 then Some(4)
      else None
  {
  }

  /**
   A packet gets in exactly if its type is known, it is the first of its session or later than what is stored in type,
   session time or timestamp, and it is no access request for a unique value of a session that did not stop.
   */
  lemma GetsInIff(s: Store, conf: Conf, p: Packet, now: int)
    ensures var id, kind := SessionId(conf, p), PacketType(p);
      Push(s, conf, p, now) != s <==>
      && kind.Some?
      && (id !in s.sessions
          || kind.value > s.sessions[id].packetType
          || p.GetInt("Acct-Session-Time") > s.sessions[id].packet.GetInt("Acct-Session-Time")
          || p.GetInt("Event-Timestamp") > s.sessions[id].packet.GetInt("Event-Timestamp"))
      && !(p.code == 1 && exists c, other ::
        && c in conf.indexConf && c.isUnique && p.GetText(c.indexName).Some?
        && other in Held(s.indexes, c.indexName, p.GetText(c.indexName).value)
        && other in s.sessions && s.sessions[other].packetType != 4)
  {
    if Inserts(s, conf, p) {
      assert Push(s, conf, p, now).made == s.made + 1;
    }
    if c, other :|
      && c in conf.indexConf && c.isUnique && p.GetText(c.indexName).Some?
      && other in Held(s.indexes, c.indexName, p.GetText(c.indexName).value)
      && other in s.sessions && s.sessions[other].packetType != 4
    {
      assert Offends(s, c, p, other);
    }
  }

  /**
   A packet that gets in is stored with the configured attributes and three of the store, at the end of the list of its
   type: access requests and stops for the limbo time, starts and interim updates for the expiration time.
   */
  lemma WhatIsStored(s: Store, conf: Conf, p: Packet, now: int)
    requires Push(s, conf, p, now) != s
    ensures var t, id := Push(s, conf, p, now), SessionId(conf, p);
      && id in t.sessions && t.sessions == s.sessions[id := t.sessions[id]]
      && var e := t.sessions[id];
      && e.id == id && Some(e.packetType) == PacketType(p)
      && e.expires == (now + if e.packetType == 1 || e.packetType == 4 then conf.limboTime else conf.expirationTime)
                      / 1_000_000
      && e.packet == Packet(p.code, Keep(p.avps, conf.attributes) + [
        Avp("SessionStore-Expires", Decimal.FormatInt(e.expires), e.expires),
        Avp("SessionStore-LastUpdated", Decimal.FormatInt(now / 1_000_000), now / 1_000_000),
        Avp("SessionStore-Id", id, 0)])
  {
    var kept := Keep(p.avps, conf.attributes);
    var e := Push(s, conf, p, now).sessions[SessionId(conf, p)];
    var first := Avp("SessionStore-Expires", Decimal.FormatInt(e.expires), e.expires);
    var second := Avp("SessionStore-LastUpdated", Decimal.FormatInt(now / 1_000_000), now / 1_000_000);
    var third := Avp("SessionStore-Id", SessionId(conf, p), 0);
    assert e.packet == Packet(p.code, kept + [first] + [second] + [third]);
    assert kept + [first] + [second] + [third] == kept + [first, second, third];
  }

  lemma StoredInList(s: Store, conf: Conf, p: Packet, now: int)
    requires Push(s, conf, p, now) != s && Filed(s)
    ensures var t, id := Push(s, conf, p, now), SessionId(conf, p);
      && id in t.sessions
      && var e := t.sessions[id];
      e in if e.packetType == 1 then t.accepted else if e.packetType == 4 then t.stopped else t.started
  {
    PushKeepsFiled(s, conf, p, now);
    TypesOfPackets(p);
  }

  lemma OverdueIff(s: Store, expireDate: int, limboDate: int, e: Session)
    requires WellListed(s) && e in ListFor(s, e.packetType)
    ensures e in Overdue(s, expireDate, limboDate) <==>
            e.expires <= (if e.packetType == 1 || e.packetType == 4 then limboDate else expireDate) / 1_000_000
  {
    if e.packetType == 1 {
      assert e in s.accepted && e !in s.started && e !in s.stopped;
    } else if e.packetType == 4 {
      assert e in s.stopped && e !in s.started && e !in s.accepted;
    } else {
      assert e in s.started && e !in s.accepted && e !in s.stopped;
    }
  }

  lemma GoneIff(s: Store, t: Store, dead: set<Session>, id: string)
    requires Removed(s, t, dead) && id in s.sessions
    ensures id !in t.sessions <==> s.sessions[id] in dead
  {
  }

  /** A purge takes a session exactly if its time is up at the date for its type. */
  lemma PurgeTakes(s: Store, conf: Conf, expireDate: int, limboDate: int, id: string)
    requires Filed(s) && Linked(s) && id in s.sessions
    ensures var e := s.sessions[id];
      id !in ExpireAll(s, conf, expireDate, limboDate).sessions <==>
      e.expires <= (if e.packetType == 1 || e.packetType == 4 then limboDate else expireDate) / 1_000_000
  {
    ExpireAllRemovesOverdue(s, conf, expireDate, limboDate);
    GoneIff(s, ExpireAll(s, conf, expireDate, limboDate), Overdue(s, expireDate, limboDate), id);
    OverdueIff(s, expireDate, limboDate, s.sessions[id]);
  }
}
