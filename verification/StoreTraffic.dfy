/**
 What the packets themselves have to be like for the lists, the indexes and the unique values to be in order over a
 run.
 */
module StoreTraffic {
  import opened Common
  import opened Packets
  import opened StoreSpec
  import opened StoreTheorems
  import opened StoreIndexes
  import opened StoreExpiry
  import opened StoreRuns
  import opened Convergence

  /** The entry was made of the packet of this event. */
  predicate MadeOf(conf: Conf, x: Session, e: Event) {
    && e.Received? && x.id == SessionId(conf, e.packet) && PacketType(e.packet) == Some(x.packetType)
    && x.packet == StoredPacket(conf, x.packetType, e.packet, e.now)
  }

  ghost predicate Made(conf: Conf, x: Session, events: seq<Event>) {
    exists e :: e in events && MadeOf(conf, x, e)
  }

  ghost predicate AllMade(conf: Conf, s: Store, events: seq<Event>) {
    forall id :: id in s.sessions ==> s.sessions[id].id == id && Made(conf, s.sessions[id], events)
  }

  lemma MadeOfMore(conf: Conf, s: Store, events: seq<Event>, e: Event)
    requires AllMade(conf, s, events)
    ensures AllMade(conf, s, events + [e])
  {
    forall id | id in s.sessions ensures Made(conf, s.sessions[id], events + [e]) {
      var f :| f in events && MadeOf(conf, s.sessions[id], f);
      assert f in events + [e];
    }
  }

  lemma PushedIsMade(conf: Conf, s: Store, events: seq<Event>, p: Packet, now: int)
    requires AllMade(conf, s, events)
    ensures AllMade(conf, Push(s, conf, p, now), events + [Received(p, now)])
  {
    var e := Received(p, now);
    MadeOfMore(conf, s, events, e);
    if Inserts(s, conf, p) {
      var x := NewSession(s, conf, PacketType(p).value, p, now);
      assert e in events + [e] && MadeOf(conf, x, e);
    }
  }

  /** Every entry of a store was made of a packet it received. */
  lemma {:induction false} EntriesAreMade(conf: Conf, events: seq<Event>)
    ensures AllMade(conf, Run(conf, events), events)
  {
    if events != [] {
      var front, s := Front(events), Run(conf, Front(events));
      EntriesAreMade(conf, front);
      assert events == front + [Last(events)];
      match Last(events)
      case Received(p, now) => PushedIsMade(conf, s, front, p, now);
      case Purged(expireDate, limboDate) =>
        MadeOfMore(conf, s, front, Last(events));
        PurgedAreSessions(s, conf, expireDate, limboDate);
    }
  }

  /** The events before about the same session. */
  predicate Earlier(conf: Conf, events: seq<Event>, e: Event, p: Packet) {
    e in events && e.Received? && SessionId(conf, e.packet) == SessionId(conf, p) && PacketType(e.packet).Some?
  }

  /** A number as it is stored: zero for an attribute that is not. */
  function KeptNumber(conf: Conf, p: Packet, name: string): int {
    if name in conf.attributes then p.GetInt(name) else 0
  }

  /** The packet gets in where the entry made of the one before it is stored. */
  predicate Supersedes(conf: Conf, before: Packet, p: Packet)
    requires PacketType(before).Some?
  {
    PacketType(p).Some? && (
      || PacketType(p).value > PacketType(before).value
      || p.GetInt("Acct-Session-Time") > KeptNumber(conf, before, "Acct-Session-Time")
      || p.GetInt("Event-Timestamp") > KeptNumber(conf, before, "Event-Timestamp"))
  }

  lemma NumberKept(conf: Conf, packetType: int, p: Packet, now: int, name: string)
    requires !IsMark(name)
    ensures StoredPacket(conf, packetType, p, now).GetInt(name) == KeptNumber(conf, p, name)
  {
    var stored := StoredPacket(conf, packetType, p, now);
    StoredBody(conf, packetType, p, now);
    FirstUnmarked(stored.avps, name);
    FirstUnmarked(p.Copy(conf.attributes).avps, name);
    FirstOfKept(p.avps, conf.attributes, name);
  }

  lemma NewerIsSupersedes(conf: Conf, x: Session, e: Event, p: Packet)
    requires MadeOf(conf, x, e) && PacketType(p).Some?
    ensures Newer(PacketType(p).value, p, x) <==> Supersedes(conf, e.packet, p)
  {
    NamesWithoutMark("Acct-Session-Time");
    NamesWithoutMark("Event-Timestamp");
    NumberKept(conf, x.packetType, e.packet, e.now, "Acct-Session-Time");
    NumberKept(conf, x.packetType, e.packet, e.now, "Event-Timestamp");
  }

  /** The stored entry a packet gets in over was made of an earlier packet that it supersedes. */
  lemma ReplacedIsSuperseded(conf: Conf, events: seq<Event>, p: Packet) returns (e: Event)
    requires Inserts(Run(conf, events), conf, p) && SessionId(conf, p) in Run(conf, events).sessions
    ensures Earlier(conf, events, e, p) && MadeOf(conf, Run(conf, events).sessions[SessionId(conf, p)], e)
    ensures Supersedes(conf, e.packet, p)
  {
    EntriesAreMade(conf, events);
    var x := Run(conf, events).sessions[SessionId(conf, p)];
    e :| e in events && MadeOf(conf, x, e);
    NewerIsSupersedes(conf, x, e, p);
  }

  // ----- Stops

  /** No packet is later than a stop before it for the same session. */
  ghost predicate NothingAfterStop(conf: Conf, events: seq<Event>) {
    events != [] ==>
    && NothingAfterStop(conf, Front(events))
    && (Last(events).Received? ==> NotAfterStop(conf, Front(events), Last(events).packet))
  }

  ghost predicate NotAfterStop(conf: Conf, events: seq<Event>, p: Packet) {
    forall e :: Earlier(conf, events, e, p) && PacketType(e.packet) == Some(PACKET_TYPE_ACCOUNTING_STOP) ==>
      !Supersedes(conf, e.packet, p)
  }

  lemma StopIsNotReplaced(conf: Conf, events: seq<Event>, p: Packet)
    requires NotAfterStop(conf, events, p)
    ensures !ReplacesStopped(Run(conf, events), conf, p)
  {
    if ReplacesStopped(Run(conf, events), conf, p) {
      var e := ReplacedIsSuperseded(conf, events, p);
    }
  }

  /** Then no stopped session is replaced, and the lists hold exactly the stored sessions all along. */
  lemma {:induction false} NothingAfterStopIsFinal(conf: Conf, events: seq<Event>)
    requires NothingAfterStop(conf, events)
    ensures StopsAreFinal(conf, events)
  {
    if events != [] {
      NothingAfterStopIsFinal(conf, Front(events));
      if Last(events).Received? {
        StopIsNotReplaced(conf, Front(events), Last(events).packet);
      }
    }
  }

  // ----- Indexed values

  /** The indexed attributes are among the stored ones, and not among those the store adds. */
  ghost predicate IndexesAreStored(conf: Conf) {
    Indexable(conf) && forall c :: c in conf.indexConf ==> c.indexName in conf.attributes
  }

  /** An access request may come before an indexed value is known; once there, or once accounting began, it stays. */
  predicate Stays(name: string, before: Packet, p: Packet) {
    || before.GetText(name) == p.GetText(name)
    || (PacketType(before) == Some(PACKET_TYPE_ACCESS_REQUEST) && before.GetText(name).None?)
  }

  /** The indexed values stay from each packet to those of the same session that supersede it. */
  ghost predicate ValuesStay(conf: Conf, events: seq<Event>) {
    events != [] ==>
    && ValuesStay(conf, Front(events))
    && (Last(events).Received? ==> ValuesStayAt(conf, Front(events), Last(events).packet))
  }

  ghost predicate ValuesStayAt(conf: Conf, events: seq<Event>, p: Packet) {
    forall e, c :: Earlier(conf, events, e, p) && Supersedes(conf, e.packet, p) && c in conf.indexConf ==>
      Stays(c.indexName, e.packet, p)
  }

  lemma TextOfEntry(conf: Conf, x: Session, e: Event, name: string)
    requires IndexesAreStored(conf) && MadeOf(conf, x, e) && exists c :: c in conf.indexConf && c.indexName == name
    ensures x.packet.GetText(name) == e.packet.GetText(name)
  {
    StoredText(conf, x.packetType, e.packet, e.now, name);
  }

  lemma PushIsStable(conf: Conf, events: seq<Event>, p: Packet, now: int)
    requires IndexesAreStored(conf) && ValuesStayAt(conf, events, p)
    ensures IndexStable(Run(conf, events), conf, p, now)
  {
    var s, id := Run(conf, events), SessionId(conf, p);
    if Inserts(s, conf, p) {
      var y := NewSession(s, conf, PacketType(p).value, p, now);
      forall c | c in conf.indexConf ensures Steady(s, p, y, c.indexName) {
        TextOfEntry(conf, y, Received(p, now), c.indexName);
        if id in s.sessions {
          var e := ReplacedIsSuperseded(conf, events, p);
          TextOfEntry(conf, s.sessions[id], e, c.indexName);
          assert Stays(c.indexName, e.packet, p);
        }
      }
    }
  }

  /** Then the indexes are exact all along. */
  lemma {:induction false} ValuesThatStayAreSteady(conf: Conf, events: seq<Event>)
    requires IndexesAreStored(conf) && ValuesStay(conf, events)
    ensures ValuesAreSteady(conf, events)
  {
    if events != [] {
      ValuesThatStayAreSteady(conf, Front(events));
      match Last(events)
      case Received(p, now) => PushIsStable(conf, Front(events), p, now);
      case Purged(_, _) =>
    }
  }

  // ----- Unique values

  predicate IsUpdate(p: Packet) {
    p.code != ACCESS_REQUEST && PacketType(p) != Some(PACKET_TYPE_ACCOUNTING_STOP)
  }

  /** Accounting that is no stop has the unique values of each packet of its session that it supersedes. */
  ghost predicate UpdatesRepeatValues(conf: Conf, events: seq<Event>) {
    events != [] ==>
    && UpdatesRepeatValues(conf, Front(events))
    && (Last(events).Received? && IsUpdate(Last(events).packet) ==>
        RepeatsValuesAt(conf, Front(events), Last(events).packet))
  }

  ghost predicate RepeatsValuesAt(conf: Conf, events: seq<Event>, p: Packet) {
    forall e, c :: Earlier(conf, events, e, p) && Supersedes(conf, e.packet, p) && c in conf.indexConf && c.isUnique ==>
      p.GetText(c.indexName) == e.packet.GetText(c.indexName)
  }

  /** Accounting that gets in and is no stop finds its session stored and live, or claims values no live session has. */
  ghost predicate UpdatesFindSessions(conf: Conf, events: seq<Event>) {
    events != [] ==>
    && UpdatesFindSessions(conf, Front(events))
    && (Last(events).Received? ==> FindsSession(Run(conf, Front(events)), conf, Last(events).packet))
  }

  ghost predicate FindsSession(s: Store, conf: Conf, p: Packet) {
    IsUpdate(p) && Inserts(s, conf, p) ==> Live(s, SessionId(conf, p)) || ClaimsFree(s, conf, p)
  }

  lemma UpdateIsFair(conf: Conf, events: seq<Event>, p: Packet)
    requires IndexesAreStored(conf) && FindsSession(Run(conf, events), conf, p)
    requires IsUpdate(p) ==> RepeatsValuesAt(conf, events, p)
    ensures AccountingIsFair(Run(conf, events), conf, p)
  {
    var s, id := Run(conf, events), SessionId(conf, p);
    if IsUpdate(p) && Inserts(s, conf, p) && Live(s, id) {
      var e := ReplacedIsSuperseded(conf, events, p);
      forall c | c in conf.indexConf && c.isUnique
        ensures p.GetText(c.indexName) == s.sessions[id].packet.GetText(c.indexName)
      {
        TextOfEntry(conf, s.sessions[id], e, c.indexName);
      }
    }
  }

  lemma {:induction false} UpdatesAreFair(conf: Conf, events: seq<Event>)
    requires IndexesAreStored(conf) && UpdatesRepeatValues(conf, events) && UpdatesFindSessions(conf, events)
    ensures AccountingRepeats(conf, events)
  {
    if events != [] {
      UpdatesAreFair(conf, Front(events));
      if Last(events).Received? {
        UpdateIsFair(conf, Front(events), Last(events).packet);
      }
    }
  }

  /**
   With packets like these the lists hold exactly the sessions, the indexes answer like a scan, and no two live
   sessions share a unique value, at the end of any run.
   */
  lemma OrderlyTrafficKeepsOrder(conf: Conf, events: seq<Event>)
    requires IndexesAreStored(conf) && NothingAfterStop(conf, events) && ValuesStay(conf, events)
    requires UpdatesRepeatValues(conf, events) && UpdatesFindSessions(conf, events)
    ensures var s := Run(conf, events); Filed(s) && Linked(s) && IndexExact(s, conf) && UniquelyHeld(s, conf)
  {
    NothingAfterStopIsFinal(conf, events);
    ValuesThatStayAreSteady(conf, events);
    UpdatesAreFair(conf, events);
    FinalStopsLink(conf, events);
    ExactIffSteady(conf, events);
    EveryRunIsUnique(conf, events);
  }
}
