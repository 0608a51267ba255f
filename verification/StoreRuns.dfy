/** The session store over whole runs of received packets and purges. */
module StoreRuns {
  import opened Common
  import opened Packets
  import opened StoreSpec
  import opened StoreTheorems
  import opened StoreIndexes
  import opened StoreExpiry

  // ----- What every run keeps

  lemma DeleteKeepsFiled(s: Store, conf: Conf, e: Session)
    requires Filed(s) && e in ListFor(s, e.packetType)
    ensures Filed(Delete(s, conf, e))
  {
    UnlinkListed(s, e);
  }

  ghost predicate Among(s: Store, entries: seq<Session>) {
    forall x :: x in entries ==> x in ListFor(s, x.packetType)
  }

  lemma {:induction false} ExpireAmongKeepsFiled(s: Store, conf: Conf, entries: seq<Session>, cutoff: int, now: int)
    requires Filed(s) && Distinct(entries) && Among(s, entries)
    ensures Filed(ExpireAmong(s, conf, entries, cutoff))
    ensures forall x: Session :: x in ListFor(s, x.packetType) && x !in entries ==>
              x in ListFor(ExpireAmong(s, conf, entries, cutoff), x.packetType)
    ensures Ordered(s, conf, now) ==> Ordered(ExpireAmong(s, conf, entries, cutoff), conf, now)
  {
    if entries != [] {
      var e, front := Last(entries), Front(entries);
      LastOfDistinct(entries, cutoff);
      assert e in entries;
      ExpireAmongKeepsFiled(s, conf, front, cutoff, now);
      var t := ExpireAmong(s, conf, front, cutoff);
      DeleteKeepsFiled(t, conf, e);
      UnlinkListed(t, e);
      if Ordered(s, conf, now) {
        UnlinkKeepsOrdered(t, conf, now, e);
      }
    }
  }

  lemma ExpireAllKeepsFiled(s: Store, conf: Conf, expireDate: int, limboDate: int, now: int)
    requires Filed(s)
    ensures Filed(ExpireAll(s, conf, expireDate, limboDate))
    ensures Ordered(s, conf, now) ==> Ordered(ExpireAll(s, conf, expireDate, limboDate), conf, now)
  {
    ExpireAmongKeepsFiled(s, conf, s.accepted, UnixMilli(limboDate), now);
    var s1 := ExpireAmong(s, conf, s.accepted, UnixMilli(limboDate));
    ExpireAmongKeepsFiled(s1, conf, s1.started, UnixMilli(expireDate), now);
    var s2 := ExpireAmong(s1, conf, s1.started, UnixMilli(expireDate));
    ExpireAmongKeepsFiled(s2, conf, s2.stopped, UnixMilli(limboDate), now);
  }

  lemma RunExtends(conf: Conf, events: seq<Event>, e: Event)
    ensures Run(conf, events + [e]) == Step(Run(conf, events), conf, e)
  {
    assert Front(events + [e]) == events;
  }

  /** Whatever is pushed and purged, every stored session is in the list of its type, and the lists are disjoint. */
  lemma {:induction false} EveryRunIsFiled(conf: Conf, events: seq<Event>)
    ensures Filed(Run(conf, events))
  {
    if events != [] {
      EveryRunIsFiled(conf, Front(events));
      match Last(events)
      case Received(p, now) => PushKeepsFiled(Run(conf, Front(events)), conf, p, now);
      case Purged(expireDate, limboDate) =>
        ExpireAllKeepsFiled(Run(conf, Front(events)), conf, expireDate, limboDate, 0);
    }
  }

  // ----- Sorted lists

  /** The packets carry times that do not go back and do not pass `now`. */
  predicate Clocked(events: seq<Event>, now: int) {
    events == [] ||
    match Last(events)
    case Received(_, at) => at <= now && Clocked(Front(events), at)
    case Purged(_, _) => Clocked(Front(events), now)
  }

  lemma {:induction false} EveryRunIsOrdered(conf: Conf, events: seq<Event>, now: int)
    requires Clocked(events, now)
    ensures Ordered(Run(conf, events), conf, now)
  {
    if events != [] {
      var s := Run(conf, Front(events));
      EveryRunIsFiled(conf, Front(events));
      match Last(events)
      case Received(p, at) =>
        EveryRunIsOrdered(conf, Front(events), at);
        PushKeepsOrdered(s, conf, p, at, at);
        LaterIsOrdered(Run(conf, events), conf, at, now);
      case Purged(expireDate, limboDate) =>
        EveryRunIsOrdered(conf, Front(events), now);
        ExpireAllKeepsFiled(s, conf, expireDate, limboDate, now);
    }
  }

  // ----- Lists and sessions

  /** No packet of the run replaces a stopped session. */
  ghost predicate StopsAreFinal(conf: Conf, events: seq<Event>) {
    events != [] ==>
    && StopsAreFinal(conf, Front(events))
    && (Last(events).Received? ==> !ReplacesStopped(Run(conf, Front(events)), conf, Last(events).packet))
  }

  ghost predicate AlwaysLinked(conf: Conf, events: seq<Event>) {
    Linked(Run(conf, events)) && (events != [] ==> AlwaysLinked(conf, Front(events)))
  }

  /**
   At every point of a run the lists hold exactly the stored sessions, if and only if no stopped session is replaced.
   */
  lemma {:induction false} LinkedIffStopsAreFinal(conf: Conf, events: seq<Event>)
    ensures AlwaysLinked(conf, events) <==> StopsAreFinal(conf, events)
  {
    if events != [] {
      var front := Front(events);
      var s := Run(conf, front);
      LinkedIffStopsAreFinal(conf, front);
      EveryRunIsFiled(conf, front);
      if AlwaysLinked(conf, front) {
        match Last(events)
        case Received(p, now) => PushKeepsLinkedIff(s, conf, p, now);
        case Purged(expireDate, limboDate) => ExpireAllRemovesOverdue(s, conf, expireDate, limboDate);
      }
    }
  }

  lemma FinalStopsLink(conf: Conf, events: seq<Event>)
    requires StopsAreFinal(conf, events)
    ensures Filed(Run(conf, events)) && Linked(Run(conf, events))
  {
    LinkedIffStopsAreFinal(conf, events);
    EveryRunIsFiled(conf, events);
  }

  // ----- A stopped session that comes back

  lemma RunOfThree(conf: Conf, e1: Event, e2: Event, e3: Event)
    ensures Run(conf, [e1, e2]) == Step(Step(Empty(conf), conf, e1), conf, e2)
    ensures Run(conf, [e1, e2, e3]) == Step(Run(conf, [e1, e2]), conf, e3)
  {
    assert Front([e1]) == [] && Front([e1, e2]) == [e1] && Front([e1, e2, e3]) == [e1, e2];
    assert Run(conf, []) == Empty(conf);
    assert Run(conf, [e1]) == Step(Empty(conf), conf, e1);
  }

  lemma ExpireLone(s: Store, conf: Conf, x: Session, cutoff: int)
    ensures ExpireAmong(s, conf, [], cutoff) == s
    ensures ExpireAmong(s, conf, [x], cutoff) == if x.expires <= cutoff then Delete(s, conf, x) else s
  {
    assert Front([x]) == [];
  }

  const SHORT_LIMBO := Conf([], [], [], 1_000_000_000, 0)
  const LONE_STOP := Packet(ACCOUNTING_REQUEST, [Avp("Acct-Status-Type", "Stop", 2)])
  const LONGER_START := Packet(ACCOUNTING_REQUEST,
      [Avp("Acct-Status-Type", "Start", 1), Avp("Acct-Session-Time", "5", 5)])

  function StopEntry(): Session {
    Session(0, "", PACKET_TYPE_ACCOUNTING_STOP, StoredPacket(SHORT_LIMBO, PACKET_TYPE_ACCOUNTING_STOP, LONE_STOP, 0), 0)
  }

  function StartEntry(): Session {
    Session(1, "", PACKET_TYPE_ACCOUNTING_START,
        StoredPacket(SHORT_LIMBO, PACKET_TYPE_ACCOUNTING_START, LONGER_START, 0), 1000)
  }

  function AfterStop(): Store {
    Store(map["" := StopEntry()], map[], [], [], [StopEntry()], 1)
  }

  function AfterReturn(): Store {
    Store(map["" := StartEntry()], map[], [], [StartEntry()], [StopEntry()], 2)
  }

  lemma StopGetsIn()
    ensures Step(Empty(SHORT_LIMBO), SHORT_LIMBO, Received(LONE_STOP, 0)) == AfterStop()
  {
    var s, x := Empty(SHORT_LIMBO), StopEntry();
    assert x == NewSession(s, SHORT_LIMBO, PACKET_TYPE_ACCOUNTING_STOP, LONE_STOP, 0);
    assert s.sessions[x.id := x] == map["" := x];
  }

  lemma StartIsLonger()
    ensures DoInsert(AfterStop(), "", PACKET_TYPE_ACCOUNTING_START, LONGER_START)
  {
    NoSessionTime(SHORT_LIMBO, PACKET_TYPE_ACCOUNTING_STOP, LONE_STOP, 0);
    assert LONGER_START.avps[1..] == [Avp("Acct-Session-Time", "5", 5)];
    assert FirstNamed(LONGER_START.avps, "Acct-Session-Time") == Some(Avp("Acct-Session-Time", "5", 5));
  }

  lemma StepInserts(s: Store, conf: Conf, p: Packet, now: int, x: Session)
    requires Inserts(s, conf, p) && x == NewSession(s, conf, PacketType(p).value, p, now)
    ensures Step(s, conf, Received(p, now)) == Insert(s, conf, p, x)
  {
  }

  lemma StartTakesOver()
    ensures Insert(AfterStop(), SHORT_LIMBO, LONGER_START, StartEntry()) == AfterReturn()
  {
    var s, y := AfterStop(), StartEntry();
    assert s.sessions[y.id := y] == map["" := y];
    assert Relink(s, y).started == [y] && Relink(s, y).stopped == [StopEntry()];
  }

  lemma StartReplacesStop()
    ensures Step(AfterStop(), SHORT_LIMBO, Received(LONGER_START, 0)) == AfterReturn()
  {
    var s, y := AfterStop(), StartEntry();
    StartIsLonger();
    assert y == NewSession(s, SHORT_LIMBO, PACKET_TYPE_ACCOUNTING_START, LONGER_START, 0);
    StepInserts(s, SHORT_LIMBO, LONGER_START, 0, y);
    StartTakesOver();
  }

  lemma PurgeTakesTheLiveOne()
    ensures Step(AfterReturn(), SHORT_LIMBO, Purged(0, 0)) == Store(map[], map[], [], [StartEntry()], [], 2)
  {
    var s := AfterReturn();
    ExpireLone(s, SHORT_LIMBO, StartEntry(), 0);
    ExpireLone(s, SHORT_LIMBO, StopEntry(), 0);
    assert s.sessions - {""} == map[];
  }

  /** A stopped session comes back with a longer time, and the purge of the stopped entry takes the live one. */
  lemma ReplacedStopLosesLiveSession()
    ensures
      var before := Run(SHORT_LIMBO, [Received(LONE_STOP, 0), Received(LONGER_START, 0)]);
      var after := Run(SHORT_LIMBO, [Received(LONE_STOP, 0), Received(LONGER_START, 0), Purged(0, 0)]);
      && Live(before, "") && before.sessions[""].expires > UnixMilli(0)
      && after.sessions == map[] && after.started == before.started && |after.started| == 1
  {
    RunOfThree(SHORT_LIMBO, Received(LONE_STOP, 0), Received(LONGER_START, 0), Purged(0, 0));
    StopGetsIn();
    StartReplacesStop();
    PurgeTakesTheLiveOne();
  }

  lemma NoSessionTime(conf: Conf, packetType: int, p: Packet, now: int)
    requires "Acct-Session-Time" !in conf.attributes
    ensures StoredPacket(conf, packetType, p, now).GetInt("Acct-Session-Time") == 0
  {
    StoredText(conf, packetType, p, now, "Acct-Session-Time");
  }

  // ----- Queries by index

  /** Every packet that gets in leaves the indexed values of its session as they are filed. */
  ghost predicate ValuesAreSteady(conf: Conf, events: seq<Event>) {
    events != [] ==>
    && ValuesAreSteady(conf, Front(events))
    && (Last(events).Received? ==> IndexStable(Run(conf, Front(events)), conf, Last(events).packet, Last(events).now))
  }

  ghost predicate AlwaysExact(conf: Conf, events: seq<Event>) {
    IndexExact(Run(conf, events), conf) && (events != [] ==> AlwaysExact(conf, Front(events)))
  }

  /** With final stops, the indexes agree with a scan at every point of a run if and only if the values are steady. */
  lemma {:induction false} ExactIffSteady(conf: Conf, events: seq<Event>)
    requires StopsAreFinal(conf, events)
    ensures AlwaysExact(conf, events) <==> ValuesAreSteady(conf, events)
  {
    if events != [] {
      var front := Front(events);
      var s := Run(conf, front);
      ExactIffSteady(conf, front);
      FinalStopsLink(conf, front);
      if AlwaysExact(conf, front) {
        match Last(events)
        case Received(p, now) => PushKeepsIndexIff(s, conf, p, now);
        case Purged(expireDate, limboDate) => ExpireAllRemovesOverdue(s, conf, expireDate, limboDate);
      }
    }
  }

  const BY_NAME := IndexConf("User-Name", false)
  const NAMED := Conf(["User-Name"], [], [BY_NAME], 0, 0)
  const START_AS_A := Packet(ACCOUNTING_REQUEST, [Avp("Acct-Status-Type", "Start", 1), Avp("User-Name", "a", 0)])
  const INTERIM_AS_B := Packet(ACCOUNTING_REQUEST,
      [Avp("Acct-Status-Type", "Interim-Update", 3), Avp("User-Name", "b", 0)])

  function EntryOf(serial: nat, packetType: int, p: Packet): Session {
    Session(serial, "", packetType, StoredPacket(NAMED, packetType, p, 0), 0)
  }

  /** One started session, whose packet need not have the value the index has. */
  function AfterOne(serial: nat, packetType: int, p: Packet): Store {
    Store(map["" := EntryOf(serial, packetType, p)], AddToIndexes(Empty(NAMED).indexes, [BY_NAME], START_AS_A, ""),
          [], [EntryOf(serial, packetType, p)], [], serial + 1)
  }

  lemma StartIsIndexed()
    ensures Step(Empty(NAMED), NAMED, Received(START_AS_A, 0)) == AfterOne(0, PACKET_TYPE_ACCOUNTING_START, START_AS_A)
  {
    var s, x := Empty(NAMED), EntryOf(0, PACKET_TYPE_ACCOUNTING_START, START_AS_A);
    assert x == NewSession(s, NAMED, PACKET_TYPE_ACCOUNTING_START, START_AS_A, 0);
    assert s.sessions[x.id := x] == map["" := x];
  }

  lemma InterimIsNotIndexed()
    ensures Step(AfterOne(0, PACKET_TYPE_ACCOUNTING_START, START_AS_A), NAMED, Received(INTERIM_AS_B, 0)) ==
            AfterOne(1, PACKET_TYPE_ACCOUNTING_INTERIM, INTERIM_AS_B)
  {
    var s := AfterOne(0, PACKET_TYPE_ACCOUNTING_START, START_AS_A);
    var x, y := s.started[0], EntryOf(1, PACKET_TYPE_ACCOUNTING_INTERIM, INTERIM_AS_B);
    assert y == NewSession(s, NAMED, PACKET_TYPE_ACCOUNTING_INTERIM, INTERIM_AS_B, 0);
    assert [x] + [y] == [x, y] && Without([x, y], x) == [y];
    assert s.sessions[y.id := y] == map["" := y];
  }

  lemma PurgeKeepsTheOldValue(s: Store)
    requires s == AfterOne(1, PACKET_TYPE_ACCOUNTING_INTERIM, INTERIM_AS_B)
    ensures "" !in Step(s, NAMED, Purged(0, 0)).sessions
    ensures "" in Held(Step(s, NAMED, Purged(0, 0)).indexes, "User-Name", "a")
  {
    var y := s.started[0];
    ExpireLone(s, NAMED, y, 0);
    ExpireLone(Delete(s, NAMED, y), NAMED, y, 0);
    assert Delete(s, NAMED, y).stopped == [];
    assert START_AS_A.avps[1..] == [Avp("User-Name", "a", 0)] && INTERIM_AS_B.avps[1..] == [Avp("User-Name", "b", 0)];
    assert START_AS_A.GetText("User-Name") == Some("a") && INTERIM_AS_B.GetText("User-Name") == Some("b");
    assert BY_NAME in [BY_NAME];
    AddedIds(Empty(NAMED).indexes, [BY_NAME], START_AS_A, "", "User-Name", "a");
    StoredText(NAMED, PACKET_TYPE_ACCOUNTING_INTERIM, INTERIM_AS_B, 0, "User-Name");
    DroppedIds(s.indexes, [BY_NAME], y.packet, "", "User-Name", "a");
  }

  /** A session that changes an indexed value leaves the first value behind when it expires. */
  lemma ChangedValueDangles()
    ensures var s := Run(NAMED, [Received(START_AS_A, 0), Received(INTERIM_AS_B, 0), Purged(0, 0)]);
      "" in Held(s.indexes, "User-Name", "a") && "" !in s.sessions
  {
    RunOfThree(NAMED, Received(START_AS_A, 0), Received(INTERIM_AS_B, 0), Purged(0, 0));
    StartIsIndexed();
    InterimIsNotIndexed();
    PurgeKeepsTheOldValue(AfterOne(1, PACKET_TYPE_ACCOUNTING_INTERIM, INTERIM_AS_B));
  }

  // ----- Unique values

  /** No packet of the run takes over a unique value of another live session. */
  ghost predicate NothingTakenOver(conf: Conf, events: seq<Event>) {
    events != [] ==>
    && NothingTakenOver(conf, Front(events))
    && (Last(events).Received? ==> !TakesOver(Run(conf, Front(events)), conf, Last(events).packet, Last(events).now))
  }

  ghost predicate AlwaysUnique(conf: Conf, events: seq<Event>) {
    UniquelyHeld(Run(conf, events), conf) && (events != [] ==> AlwaysUnique(conf, Front(events)))
  }

  /** At every point of a run no two live sessions share a unique value, if and only if no packet takes one over. */
  lemma {:induction false} UniqueIffNothingTakenOver(conf: Conf, events: seq<Event>)
    ensures AlwaysUnique(conf, events) <==> NothingTakenOver(conf, events)
  {
    if events != [] {
      var front := Front(events);
      var s := Run(conf, front);
      UniqueIffNothingTakenOver(conf, front);
      if AlwaysUnique(conf, front) {
        match Last(events)
        case Received(p, now) => PushKeepsUniqueIff(s, conf, p, now);
        case Purged(expireDate, limboDate) => ExpiryKeepsUnique(s, conf, expireDate, limboDate);
      }
    }
  }

  /** Accounting that gets in and is no stop repeats the unique values of its live session, or claims free ones. */
  ghost predicate AccountingRepeats(conf: Conf, events: seq<Event>) {
    events != [] ==>
    && AccountingRepeats(conf, Front(events))
    && (Last(events).Received? ==> AccountingIsFair(Run(conf, Front(events)), conf, Last(events).packet))
  }

  ghost predicate AccountingIsFair(s: Store, conf: Conf, p: Packet) {
    p.code != ACCESS_REQUEST && PacketType(p) != Some(PACKET_TYPE_ACCOUNTING_STOP) && Inserts(s, conf, p) ==>
      RepeatsUnique(s, conf, p) || ClaimsFree(s, conf, p)
  }

  lemma FairPushTakesNothing(s: Store, conf: Conf, p: Packet, now: int)
    requires IndexExact(s, conf) && UniquelyHeld(s, conf) && Indexable(conf) && AccountingIsFair(s, conf, p)
    ensures !TakesOver(s, conf, p, now)
  {
    if p.code == ACCESS_REQUEST {
      AccessRequestKeepsUnique(s, conf, p, now);
      PushKeepsUniqueIff(s, conf, p, now);
    } else if RepeatsUnique(s, conf, p) || ClaimsFree(s, conf, p) {
      AccountingTakesNothing(s, conf, p, now);
    }
  }

  /** At most one live session ever holds a given value of a unique index, whatever the access requests claim. */
  lemma {:induction false} EveryRunIsUnique(conf: Conf, events: seq<Event>)
    requires Indexable(conf)
    requires StopsAreFinal(conf, events) && ValuesAreSteady(conf, events) && AccountingRepeats(conf, events)
    ensures AlwaysUnique(conf, events)
  {
    if events != [] {
      var front := Front(events);
      var s := Run(conf, front);
      EveryRunIsUnique(conf, front);
      FinalStopsLink(conf, front);
      ExactIffSteady(conf, front);
      match Last(events)
      case Received(p, now) =>
        FairPushTakesNothing(s, conf, p, now);
        PushKeepsUniqueIff(s, conf, p, now);
      case Purged(expireDate, limboDate) => ExpiryKeepsUnique(s, conf, expireDate, limboDate);
    }
  }

  const BY_ADDRESS := IndexConf("Framed-IP-Address", true)
  const ADDRESSED := Conf(["Framed-IP-Address"], ["Acct-Session-Id"], [BY_ADDRESS], 0, 0)

  function StartOf(id: string): Packet {
    Packet(ACCOUNTING_REQUEST,
        [Avp("Acct-Status-Type", "Start", 1), Avp("Acct-Session-Id", id, 0), Avp("Framed-IP-Address", "a", 0)])
  }

  lemma StartTells(id: string)
    requires id != "" && Last(id) != '/'
    ensures PacketType(StartOf(id)) == Some(PACKET_TYPE_ACCOUNTING_START)
    ensures SessionId(ADDRESSED, StartOf(id)) == id && StartOf(id).GetText("Framed-IP-Address") == Some("a")
  {
    var p := StartOf(id);
    var second, third := Avp("Acct-Session-Id", id, 0), Avp("Framed-IP-Address", "a", 0);
    assert p.avps[1..] == [second, third] && [second, third][1..] == [third];
    assert FirstNamed([third], "Framed-IP-Address") == Some(third);
    assert FirstNamed([second, third], "Framed-IP-Address") == Some(third);
    assert FirstNamed([second, third], "Acct-Session-Id") == Some(second);
    var ids := ["Acct-Session-Id"];
    assert Front(ids) == [] && JoinId([], p) == "";
    assert JoinId(ids, p) == "" + id + "/";
    assert Front("" + id + "/") == id;
  }

  lemma StartIsLive(s: Store, id: string, t: Store)
    requires id != "" && Last(id) != '/' && id !in s.sessions && t == Push(s, ADDRESSED, StartOf(id), 0)
    ensures Live(t, id) && Scanned(t, "Framed-IP-Address", "a", id)
    ensures forall other :: other != id && Live(s, other) && Scanned(s, "Framed-IP-Address", "a", other) ==>
              Live(t, other) && Scanned(t, "Framed-IP-Address", "a", other)
    ensures t.sessions.Keys == s.sessions.Keys + {id}
  {
    StartTells(id);
    assert Inserts(s, ADDRESSED, StartOf(id));
    StoredText(ADDRESSED, PACKET_TYPE_ACCOUNTING_START, StartOf(id), 0, "Framed-IP-Address");
  }

  /** Two sessions start with the same address: the check is only for access requests. */
  lemma StartsShareAValue()
    ensures !UniquelyHeld(Run(ADDRESSED, [Received(StartOf("1"), 0), Received(StartOf("2"), 0)]), ADDRESSED)
  {
    var e1, e2 := Received(StartOf("1"), 0), Received(StartOf("2"), 0);
    RunOfThree(ADDRESSED, e1, e2, e2);
    var s := Step(Empty(ADDRESSED), ADDRESSED, e1);
    StartIsLive(Empty(ADDRESSED), "1", s);
    var t := Run(ADDRESSED, [e1, e2]);
    StartIsLive(s, "2", t);
    assert BY_ADDRESS in ADDRESSED.indexConf;
    assert Live(t, "1") && Scanned(t, "Framed-IP-Address", "a", "1");
    if UniquelyHeld(t, ADDRESSED) {
      assert BY_ADDRESS.indexName == "Framed-IP-Address" && "1" != "2";
    }
  }
}
