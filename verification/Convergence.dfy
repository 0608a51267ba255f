/**
 Stores that receive the same accounting packets agree, whatever the order, the repetitions, the servers that signed
 the packets on their way and the copies they made of them.
 */
module Convergence {
  import opened Common
  import opened Packets
  import opened StoreSpec
  import opened SessionServer

  /** What the names of the attributes begin with that stores and servers add. */
  const MARK := "SessionStore-"

  predicate IsMark(name: string) {
    MARK <= name
  }

  function Unmarked(avps: seq<Avp>): seq<Avp> {
    if avps == [] then []
    else (if IsMark(avps[0].name) then [] else [avps[0]]) + Unmarked(avps[1..])
  }

  predicate Timed(conf: Conf) {
    "Acct-Session-Time" in conf.attributes && "Event-Timestamp" in conf.attributes
  }

  function SessionTime(p: Packet): int { p.GetInt("Acct-Session-Time") }

  function Timestamp(p: Packet): int { p.GetInt("Event-Timestamp") }

  /** All that a store makes use of in a packet: packets signed by different servers tell the same facts. */
  datatype Facts = Facts(code: int, id: string, packetType: Option<int>, sessionTime: int, timestamp: int,
      kept: seq<Avp>)

  function FactsOf(conf: Conf, p: Packet): Facts {
    Facts(p.code, SessionId(conf, p), PacketType(p), SessionTime(p), Timestamp(p),
        Unmarked(p.Copy(conf.attributes).avps))
  }

  /** Accounting that the store understands. */
  predicate Accounting(f: Facts) {
    f.code != ACCESS_REQUEST && f.packetType.Some?
  }

  predicate NoLater(f: Facts, g: Facts)
    requires Accounting(f) && Accounting(g)
  {
    f.packetType.value <= g.packetType.value && f.sessionTime <= g.sessionTime && f.timestamp <= g.timestamp
  }

  /**
   The packets of one session follow each other in type, session time and timestamp together, and ties tell the same.
   */
  ghost predicate Chain(facts: set<Facts>) {
    && (forall f :: f in facts ==> Accounting(f))
    && (forall f, g :: f in facts && g in facts && f.id == g.id ==> NoLater(f, g) || NoLater(g, f))
    && (forall f, g :: f in facts && g in facts && f.id == g.id && NoLater(f, g) && NoLater(g, f) ==> f == g)
  }

  /** Everything stored of the packet but the attributes that stores and servers add. */
  function Body(x: Session): seq<Avp> {
    Unmarked(x.packet.avps)
  }

  predicate SamePacket(x: Session, y: Session) {
    x.packetType == y.packetType && x.packet.code == y.packet.code && Body(x) == Body(y)
  }

  predicate Agree(s: Store, t: Store) {
    && s.sessions.Keys == t.sessions.Keys
    && forall id :: id in s.sessions ==> SamePacket(s.sessions[id], t.sessions[id])
  }

  /** What a session entry made from a packet that tells these facts looks like. */
  predicate Records(x: Session, f: Facts)
    requires Accounting(f)
  {
    && x.id == f.id && x.packetType == f.packetType.value && x.packet.code == f.code && Body(x) == f.kept
    && SessionTime(x.packet) == f.sessionTime && Timestamp(x.packet) == f.timestamp
  }

  // ----- Attributes that are added

  lemma {:induction false} UnmarkedAppend(avps: seq<Avp>, a: Avp)
    ensures Unmarked(avps + [a]) == Unmarked(avps) + if IsMark(a.name) then [] else [a]
  {
    if avps == [] {
      assert avps + [a] == [a];
    } else {
      assert (avps + [a])[1..] == avps[1..] + [a];
      UnmarkedAppend(avps[1..], a);
    }
  }

  /** The first attribute with a name of its own is the same with and without the marks. */
  lemma {:induction false} FirstUnmarked(avps: seq<Avp>, name: string)
    requires !IsMark(name)
    ensures FirstNamed(Unmarked(avps), name) == FirstNamed(avps, name)
  {
    if avps != [] {
      FirstUnmarked(avps[1..], name);
      var rest := Unmarked(avps[1..]);
      assert ([avps[0]] + rest)[1..] == rest;
      assert [] + rest == rest;
    }
  }

  lemma {:induction false} KeepAppend(avps: seq<Avp>, a: Avp, filter: seq<string>)
    ensures Keep(avps + [a], filter) == Keep(avps, filter) + if a.name in filter then [a] else []
  {
    if avps == [] {
      assert avps + [a] == [a];
    } else {
      assert (avps + [a])[1..] == avps[1..] + [a];
      KeepAppend(avps[1..], a, filter);
    }
  }

  lemma {:induction false} KeepTwice(avps: seq<Avp>, filter: seq<string>)
    ensures Keep(Keep(avps, filter), filter) == Keep(avps, filter)
  {
    if avps != [] {
      KeepTwice(avps[1..], filter);
      var rest := Keep(avps[1..], filter);
      assert ([avps[0]] + rest)[1..] == rest;
      assert [] + rest == rest;
    }
  }

  lemma StoredBody(conf: Conf, packetType: int, p: Packet, now: int)
    ensures Unmarked(StoredPacket(conf, packetType, p, now).avps) == Unmarked(p.Copy(conf.attributes).avps)
  {
    var p0 := p.Copy(conf.attributes);
    var a1 := NumberAvp("SessionStore-Expires", Expires(conf, packetType, now));
    var a2 := NumberAvp("SessionStore-LastUpdated", UnixMilli(now));
    var a3 := Avp("SessionStore-Id", SessionId(conf, p), 0);
    UnmarkedAppend(p0.avps, a1);
    UnmarkedAppend(p0.Add(a1).avps, a2);
    UnmarkedAppend(p0.Add(a1).Add(a2).avps, a3);
  }

  lemma NumberOfStored(conf: Conf, packetType: int, p: Packet, now: int, name: string)
    requires name in conf.attributes && !IsMark(name)
    ensures StoredPacket(conf, packetType, p, now).GetInt(name) == p.GetInt(name)
  {
    var stored := StoredPacket(conf, packetType, p, now);
    StoredBody(conf, packetType, p, now);
    FirstUnmarked(stored.avps, name);
    FirstUnmarked(p.Copy(conf.attributes).avps, name);
    FirstOfKept(p.avps, conf.attributes, name);
  }

  lemma NamesWithoutMark(name: string)
    requires name != "" && name[0] != 'S'
    ensures !IsMark(name)
  {
    assert MARK[0] == 'S';
  }

  lemma NewSessionRecords(s: Store, conf: Conf, p: Packet, now: int)
    requires Timed(conf) && Accounting(FactsOf(conf, p))
    ensures Records(NewSession(s, conf, PacketType(p).value, p, now), FactsOf(conf, p))
  {
    StoredBody(conf, PacketType(p).value, p, now);
    TimesRecorded(conf, PacketType(p).value, p, now);
  }

  lemma TimesRecorded(conf: Conf, packetType: int, p: Packet, now: int)
    requires Timed(conf)
    ensures var stored := StoredPacket(conf, packetType, p, now);
      SessionTime(stored) == SessionTime(p) && Timestamp(stored) == Timestamp(p)
  {
    NamesWithoutMark("Acct-Session-Time");
    NamesWithoutMark("Event-Timestamp");
    NumberOfStored(conf, packetType, p, now, "Acct-Session-Time");
    NumberOfStored(conf, packetType, p, now, "Event-Timestamp");
  }

  // ----- The latest of what was told

  predicate ReceivesOnly(events: seq<Event>) {
    forall e :: e in events ==> e.Received?
  }

  ghost function FactsIn(conf: Conf, events: seq<Event>): set<Facts> {
    set e | e in events && e.Received? :: FactsOf(conf, e.packet)
  }

  ghost predicate Recorded(x: Session, facts: set<Facts>) {
    exists g :: g in facts && Accounting(g) && Records(x, g)
  }

  predicate LaterThan(f: Facts, x: Session)
    requires Accounting(f)
  {
    f.packetType.value > x.packetType || f.sessionTime > SessionTime(x.packet) || f.timestamp > Timestamp(x.packet)
  }

  ghost predicate Superseded(s: Store, f: Facts)
    requires Accounting(f)
  {
    f.id in s.sessions && !LaterThan(f, s.sessions[f.id])
  }

  ghost predicate AllRecorded(s: Store, facts: set<Facts>) {
    forall id :: id in s.sessions ==> s.sessions[id].id == id && Recorded(s.sessions[id], facts)
  }

  /** The entry of every id records facts told about it, and none about the id are later. */
  ghost predicate HoldsLatest(s: Store, facts: set<Facts>) {
    && AllRecorded(s, facts)
    && (forall f :: f in facts && Accounting(f) ==> Superseded(s, f))
  }

  lemma RecordedByMore(x: Session, facts: set<Facts>, more: set<Facts>)
    requires Recorded(x, facts) && facts <= more
    ensures Recorded(x, more)
  {
    var g :| g in facts && Accounting(g) && Records(x, g);
    assert g in more;
  }

  /** Facts that get in are no earlier than any facts the stored entry was no earlier than. */
  lemma NewcomerSupersedes(x: Session, facts: set<Facts>, f: Facts, r: Facts, e: Session)
    requires Chain(facts) && f in facts && r in facts && f.id == r.id == x.id
    requires Records(e, f) && Recorded(x, facts) && LaterThan(f, x) && !LaterThan(r, x)
    ensures !LaterThan(r, e)
  {
    var g :| g in facts && Accounting(g) && Records(x, g);
    assert NoLater(r, g) && NoLater(g, f);
  }

  lemma StillSuperseded(s: Store, t: Store, facts: set<Facts>, f: Facts, e: Session, r: Facts)
    requires Chain(facts) && f in facts && r in facts && Accounting(f) && Accounting(r)
    requires Records(e, f) && t.sessions == s.sessions[e.id := e]
    requires e.id in s.sessions ==> && s.sessions[e.id].id == e.id && Recorded(s.sessions[e.id], facts)
                                    && LaterThan(f, s.sessions[e.id])
    requires Superseded(s, r)
    ensures Superseded(t, r)
  {
    if r.id == e.id {
      NewcomerSupersedes(s.sessions[e.id], facts, f, r, e);
    }
  }

  lemma ReplaceKeepsRecorded(s: Store, t: Store, facts: set<Facts>, f: Facts, e: Session)
    requires AllRecorded(s, facts)
    requires Accounting(f) && Records(e, f) && t.sessions == s.sessions[e.id := e]
    ensures AllRecorded(t, facts + {f})
  {
    var more := facts + {f};
    assert f in more && Recorded(e, more);
    forall id | id in s.sessions ensures Recorded(s.sessions[id], more) {
      RecordedByMore(s.sessions[id], facts, more);
    }
  }

  lemma ReplaceHoldsLatest(s: Store, t: Store, facts: set<Facts>, f: Facts, e: Session)
    requires Chain(facts + {f}) && HoldsLatest(s, facts)
    requires Accounting(f) && Records(e, f) && t.sessions == s.sessions[e.id := e]
    requires e.id in s.sessions ==> LaterThan(f, s.sessions[e.id])
    ensures HoldsLatest(t, facts + {f})
  {
    ReplaceKeepsRecorded(s, t, facts, f, e);
    if e.id in s.sessions {
      RecordedByMore(s.sessions[e.id], facts, facts + {f});
    }
    forall r | r in facts && Accounting(r) ensures Superseded(t, r) {
      StillSuperseded(s, t, facts + {f}, f, e, r);
    }
    assert Superseded(t, f);
  }

  lemma KeepHoldsLatest(s: Store, facts: set<Facts>, f: Facts)
    requires HoldsLatest(s, facts) && (Accounting(f) ==> Superseded(s, f))
    ensures HoldsLatest(s, facts + {f})
  {
    forall id | id in s.sessions ensures Recorded(s.sessions[id], facts + {f}) {
      RecordedByMore(s.sessions[id], facts, facts + {f});
    }
  }

  lemma InsertsIff(s: Store, conf: Conf, p: Packet, f: Facts)
    requires f == FactsOf(conf, p) && Accounting(f)
    ensures Inserts(s, conf, p) <==> f.id !in s.sessions || LaterThan(f, s.sessions[f.id])
  {
  }

  lemma PushHoldsLatest(conf: Conf, s: Store, facts: set<Facts>, p: Packet, now: int, f: Facts)
    requires f == FactsOf(conf, p)
    requires Timed(conf) && Chain(facts + {f}) && HoldsLatest(s, facts)
    ensures HoldsLatest(Push(s, conf, p, now), facts + {f})
  {
    assert f in facts + {f};
    InsertsIff(s, conf, p, f);
    if Inserts(s, conf, p) {
      var e := NewSession(s, conf, PacketType(p).value, p, now);
      NewSessionRecords(s, conf, p, now);
      ReplaceHoldsLatest(s, Push(s, conf, p, now), facts, f, e);
    } else {
      KeepHoldsLatest(s, facts, f);
    }
  }

  lemma {:induction false} RunHoldsLatest(conf: Conf, events: seq<Event>)
    requires Timed(conf) && ReceivesOnly(events) && Chain(FactsIn(conf, events))
    ensures HoldsLatest(Run(conf, events), FactsIn(conf, events))
  {
    if events != [] {
      var front, e := Front(events), Last(events);
      assert forall x :: x in events <==> x in front || x == e;
      assert FactsIn(conf, events) == FactsIn(conf, front) + {FactsOf(conf, e.packet)};
      assert FactsIn(conf, front) <= FactsIn(conf, events);
      RunHoldsLatest(conf, front);
      PushHoldsLatest(conf, Run(conf, front), FactsIn(conf, front), e.packet, e.now, FactsOf(conf, e.packet));
    }
  }

  // ----- Convergence

  /**
   Stores that keep the same attributes and make ids of the same attributes, whatever else they are configured with.
   */
  predicate Alike(conf: Conf, conf': Conf) {
    conf.attributes == conf'.attributes && conf.idAttributes == conf'.idAttributes
  }

  /** Stores that were told the same facts agree: order, repetition and reception times do not matter. */
  lemma StoresConverge(conf: Conf, conf': Conf, events: seq<Event>, events': seq<Event>)
    requires Timed(conf) && Alike(conf, conf') && ReceivesOnly(events) && ReceivesOnly(events')
    requires FactsIn(conf, events) == FactsIn(conf', events') && Chain(FactsIn(conf, events))
    ensures Agree(Run(conf, events), Run(conf', events'))
  {
    RunHoldsLatest(conf, events);
    RunHoldsLatest(conf', events');
    LatestAgree(Run(conf, events), Run(conf', events'), FactsIn(conf, events));
    LatestAgree(Run(conf', events'), Run(conf, events), FactsIn(conf, events));
  }

  lemma LatestAgree(s: Store, t: Store, facts: set<Facts>)
    requires Chain(facts) && HoldsLatest(s, facts) && HoldsLatest(t, facts)
    ensures forall id :: id in s.sessions ==> id in t.sessions && SamePacket(s.sessions[id], t.sessions[id])
  {
    forall id | id in s.sessions ensures id in t.sessions && SamePacket(s.sessions[id], t.sessions[id]) {
      SessionsAgree(s, t, facts, id);
    }
  }

  lemma SessionsAgree(s: Store, t: Store, facts: set<Facts>, id: string)
    requires Chain(facts) && HoldsLatest(s, facts) && HoldsLatest(t, facts) && id in s.sessions
    ensures id in t.sessions && SamePacket(s.sessions[id], t.sessions[id])
  {
    var x := s.sessions[id];
    var f :| f in facts && Accounting(f) && Records(x, f);
    assert Superseded(t, f);
    var y := t.sessions[id];
    assert Recorded(y, facts);
    var g :| g in facts && Accounting(g) && Records(y, g);
    assert Superseded(s, g);
    assert NoLater(f, g) && NoLater(g, f);
  }

  // ----- Packets on their way between servers

  /** Ids are not made of marks. */
  predicate IdsUnmarked(conf: Conf) {
    forall a :: a in conf.idAttributes ==> !IsMark(a)
  }

  /** A copy has all that makes the packet what it is. */
  predicate CopiesWhole(conf: Conf) {
    && Timed(conf) && "Acct-Status-Type" in conf.attributes
    && forall a :: a in conf.idAttributes ==> a in conf.attributes
  }

  lemma {:induction false} SameId(attributes: seq<string>, p: Packet, q: Packet)
    requires forall a :: a in attributes ==> p.GetString(a) == q.GetString(a)
    ensures JoinId(attributes, p) == JoinId(attributes, q)
  {
    if attributes != [] {
      assert Last(attributes) in attributes;
      SameId(Front(attributes), p, q);
    }
  }

  /** A server's signature changes no facts. */
  lemma SigningKeepsFacts(conf: Conf, p: Packet, name: string)
    requires IdsUnmarked(conf)
    ensures FactsOf(conf, SignedBy(p, name)) == FactsOf(conf, p)
  {
    var a := Avp(SEEN_BY, name, 0);
    forall n: string | !IsMark(n) ensures SignedBy(p, name).GetAvp(n) == p.GetAvp(n) {
      FirstOfAppended(p.avps, a, n);
    }
    NamesWithoutMark("Acct-Session-Time");
    NamesWithoutMark("Event-Timestamp");
    NamesWithoutMark("Acct-Status-Type");
    SameId(conf.idAttributes, SignedBy(p, name), p);
    SigningKeepsBody(conf, p, name);
  }

  lemma SigningKeepsBody(conf: Conf, p: Packet, name: string)
    ensures Unmarked(SignedBy(p, name).Copy(conf.attributes).avps) == Unmarked(p.Copy(conf.attributes).avps)
  {
    var a := Avp(SEEN_BY, name, 0);
    assert SEEN_BY[..|MARK|] == MARK;
    KeepAppend(p.avps, a, conf.attributes);
    if SEEN_BY in conf.attributes {
      UnmarkedAppend(Keep(p.avps, conf.attributes), a);
    } else {
      assert Keep(p.avps, conf.attributes) + [] == Keep(p.avps, conf.attributes);
    }
  }

  /** Nor does copying, if the copies are whole. */
  lemma CopyingKeepsFacts(conf: Conf, p: Packet)
    requires CopiesWhole(conf)
    ensures FactsOf(conf, p.Copy(conf.attributes)) == FactsOf(conf, p)
  {
    forall n: string | n in conf.attributes ensures p.Copy(conf.attributes).GetAvp(n) == p.GetAvp(n) {
      FirstOfKept(p.avps, conf.attributes, n);
    }
    SameId(conf.idAttributes, p.Copy(conf.attributes), p);
    KeepTwice(p.avps, conf.attributes);
  }

  /** A packet and when it was handled. */
  datatype Request = Request(packet: Packet, now: int)

  /** What handling these requests pushes to the store of a server. */
  function Handled(name: string, requests: seq<Request>): (events: seq<Event>)
    ensures |events| == |requests|
  {
    seq(|requests|, i requires 0 <= i < |requests| => Received(SignedBy(requests[i].packet, name), requests[i].now))
  }

  ghost function FactsRequested(conf: Conf, requests: seq<Request>): set<Facts> {
    set r | r in requests :: FactsOf(conf, r.packet)
  }

  lemma HandlingKeepsFacts(conf: Conf, name: string, requests: seq<Request>)
    requires IdsUnmarked(conf)
    ensures ReceivesOnly(Handled(name, requests))
    ensures FactsIn(conf, Handled(name, requests)) == FactsRequested(conf, requests)
  {
    var events := Handled(name, requests);
    forall f | f in FactsRequested(conf, requests) ensures f in FactsIn(conf, events) {
      var r :| r in requests && FactsOf(conf, r.packet) == f;
      var i :| 0 <= i < |requests| && requests[i] == r;
      SigningKeepsFacts(conf, r.packet, name);
      assert events[i] in events && FactsOf(conf, events[i].packet) == f;
    }
    forall e | e in events ensures FactsOf(conf, e.packet) in FactsRequested(conf, requests) {
      var i :| 0 <= i < |events| && events[i] == e;
      SigningKeepsFacts(conf, requests[i].packet, name);
      assert requests[i] in requests;
    }
  }

  /**
   Servers with names of their own that handled requests with the same facts store the same for every session, up to
   the attributes that stores and servers add.
   */
  lemma ServersConverge(conf: Conf, conf': Conf, name: string, name': string, requests: seq<Request>,
        requests': seq<Request>)
    requires Timed(conf) && Alike(conf, conf') && IdsUnmarked(conf)
    requires FactsRequested(conf, requests) == FactsRequested(conf', requests') && Chain(FactsRequested(conf, requests))
    ensures Agree(Run(conf, Handled(name, requests)), Run(conf', Handled(name', requests')))
  {
    HandlingKeepsFacts(conf, name, requests);
    HandlingKeepsFacts(conf', name', requests');
    StoresConverge(conf, conf', Handled(name, requests), Handled(name', requests'));
  }

  // ----- Two packets

  predicate MoreRecent(f: Facts, g: Facts)
    requires Accounting(f) && Accounting(g)
  {
    !NoLater(f, g)
  }

  lemma {:induction false} SecondPacketWins(conf: Conf, p: Packet, q: Packet, t1: int, t2: int)
    requires Timed(conf) && Accounting(FactsOf(conf, p)) && Accounting(FactsOf(conf, q))
    requires SessionId(conf, p) == SessionId(conf, q)
    ensures var s := Run(conf, [Received(p, t1), Received(q, t2)]); var f, g := FactsOf(conf, p), FactsOf(conf, q);
      && s.sessions.Keys == {f.id}
      && Records(s.sessions[f.id], if MoreRecent(g, f) then g else f)
  {
    var e1, e2 := Received(p, t1), Received(q, t2);
    assert Front([e1]) == [] && Front([e1, e2]) == [e1];
    var s0 := Empty(conf);
    var x := NewSession(s0, conf, PacketType(p).value, p, t1);
    NewSessionRecords(s0, conf, p, t1);
    var s1 := Run(conf, [e1]);
    assert Run(conf, []) == s0 && s1 == Push(s0, conf, p, t1);
    InsertsIff(s0, conf, p, FactsOf(conf, p));
    assert s1 == Insert(s0, conf, p, x);
    assert s1.sessions == map[x.id := x];
    NewSessionRecords(s1, conf, q, t2);
    InsertsIff(s1, conf, q, FactsOf(conf, q));
  }

  lemma TimesAreKept(conf: Conf, p: Packet, q: Packet)
    requires Timed(conf) && Unmarked(p.Copy(conf.attributes).avps) == Unmarked(q.Copy(conf.attributes).avps)
    ensures SessionTime(p) == SessionTime(q) && Timestamp(p) == Timestamp(q)
  {
    NamesWithoutMark("Acct-Session-Time");
    NamesWithoutMark("Event-Timestamp");
    forall n: string | n in conf.attributes && !IsMark(n) ensures p.GetAvp(n) == q.GetAvp(n) {
      FirstUnmarked(p.Copy(conf.attributes).avps, n);
      FirstUnmarked(q.Copy(conf.attributes).avps, n);
      FirstOfKept(p.avps, conf.attributes, n);
      FirstOfKept(q.avps, conf.attributes, n);
    }
  }

  /** Two packets of a session commute exactly when one of them is the more recent one, or both tell the same. */
  lemma TwoPacketsCommuteIff(conf: Conf, p: Packet, q: Packet, t1: int, t2: int)
    requires Timed(conf) && Accounting(FactsOf(conf, p)) && Accounting(FactsOf(conf, q))
    requires SessionId(conf, p) == SessionId(conf, q)
    ensures Agree(Run(conf, [Received(p, t1), Received(q, t2)]), Run(conf, [Received(q, t2), Received(p, t1)])) <==>
            var f, g := FactsOf(conf, p), FactsOf(conf, q); MoreRecent(f, g) != MoreRecent(g, f) || f == g
  {
    SecondPacketWins(conf, p, q, t1, t2);
    SecondPacketWins(conf, q, p, t2, t1);
    if Unmarked(p.Copy(conf.attributes).avps) == Unmarked(q.Copy(conf.attributes).avps) {
      TimesAreKept(conf, p, q);
    }
    var f, g := FactsOf(conf, p), FactsOf(conf, q);
    LoneSessionsAgreeIff(Run(conf, [Received(p, t1), Received(q, t2)]), Run(conf, [Received(q, t2), Received(p, t1)]),
                         if MoreRecent(g, f) then g else f, if MoreRecent(f, g) then f else g);
  }

  lemma LoneSessionsAgreeIff(s: Store, t: Store, f: Facts, g: Facts)
    requires Accounting(f) && Accounting(g) && f.id == g.id && s.sessions.Keys == {f.id} == t.sessions.Keys
    requires Records(s.sessions[f.id], f) && Records(t.sessions[f.id], g)
    ensures Agree(s, t) <==> f.packetType == g.packetType && f.code == g.code && f.kept == g.kept
  {
    assert f.id in s.sessions;
  }
}
