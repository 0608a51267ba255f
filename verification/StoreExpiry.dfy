/** Expiry removes exactly the expired sessions; the lists stay sorted by expiry. */
module StoreExpiry {
  import opened Common
  import opened Packets
  import opened StoreSpec
  import opened StoreTheorems
  import opened StoreIndexes

  /** The entries that are not in the set, in order. */
  function Survivors(l: seq<Session>, dead: set<Session>): seq<Session> {
    if l == [] then []
    else (if l[0] in dead then [] else [l[0]]) + Survivors(l[1..], dead)
  }

  lemma {:induction false} SurvivorsMembers(l: seq<Session>, dead: set<Session>)
    ensures forall x :: x in Survivors(l, dead) <==> x in l && x !in dead
  {
    if l != [] {
      SurvivorsMembers(l[1..], dead);
      assert forall x :: x in l <==> x == l[0] || x in l[1..];
    }
  }

  lemma TailOf(l: seq<Session>)
    requires l != []
    ensures Distinct(l) ==> Distinct(l[1..]) && forall x :: x in l[1..] ==> x.serial != l[0].serial
    ensures SortedByExpiry(l) ==> SortedByExpiry(l[1..]) && forall x :: x in l[1..] ==> l[0].expires <= x.expires
  {
    assert forall i :: 0 <= i < |l| - 1 ==> l[1..][i] == l[i + 1];
  }

  lemma HeadedBy(x: Session, l: seq<Session>)
    ensures Distinct(l) && (forall y :: y in l ==> y.serial != x.serial) ==> Distinct([x] + l)
    ensures SortedByExpiry(l) && (forall y :: y in l ==> x.expires <= y.expires) ==> SortedByExpiry([x] + l)
  {
    assert forall i :: 1 <= i < |l| + 1 ==> ([x] + l)[i] == l[i - 1] && l[i - 1] in l;
  }

  lemma {:induction false} SurvivorsKeepOrder(l: seq<Session>, dead: set<Session>)
    ensures Distinct(l) ==> Distinct(Survivors(l, dead))
    ensures SortedByExpiry(l) ==> SortedByExpiry(Survivors(l, dead))
  {
    if l != [] {
      var r := Survivors(l[1..], dead);
      TailOf(l);
      SurvivorsKeepOrder(l[1..], dead);
      SurvivorsMembers(l[1..], dead);
      if l[0] in dead {
        assert Survivors(l, dead) == r;
      } else {
        HeadedBy(l[0], r);
      }
    }
  }

  lemma SurvivorLists(s: Store, dead: set<Session>)
    ensures forall x :: x in Survivors(s.accepted, dead) <==> x in s.accepted && x !in dead
    ensures forall x :: x in Survivors(s.started, dead) <==> x in s.started && x !in dead
    ensures forall x :: x in Survivors(s.stopped, dead) <==> x in s.stopped && x !in dead
  {
    SurvivorsMembers(s.accepted, dead);
    SurvivorsMembers(s.started, dead);
    SurvivorsMembers(s.stopped, dead);
  }

  lemma {:induction false} SurvivorsOfSurvivors(l: seq<Session>, a: set<Session>, b: set<Session>)
    ensures Survivors(Survivors(l, a), b) == Survivors(l, a + b)
  {
    if l != [] {
      SurvivorsOfSurvivors(l[1..], a, b);
      var r := Survivors(l[1..], a);
      if l[0] in a {
        assert [] + r == r;
      } else {
        assert ([l[0]] + r)[1..] == r;
      }
    }
  }

  lemma {:induction false} NothingDies(l: seq<Session>, dead: set<Session>)
    requires forall x :: x in l ==> x !in dead
    ensures Survivors(l, dead) == l
  {
    if l != [] {
      NothingDies(l[1..], dead);
    }
  }

  lemma {:induction false} WithoutOne(l: seq<Session>, e: Session)
    requires Distinct(l)
    ensures Without(l, e) == Survivors(l, {e})
  {
    if l != [] {
      var rest := l[1..];
      assert forall i :: 0 <= i < |rest| ==> rest[i] == l[i + 1];
      WithoutOne(rest, e);
      if l[0] == e {
        NothingDies(rest, {e});
      }
    }
  }

  /** The store with a set of its sessions gone from the lists and from the map. */
  ghost predicate Removed(s: Store, t: Store, dead: set<Session>) {
    && t.accepted == Survivors(s.accepted, dead)
    && t.started == Survivors(s.started, dead)
    && t.stopped == Survivors(s.stopped, dead)
    && t.sessions == (map id | id in s.sessions && s.sessions[id] !in dead :: s.sessions[id])
    && t.made == s.made
  }

  lemma RemovalKeepsShape(s: Store, t: Store, dead: set<Session>)
    requires Filed(s) && Linked(s) && Removed(s, t, dead)
    ensures Filed(t) && Linked(t)
  {
    SurvivorLists(s, dead);
    assert WellListed(t) by {
      SurvivorsKeepOrder(s.accepted, dead);
      SurvivorsKeepOrder(s.started, dead);
      SurvivorsKeepOrder(s.stopped, dead);
    }
    forall id | id in t.sessions
      ensures t.sessions[id].id == id && t.sessions[id] in ListFor(t, t.sessions[id].packetType)
    {
      assert s.sessions[id] in ListFor(s, s.sessions[id].packetType) && s.sessions[id] !in dead;
    }
    StillCurrent(s, t, s.accepted, dead);
    StillCurrent(s, t, s.started, dead);
    StillCurrent(s, t, s.stopped, dead);
  }

  lemma StillCurrent(s: Store, t: Store, l: seq<Session>, dead: set<Session>)
    requires Current(s, l) && Removed(s, t, dead)
    ensures Current(t, Survivors(l, dead))
  {
    SurvivorsMembers(l, dead);
  }

  lemma RemovalsCompose(s: Store, t: Store, u: Store, a: set<Session>, b: set<Session>)
    requires Removed(s, t, a) && Removed(t, u, b)
    ensures Removed(s, u, a + b)
  {
    SurvivorsOfSurvivors(s.accepted, a, b);
    SurvivorsOfSurvivors(s.started, a, b);
    SurvivorsOfSurvivors(s.stopped, a, b);
  }

  lemma UnlinkedSurvive(s: Store, e: Session, u: Store)
    requires WellListed(s) && u == Unlink(s, e)
    ensures u.accepted == Survivors(s.accepted, {e}) && u.started == Survivors(s.started, {e})
    ensures u.stopped == Survivors(s.stopped, {e})
  {
    WithoutOne(s.accepted, e);
    WithoutOne(s.started, e);
    WithoutOne(s.stopped, e);
    if e.packetType != PACKET_TYPE_ACCESS_REQUEST { NothingDies(s.accepted, {e}); }
    if !IsStarted(e.packetType) { NothingDies(s.started, {e}); }
    if e.packetType != PACKET_TYPE_ACCOUNTING_STOP { NothingDies(s.stopped, {e}); }
  }

  lemma DeleteRemovesOne(s: Store, conf: Conf, e: Session)
    requires Filed(s) && Linked(s) && e.id in s.sessions && s.sessions[e.id] == e
    ensures Removed(s, Delete(s, conf, e), {e})
  {
    UnlinkedSurvive(s, e, Unlink(s, e));
    OnlyHolder(s.sessions, e, s.sessions - {e.id});
  }

  lemma OnlyHolder(sessions: map<string, Session>, e: Session, left: map<string, Session>)
    requires e.id in sessions && sessions[e.id] == e && left == sessions - {e.id}
    requires forall id :: id in sessions ==> sessions[id].id == id
    ensures left == map id | id in sessions && sessions[id] !in {e} :: sessions[id]
  {
  }

  lemma DeleteRemoves(s: Store, conf: Conf, e: Session)
    requires Filed(s) && Linked(s) && e.id in s.sessions && s.sessions[e.id] == e
    ensures Removed(s, Delete(s, conf, e), {e})
    ensures IndexExact(s, conf) ==> IndexExact(Delete(s, conf, e), conf)
  {
    var t := Delete(s, conf, e);
    DeleteRemovesOne(s, conf, e);
    if IndexExact(s, conf) {
      forall c, value, id | c in conf.indexConf
        ensures id in Held(t.indexes, c.indexName, value) <==> Scanned(t, c.indexName, value, id)
      {
        DroppedIds(s.indexes, conf.indexConf, e.packet, e.id, c.indexName, value);
        assert id in Held(s.indexes, c.indexName, value) <==> Scanned(s, c.indexName, value, id);
      }
    }
  }

  function Expired(entries: seq<Session>, cutoff: int): set<Session> {
    set x | x in entries && x.expires <= cutoff
  }

  lemma RemoveNothing(s: Store)
    ensures Removed(s, s, {})
  {
    NothingDies(s.accepted, {});
    NothingDies(s.started, {});
    NothingDies(s.stopped, {});
  }

  lemma LastOfDistinct(entries: seq<Session>, cutoff: int)
    requires entries != [] && Distinct(entries)
    ensures Last(entries) !in Front(entries) && Distinct(Front(entries))
    ensures Expired(Front(entries), cutoff) + Expired([Last(entries)], cutoff) == Expired(entries, cutoff)
    ensures Last(entries) !in Expired(Front(entries), cutoff)
  {
    assert forall x :: x in entries <==> x in Front(entries) || x == Last(entries);
  }

  ghost predicate ShrunkBy(s: Store, t: Store, conf: Conf, dead: set<Session>) {
    Removed(s, t, dead) && (IndexExact(s, conf) ==> IndexExact(t, conf))
  }

  lemma {:induction false} ExpireAmongRemoves(s: Store, conf: Conf, entries: seq<Session>, cutoff: int)
    requires Filed(s) && Linked(s) && Distinct(entries) && Current(s, entries)
    ensures ShrunkBy(s, ExpireAmong(s, conf, entries, cutoff), conf, Expired(entries, cutoff))
  {
    if entries == [] {
      RemoveNothing(s);
      assert Expired(entries, cutoff) == {};
    } else {
      var e, front := Last(entries), Front(entries);
      LastOfDistinct(entries, cutoff);
      assert Current(s, front) && e in entries;
      ExpireAmongRemoves(s, conf, front, cutoff);
      ExpireOneMore(s, ExpireAmong(s, conf, front, cutoff), conf, Expired(front, cutoff), e, cutoff);
    }
  }

  lemma DeleteOneMore(s: Store, t: Store, u: Store, conf: Conf, dead: set<Session>, e: Session)
    requires Filed(s) && Linked(s) && ShrunkBy(s, t, conf, dead) && u == Delete(t, conf, e)
    requires e.id in s.sessions && s.sessions[e.id] == e && e !in dead
    ensures ShrunkBy(s, u, conf, dead + {e})
  {
    RemovalKeepsShape(s, t, dead);
    DeleteRemoves(t, conf, e);
    RemovalsCompose(s, t, u, dead, {e});
  }

  lemma ExpireOneMore(s: Store, t: Store, conf: Conf, dead: set<Session>, e: Session, cutoff: int)
    requires Filed(s) && Linked(s) && ShrunkBy(s, t, conf, dead)
    requires e.id in s.sessions && s.sessions[e.id] == e && e !in dead
    ensures ShrunkBy(s, if e.expires <= cutoff then Delete(t, conf, e) else t, conf, dead + Expired([e], cutoff))
  {
    if e.expires <= cutoff {
      DeleteOneMore(s, t, Delete(t, conf, e), conf, dead, e);
      assert Expired([e], cutoff) == {e};
    } else {
      assert dead + Expired([e], cutoff) == dead;
    }
  }

  /** What a purge should take: each session at or below the cutoff of its list. */
  ghost function Overdue(s: Store, expireDate: int, limboDate: int): set<Session> {
    Expired(s.accepted, UnixMilli(limboDate)) + Expired(s.started, UnixMilli(expireDate)) +
        Expired(s.stopped, UnixMilli(limboDate))
  }

  /** The purge removes exactly the overdue sessions, and the survivors keep their order and their index entries. */
  lemma ExpireAllRemovesOverdue(s: Store, conf: Conf, expireDate: int, limboDate: int)
    requires Filed(s) && Linked(s)
    ensures Removed(s, ExpireAll(s, conf, expireDate, limboDate), Overdue(s, expireDate, limboDate))
    ensures Filed(ExpireAll(s, conf, expireDate, limboDate)) && Linked(ExpireAll(s, conf, expireDate, limboDate))
    ensures IndexExact(s, conf) ==> IndexExact(ExpireAll(s, conf, expireDate, limboDate), conf)
  {
    var d1 := Expired(s.accepted, UnixMilli(limboDate));
    var s1 := ExpireAmong(s, conf, s.accepted, UnixMilli(limboDate));
    ExpireAmongRemoves(s, conf, s.accepted, UnixMilli(limboDate));
    RemovalKeepsShape(s, s1, d1);
    assert s1.started == s.started && s1.stopped == s.stopped by {
      NothingDies(s.started, d1);
      NothingDies(s.stopped, d1);
    }
    var d2 := Expired(s1.started, UnixMilli(expireDate));
    var s2 := ExpireAmong(s1, conf, s1.started, UnixMilli(expireDate));
    ExpireAmongRemoves(s1, conf, s1.started, UnixMilli(expireDate));
    RemovalKeepsShape(s1, s2, d2);
    assert s2.stopped == s.stopped by { NothingDies(s1.stopped, d2); }
    RemovalsCompose(s, s1, s2, d1, d2);
    var d3 := Expired(s2.stopped, UnixMilli(limboDate));
    ExpireAmongRemoves(s2, conf, s2.stopped, UnixMilli(limboDate));
    RemovalsCompose(s, s2, ExpireAll(s, conf, expireDate, limboDate), d1 + d2, d3);
    RemovalKeepsShape(s, ExpireAll(s, conf, expireDate, limboDate), d1 + d2 + d3);
  }

  lemma {:induction false} ExpiredAmongAreSessions(s: Store, conf: Conf, entries: seq<Session>, cutoff: int)
    ensures var t := ExpireAmong(s, conf, entries, cutoff);
      forall id :: id in t.sessions ==> id in s.sessions && t.sessions[id] == s.sessions[id]
  {
    if entries != [] {
      ExpiredAmongAreSessions(s, conf, Front(entries), cutoff);
    }
  }

  /** Whatever state the lists are in, a purge only takes sessions away. */
  lemma PurgedAreSessions(s: Store, conf: Conf, expireDate: int, limboDate: int)
    ensures var t := ExpireAll(s, conf, expireDate, limboDate);
      forall id :: id in t.sessions ==> id in s.sessions && t.sessions[id] == s.sessions[id]
  {
    var s1 := ExpireAmong(s, conf, s.accepted, UnixMilli(limboDate));
    var s2 := ExpireAmong(s1, conf, s1.started, UnixMilli(expireDate));
    ExpiredAmongAreSessions(s, conf, s.accepted, UnixMilli(limboDate));
    ExpiredAmongAreSessions(s1, conf, s1.started, UnixMilli(expireDate));
    ExpiredAmongAreSessions(s2, conf, s2.stopped, UnixMilli(limboDate));
  }

  lemma ExpiryKeepsUnique(s: Store, conf: Conf, expireDate: int, limboDate: int)
    requires UniquelyHeld(s, conf)
    ensures UniquelyHeld(ExpireAll(s, conf, expireDate, limboDate), conf)
  {
    var t := ExpireAll(s, conf, expireDate, limboDate);
    PurgedAreSessions(s, conf, expireDate, limboDate);
    assert forall id :: Live(t, id) ==> Live(s, id);
    assert forall id, name, value :: Scanned(t, name, value, id) ==> Scanned(s, name, value, id);
  }

  // ----- Order

  ghost predicate SortedByExpiry(l: seq<Session>) {
    forall i, j :: 0 <= i < j < |l| ==> l[i].expires <= l[j].expires
  }

  ghost predicate Until(l: seq<Session>, limit: int) {
    forall x :: x in l ==> x.expires <= limit
  }

  /** Every list is sorted, and nothing in it outlives an entry made now. */
  ghost predicate Ordered(s: Store, conf: Conf, now: int) {
    && SortedByExpiry(s.accepted) && SortedByExpiry(s.started) && SortedByExpiry(s.stopped)
    && Until(s.accepted, UnixMilli(now + conf.limboTime))
    && Until(s.started, UnixMilli(now + conf.expirationTime))
    && Until(s.stopped, UnixMilli(now + conf.limboTime))
  }

  lemma LaterIsOrdered(s: Store, conf: Conf, now: int, later: int)
    requires Ordered(s, conf, now) && now <= later
    ensures Ordered(s, conf, later)
  {
  }

  lemma AppendKeepsSorted(l: seq<Session>, e: Session, limit: int)
    requires SortedByExpiry(l) && Until(l, limit) && e.expires == limit
    ensures SortedByExpiry(l + [e]) && Until(l + [e], limit)
  {
  }

  lemma UnlinkKeepsOrdered(s: Store, conf: Conf, now: int, e: Session)
    requires WellListed(s) && Ordered(s, conf, now)
    ensures Ordered(Unlink(s, e), conf, now)
  {
    WithoutOne(s.accepted, e);
    WithoutOne(s.started, e);
    WithoutOne(s.stopped, e);
    SurvivorLists(s, {e});
    SurvivorsKeepOrder(s.accepted, {e});
    SurvivorsKeepOrder(s.started, {e});
    SurvivorsKeepOrder(s.stopped, {e});
  }

  lemma InsertKeepsOrdered(s: Store, conf: Conf, p: Packet, e: Session, now: int)
    requires Filed(s) && Ordered(s, conf, now)
    requires e.serial == s.made && 1 <= e.packetType <= 4 && e.expires == Expires(conf, e.packetType, now)
    ensures Ordered(Insert(s, conf, p, e), conf, now)
  {
    LinkListed(s, e);
    var linked := Link(s, e);
    if e.packetType == PACKET_TYPE_ACCESS_REQUEST {
      AppendKeepsSorted(s.accepted, e, UnixMilli(now + conf.limboTime));
    } else if e.packetType == PACKET_TYPE_ACCOUNTING_STOP {
      AppendKeepsSorted(s.stopped, e, UnixMilli(now + conf.limboTime));
    } else {
      AppendKeepsSorted(s.started, e, UnixMilli(now + conf.expirationTime));
    }
    assert Ordered(linked, conf, now);
    if e.id in s.sessions {
      UnlinkKeepsOrdered(linked, conf, now, s.sessions[e.id]);
    }
  }

  /** With a clock that does not go back, every push keeps the lists sorted by expiry, whatever it replaces. */
  lemma PushKeepsOrdered(s: Store, conf: Conf, p: Packet, last: int, now: int)
    requires Filed(s) && Ordered(s, conf, last) && last <= now
    ensures Ordered(Push(s, conf, p, now), conf, now)
  {
    LaterIsOrdered(s, conf, last, now);
    if Inserts(s, conf, p) {
      InsertKeepsOrdered(s, conf, p, NewSession(s, conf, PacketType(p).value, p, now), now);
    }
  }
}
