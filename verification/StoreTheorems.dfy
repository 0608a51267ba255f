/** What every step of the session store keeps, and when exactly. */
module StoreTheorems {
  import opened Packets
  import opened StoreSpec

  // ----- The shape of the three lists

  ghost predicate Distinct(l: seq<Session>) {
    forall i, j :: 0 <= i < j < |l| ==> l[i].serial != l[j].serial
  }

  ghost predicate Apart(l: seq<Session>, m: seq<Session>) {
    forall x, y :: x in l && y in m ==> x.serial != y.serial
  }

  ghost predicate Older(l: seq<Session>, made: nat) {
    forall x :: x in l ==> x.serial < made
  }

  function ListFor(s: Store, packetType: int): seq<Session> {
    if packetType == PACKET_TYPE_ACCESS_REQUEST then s.accepted
    else if IsStarted(packetType) then s.started
    else if packetType == PACKET_TYPE_ACCOUNTING_STOP then s.stopped
    else []
  }

  ghost predicate Sorts(s: Store) {
    && (forall x :: x in s.accepted ==> x.packetType == PACKET_TYPE_ACCESS_REQUEST)
    && (forall x :: x in s.started ==> IsStarted(x.packetType))
    && (forall x :: x in s.stopped ==> x.packetType == PACKET_TYPE_ACCOUNTING_STOP)
  }

  /** Three lists of the right types, without repetition and without a common entry. */
  ghost predicate WellListed(s: Store) {
    && Distinct(s.accepted) && Distinct(s.started) && Distinct(s.stopped)
    && Apart(s.accepted, s.started) && Apart(s.accepted, s.stopped) && Apart(s.started, s.stopped)
    && Older(s.accepted, s.made) && Older(s.started, s.made) && Older(s.stopped, s.made)
    && Sorts(s)
  }

  /** Well formed lists, and every stored session in the list of its type. */
  ghost predicate Filed(s: Store) {
    && WellListed(s)
    && (forall id :: id in s.sessions ==>
        s.sessions[id].id == id && s.sessions[id] in ListFor(s, s.sessions[id].packetType))
  }

  ghost predicate Current(s: Store, l: seq<Session>) {
    forall x :: x in l ==> x.id in s.sessions && s.sessions[x.id] == x
  }

  /** The lists hold nothing but the stored sessions. */
  ghost predicate Linked(s: Store) {
    Current(s, s.accepted) && Current(s, s.started) && Current(s, s.stopped)
  }

  lemma {:induction false} WithoutMembers(l: seq<Session>, e: Session)
    requires Distinct(l)
    ensures forall x :: x in Without(l, e) <==> x in l && x != e
    ensures Distinct(Without(l, e))
  {
    if l != [] {
      var rest := l[1..];
      WithoutMembers(rest, e);
      assert forall x :: x in l <==> x == l[0] || x in rest;
      assert forall x :: x in rest ==> x.serial != l[0].serial;
      if l[0] != e {
        var w := Without(rest, e);
        assert Without(l, e) == [l[0]] + w;
        forall i, j | 0 <= i < j < |w| + 1 ensures ([l[0]] + w)[i].serial != ([l[0]] + w)[j].serial {
          assert ([l[0]] + w)[j] == w[j - 1];
          assert w[j - 1] in w;
          if i > 0 { assert ([l[0]] + w)[i] == w[i - 1]; }
        }
      }
    }
  }

  ghost predicate ReplacesStopped(s: Store, conf: Conf, p: Packet) {
    && Inserts(s, conf, p)
    && SessionId(conf, p) in s.sessions
    && s.sessions[SessionId(conf, p)].packetType == PACKET_TYPE_ACCOUNTING_STOP
  }

  /** The session a push for this id takes out of its list: the one stored, unless it is stopped. */
  predicate Leaves(s: Store, id: string, x: Session) {
    id in s.sessions && s.sessions[id] == x && x.packetType != PACKET_TYPE_ACCOUNTING_STOP
  }

  ghost predicate Moved(l: seq<Session>, l': seq<Session>, s: Store, e: Session, joins: bool) {
    forall x :: x in l' <==> (x in l && !Leaves(s, e.id, x)) || (joins && x == e)
  }

  lemma AppendedIsDistinct(l: seq<Session>, e: Session)
    requires Distinct(l) && Older(l, e.serial)
    ensures Distinct(l + [e])
  {
    forall i, j | 0 <= i < j < |l| + 1 ensures (l + [e])[i].serial != (l + [e])[j].serial {
      assert l[i] in l;
    }
  }

  lemma LinkListed(s: Store, e: Session)
    requires WellListed(s) && e.serial == s.made && 1 <= e.packetType <= 4
    ensures var t := Link(s, e);
      && WellListed(t)
      && (forall x :: x in t.accepted <==> x in s.accepted || (e.packetType == 1 && x == e))
      && (forall x :: x in t.started <==> x in s.started || (IsStarted(e.packetType) && x == e))
      && (forall x :: x in t.stopped <==> x in s.stopped || (e.packetType == 4 && x == e))
  {
    AppendedIsDistinct(s.accepted, e);
    AppendedIsDistinct(s.started, e);
    AppendedIsDistinct(s.stopped, e);
  }

  lemma UnlinkListed(s: Store, e: Session)
    requires WellListed(s) && e in ListFor(s, e.packetType)
    ensures var t := Unlink(s, e);
      && WellListed(t)
      && (forall x :: x in t.accepted <==> x in s.accepted && x != e)
      && (forall x :: x in t.started <==> x in s.started && x != e)
      && (forall x :: x in t.stopped <==> x in s.stopped && x != e)
  {
    WithoutMembers(s.accepted, e);
    WithoutMembers(s.started, e);
    WithoutMembers(s.stopped, e);
  }

  /** The entries of the three lists after an insertion. */
  lemma RelinkMoves(s: Store, e: Session)
    requires Filed(s) && e.serial == s.made && 1 <= e.packetType <= 4
    ensures var t := Relink(s, e);
      && WellListed(t)
      && Moved(s.accepted, t.accepted, s, e, e.packetType == 1)
      && Moved(s.started, t.started, s, e, IsStarted(e.packetType))
      && Moved(s.stopped, t.stopped, s, e, e.packetType == 4)
  {
    LinkListed(s, e);
    if e.id in s.sessions && s.sessions[e.id].packetType != PACKET_TYPE_ACCOUNTING_STOP {
      UnlinkListed(Link(s, e), s.sessions[e.id]);
    }
  }

  lemma InsertKeepsFiled(s: Store, conf: Conf, p: Packet, e: Session)
    requires Filed(s) && e.serial == s.made && 1 <= e.packetType <= 4
    ensures Filed(Insert(s, conf, p, e))
  {
    RelinkMoves(s, e);
  }

  lemma StaysCurrent(s: Store, t: Store, l: seq<Session>, l': seq<Session>, e: Session, joins: bool)
    requires Current(s, l) && Moved(l, l', s, e, joins) && t.sessions == s.sessions[e.id := e]
    requires forall x :: x in l && x.id == e.id ==> x.packetType != PACKET_TYPE_ACCOUNTING_STOP
    ensures Current(t, l')
  {
  }

  lemma InsertKeepsLinkedIff(s: Store, conf: Conf, p: Packet, e: Session)
    requires Filed(s) && Linked(s) && e.serial == s.made && 1 <= e.packetType <= 4
    ensures Linked(Insert(s, conf, p, e)) <==>
            !(e.id in s.sessions && s.sessions[e.id].packetType == PACKET_TYPE_ACCOUNTING_STOP)
  {
    RelinkMoves(s, e);
    var t := Insert(s, conf, p, e);
    if e.id in s.sessions && s.sessions[e.id].packetType == PACKET_TYPE_ACCOUNTING_STOP {
      assert s.sessions[e.id] in t.stopped;
    } else {
      StaysCurrent(s, t, s.accepted, t.accepted, e, e.packetType == 1);
      StaysCurrent(s, t, s.started, t.started, e, IsStarted(e.packetType));
      StaysCurrent(s, t, s.stopped, t.stopped, e, e.packetType == 4);
    }
  }

  lemma PushKeepsFiled(s: Store, conf: Conf, p: Packet, now: int)
    requires Filed(s)
    ensures Filed(Push(s, conf, p, now))
  {
    if Inserts(s, conf, p) {
      InsertKeepsFiled(s, conf, p, NewSession(s, conf, PacketType(p).value, p, now));
    }
  }

  /** A push keeps the lists equal to the stored sessions exactly when it does not replace a stopped session. */
  lemma PushKeepsLinkedIff(s: Store, conf: Conf, p: Packet, now: int)
    requires Filed(s) && Linked(s)
    ensures Linked(Push(s, conf, p, now)) <==> !ReplacesStopped(s, conf, p)
  {
    if Inserts(s, conf, p) {
      InsertKeepsLinkedIff(s, conf, p, NewSession(s, conf, PacketType(p).value, p, now));
    }
  }
}
