/** Accounting packets travelling through a network of session servers, under any interleaving and any loss. */
module Replication {
  import opened Common
  import opened Packets
  import opened SessionServer
  import opened Convergence
  import StoreSpec

  datatype Node = Node(name: string, sendTo: seq<Destination>, attributes: seq<string>)

  /** The configuration of the server listening at each address. */
  type Network = nat -> Node

  /** Servers keep the list of servers that saw the packet when they copy it. */
  ghost predicate KeepsSeenBy(net: Network) {
    forall a: nat :: SEEN_BY in net(a).attributes
  }

  /** Each destination is configured with the name its server signs with. */
  ghost predicate NamesAgree(net: Network) {
    forall a: nat, l :: l in net(a).sendTo ==> net(l.address).name == l.name
  }

  ghost predicate AtMost(net: Network, d: nat) {
    forall a: nat :: |net(a).sendTo| <= d
  }

  /** A packet under way, with the servers that handled it before. */
  datatype Hop = Hop(path: seq<nat>, send: Send)

  datatype State = State(flying: seq<Hop>, handled: set<seq<nat>>, sent: nat)

  /** A packet in flight reaches its server or is lost. */
  datatype Event = Arrive(at: nat) | Lose(at: nat)

  function Signed(net: Network, s: Send): Packet {
    SignedBy(s.packet, net(s.address).name)
  }

  function Forwarded(net: Network, h: Hop): seq<Hop> {
    var sends := Replicas(net(h.send.address).sendTo, net(h.send.address).attributes, Signed(net, h.send));
    seq(|sends|, i requires 0 <= i < |sends| => Hop(h.path + [h.send.address], sends[i]))
  }

  function Step(net: Network, s: State, e: Event): State {
    if e.at >= |s.flying| then s
    else
      var others := s.flying[..e.at] + s.flying[e.at + 1..];
      match e
      case Lose(_) => s.(flying := others)
      case Arrive(at) =>
        var h := s.flying[at];
        State(others + Forwarded(net, h), s.handled + {h.path + [h.send.address]}, s.sent + |Forwarded(net, h)|)
  }

  function Start(entry: nat, p: Packet): State {
    State([Hop([], Send(entry, p))], {}, 0)
  }

  /** As for a store, the events alone make the run. */
  function Run(net: Network, entry: nat, p: Packet, events: seq<Event>): State {
    if events == [] then Start(entry, p) else Step(net, Run(net, entry, p, Front(events)), Last(events))
  }

  // ----- How much traffic one packet causes

  /** The most sends a packet can still cause when `seen` servers have signed it. */
  function Potential(d: nat, seen: nat): nat
    decreases 4 - seen
  {
    if seen >= 4 then 0 else d * (1 + Potential(d, seen + 1))
  }

  function Pending(d: nat, flying: seq<Hop>): nat {
    if flying == [] then 0 else Pending(d, Front(flying)) + Potential(d, |SeenBy(Last(flying).send.packet)|)
  }

  lemma {:induction false} PendingOfConcat(d: nat, a: seq<Hop>, b: seq<Hop>)
    ensures Pending(d, a + b) == Pending(d, a) + Pending(d, b)
  {
    if b == [] {
      assert a + b == a;
    } else {
      assert Front(a + b) == a + Front(b);
      PendingOfConcat(d, a, Front(b));
    }
  }

  lemma {:induction false} TargetsBound(sendTo: seq<Destination>, seenBy: seq<string>)
    ensures |Targets(sendTo, seenBy)| <= |sendTo|
    ensures |seenBy| > 4 ==> Targets(sendTo, seenBy) == []
    ensures forall t :: t in Targets(sendTo, seenBy) <==> t in sendTo && t.name !in seenBy && |seenBy| <= 4
  {
    if sendTo != [] {
      TargetsBound(Front(sendTo), seenBy);
      assert forall t :: t in sendTo <==> t in Front(sendTo) || t == Last(sendTo);
    }
  }

  lemma {:induction false} CopiesOf(targets: seq<Destination>, packet: Packet)
    ensures |Copies(targets, packet)| == |targets|
    ensures forall i :: 0 <= i < |targets| ==> Copies(targets, packet)[i] == Send(targets[i].address, packet)
  {
    if targets != [] {
      CopiesOf(Front(targets), packet);
    }
  }

  /** A server signs a packet by adding its name. */
  lemma SignatureIs(p: Packet, name: string)
    ensures SignedBy(p, name) == Packet(p.code, p.avps + [Avp("SessionStore-SeenBy", name, 0)])
    ensures SeenBy(SignedBy(p, name)) == SeenBy(p) + [name]
  {
    TextsOfAdded(p.avps, Avp("SessionStore-SeenBy", name, 0), "SessionStore-SeenBy");
  }

  /**
   Only accounting that at most four servers signed is sent on: a copy with the configured attributes to each
   destination that is not one of those servers.
   */
  lemma SentOnIff(sendTo: seq<Destination>, attributes: seq<string>, p: Packet, x: Send)
    ensures x in Replicas(sendTo, attributes, p) <==>
      && p.code == 4 && |TextsNamed(p.avps, "SessionStore-SeenBy")| <= 4
      && x.packet == Packet(4, Keep(p.avps, attributes))
      && exists l :: l in sendTo && l.name !in TextsNamed(p.avps, "SessionStore-SeenBy") && l.address == x.address
  {
    var targets := Targets(sendTo, SeenBy(p));
    TargetsBound(sendTo, SeenBy(p));
    CopiesOf(targets, p.Copy(attributes));
    if l :| p.code == 4 && l in targets && l.address == x.address && x.packet == p.Copy(attributes) {
      var i :| 0 <= i < |targets| && targets[i] == l;
      assert Replicas(sendTo, attributes, p)[i] == x;
    }
  }

  lemma SignedSeen(net: Network, s: Send)
    requires KeepsSeenBy(net)
    ensures SeenBy(Signed(net, s)) == SeenBy(s.packet) + [net(s.address).name]
    ensures SeenBy(Signed(net, s).Copy(net(s.address).attributes)) == SeenBy(Signed(net, s))
  {
    TextsOfAdded(s.packet.avps, Avp(SEEN_BY, net(s.address).name, 0), SEEN_BY);
    TextsOfKept(Signed(net, s).avps, net(s.address).attributes, SEEN_BY);
  }

  /** A forwarded copy: one more server on its path and on its list, and a destination that has not seen it. */
  ghost predicate Continues(net: Network, h: Hop, f: Hop) {
    var seen := SeenBy(h.send.packet) + [net(h.send.address).name];
    && f.path == h.path + [h.send.address]
    && SeenBy(f.send.packet) == seen && |seen| <= 4
    && f.send.packet.code == h.send.packet.code
    && exists t :: t in net(h.send.address).sendTo && t.name !in seen && t.address == f.send.address
  }

  lemma ForwardedSeen(net: Network, h: Hop)
    requires KeepsSeenBy(net)
    ensures forall f :: f in Forwarded(net, h) ==> Continues(net, h, f)
    ensures |Forwarded(net, h)| <= |net(h.send.address).sendTo|
    ensures |SeenBy(h.send.packet)| >= 4 ==> Forwarded(net, h) == []
  {
    var node, signed := net(h.send.address), Signed(net, h.send);
    SignedSeen(net, h.send);
    TargetsBound(node.sendTo, SeenBy(signed));
    var targets := Targets(node.sendTo, SeenBy(signed));
    CopiesOf(targets, signed.Copy(node.attributes));
    forall f | f in Forwarded(net, h) ensures Continues(net, h, f) {
      var i :| 0 <= i < |Forwarded(net, h)| && Forwarded(net, h)[i] == f;
      assert targets[i] in targets && targets[i] in node.sendTo;
    }
  }

  lemma OneMore(n: nat, x: nat)
    ensures (n + 1) * x == n * x + x
  {
  }

  lemma {:induction false} PendingOfAlike(d: nat, hops: seq<Hop>, seen: nat)
    requires forall f :: f in hops ==> |SeenBy(f.send.packet)| == seen
    ensures Pending(d, hops) == |hops| * Potential(d, seen)
  {
    if hops != [] {
      assert Last(hops) in hops;
      PendingOfAlike(d, Front(hops), seen);
      OneMore(|hops| - 1, Potential(d, seen));
    }
  }

  lemma Product(a: nat, b: nat, d: nat)
    requires a <= d
    ensures a + a * b <= d * (1 + b)
  {
    assert a * (1 + b) <= d * (1 + b);
  }

  lemma ArrivalSpends(net: Network, d: nat, h: Hop)
    requires KeepsSeenBy(net) && AtMost(net, d)
    ensures |Forwarded(net, h)| + Pending(d, Forwarded(net, h)) <= Potential(d, |SeenBy(h.send.packet)|)
  {
    var k, f := |SeenBy(h.send.packet)|, Forwarded(net, h);
    ForwardedSeen(net, h);
    if k < 4 {
      PendingOfAlike(d, f, k + 1);
      Product(|f|, Potential(d, k + 1), d);
    }
  }

  lemma PendingOfOne(d: nat, h: Hop)
    ensures Pending(d, [h]) == Potential(d, |SeenBy(h.send.packet)|)
  {
    assert Front([h]) == [];
    assert Pending(d, []) == 0;
  }

  lemma PendingOfThree(d: nat, front: seq<Hop>, middle: seq<Hop>, back: seq<Hop>)
    ensures Pending(d, front + (middle + back)) == Pending(d, front) + Pending(d, middle) + Pending(d, back)
  {
    PendingOfConcat(d, front, middle + back);
    PendingOfConcat(d, middle, back);
  }

  lemma PendingWithout(d: nat, flying: seq<Hop>, at: nat)
    requires at < |flying|
    ensures Pending(d, flying) ==
            Pending(d, flying[..at] + flying[at + 1..]) + Potential(d, |SeenBy(flying[at].send.packet)|)
  {
    var h, front, back := flying[at], flying[..at], flying[at + 1..];
    assert flying == front + ([h] + back);
    PendingOfThree(d, front, [h], back);
    PendingOfOne(d, h);
    PendingOfConcat(d, front, back);
  }

  lemma StepSpends(net: Network, d: nat, s: State, e: Event)
    requires KeepsSeenBy(net) && AtMost(net, d)
    ensures Step(net, s, e).sent + Pending(d, Step(net, s, e).flying) <= s.sent + Pending(d, s.flying)
  {
    if e.at < |s.flying| {
      var h, others := s.flying[e.at], s.flying[..e.at] + s.flying[e.at + 1..];
      PendingWithout(d, s.flying, e.at);
      PendingOfConcat(d, others, Forwarded(net, h));
      ArrivalSpends(net, d, h);
      match e
      case Arrive(_) =>
      case Lose(_) =>
    }
  }

  lemma {:induction false} RunSpends(net: Network, d: nat, entry: nat, p: Packet, events: seq<Event>)
    requires KeepsSeenBy(net) && AtMost(net, d)
    ensures var s := Run(net, entry, p, events); s.sent + Pending(d, s.flying) <= Potential(d, |SeenBy(p)|)
  {
    if events == [] {
      var h := Hop([], Send(entry, p));
      assert Front([h]) == [];
    } else {
      RunSpends(net, d, entry, p, Front(events));
      StepSpends(net, d, Run(net, entry, p, Front(events)), Last(events));
    }
  }

  lemma FullPotential(d: nat)
    ensures Potential(d, 0) == d + d * d + d * d * d + d * d * d * d
  {
    assert Potential(d, 3) == d;
    assert Potential(d, 2) == d * (1 + d) == d + d * d;
    assert Potential(d, 1) == d * (1 + d + d * d) == d + d * d + d * d * d;
    assert Potential(d, 0) == d * (1 + (d + d * d + d * d * d));
  }

  /** One fresh packet causes at most d + d^2 + d^3 + d^4 sends, whatever the links and the order of arrival. */
  lemma TrafficIsBounded(net: Network, d: nat, entry: nat, p: Packet, events: seq<Event>)
    requires KeepsSeenBy(net) && AtMost(net, d) && SeenBy(p) == []
    ensures Run(net, entry, p, events).sent <= d + d * d + d * d * d + d * d * d * d
  {
    RunSpends(net, d, entry, p, events);
    FullPotential(d);
  }

  // ----- Where one packet goes

  function Names(net: Network, path: seq<nat>): seq<string> {
    seq(|path|, i requires 0 <= i < |path| => net(path[i]).name)
  }

  ghost predicate Unrepeated(s: seq<string>) {
    forall i, j :: 0 <= i < j < |s| ==> s[i] != s[j]
  }

  ghost predicate Linked(net: Network, a: nat, b: nat) {
    exists l :: l in net(a).sendTo && l.address == b
  }

  /** A chain of at most five servers, each a destination of the one before, no two with the same name. */
  ghost predicate Chain(net: Network, entry: nat, path: seq<nat>) {
    && 1 <= |path| <= 5 && path[0] == entry
    && (forall i :: 1 <= i < |path| ==> Linked(net, path[i - 1], path[i]))
    && Unrepeated(Names(net, path))
  }

  ghost predicate OnChain(net: Network, entry: nat, code: int, h: Hop) {
    && Chain(net, entry, h.path + [h.send.address])
    && SeenBy(h.send.packet) == Names(net, h.path)
    && h.send.packet.code == code
  }

  ghost predicate AllOnChain(net: Network, entry: nat, code: int, s: State) {
    && (forall h :: h in s.flying ==> OnChain(net, entry, code, h))
    && (forall path :: path in s.handled ==> Chain(net, entry, path))
  }

  lemma NamesOfLonger(net: Network, path: seq<nat>, a: nat)
    ensures Names(net, path + [a]) == Names(net, path) + [net(a).name]
  {
  }

  lemma ForwardedOnChain(net: Network, entry: nat, code: int, h: Hop)
    requires KeepsSeenBy(net) && NamesAgree(net) && OnChain(net, entry, code, h)
    ensures forall f :: f in Forwarded(net, h) ==> OnChain(net, entry, code, f)
  {
    ForwardedSeen(net, h);
    var here := h.path + [h.send.address];
    NamesOfLonger(net, h.path, h.send.address);
    forall f | f in Forwarded(net, h) ensures OnChain(net, entry, code, f) {
      NamesOfLonger(net, here, f.send.address);
      assert Linked(net, h.send.address, f.send.address);
      assert f.path == here;
    }
  }

  lemma {:induction false} EveryHopIsOnChain(net: Network, entry: nat, p: Packet, events: seq<Event>)
    requires KeepsSeenBy(net) && NamesAgree(net) && SeenBy(p) == []
    ensures AllOnChain(net, entry, p.code, Run(net, entry, p, events))
  {
    if events != [] {
      EveryHopIsOnChain(net, entry, p, Front(events));
      var s, e := Run(net, entry, p, Front(events)), Last(events);
      if e.at < |s.flying| {
        assert s.flying[e.at] in s.flying;
        ForwardedOnChain(net, entry, p.code, s.flying[e.at]);
      }
    }
  }

  /** No packet comes back to a server that has handled it. */
  lemma NoServerTwice(net: Network, entry: nat, p: Packet, events: seq<Event>, path: seq<nat>)
    requires KeepsSeenBy(net) && NamesAgree(net) && SeenBy(p) == []
    requires path in Run(net, entry, p, events).handled
    ensures |path| <= 5 && forall i, j :: 0 <= i < j < |path| ==> path[i] != path[j]
  {
    EveryHopIsOnChain(net, entry, p, events);
    assert forall i :: 0 <= i < |path| ==> Names(net, path)[i] == net(path[i]).name;
  }

  ghost predicate NothingLost(events: seq<Event>) {
    forall e :: e in events ==> e.Arrive?
  }

  ghost predicate Going(s: State, path: seq<nat>) {
    path in s.handled || exists h :: h in s.flying && h.path + [h.send.address] == path
  }

  /** Every chain that extends a handled one by a server is handled or under way. */
  ghost predicate Spreads(net: Network, entry: nat, s: State) {
    && Going(s, [entry])
    && forall path, a: nat :: path in s.handled && Chain(net, entry, path + [a]) ==> Going(s, path + [a])
  }

  lemma StillGoing(net: Network, s: State, e: Event, path: seq<nat>)
    requires e.Arrive? && Going(s, path)
    ensures Going(Step(net, s, e), path)
  {
    var t := Step(net, s, e);
    if path !in s.handled && e.at < |s.flying| {
      var h :| h in s.flying && h.path + [h.send.address] == path;
      if h != s.flying[e.at] {
        var i :| 0 <= i < |s.flying| && s.flying[i] == h;
        var others := s.flying[..e.at] + s.flying[e.at + 1..];
        assert h == if i < e.at then others[i] else others[i - 1];
        assert h in t.flying;
      }
    }
  }

  /** A chain through the server goes on to each admissible destination. */
  lemma ForwardsToAll(net: Network, entry: nat, h: Hop, a: nat)
    requires KeepsSeenBy(net) && NamesAgree(net) && OnChain(net, entry, ACCOUNTING_REQUEST, h)
    requires Chain(net, entry, h.path + [h.send.address] + [a])
    ensures exists f :: f in Forwarded(net, h) && f.path == h.path + [h.send.address] && f.send.address == a
  {
    var node, signed := net(h.send.address), Signed(net, h.send);
    var here := h.path + [h.send.address];
    var path := here + [a];
    assert Linked(net, path[|path| - 2], path[|path| - 1]);
    var l :| l in node.sendTo && l.address == a;
    SignedSeen(net, h.send);
    NamesOfLonger(net, h.path, h.send.address);
    NamesOfLonger(net, here, a);
    var seen := SeenBy(signed);
    assert seen == Names(net, here) && |seen| <= 4;
    assert l.name !in seen by {
      assert Names(net, path)[|here|] == l.name;
      assert forall i :: 0 <= i < |here| ==> Names(net, path)[i] == seen[i];
    }
    ForwardsTo(net, h, l);
  }

  /** A destination that has not seen the packet gets a copy. */
  lemma ForwardsTo(net: Network, h: Hop, l: Destination)
    requires h.send.packet.code == ACCOUNTING_REQUEST && l in net(h.send.address).sendTo
    requires var seen := SeenBy(Signed(net, h.send)); l.name !in seen && |seen| <= 4
    ensures exists f :: f in Forwarded(net, h) && f.path == h.path + [h.send.address] && f.send.address == l.address
  {
    var node, signed := net(h.send.address), Signed(net, h.send);
    TargetsBound(node.sendTo, SeenBy(signed));
    var targets := Targets(node.sendTo, SeenBy(signed));
    CopiesOf(targets, signed.Copy(node.attributes));
    var i :| 0 <= i < |targets| && targets[i] == l;
    assert Forwarded(net, h)[i].send.address == l.address;
  }

  lemma StepSpreads(net: Network, entry: nat, s: State, e: Event)
    requires KeepsSeenBy(net) && NamesAgree(net) && e.Arrive?
    requires AllOnChain(net, entry, ACCOUNTING_REQUEST, s) && Spreads(net, entry, s)
    ensures Spreads(net, entry, Step(net, s, e))
  {
    var t := Step(net, s, e);
    StillGoing(net, s, e, [entry]);
    forall path, a: nat | path in t.handled && Chain(net, entry, path + [a]) ensures Going(t, path + [a]) {
      if path in s.handled {
        StillGoing(net, s, e, path + [a]);
      } else {
        var h := s.flying[e.at];
        assert h in s.flying && path == h.path + [h.send.address];
        ForwardsToAll(net, entry, h, a);
        var f :| f in Forwarded(net, h) && f.path == path && f.send.address == a;
        assert f in t.flying;
      }
    }
  }

  lemma {:induction false} RunSpreads(net: Network, entry: nat, p: Packet, events: seq<Event>)
    requires KeepsSeenBy(net) && NamesAgree(net) && NothingLost(events)
    requires SeenBy(p) == [] && p.code == ACCOUNTING_REQUEST
    ensures Spreads(net, entry, Run(net, entry, p, events))
  {
    if events == [] {
      var h := Hop([], Send(entry, p));
      assert h.path + [h.send.address] == [entry];
    } else {
      assert forall e :: e in Front(events) ==> e in events;
      assert Last(events) in events;
      RunSpreads(net, entry, p, Front(events));
      EveryHopIsOnChain(net, entry, p, Front(events));
      StepSpreads(net, entry, Run(net, entry, p, Front(events)), Last(events));
    }
  }

  lemma {:induction false} QuietMeansDone(net: Network, entry: nat, s: State, path: seq<nat>)
    requires Spreads(net, entry, s) && s.flying == [] && Chain(net, entry, path)
    ensures path in s.handled
  {
    if |path| == 1 {
      assert path == [entry];
    } else {
      var front, a := Front(path), Last(path);
      assert path == front + [a];
      assert forall i :: 0 <= i < |front| ==> Names(net, front)[i] == Names(net, path)[i];
      QuietMeansDone(net, entry, s, front);
    }
  }

  /** When nothing is lost and nothing is left, the chains that were followed are exactly the admissible ones. */
  lemma EveryChainIsFollowed(net: Network, entry: nat, p: Packet, events: seq<Event>, path: seq<nat>)
    requires KeepsSeenBy(net) && NamesAgree(net) && NothingLost(events)
    requires SeenBy(p) == [] && p.code == ACCOUNTING_REQUEST
    requires Run(net, entry, p, events).flying == []
    ensures path in Run(net, entry, p, events).handled <==> Chain(net, entry, path)
  {
    EveryHopIsOnChain(net, entry, p, events);
    RunSpreads(net, entry, p, events);
    if Chain(net, entry, path) {
      QuietMeansDone(net, entry, Run(net, entry, p, events), path);
    }
  }

  // ----- What the copies tell

  /** The servers keep the attributes that a store is configured with. */
  ghost predicate KeepsTheSame(net: Network, conf: StoreSpec.Conf) {
    forall a: nat :: net(a).attributes == conf.attributes
  }

  lemma ForwardedTellTheSame(net: Network, conf: StoreSpec.Conf, h: Hop)
    requires KeepsTheSame(net, conf) && IdsUnmarked(conf) && CopiesWhole(conf)
    ensures forall f :: f in Forwarded(net, h) ==> FactsOf(conf, f.send.packet) == FactsOf(conf, h.send.packet)
  {
    var signed := Signed(net, h.send);
    SigningKeepsFacts(conf, h.send.packet, net(h.send.address).name);
    CopyingKeepsFacts(conf, signed);
    CopiesOf(Targets(net(h.send.address).sendTo, SeenBy(signed)), signed.Copy(conf.attributes));
  }

  /** Every copy of a packet, whatever way it took, tells a store the same facts. */
  lemma {:induction false} CopiesTellTheSame(net: Network, conf: StoreSpec.Conf, entry: nat, p: Packet,
        events: seq<Event>)
    requires KeepsTheSame(net, conf) && IdsUnmarked(conf) && CopiesWhole(conf)
    ensures forall h :: h in Run(net, entry, p, events).flying ==> FactsOf(conf, h.send.packet) == FactsOf(conf, p)
  {
    if events != [] {
      CopiesTellTheSame(net, conf, entry, p, Front(events));
      var s, e := Run(net, entry, p, Front(events)), Last(events);
      if e.at < |s.flying| {
        assert s.flying[e.at] in s.flying;
        ForwardedTellTheSame(net, conf, s.flying[e.at]);
      }
    }
  }
}
