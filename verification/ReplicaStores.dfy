/** Stores at the servers of a network: when all copies have arrived, the servers they reached agree. */
module ReplicaStores {
  import opened Common
  import opened Packets
  import opened SessionServer
  import R = Replication
  import C = Convergence
  import Spec = StoreSpec

  /** A packet that comes in at a server, and what the network then makes of it. */
  datatype Injection = Injection(entry: nat, packet: Packet, events: seq<R.Event>)

  function End(net: R.Network, j: Injection): R.State {
    R.Run(net, j.entry, j.packet, j.events)
  }

  /** What has arrived at some server. */
  function Arrived(net: R.Network, entry: nat, p: Packet, events: seq<R.Event>): set<R.Hop> {
    if events == [] then {}
    else
      var s, e := R.Run(net, entry, p, Front(events)), Last(events);
      Arrived(net, entry, p, Front(events)) + if e.Arrive? && e.at < |s.flying| then {s.flying[e.at]} else {}
  }

  function ArrivedOf(net: R.Network, j: Injection): set<R.Hop> {
    Arrived(net, j.entry, j.packet, j.events)
  }

  lemma {:induction false} HandledHasArrived(net: R.Network, entry: nat, p: Packet, events: seq<R.Event>,
        path: seq<nat>)
    requires path in R.Run(net, entry, p, events).handled
    ensures exists h :: h in Arrived(net, entry, p, events) && h.path + [h.send.address] == path
  {
    if events != [] {
      var s, e := R.Run(net, entry, p, Front(events)), Last(events);
      if path in s.handled {
        HandledHasArrived(net, entry, p, Front(events), path);
        var h :| h in Arrived(net, entry, p, Front(events)) && h.path + [h.send.address] == path;
        assert h in Arrived(net, entry, p, events);
      } else {
        assert s.flying[e.at] in Arrived(net, entry, p, events);
      }
    }
  }

  lemma {:induction false} ArrivedTellTheSame(net: R.Network, conf: Spec.Conf, entry: nat, p: Packet,
        events: seq<R.Event>)
    requires R.KeepsTheSame(net, conf) && C.IdsUnmarked(conf) && C.CopiesWhole(conf)
    ensures forall h :: h in Arrived(net, entry, p, events) ==> C.FactsOf(conf, h.send.packet) == C.FactsOf(conf, p)
  {
    if events != [] {
      ArrivedTellTheSame(net, conf, entry, p, Front(events));
      R.CopiesTellTheSame(net, conf, entry, p, Front(events));
    }
  }

  /** A fresh accounting packet, of which nothing was lost and nothing is under way any more. */
  ghost predicate Settled(net: R.Network, j: Injection) {
    && SeenBy(j.packet) == [] && j.packet.code == ACCOUNTING_REQUEST
    && R.NothingLost(j.events) && End(net, j).flying == []
  }

  /** A chain of servers leads from one to the other. */
  ghost predicate Reaches(net: R.Network, entry: nat, a: nat) {
    exists path: seq<nat> :: R.Chain(net, entry, path) && path != [] && Last(path) == a
  }

  ghost predicate CameTo(net: R.Network, j: Injection, a: nat, p: Packet) {
    exists h :: h in ArrivedOf(net, j) && h.send.address == a && h.send.packet == p
  }

  /** The server handled what came to it of these packets and nothing else, in any order and any number of times. */
  ghost predicate HandledAt(net: R.Network, injections: seq<Injection>, a: nat, requests: seq<C.Request>) {
    && (forall r :: r in requests ==> exists j :: j in injections && CameTo(net, j, a, r.packet))
    && (forall j, p :: j in injections && CameTo(net, j, a, p) ==> exists r :: r in requests && r.packet == p)
  }

  lemma ReachedIsTold(net: R.Network, conf: Spec.Conf, j: Injection, a: nat) returns (p: Packet)
    requires R.KeepsSeenBy(net) && R.NamesAgree(net) && R.KeepsTheSame(net, conf) && C.IdsUnmarked(conf)
    requires C.CopiesWhole(conf)
    requires Settled(net, j) && Reaches(net, j.entry, a)
    ensures CameTo(net, j, a, p) && C.FactsOf(conf, p) == C.FactsOf(conf, j.packet)
  {
    var path: seq<nat> :| R.Chain(net, j.entry, path) && path != [] && Last(path) == a;
    R.EveryChainIsFollowed(net, j.entry, j.packet, j.events, path);
    HandledHasArrived(net, j.entry, j.packet, j.events, path);
    var h :| h in ArrivedOf(net, j) && h.path + [h.send.address] == path;
    assert h.send.address == Last(path);
    ArrivedTellTheSame(net, conf, j.entry, j.packet, j.events);
    p := h.send.packet;
  }

  function FactsInjected(conf: Spec.Conf, injections: seq<Injection>): set<C.Facts> {
    set j | j in injections :: C.FactsOf(conf, j.packet)
  }

  /** A server that every packet reaches is told exactly the facts of all of them. */
  lemma ToldEverything(net: R.Network, conf: Spec.Conf, injections: seq<Injection>, a: nat, requests: seq<C.Request>)
    requires R.KeepsSeenBy(net) && R.NamesAgree(net) && R.KeepsTheSame(net, conf) && C.IdsUnmarked(conf)
    requires C.CopiesWhole(conf)
    requires forall j :: j in injections ==> Settled(net, j) && Reaches(net, j.entry, a)
    requires HandledAt(net, injections, a, requests)
    ensures C.FactsRequested(conf, requests) == FactsInjected(conf, injections)
  {
    forall f | f in FactsInjected(conf, injections) ensures f in C.FactsRequested(conf, requests) {
      var j :| j in injections && f == C.FactsOf(conf, j.packet);
      var p := ReachedIsTold(net, conf, j, a);
      var r :| r in requests && r.packet == p;
    }
    forall r | r in requests ensures C.FactsOf(conf, r.packet) in FactsInjected(conf, injections) {
      var j :| j in injections && CameTo(net, j, a, r.packet);
      ArrivedTellTheSame(net, conf, j.entry, j.packet, j.events);
    }
  }

  /**
   Packets come in anywhere in a network. When nothing was lost and nothing is under way, two servers that all of
   them reach store the same for every session, up to the attributes that stores and servers add.
   */
  lemma ReplicasAgree(net: R.Network, conf: Spec.Conf, conf': Spec.Conf, injections: seq<Injection>,
                      a: nat, b: nat, requests: seq<C.Request>, requests': seq<C.Request>)
    requires R.KeepsSeenBy(net) && R.NamesAgree(net) && R.KeepsTheSame(net, conf)
    requires C.IdsUnmarked(conf) && C.CopiesWhole(conf) && C.Alike(conf, conf')
    requires forall j :: j in injections ==> Settled(net, j) && Reaches(net, j.entry, a) && Reaches(net, j.entry, b)
    requires HandledAt(net, injections, a, requests) && HandledAt(net, injections, b, requests')
    requires C.Chain(FactsInjected(conf, injections))
    ensures C.Agree(Spec.Run(conf, C.Handled(net(a).name, requests)),
        Spec.Run(conf', C.Handled(net(b).name, requests')))
  {
    ToldEverything(net, conf, injections, a, requests);
    ToldEverything(net, conf, injections, b, requests');
    assert C.FactsRequested(conf, requests') == C.FactsRequested(conf', requests') by {
      assert forall p: Packet :: C.FactsOf(conf, p) == C.FactsOf(conf', p);
    }
    C.ServersConverge(conf, conf', net(a).name, net(b).name, requests, requests');
  }
}
