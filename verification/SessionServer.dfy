/** The update branch of a session server: push the packet, then send copies to the other servers. */
module SessionServer {
  import opened Common
  import opened Packets
  import Spec = StoreSpec
  import SessionStore

  const SEEN_BY := "SessionStore-SeenBy"

  /** A destination of the replication: the name it is configured with and where it listens. */
  datatype Destination = Destination(name: string, address: nat)

  datatype Reply = Accepted | Denied(offendingIndex: string)

  /** A copy of a packet on its way to a server. */
  datatype Send = Send(address: nat, packet: Packet)

  /** The values of all attributes with the given name. */
  function TextsNamed(avps: seq<Avp>, name: string): seq<string> {
    if avps == [] then []
    else (if avps[0].name == name then [avps[0].text] else []) + TextsNamed(avps[1..], name)
  }

  function SeenBy(p: Packet): seq<string> {
    TextsNamed(p.avps, SEEN_BY)
  }

  /** The packet with the server's name on its list. */
  function SignedBy(p: Packet, name: string): Packet {
    p.Add(Avp(SEEN_BY, name, 0))
  }

  /** The destinations that have not seen the packet, none at all once more than four servers have. */
  function Targets(sendTo: seq<Destination>, seenBy: seq<string>): seq<Destination> {
    if sendTo == [] then []
    else
      Targets(Front(sendTo), seenBy) +
      if Last(sendTo).name !in seenBy && |seenBy| <= 4 then [Last(sendTo)] else []
  }

  function Copies(targets: seq<Destination>, packet: Packet): seq<Send> {
    if targets == [] then [] else Copies(Front(targets), packet) + [Send(Last(targets).address, packet)]
  }

  /** What a server sends on after handling a packet whose list of servers already has its own name. */
  function Replicas(sendTo: seq<Destination>, attributes: seq<string>, packet: Packet): seq<Send> {
    if packet.code == ACCOUNTING_REQUEST
    then Copies(Targets(sendTo, SeenBy(packet)), packet.Copy(attributes))
    else []
  }

  class RadiusSessionServer {
    const name: string
    const sendTo: seq<Destination>
    const store: SessionStore.RadiusSessionStore

    constructor (name: string, sendTo: seq<Destination>, store: SessionStore.RadiusSessionStore)
      ensures this.name == name && this.sendTo == sendTo && this.store == store
    {
      this.name, this.sendTo, this.store := name, sendTo, store;
    }

    /**
     Handles a received packet: signs it, stores it and replicates it whether it was stored or not. The reply denies
     the request exactly when it claims a taken value, and says of which index; an index without a name says nothing.
     */
    method HandlePacket(request: Packet, now: int) returns (reply: Reply, sends: seq<Send>)
      requires store.Valid()
      modifies store, store.ListRepr()
      ensures store.Valid() && fresh(store.ListRepr() - old(store.ListRepr()))
      ensures var signed := SignedBy(request, name);
        && store.history == old(store.history) + [Spec.Received(signed, now)]
        && sends == Replicas(sendTo, store.conf.attributes, signed)
      ensures !old(store.Refused(SignedBy(request, name))) ==> reply == Accepted
      ensures old(store.Refused(SignedBy(request, name))) ==> exists id, index ::
                && Spec.Justifies(old(store.View()), store.conf, SignedBy(request, name), id, index)
                && reply == if index == "" then Accepted else Denied(index)
    {
      var signed := SignedBy(request, name);
      var offendingId, offendingIndex := store.PushPacket(signed, now);
      reply := if offendingIndex == "" then Accepted else Denied(offendingIndex);
      sends := [];
      if signed.code == ACCOUNTING_REQUEST {
        ghost var targets := [];
        var packetToSend := signed.Copy(store.conf.attributes);
        for i := 0 to |sendTo|
          invariant targets == Targets(sendTo[..i], SeenBy(signed))
          invariant sends == Copies(targets, packetToSend)
        {
          assert Front(sendTo[..i + 1]) == sendTo[..i];
          if sendTo[i].name in SeenBy(signed) {
            continue;
          }
          if |SeenBy(signed)| > 4 {
            continue;
          }
          assert Front(targets + [sendTo[i]]) == targets;
          targets := targets + [sendTo[i]];
          sends := sends + [Send(sendTo[i].address, packetToSend)];
        }
        assert sendTo[..|sendTo|] == sendTo;
      }
    }
  }

  lemma {:induction false} TextsOfKept(avps: seq<Avp>, filter: seq<string>, name: string)
    requires name in filter
    ensures TextsNamed(Keep(avps, filter), name) == TextsNamed(avps, name)
  {
    if avps != [] {
      TextsOfKept(avps[1..], filter, name);
      var rest := Keep(avps[1..], filter);
      assert ([avps[0]] + rest)[1..] == rest;
      assert [] + rest == rest;
    }
  }

  lemma {:induction false} TextsOfAdded(avps: seq<Avp>, a: Avp, name: string)
    ensures TextsNamed(avps + [a], name) == TextsNamed(avps, name) + if a.name == name then [a.text] else []
  {
    if avps == [] {
      assert avps + [a] == [a];
    } else {
      assert (avps + [a])[1..] == avps[1..] + [a];
      TextsOfAdded(avps[1..], a, name);
    }
  }
}
