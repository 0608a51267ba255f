/** The entries of the session store and the doubly linked lists that order them by expiry. */
module SessionEntry {
  import opened Packets
  import opened StoreSpec

  class Entry {
    const id: string
    const packetType: int
    const packet: Packet
    const expires: int
    ghost const serial: nat
    var next: Entry?
    var previous: Entry?

    constructor (id: string, packetType: int, packet: Packet, expires: int, ghost serial: nat)
      ensures Value() == Session(serial, id, packetType, packet, expires)
      ensures next == null && previous == null
    {
      this.id, this.packetType, this.packet, this.expires := id, packetType, packet, expires;
      this.serial := serial;
      next, previous := null, null;
    }

    ghost function Value(): Session {
      Session(serial, id, packetType, packet, expires)
    }
  }

  ghost function Values(nodes: seq<Entry>): seq<Session> {
    seq(|nodes|, i requires 0 <= i < |nodes| => nodes[i].Value())
  }

  ghost function Entries(m: map<string, Entry>): map<string, Session> {
    map id | id in m :: m[id].Value()
  }

  lemma {:induction false} WithoutAt(l: seq<Session>, k: nat)
    requires k < |l| && forall i :: 0 <= i < k ==> l[i] != l[k]
    ensures Without(l, l[k]) == l[..k] + l[k + 1..]
  {
    if k > 0 {
      WithoutAt(l[1..], k - 1);
      assert l[..k] == [l[0]] + l[1..][..k - 1];
    }
  }

  ghost predicate NoRepeats(nodes: seq<Entry>) {
    forall i, j :: 0 <= i < j < |nodes| ==> nodes[i] != nodes[j]
  }

  class EntryList {
    var head: Entry?
    var tail: Entry?
    ghost var nodes: seq<Entry>
    ghost var Repr: set<object>

    /** `nodes` is what one meets going from head to tail by `next`, and back by `previous`. */
    ghost predicate Valid()
      reads this, Repr
    {
      && this in Repr
      && (forall i :: 0 <= i < |nodes| ==> nodes[i] in Repr)
      && NoRepeats(nodes)
      && (nodes == [] ==> head == null && tail == null)
      && (nodes != [] ==> head == nodes[0] && tail == nodes[|nodes| - 1]
                          && nodes[0].previous == null && nodes[|nodes| - 1].next == null)
      && (forall i {:trigger nodes[i].next} :: 0 <= i < |nodes| - 1 ==> nodes[i].next == nodes[i + 1])
      && (forall i {:trigger nodes[i].previous} :: 1 <= i < |nodes| ==> nodes[i].previous == nodes[i - 1])
    }

    constructor ()
      ensures Valid() && nodes == [] && fresh(Repr)
    {
      head, tail, nodes := null, null, [];
      Repr := {this};
    }

    /** Adds an entry at the end. */
    method Add(e: Entry)
      requires Valid() && e !in Repr && e.next == null
      modifies Repr, e
      ensures Valid() && nodes == old(nodes) + [e] && Repr == old(Repr) + {e}
    {
      e.previous := tail;
      if tail != null {
        tail.next := e;
      }
      tail := e;
      if head == null {
        head := e;
      }
      nodes := nodes + [e];
      Repr := Repr + {e};
    }

    /** Unlinks an entry, which keeps its own pointers. */
    method Remove(e: Entry) returns (ghost k: nat)
      requires Valid() && e in nodes
      modifies Repr
      ensures Valid() && Repr == old(Repr) - {e}
      ensures k < |old(nodes)| && old(nodes)[k] == e && nodes == old(nodes)[..k] + old(nodes)[k + 1..]
      ensures e.next == old(e.next)
    {
      k :| 0 <= k < |nodes| && nodes[k] == e;
      if e.previous != null {
        e.previous.next := e.next;
      } else {
        head := e.next;
      }
      if e.next != null {
        e.next.previous := e.previous;
      } else {
        tail := e.previous;
      }
      nodes := nodes[..k] + nodes[k + 1..];
      Repr := Repr - {e};
    }

    /** The entries met from the head on. */
    method GetEntries() returns (entries: seq<Entry>)
      requires Valid()
      ensures entries == nodes
    {
      entries := [];
      var entry := head;
      while entry != null
        invariant |entries| <= |nodes| && entries == nodes[..|entries|]
        invariant entry == if |entries| < |nodes| then nodes[|entries|] else null
        decreases |nodes| - |entries|
      {
        entries := entries + [entry];
        entry := entry.next;
      }
    }
  }
}
