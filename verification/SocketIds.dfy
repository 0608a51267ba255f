/** The cyclic allocator of RADIUS identifiers: it finds a free one whenever there is one, in every reachable state. */
module SocketIds {
  import opened Common
  import opened Outstanding
  import opened SocketSpec

  /** The n-th identifier the search looks at. */
  function Nth(id: nat, n: nat): nat
    requires n > 0
  {
    (id + n - 1) % MAX_ID + 1
  }

  lemma NthGoesOn(id: nat, n: nat)
    requires id <= MAX_ID && n > 0
    ensures Nth(id, 1) == NextId(id)
    ensures Nth(id, n + 1) == Nth(NextId(id), n)
  {
    if id == MAX_ID {
      assert (MAX_ID + n) % MAX_ID == n % MAX_ID;
    }
  }

  /** The search stops at the first free identifier, and gives up only after looking at all of them. */
  lemma {:induction false} FirstFreeIsFirst<T>(busy: map<nat, T>, id: nat, tries: nat)
    requires id <= MAX_ID
    ensures FirstFree(busy, id, tries).None? <==> forall n :: 1 <= n <= tries ==> Nth(id, n) in busy
    ensures FirstFree(busy, id, tries).Some? ==>
      exists n :: 1 <= n <= tries && FirstFree(busy, id, tries).value == Nth(id, n) && Nth(id, n) !in busy
        && forall j :: 1 <= j < n ==> Nth(id, j) in busy
    decreases tries
  {
    if tries > 0 {
      NthGoesOn(id, 1);
      if NextId(id) !in busy {
        assert Nth(id, 1) == FirstFree(busy, id, tries).value;
      } else {
        var next := NextId(id);
        FirstFreeIsFirst(busy, next, tries - 1);
        forall n | 1 <= n ensures Nth(next, n) == Nth(id, n + 1) {
          NthGoesOn(id, n);
        }
        if FirstFree(busy, next, tries - 1).Some? {
          var n :| 1 <= n <= tries - 1 && FirstFree(busy, next, tries - 1).value == Nth(next, n)
              && Nth(next, n) !in busy
            && forall j :: 1 <= j < n ==> Nth(next, j) in busy;
          forall j | 1 <= j < n + 1 ensures Nth(id, j) in busy {
            if j > 1 {
              assert Nth(next, j - 1) in busy;
            }
          }
          assert FirstFree(busy, id, tries).value == Nth(id, n + 1);
        } else if forall n :: 1 <= n <= tries - 1 ==> Nth(next, n) in busy {
          forall n | 1 <= n <= tries ensures Nth(id, n) in busy {
            if n > 1 {
              assert Nth(next, n - 1) in busy;
            }
          }
        }
      }
    }
  }

  /** One round visits each of the 255 identifiers once, wherever it starts. */
  lemma EveryIdIsVisitedOnce(id: nat, x: nat)
    requires id <= MAX_ID && 1 <= x <= MAX_ID
    ensures exists n :: 1 <= n <= MAX_ID && Nth(id, n) == x
    ensures forall m, n :: 1 <= m <= MAX_ID && 1 <= n <= MAX_ID && Nth(id, m) == Nth(id, n) ==> m == n
  {
    var n := if x > id then x - id else x - id + MAX_ID;
    assert id + n - 1 == x - 1 || id + n - 1 == x - 1 + MAX_ID;
    assert (x - 1 + MAX_ID) % MAX_ID == x - 1;
    assert Nth(id, n) == x;
  }

  lemma SearchIsComplete<T>(busy: map<nat, T>, id: nat)
    requires id <= MAX_ID
    ensures var found := FirstFree(busy, id, MAX_ID);
      && (found.None? <==> forall x :: 1 <= x <= MAX_ID ==> x in busy)
      && (found.Some? ==> 1 <= found.value <= MAX_ID && found.value !in busy)
  {
    FirstFreeIsFirst(busy, id, MAX_ID);
    if FirstFree(busy, id, MAX_ID).None? {
      forall x | 1 <= x <= MAX_ID ensures x in busy {
        EveryIdIsVisitedOnce(id, x);
        var n :| 1 <= n <= MAX_ID && Nth(id, n) == x;
      }
    }
  }

  /** Where in the round an identifier comes. */
  function Place(last: nat, x: nat): nat
    requires 1 <= x <= 255 && last <= 255
  {
    if x > last then x - last else x - last + 255
  }

  lemma PlaceIsNth(last: nat, x: nat)
    requires 1 <= x <= 255 && last <= 255
    ensures 1 <= Place(last, x) <= 255 && Nth(last, Place(last, x)) == x
  {
    assert last + Place(last, x) - 1 == x - 1 || last + Place(last, x) - 1 == x - 1 + MAX_ID;
    assert (x - 1 + MAX_ID) % MAX_ID == x - 1;
  }

  /**
   The identifier found is the next free one above the last one given, or, if those up to 255 are all taken, the lowest
   free one from 1 on.
   */
  lemma NextFreeInOrder<T>(busy: map<nat, T>, last: nat)
    requires last <= 255
    ensures var found := FirstFree(busy, last, MAX_ID);
      found.Some? ==>
        && 1 <= found.value <= 255 && found.value !in busy
        && (found.value > last ==> forall y: nat :: last < y < found.value ==> y in busy)
        && (found.value <= last ==>
            && (forall y: nat :: last < y <= 255 ==> y in busy)
            && forall y: nat :: 1 <= y < found.value ==> y in busy)
  {
    FirstFreeIsFirst(busy, last, MAX_ID);
    SearchIsComplete(busy, last);
    var found := FirstFree(busy, last, MAX_ID);
    if found.Some? {
      var n :| 1 <= n <= MAX_ID && found.value == Nth(last, n) && forall j :: 1 <= j < n ==> Nth(last, j) in busy;
      PlaceIsNth(last, found.value);
      EveryIdIsVisitedOnce(last, found.value);
      assert n == Place(last, found.value);
      forall y: nat | 1 <= y <= 255 && Place(last, y) < n ensures y in busy {
        PlaceIsNth(last, y);
      }
    }
  }

  // ----- Every reachable state

  /** Identifiers stay between 1 and 255; 0 is never allocated. */
  ghost predicate Ranged(out: map<Key, RequestContext>, last: map<string, nat>, timers: map<nat, Timer<Request>>,
        queue: seq<Msg>)
  {
    && (forall k :: k in out ==> 1 <= k.id <= MAX_ID)
    && (forall endpoint :: endpoint in last ==> 1 <= last[endpoint] <= MAX_ID)
    && (forall t :: t in timers ==> 1 <= timers[t].request.id <= MAX_ID)
    && (forall m :: m in queue && m.Transmit? ==> m.request.id <= MAX_ID)
  }

  ghost predicate InRange(s: Socket) {
    Ranged(Flat(s.requestsMap), s.lastRadiusIdMap, s.timers.live, s.queue)
  }

  lemma KnownIsFlat(s: Socket, endpoint: string, id: nat)
    ensures Key(endpoint, id) in Flat(s.requestsMap) <==> id in Known(s, endpoint)
  {
    FlatHas(s.requestsMap, Key(endpoint, id));
  }

  /** Called for a fresh identifier, the allocator gives one that is free and fails only if all 255 are outstanding. */
  lemma FreshIdIsFree(s: Socket, endpoint: string)
    requires InRange(s)
    ensures var id := GetNextRadiusId(s, endpoint, 0).1;
      && (id.None? <==> forall x :: 1 <= x <= MAX_ID ==> Key(endpoint, x) in Flat(s.requestsMap))
      && (id.Some? ==> 1 <= id.value <= MAX_ID && Key(endpoint, id.value) !in Flat(s.requestsMap))
  {
    SearchIsComplete(Known(s, endpoint), LastId(s, endpoint));
    forall x: nat ensures Key(endpoint, x) in Flat(s.requestsMap) <==> x in Known(s, endpoint) {
      KnownIsFlat(s, endpoint, x);
    }
  }

  /** Allocating changes nothing but the hint, and makes the endpoint known. */
  lemma AllocationKeeps(s: Socket, endpoint: string, current: nat)
    ensures var t := GetNextRadiusId(s, endpoint, current).0;
      && Flat(t.requestsMap) == Flat(s.requestsMap)
      && t == s.(requestsMap := t.requestsMap, lastRadiusIdMap := t.lastRadiusIdMap)
      && t.requestsMap.Keys == s.requestsMap.Keys + if current == 0 then {endpoint} else {}
  {
    FlatKnown(s.requestsMap, endpoint);
  }
}
