/**
 Requests waiting for an answer: their response channels and their timers, as the peers and the client sockets keep
 them.
 */
module Outstanding {

  datatype RequestContext = RequestContext(rchan: nat, timer: nat)

  /** A timer that was not stopped: armed, or running its function. */
  datatype Timer<R> = Timer(request: R, running: bool)

  datatype Timers<R> = Timers(live: map<nat, Timer<R>>, next: nat)

  /** The messages sent on every channel handed in, how often each was closed, and what was asked for. */
  datatype Channels<O, A> = Channels(mail: map<nat, seq<O>>, closes: map<nat, nat>, asked: map<nat, A>)

  /** The one message on a channel, and its close. */
  function Told<O, A>(k: Channels<O, A>, c: nat, o: O): Channels<O, A> {
    k.(mail := k.mail[c := (if c in k.mail then k.mail[c] else []) + [o]],
       closes := k.closes[c := (if c in k.closes then k.closes[c] else 0) + 1])
  }

  predicate Armed<R>(timers: map<nat, Timer<R>>, t: nat) {
    t in timers && !timers[t].running
  }

  /** The outstanding requests that answer on a channel. */
  function Waiting<K>(requestsMap: map<K, RequestContext>, c: nat): set<K> {
    set key | key in requestsMap && requestsMap[key].rchan == c
  }

  /** The timers of the outstanding requests that can still be stopped. */
  function Stopped<K, R>(requestsMap: map<K, RequestContext>, timers: map<nat, Timer<R>>): set<nat> {
    set key | key in requestsMap && Armed(timers, requestsMap[key].timer) :: requestsMap[key].timer
  }

  /** Every outstanding request is told the same. */
  function AllTold<K, O, A>(k: Channels<O, A>, requestsMap: map<K, RequestContext>, o: O): Channels<O, A> {
    k.(mail := map c | c in k.mail :: k.mail[c] + seq(|Waiting(requestsMap, c)|, _ => o),
       closes := map c | c in k.closes :: k.closes[c] + |Waiting(requestsMap, c)|)
  }

  // ----- Telling everybody, one by one

  lemma OneFewerWaiting<K>(requestsMap: map<K, RequestContext>, key: K, c: nat)
    requires key in requestsMap
    ensures |Waiting(requestsMap, c)| ==
            |Waiting(requestsMap - {key}, c)| + if requestsMap[key].rchan == c then 1 else 0
  {
    assert Waiting(requestsMap - {key}, c) == Waiting(requestsMap, c) - {key};
    assert key in Waiting(requestsMap, c) <==> requestsMap[key].rchan == c;
  }

  lemma OneFewerStopped<K, R>(requestsMap: map<K, RequestContext>, timers: map<nat, Timer<R>>, key: K)
    requires key in requestsMap
    ensures var timer := requestsMap[key].timer;
      var live := if Armed(timers, timer) then timers - {timer} else timers;
      && Stopped(requestsMap, timers) ==
         Stopped(requestsMap - {key}, live) + (if Armed(timers, timer) then {timer} else {})
      && |Stopped(requestsMap, timers)| ==
         |Stopped(requestsMap - {key}, live)| + (if Armed(timers, timer) then 1 else 0)
      && timers - Stopped(requestsMap, timers) == live - Stopped(requestsMap - {key}, live)
  {
    var timer := requestsMap[key].timer;
    var live := if Armed(timers, timer) then timers - {timer} else timers;
    var left := requestsMap - {key};
    var before, after := Stopped(requestsMap, timers), Stopped(left, live);
    forall t | t in before && (t != timer || !Armed(timers, timer)) ensures t in after {
      var h :| h in requestsMap && Armed(timers, requestsMap[h].timer) && requestsMap[h].timer == t;
      assert h in left && left[h].timer == t;
    }
    forall t | t in after ensures t in before {
      var h :| h in left && Armed(live, left[h].timer) && left[h].timer == t;
      assert h in requestsMap && requestsMap[h].timer == t;
    }
    if Armed(timers, timer) {
      assert before == after + {timer};
      assert timer !in after;
    } else {
      assert before == after;
    }
  }

  lemma ToldOneByOne<K, O, A>(k: Channels<O, A>, requestsMap: map<K, RequestContext>, key: K, o: O)
    requires key in requestsMap && requestsMap[key].rchan in k.mail && requestsMap[key].rchan in k.closes
    ensures AllTold(Told(k, requestsMap[key].rchan, o), requestsMap - {key}, o) == AllTold(k, requestsMap, o)
  {
    var c := requestsMap[key].rchan;
    var told, left := Told(k, c, o), requestsMap - {key};
    var once, whole := AllTold(told, left, o), AllTold(k, requestsMap, o);
    forall d | d in k.mail ensures once.mail[d] == whole.mail[d] {
      OneFewerWaiting(requestsMap, key, d);
    }
    assert once.mail == whole.mail;
    forall d | d in k.closes ensures once.closes[d] == whole.closes[d] {
      OneFewerWaiting(requestsMap, key, d);
    }
    assert once.closes == whole.closes;
  }

  lemma NobodyTold<K, O, A>(k: Channels<O, A>, requestsMap: map<K, RequestContext>, o: O)
    requires requestsMap == map[]
    ensures AllTold(k, requestsMap, o) == k
  {
    var told := AllTold(k, requestsMap, o);
    assert forall c :: Waiting(requestsMap, c) == {};
    assert forall c :: c in k.mail ==> told.mail[c] == k.mail[c];
    assert told.mail == k.mail && told.closes == k.closes;
  }
}
