/**
 The books of a RADIUS client socket stay clean, each channel in one place, except when a request is taken out while
 its retransmission is on its way, or when a retransmission cannot be sent.
 */
module SocketLedger {
  import opened Outstanding
  import opened SocketSpec
  import opened SocketBooks
  import opened SocketRuns

  function FreshOn(queue: seq<Msg>, c: nat): nat {
    if queue == [] then 0
    else if queue[0].Transmit? && !IsRetry(queue[0]) && queue[0].request.rchan == c then 1 + FreshOn(queue[1..], c)
    else FreshOn(queue[1..], c)
  }

  lemma {:induction false} FreshOnConcat(a: seq<Msg>, b: seq<Msg>, c: nat)
    ensures FreshOn(a + b, c) == FreshOn(a, c) + FreshOn(b, c)
  {
    if a == [] {
      assert a + b == b;
    } else {
      assert (a + b)[1..] == a[1..] + b;
      FreshOnConcat(a[1..], b, c);
    }
  }

  /** A channel is waiting to be sent, outstanding or answered: in one place and once. */
  ghost predicate Placed(queue: seq<Msg>, out: map<Key, RequestContext>, mail: map<nat, seq<Outcome>>, c: nat) {
    if c in mail then FreshOn(queue, c) + |Waiting(out, c)| + |mail[c]| == 1
    else FreshOn(queue, c) == 0 && Waiting(out, c) == {}
  }

  predicate Fits(asked: map<nat, string>, c: nat, o: Outcome) {
    o.Answer? ==> c in asked && o.key.endpoint == asked[c]
  }

  /** One message and one close on each channel in the end, and answers only from the endpoint asked. */
  ghost predicate Balanced(queue: seq<Msg>, out: map<Key, RequestContext>, k: Channels<Outcome, string>) {
    && k.mail.Keys == k.closes.Keys == k.asked.Keys
    && (forall c :: Placed(queue, out, k.mail, c))
    && (forall c :: c in k.mail ==> k.closes[c] == |k.mail[c]|)
    && (forall c, o :: c in k.mail && o in k.mail[c] ==> Fits(k.asked, c, o))
    && (forall m :: m in queue && m.Transmit? && !IsRetry(m) ==>
        m.request.rchan in k.asked && k.asked[m.request.rchan] == m.request.endpoint)
    && (forall key :: key in out ==> out[key].rchan in k.asked && k.asked[out[key].rchan] == key.endpoint)
  }

  /**
   A timer with tries left, or the retransmission it queued, belongs to the outstanding request it was registered with.
   */
  ghost predicate Tied(queue: seq<Msg>, out: map<Key, RequestContext>, live: map<nat, Timer<Request>>) {
    && (forall t :: t in live && live[t].request.tries > 1 ==>
          KeyOf(live[t].request) in out && out[KeyOf(live[t].request)] == RequestContext(live[t].request.rchan, t))
    && (forall i :: 0 <= i < |queue| && IsRetry(queue[i]) ==> var k := KeyOf(queue[i].request);
          k in out && out[k].rchan == queue[i].request.rchan && out[k].timer !in live)
    && (forall i, j :: 0 <= i < j < |queue| && IsRetry(queue[i]) && IsRetry(queue[j]) ==>
        KeyOf(queue[i].request) != KeyOf(queue[j].request))
  }

  ghost predicate RetryQueued(queue: seq<Msg>, k: Key) {
    exists m :: m in queue && IsRetry(m) && KeyOf(m.request) == k
  }

  /** Every outstanding request has a live timer, or its cancellation or retransmission is queued. */
  ghost predicate Covered(queue: seq<Msg>, out: map<Key, RequestContext>, live: map<nat, Timer<Request>>) {
    forall k :: k in out ==> out[k].timer in live || CancelRequest(k) in queue || RetryQueued(queue, k)
  }

  ghost predicate Clean(b: Books) {
    Balanced(b.queue, b.out, b.channels) && Tied(b.queue, b.out, b.live) && Covered(b.queue, b.out, b.live)
  }

  /** A retransmission of an outstanding request is queued, or a timer will queue it even if it is stopped now. */
  ghost predicate RetryPending(b: Books, k: Key, stops: bool) {
    k in b.out &&
    (RetryQueued(b.queue, k)
     || (&& b.out[k].timer in b.live && b.live[b.out[k].timer].request.tries > 1
         && !(stops && Armed(b.live, b.out[k].timer))))
  }

  /** The steps that lose track of a request. */
  ghost predicate Hazard(b: Books, op: Op) {
    match op
    case Settle(k, _, stops) => RetryPending(b, k, stops)
    case SettleAll => exists k :: k in b.out && RetryPending(b, k, true)
    case Refuse(_, _) => b.queue != [] && IsRetry(b.queue[0])
    case Rest => false
    case Arrive(_) => false
    case Enter(_, _, _) => false
    case TurnAway(_, _) => false
    case Drop => false
    case Register(_) => false
    case Fire(_) => false
    case Expire(_) => false
  }

  // ----- Channels

  lemma ArrivedBalances(queue: seq<Msg>, out: map<Key, RequestContext>, k: Channels<Outcome, string>, m: Msg)
    requires Balanced(queue, out, k) && (m.Transmit? ==> IsRetry(m))
    ensures Balanced(queue + [m], out, k)
  {
    forall c: nat ensures Placed(queue + [m], out, k.mail, c) {
      assert Placed(queue, out, k.mail, c);
      FreshOnConcat(queue, [m], c);
    }
  }

  lemma PoppedBalances(queue: seq<Msg>, out: map<Key, RequestContext>, k: Channels<Outcome, string>)
    requires queue != [] && Balanced(queue, out, k) && (queue[0].Transmit? ==> IsRetry(queue[0]))
    ensures Balanced(queue[1..], out, k)
  {
    forall c: nat ensures Placed(queue[1..], out, k.mail, c) {
      assert Placed(queue, out, k.mail, c);
    }
  }

  lemma SettledBalances(queue: seq<Msg>, out: map<Key, RequestContext>, k: Channels<Outcome, string>, key: Key,
        o: Outcome)
    requires Balanced(queue, out, k) && key in out && (o.Answer? ==> o.key == key)
    ensures Balanced(queue, out - {key}, Told(k, out[key].rchan, o))
  {
    var rchan, told := out[key].rchan, Told(k, out[key].rchan, o);
    forall c: nat ensures Placed(queue, out - {key}, told.mail, c) {
      assert Placed(queue, out, k.mail, c);
      OneFewerWaiting(out, key, c);
    }
    assert Placed(queue, out, k.mail, rchan);
    assert key in Waiting(out, rchan);
    assert k.mail[rchan] == [];
  }

  lemma AllSettledBalances(queue: seq<Msg>, out: map<Key, RequestContext>, k: Channels<Outcome, string>)
    requires Balanced(queue, out, k)
    ensures Balanced(queue, map[], AllTold(k, out, Cancelled))
  {
    var none: map<Key, RequestContext> := map[];
    var told := AllTold(k, out, Cancelled);
    forall c: nat ensures Placed(queue, none, told.mail, c) {
      assert Placed(queue, out, k.mail, c);
      assert Waiting(none, c) == {};
    }
    forall c, o | c in told.mail && o in told.mail[c] ensures Fits(k.asked, c, o) {
      assert o in k.mail[c] || o == Cancelled;
    }
  }

  lemma RefusedBalances(queue: seq<Msg>, out: map<Key, RequestContext>, k: Channels<Outcome, string>, o: Outcome)
    requires queue != [] && queue[0].Transmit? && !IsRetry(queue[0]) && Balanced(queue, out, k) && !o.Answer?
    ensures Balanced(queue[1..], out, Told(k, queue[0].request.rchan, o))
  {
    var rchan := queue[0].request.rchan;
    assert queue[0] in queue;
    assert Placed(queue, out, k.mail, rchan);
    forall c: nat ensures Placed(queue[1..], out, Told(k, rchan, o).mail, c) {
      assert Placed(queue, out, k.mail, c);
    }
  }

  lemma RegisteredWaiting(out: map<Key, RequestContext>, key: Key, rchan: nat, timer: nat, c: nat)
    requires key in out ==> out[key].rchan == rchan
    ensures |Waiting(out[key := RequestContext(rchan, timer)], c)| ==
            |Waiting(out, c)| + if key !in out && c == rchan then 1 else 0
  {
    var after := out[key := RequestContext(rchan, timer)];
    if key in out {
      assert Waiting(after, c) == Waiting(out, c);
    } else {
      assert key !in Waiting(out, c);
      assert Waiting(after, c) == Waiting(out, c) + if c == rchan then {key} else {};
    }
  }

  lemma RegisteredBalances(queue: seq<Msg>, out: map<Key, RequestContext>, k: Channels<Outcome, string>, r: Request,
        timer: nat)
    requires queue != [] && queue[0].Transmit? && r == queue[0].request.(id := r.id) && Balanced(queue, out, k)
    requires if IsRetry(queue[0]) then KeyOf(r) in out && out[KeyOf(r)].rchan == r.rchan else KeyOf(r) !in out
    ensures Balanced(queue[1..], out[KeyOf(r) := RequestContext(r.rchan, timer)], k)
  {
    var after := out[KeyOf(r) := RequestContext(r.rchan, timer)];
    assert queue[0] in queue;
    forall c: nat ensures Placed(queue[1..], after, k.mail, c) {
      assert Placed(queue, out, k.mail, c);
      RegisteredWaiting(out, KeyOf(r), r.rchan, timer, c);
    }
  }

  lemma OpenedBalances(queue: seq<Msg>, out: map<Key, RequestContext>, k: Channels<Outcome, string>, c: nat, r: Request)
    requires Balanced(queue, out, k) && c !in k.mail && r.rchan == c && r.id == 0
    ensures Balanced(queue + [Transmit(r)], out, Opened(k, c, r.endpoint))
    ensures Balanced(queue, out, Told(Opened(k, c, r.endpoint), c, NotARequest))
  {
    var entered, turned := Opened(k, c, r.endpoint), Told(Opened(k, c, r.endpoint), c, NotARequest);
    forall d: nat ensures Placed(queue + [Transmit(r)], out, entered.mail, d) && Placed(queue, out, turned.mail, d) {
      assert Placed(queue, out, k.mail, d);
      FreshOnConcat(queue, [Transmit(r)], d);
    }
    forall m | m in queue && m.Transmit? && !IsRetry(m) ensures m.request.rchan != c {
      assert m.request.rchan in k.asked;
    }
    forall key | key in out ensures out[key].rchan != c {
      assert out[key].rchan in k.asked;
    }
  }

  /** What was settled is told once, whatever the step; only refusing a retransmission tells a channel twice. */
  lemma ApplyBalances(b: Books, op: Op)
    requires Possible(b, op) && Clean(b)
    ensures var t := Apply(b, op); Balanced(t.queue, t.out, t.channels) <==> !(op.Refuse? && IsRetry(b.queue[0]))
  {
    match op
    case Rest =>
    case Arrive(m) => ArrivedBalances(b.queue, b.out, b.channels, m);
    case Enter(endpoint, tries, c) => OpenedBalances(b.queue, b.out, b.channels, c, Request(endpoint, 0, tries, c));
    case TurnAway(endpoint, c) => OpenedBalances(b.queue, b.out, b.channels, c, Request(endpoint, 0, 0, c));
    case Drop => PoppedBalances(b.queue, b.out, b.channels);
    case Settle(k, o, _) =>
      PoppedBalances(b.queue, b.out, b.channels);
      SettledBalances(b.queue[1..], b.out, b.channels, k, o);
    case SettleAll =>
      PoppedBalances(b.queue, b.out, b.channels);
      AllSettledBalances(b.queue[1..], b.out, b.channels);
    case Refuse(o, alarm) => RefuseBalances(b, o, alarm);
    case Register(id) => RegisteredBalances(b.queue, b.out, b.channels, b.queue[0].request.(id := id), b.next);
    case Fire(_) =>
    case Expire(t) =>
      var m := TimerAct(b.live[t].request);
      ArrivedBalances(b.queue, b.out, b.channels, m);
  }

  lemma RefuseBalances(b: Books, o: Outcome, alarm: bool)
    requires Possible(b, Refuse(o, alarm)) && Clean(b)
    ensures var t := Apply(b, Refuse(o, alarm)); Balanced(t.queue, t.out, t.channels) <==> !IsRetry(b.queue[0])
  {
    var t, rchan := Apply(b, Refuse(o, alarm)), b.queue[0].request.rchan;
    if IsRetry(b.queue[0]) {
      assert KeyOf(b.queue[0].request) in Waiting(b.out, rchan);
      assert !Placed(t.queue, t.out, t.channels.mail, rchan);
    } else {
      RefusedBalances(b.queue, b.out, b.channels, o);
      if alarm {
        ArrivedBalances(b.queue[1..], t.out, t.channels, SetDownCommand);
      } else {
        assert t.queue == b.queue[1..];
      }
    }
  }

  // ----- Timers and retransmissions

  lemma ArrivedIsTied(b: Books, m: Msg)
    requires Tied(b.queue, b.out, b.live) && !IsRetry(m)
    ensures Tied(b.queue + [m], b.out, b.live)
  {
  }

  lemma PoppedIsTied(b: Books)
    requires b.queue != [] && Tied(b.queue, b.out, b.live)
    ensures Tied(b.queue[1..], b.out, b.live)
  {
    var queue := b.queue[1..];
    forall i | 0 <= i < |queue| && IsRetry(queue[i])
      ensures var k := KeyOf(queue[i].request);
        k in b.out && b.out[k].rchan == queue[i].request.rchan && b.out[k].timer !in b.live
    {
      assert queue[i] == b.queue[i + 1];
    }
    forall i, j | 0 <= i < j < |queue| && IsRetry(queue[i]) && IsRetry(queue[j])
      ensures KeyOf(queue[i].request) != KeyOf(queue[j].request)
    {
      assert queue[i] == b.queue[i + 1] && queue[j] == b.queue[j + 1];
    }
  }

  /** Taking out a request leaves no loose end exactly when none of its retransmissions is on its way. */
  lemma SettledIsTied(b: Books, k: Key, o: Outcome, stops: bool)
    requires Counted(b) && Tied(b.queue, b.out, b.live) && k in b.out
    ensures var t := Settled(b, k, o, stops); Tied(t.queue, t.out, t.live) <==> !RetryPending(b, k, stops)
  {
    var t, timer := Settled(b, k, o, stops), b.out[k].timer;
    if RetryQueued(b.queue, k) {
      var m :| m in b.queue && IsRetry(m) && KeyOf(m.request) == k;
      var i :| 0 <= i < |b.queue| && b.queue[i] == m;
      assert !Tied(t.queue, t.out, t.live);
    } else if timer in b.live && b.live[timer].request.tries > 1 && !(stops && Armed(b.live, timer)) {
      assert KeyOf(t.live[timer].request) == k;
      assert !Tied(t.queue, t.out, t.live);
    } else {
      forall i | 0 <= i < |b.queue| && IsRetry(b.queue[i]) ensures KeyOf(b.queue[i].request) != k {
        assert b.queue[i] in b.queue;
      }
      forall i | i in t.live && t.live[i].request.tries > 1 ensures KeyOf(t.live[i].request) != k {
        assert i in b.live && b.out[KeyOf(b.live[i].request)].timer == i;
      }
    }
  }

  lemma PendingIsUntied(b: Books, k: Key)
    requires Counted(b) && RetryPending(b, k, true)
    ensures var t := AllSettled(b); !Tied(t.queue, t.out, t.live)
  {
    var t := AllSettled(b);
    if RetryQueued(b.queue, k) {
      var m :| m in b.queue && IsRetry(m) && KeyOf(m.request) == k;
      var i :| 0 <= i < |b.queue| && b.queue[i] == m;
    } else {
      var timer := b.out[k].timer;
      assert !Armed(b.live, timer);
      assert timer !in Stopped(b.out, b.live);
      assert timer in t.live && t.live[timer].request.tries > 1;
    }
  }

  lemma QueuedIsPending(b: Books, i: nat)
    requires Tied(b.queue, b.out, b.live) && i < |b.queue| && IsRetry(b.queue[i])
    ensures RetryPending(b, KeyOf(b.queue[i].request), true)
  {
    assert b.queue[i] in b.queue && RetryQueued(b.queue, KeyOf(b.queue[i].request));
  }

  lemma NonePendingIsTied(b: Books)
    requires Tied(b.queue, b.out, b.live) && forall k :: k in b.out ==> !RetryPending(b, k, true)
    ensures var t := AllSettled(b); Tied(t.queue, t.out, t.live)
  {
    var t := AllSettled(b);
    forall i | 0 <= i < |b.queue| ensures !IsRetry(b.queue[i]) {
      if IsRetry(b.queue[i]) {
        QueuedIsPending(b, i);
      }
    }
    forall i | i in b.live && b.live[i].request.tries > 1 ensures i in Stopped(b.out, b.live) {
      var k := KeyOf(b.live[i].request);
      assert k in b.out && b.out[k].timer == i && !RetryPending(b, k, true);
    }
  }

  lemma AllSettledIsTied(b: Books)
    requires Counted(b) && Tied(b.queue, b.out, b.live)
    ensures var t := AllSettled(b);
      Tied(t.queue, t.out, t.live) <==> forall k :: k in b.out ==> !RetryPending(b, k, true)
  {
    if k :| k in b.out && RetryPending(b, k, true) {
      PendingIsUntied(b, k);
    } else {
      NonePendingIsTied(b);
    }
  }

  lemma RegisteredIsTied(b: Books, id: nat)
    requires Counted(b) && Tied(b.queue, b.out, b.live) && Possible(b, Register(id))
    ensures var t := Apply(b, Register(id)); Tied(t.queue, t.out, t.live)
  {
    var t, r := Apply(b, Register(id)), b.queue[0].request.(id := id);
    PoppedIsTied(b);
    forall i | 0 <= i < |t.queue| && IsRetry(t.queue[i]) ensures KeyOf(t.queue[i].request) != KeyOf(r) {
      assert t.queue[i] == b.queue[i + 1];
      assert KeyOf(t.queue[i].request) in b.out;
    }
    forall i | i in b.live && b.live[i].request.tries > 1 ensures KeyOf(b.live[i].request) != KeyOf(r) {
      if IsRetry(b.queue[0]) {
        assert b.out[KeyOf(r)].timer !in b.live;
      }
    }
  }

  lemma ExpiredIsTied(b: Books, i: nat)
    requires Counted(b) && Tied(b.queue, b.out, b.live) && Possible(b, Expire(i))
    ensures var t := Apply(b, Expire(i)); Tied(t.queue, t.out, t.live)
  {
    var t, r := Apply(b, Expire(i)), b.live[i].request;
    var m := TimerAct(r);
    assert t.queue == b.queue + [m];
    if IsRetry(m) {
      forall j | 0 <= j < |b.queue| && IsRetry(b.queue[j]) ensures KeyOf(b.queue[j].request) != KeyOf(r) {
        assert b.out[KeyOf(r)].timer == i;
      }
    }
  }

  /** The ties hold after a step unless a request is taken out from under its retransmission. */
  lemma ApplyIsTied(b: Books, op: Op)
    requires Possible(b, op) && Counted(b) && Clean(b)
    ensures var t := Apply(b, op); (op.Settle? || op.SettleAll?) ==> (Tied(t.queue, t.out, t.live) <==> !Hazard(b, op))
    ensures var t := Apply(b, op); !op.Settle? && !op.SettleAll? ==> Tied(t.queue, t.out, t.live)
  {
    match op
    case Rest =>
    case Arrive(m) => ArrivedIsTied(b, m);
    case Enter(endpoint, tries, c) => ArrivedIsTied(b, Transmit(Request(endpoint, 0, tries, c)));
    case TurnAway(_, _) =>
    case Drop => PoppedIsTied(b);
    case Settle(k, o, stops) =>
      var popped := b.(queue := b.queue[1..]);
      PoppedIsTied(b);
      QueueIsCounted(b, b.queue[1..], b.owed);
      SettledIsTied(popped, k, o, stops);
      SameRetries(b, k, stops);
    case SettleAll =>
      var popped := b.(queue := b.queue[1..]);
      PoppedIsTied(b);
      QueueIsCounted(b, b.queue[1..], b.owed);
      AllSettledIsTied(popped);
      forall k | k in b.out ensures RetryPending(popped, k, true) <==> RetryPending(b, k, true) {
        SameRetries(b, k, true);
      }
    case Refuse(o, alarm) =>
      PoppedIsTied(b);
      if alarm {
        ArrivedIsTied(b.(queue := b.queue[1..]), SetDownCommand);
      } else {
        assert b.queue[1..] + [] == b.queue[1..];
      }
    case Register(id) => RegisteredIsTied(b, id);
    case Fire(t) => FiredIsTied(b, t);
    case Expire(t) => ExpiredIsTied(b, t);
  }

  lemma FiredIsTied(b: Books, t: nat)
    requires Tied(b.queue, b.out, b.live) && t in b.live
    ensures Tied(b.queue, b.out, b.live[t := b.live[t].(running := true)])
  {
  }

  lemma SameRetries(b: Books, k: Key, stops: bool)
    requires b.queue != [] && !b.queue[0].Transmit?
    ensures RetryPending(b.(queue := b.queue[1..]), k, stops) <==> RetryPending(b, k, stops)
  {
    assert forall m :: m in b.queue <==> m == b.queue[0] || m in b.queue[1..];
  }

  // ----- Cover

  lemma CoverMoves(b: Books, c: Books)
    requires Covered(b.queue, b.out, b.live)
    requires forall k :: k in c.out ==>
      || c.out[k].timer in c.live
      || (k in b.out && c.out[k] == b.out[k] && b.out[k].timer !in b.live
          && (forall m :: m in b.queue && (m == CancelRequest(k) || (IsRetry(m) && KeyOf(m.request) == k)) ==>
              m in c.queue))
    ensures Covered(c.queue, c.out, c.live)
  {
    forall k | k in c.out && c.out[k].timer !in c.live ensures CancelRequest(k) in c.queue || RetryQueued(c.queue, k) {
      if RetryQueued(b.queue, k) {
        var m :| m in b.queue && IsRetry(m) && KeyOf(m.request) == k;
        assert m in c.queue;
      }
    }
  }

  lemma PoppedIsCovered(b: Books, c: Books)
    requires b.queue != [] && Covered(b.queue, b.out, b.live) && |c.queue| >= |b.queue| - 1
    requires c.queue[..|b.queue| - 1] == b.queue[1..]
    requires c.out.Keys <= b.out.Keys
    requires forall k :: k in c.out ==> c.out[k] == b.out[k] && (b.out[k].timer in b.live ==> b.out[k].timer in c.live)
    requires !IsRetry(b.queue[0]) && (b.queue[0].CancelRequest? ==> b.queue[0].key !in c.out)
    ensures Covered(c.queue, c.out, c.live)
  {
    forall m | m in b.queue[1..] ensures m in c.queue {
      var i :| 0 <= i < |b.queue| - 1 && b.queue[1..][i] == m;
      assert c.queue[i] == m;
    }
    CoverMoves(b, c);
  }

  lemma ExpiredIsCovered(b: Books, i: nat)
    requires Counted(b) && Covered(b.queue, b.out, b.live) && Possible(b, Expire(i))
    ensures var t := Apply(b, Expire(i)); Covered(t.queue, t.out, t.live)
  {
    var t, r := Apply(b, Expire(i)), b.live[i].request;
    var m := TimerAct(r);
    assert t.queue == b.queue + [m];
    forall k | k in t.out && t.out[k].timer !in t.live ensures CancelRequest(k) in t.queue || RetryQueued(t.queue, k) {
      if b.out[k].timer == i {
        assert m in t.queue && KeyOf(r) == k;
      } else if RetryQueued(b.queue, k) {
        var q :| q in b.queue && IsRetry(q) && KeyOf(q.request) == k;
        assert q in t.queue;
      }
    }
  }

  lemma RegisteredIsCovered(b: Books, id: nat)
    requires Counted(b) && Covered(b.queue, b.out, b.live) && Possible(b, Register(id))
    ensures var t := Apply(b, Register(id)); Covered(t.queue, t.out, t.live)
  {
    var t, r := Apply(b, Register(id)), b.queue[0].request.(id := id);
    assert forall m :: m in b.queue && m != b.queue[0] ==> m in t.queue;
    CoverMoves(b, t);
  }

  lemma SettledIsCovered(b: Books, k: Key, o: Outcome, stops: bool)
    requires Counted(b) && Covered(b.queue, b.out, b.live) && Possible(b, Settle(k, o, stops))
    ensures var t := Apply(b, Settle(k, o, stops)); Covered(t.queue, t.out, t.live)
  {
    PoppedIsCovered(b, Apply(b, Settle(k, o, stops)));
  }

  lemma ApplyIsCovered(b: Books, op: Op)
    requires Possible(b, op) && Counted(b) && Clean(b) && !(op.Refuse? && IsRetry(b.queue[0]))
    ensures var t := Apply(b, op); Covered(t.queue, t.out, t.live)
  {
    match op
    case Rest =>
    case Arrive(m) => CoverMoves(b, Apply(b, op));
    case Enter(_, _, _) => CoverMoves(b, Apply(b, op));
    case TurnAway(_, _) =>
    case Drop => PoppedIsCovered(b, Apply(b, op));
    case Settle(k, o, stops) => SettledIsCovered(b, k, o, stops);
    case SettleAll =>
    case Refuse(_, alarm) => if alarm { PoppedIsCovered(b, Apply(b, op)); } else { PoppedIsCovered(b, Apply(b, op)); }
    case Register(id) => RegisteredIsCovered(b, id);
    case Fire(_) => CoverMoves(b, Apply(b, op));
    case Expire(t) => ExpiredIsCovered(b, t);
  }

  // ----- One step

  /** A step keeps the books clean exactly when it is not one of the hazards. */
  lemma ApplyIsCleanIff(b: Books, op: Op)
    requires Possible(b, op) && Counted(b) && Clean(b)
    ensures Clean(Apply(b, op)) <==> !Hazard(b, op)
  {
    ApplyBalances(b, op);
    ApplyIsTied(b, op);
    if !(op.Refuse? && IsRetry(b.queue[0])) {
      ApplyIsCovered(b, op);
    }
  }
}
