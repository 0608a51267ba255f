/** How often a RADIUS client socket writes a request: as often as the caller asked for, and at least once. */
module SocketTries {
  import opened Common
  import opened Outstanding
  import opened SocketSpec
  import opened SocketBooks
  import opened SocketRuns
  import opened SocketLedger
  import opened SocketTheorems
  import SocketCauses

  function Tries(n: int): nat {
    if n < 1 then 1 else n
  }

  /** The requests written for the caller of a channel. */
  function WritesOn(outputs: seq<Output>, c: nat): nat {
    if outputs == [] then 0
    else WritesOn(Front(outputs), c) + if Last(outputs).Wrote? && Last(outputs).request.rchan == c then 1 else 0
  }

  /** The writes a queued message can still bring about. */
  function QueueShare(m: Msg, c: nat): nat {
    if m.Transmit? && m.request.rchan == c then Tries(m.request.tries) else 0
  }

  /** The writes a live timer can still bring about: the first try is over. */
  function TimerShare(r: Request, c: nat): nat {
    if r.rchan == c && r.tries > 1 then r.tries - 1 else 0
  }

  function QueueLeft(queue: seq<Msg>, c: nat): nat {
    if queue == [] then 0 else QueueShare(queue[0], c) + QueueLeft(queue[1..], c)
  }

  function LiveLeft(live: map<nat, Timer<Request>>, n: nat, c: nat): nat {
    if n == 0 then 0 else LiveLeft(live, n - 1, c) + if n - 1 in live then TimerShare(live[n - 1].request, c) else 0
  }

  function Left(b: Books, c: nat): nat {
    QueueLeft(b.queue, c) + LiveLeft(b.live, b.next, c)
  }

  // ----- Sums

  lemma {:induction false} QueueLeftAppend(queue: seq<Msg>, m: Msg, c: nat)
    ensures QueueLeft(queue + [m], c) == QueueLeft(queue, c) + QueueShare(m, c)
  {
    if queue == [] {
      assert [m][1..] == [] && queue + [m] == [m];
    } else {
      assert (queue + [m])[1..] == queue[1..] + [m];
      QueueLeftAppend(queue[1..], m, c);
    }
  }

  lemma {:induction false} LiveLeftSame(live: map<nat, Timer<Request>>, other: map<nat, Timer<Request>>, n: nat, c: nat)
    requires forall t :: t < n ==> (t in live <==> t in other) && (t in live ==> live[t].request == other[t].request)
    ensures LiveLeft(live, n, c) == LiveLeft(other, n, c)
  {
    if n > 0 {
      LiveLeftSame(live, other, n - 1, c);
    }
  }

  lemma {:induction false} LiveLeftWithout(live: map<nat, Timer<Request>>, gone: set<nat>, n: nat, c: nat)
    ensures LiveLeft(live - gone, n, c) <= LiveLeft(live, n, c)
    ensures (forall t :: t in gone && t in live ==> TimerShare(live[t].request, c) == 0) ==>
            LiveLeft(live - gone, n, c) == LiveLeft(live, n, c)
  {
    if n > 0 {
      LiveLeftWithout(live, gone, n - 1, c);
    }
  }

  lemma {:induction false} LiveLeftMinus(live: map<nat, Timer<Request>>, t: nat, n: nat, c: nat)
    requires t in live && t < n
    ensures LiveLeft(live - {t}, n, c) == LiveLeft(live, n, c) - TimerShare(live[t].request, c)
  {
    if t == n - 1 {
      LiveLeftSame(live - {t}, live, n - 1, c);
    } else {
      LiveLeftMinus(live, t, n - 1, c);
    }
  }

  lemma LiveLeftPlus(live: map<nat, Timer<Request>>, n: nat, r: Request, c: nat)
    ensures LiveLeft(live[n := Timer(r, false)], n + 1, c) == LiveLeft(live, n, c) + TimerShare(r, c)
  {
    LiveLeftSame(live, live[n := Timer(r, false)], n, c);
  }

  lemma {:induction false} LiveLeftIsNothing(live: map<nat, Timer<Request>>, n: nat, c: nat)
    requires forall t :: t in live ==> TimerShare(live[t].request, c) == 0
    ensures LiveLeft(live, n, c) == 0
  {
    if n > 0 {
      LiveLeftIsNothing(live, n - 1, c);
    }
  }

  lemma {:induction false} QueueLeftIsNothing(queue: seq<Msg>, c: nat)
    requires forall m :: m in queue ==> QueueShare(m, c) == 0
    ensures QueueLeft(queue, c) == 0
  {
    if queue != [] {
      QueueLeftIsNothing(queue[1..], c);
    }
  }

  // ----- One operation

  /** What an operation writes for a channel. */
  function WritesOf(b: Books, op: Op, c: nat): nat
    requires Possible(b, op)
  {
    if op.Register? && b.queue[0].request.rchan == c then 1 else 0
  }

  /** What an operation grants a channel. */
  function GrantsOf(op: Op, c: nat): nat {
    if op.Enter? && op.rchan == c then Tries(op.tries) else 0
  }

  /** The operation takes nothing from a channel: it neither tells it nor stops a timer of its own. */
  ghost predicate Spares(b: Books, op: Op, c: nat)
    requires Possible(b, op)
  {
    match op
    case Settle(k, _, stops) =>
      stops && Armed(b.live, b.out[k].timer) ==> TimerShare(b.live[b.out[k].timer].request, c) == 0
    case SettleAll => forall t :: t in Stopped(b.out, b.live) ==> TimerShare(b.live[t].request, c) == 0
    case Refuse(_, _) => b.queue[0].request.rchan != c
    case _ => true
  }

  lemma PopLeaves(b: Books, c: nat)
    requires b.queue != []
    ensures Left(b.(queue := b.queue[1..]), c) == Left(b, c) - QueueShare(b.queue[0], c)
  {
  }

  lemma RegisterLeaves(b: Books, id: nat, c: nat)
    requires Possible(b, Register(id)) && Counted(b)
    ensures Left(Apply(b, Register(id)), c) + WritesOf(b, Register(id), c) == Left(b, c)
  {
    var t, r := Apply(b, Register(id)), b.queue[0].request.(id := id);
    PopLeaves(b, c);
    LiveLeftPlus(b.live, b.next, r, c);
    assert t.live == b.live[b.next := Timer(r, false)] && t.next == b.next + 1;
    assert QueueShare(b.queue[0], c) == TimerShare(r, c) + WritesOf(b, Register(id), c);
  }

  lemma ExpireLeaves(b: Books, t: nat, c: nat)
    requires Possible(b, Expire(t)) && Counted(b)
    ensures Left(Apply(b, Expire(t)), c) == Left(b, c)
  {
    var r := b.live[t].request;
    QueueLeftAppend(b.queue, TimerAct(r), c);
    LiveLeftMinus(b.live, t, b.next, c);
  }

  lemma SettleLeaves(b: Books, k: Key, o: Outcome, stops: bool, c: nat)
    requires Possible(b, Settle(k, o, stops)) && Counted(b)
    ensures Left(Apply(b, Settle(k, o, stops)), c) <= Left(b, c)
    ensures Spares(b, Settle(k, o, stops), c) ==> Left(Apply(b, Settle(k, o, stops)), c) == Left(b, c)
  {
    PopLeaves(b, c);
    LiveLeftWithout(b.live, {b.out[k].timer}, b.next, c);
  }

  lemma SettleAllLeaves(b: Books, c: nat)
    requires Possible(b, SettleAll) && Counted(b)
    ensures Left(Apply(b, SettleAll), c) <= Left(b, c)
    ensures Spares(b, SettleAll, c) ==> Left(Apply(b, SettleAll), c) == Left(b, c)
  {
    PopLeaves(b, c);
    LiveLeftWithout(b.live, Stopped(b.out, b.live), b.next, c);
  }

  lemma RefuseLeaves(b: Books, o: Outcome, alarm: bool, c: nat)
    requires Possible(b, Refuse(o, alarm))
    ensures Left(Apply(b, Refuse(o, alarm)), c) == Left(b, c) - QueueShare(b.queue[0], c)
  {
    PopLeaves(b, c);
    if alarm {
      QueueLeftAppend(b.queue[1..], SetDownCommand, c);
    } else {
      assert b.queue[1..] + [] == b.queue[1..];
    }
  }

  /** No operation writes more than what it takes from the writes left, and one that spares a channel loses none. */
  lemma ApplyLeaves(b: Books, op: Op, c: nat)
    requires Possible(b, op) && Counted(b)
    ensures Left(Apply(b, op), c) + WritesOf(b, op, c) <= Left(b, c) + GrantsOf(op, c)
    ensures Spares(b, op, c) ==> Left(Apply(b, op), c) + WritesOf(b, op, c) == Left(b, c) + GrantsOf(op, c)
  {
    match op
    case Rest =>
    case Arrive(m) => QueueLeftAppend(b.queue, m, c);
    case Enter(endpoint, tries, rchan) => QueueLeftAppend(b.queue, Transmit(Request(endpoint, 0, tries, rchan)), c);
    case TurnAway(_, _) =>
    case Drop => PopLeaves(b, c);
    case Settle(k, o, stops) => SettleLeaves(b, k, o, stops, c);
    case SettleAll => SettleAllLeaves(b, c);
    case Refuse(o, alarm) => RefuseLeaves(b, o, alarm, c);
    case Register(id) => RegisterLeaves(b, id, c);
    case Fire(t) => LiveLeftSame(b.live, b.live[t := b.live[t].(running := true)], b.next, c);
    case Expire(t) => ExpireLeaves(b, t, c);
  }

  // ----- One step

  /** What a step adds to the outputs. */
  function OutputsOf(s: Socket, op: Op): seq<Output>
    requires Possible(BooksOf(s), op)
  {
    if op.Register? then [Wrote(s.queue[0].request.(id := op.id))] else if op.SettleAll? then [Down] else []
  }

  lemma TransmitOutputs(s: Socket, r: Request, marshalOk: bool, writeOk: bool)
    requires !HandleTransmit(s, r, marshalOk, writeOk).life.phase.Crashed?
    ensures var (t, id) := GetNextRadiusId(s, r.endpoint, r.id);
      HandleTransmit(s, r, marshalOk, writeOk).outputs ==
        s.outputs + if id.Some? && marshalOk && t.life.open && writeOk then [Wrote(r.(id := id.value))] else []
  {
    var (t, id) := GetNextRadiusId(s, r.endpoint, r.id);
    assert t.outputs == s.outputs && s.outputs + [] == s.outputs;
    if id.None? {
    } else if !marshalOk {
    } else if !(t.life.open && writeOk) {
    } else {
    }
  }

  lemma TurnOutputs(s: Socket, marshalOk: bool, writeOk: bool)
    requires s.queue != [] && Possible(BooksOf(s), TurnOp(s, marshalOk, writeOk))
    requires !Handle(s.(queue := s.queue[1..]), s.queue[0], marshalOk, writeOk).life.phase.Crashed?
    ensures Handle(s.(queue := s.queue[1..]), s.queue[0], marshalOk, writeOk).outputs ==
            s.outputs + OutputsOf(s, TurnOp(s, marshalOk, writeOk))
  {
    var popped, m := s.(queue := s.queue[1..]), s.queue[0];
    if m.Transmit? {
      TransmitOutputs(popped, m.request, marshalOk, writeOk);
    } else {
      SocketCauses.OthersPut(popped, m, marshalOk, writeOk);
    }
  }

  lemma RestOutputs(s: Socket, e: Event)
    requires Enabled(s, e) && !e.Turn?
    ensures Step(s, e).outputs == s.outputs && !OpOf(s, e).Register? && !OpOf(s, e).SettleAll?
  {
    match e
    case Sends(_, _, _, codeOk) => if codeOk {} else {}
    case SetsDown =>
    case Reads(_, _) =>
    case ReadEnds => if s.life.terminated {} else {}
    case TimerFires(_) =>
    case TimerSends(_) =>
    case Leaves =>
    case Closes =>
  }

  lemma StepOutputs(s: Socket, e: Event)
    requires Enabled(s, e) && Steady(s)
    ensures Possible(BooksOf(s), OpOf(s, e)) && Step(s, e).outputs == s.outputs + OutputsOf(s, OpOf(s, e))
  {
    StepBooks(s, e);
    if e.Turn? {
      TurnOutputs(s, e.marshalOk, e.writeOk);
    } else {
      RestOutputs(s, e);
    }
  }

  lemma WritesAppend(outputs: seq<Output>, more: seq<Output>, c: nat)
    requires |more| <= 1
    ensures WritesOn(outputs + more, c) ==
            WritesOn(outputs, c) + if more != [] && more[0].Wrote? && more[0].request.rchan == c then 1 else 0
  {
    if more == [] {
      assert outputs + more == outputs;
    } else {
      assert Front(outputs + more) == outputs;
    }
  }

  /** What an event grants: a request that is taken in may be written as often as its caller said, and once at least. */
  function Grants(e: Event, c: nat): nat {
    if e.Sends? && e.rchan == c && e.codeOk then Tries(e.tries) else 0
  }

  lemma GrantedByOp(s: Socket, e: Event, c: nat)
    requires Enabled(s, e)
    ensures GrantsOf(OpOf(s, e), c) == Grants(e, c)
  {
    if OpOf(s, e).Enter? {
      EnterOp(s, e);
    }
  }

  lemma StepLeaves(s: Socket, e: Event, c: nat, b: Books)
    requires Enabled(s, e) && Steady(s) && b == BooksOf(s) && Counted(b)
    ensures Possible(b, OpOf(s, e))
    ensures WritesOn(Step(s, e).outputs, c) + Left(BooksOf(Step(s, e)), c) <=
            WritesOn(s.outputs, c) + Left(b, c) + Grants(e, c)
    ensures Spares(b, OpOf(s, e), c) ==>
      WritesOn(Step(s, e).outputs, c) + Left(BooksOf(Step(s, e)), c) ==
      WritesOn(s.outputs, c) + Left(b, c) + Grants(e, c)
  {
    StepBooks(s, e);
    StepOutputs(s, e);
    GrantedByOp(s, e, c);
    ApplyLeaves(b, OpOf(s, e), c);
    WritesAppend(s.outputs, OutputsOf(s, OpOf(s, e)), c);
  }

  // ----- Runs

  function Granted(events: seq<Event>, c: nat): nat {
    if events == [] then 0 else Granted(Front(events), c) + Grants(Last(events), c)
  }

  lemma {:induction false} NoMoreThanGranted(states: seq<Socket>, events: seq<Event>, c: nat, b: Books)
    requires IsRun(states, events) && b == BooksOf(Last(states))
    ensures WritesOn(Last(states).outputs, c) + Left(b, c) <= Granted(events, c)
  {
    if events == [] {
      NewBooks();
    } else {
      var before, done := Front(states), Front(events);
      var s, e := Last(before), Last(events);
      NoMoreThanGranted(before, done, c, BooksOf(s));
      RunIsSteady(before, done);
      RunIsCounted(before, done, BooksOf(s));
      StepLeaves(s, e, c, BooksOf(s));
    }
  }

  /** A channel stays known, and only a call makes it so. */
  lemma MailStays(b: Books, op: Op, c: nat)
    requires Possible(b, op)
    ensures c in b.channels.mail ==> c in Apply(b, op).channels.mail
    ensures (op.Enter? || op.TurnAway?) && op.rchan == c ==> c in Apply(b, op).channels.mail
  {
    match op
    case Rest =>
    case Arrive(_) =>
    case Enter(_, _, _) =>
    case TurnAway(_, _) =>
    case Drop =>
    case Settle(_, _, _) =>
    case SettleAll =>
    case Refuse(_, _) =>
    case Register(_) =>
    case Fire(_) =>
    case Expire(_) =>
  }

  lemma StepKnows(s: Socket, e: Event, c: nat, t: Socket)
    requires Leads(s, e, t) && Steady(s) && c !in t.channels.mail
    ensures c !in s.channels.mail && !(e.Sends? && e.rchan == c)
  {
    StepBooks(s, e);
    var op := OpOf(s, e);
    MailStays(BooksOf(s), op, c);
    if e.Sends? {
      assert (op.Enter? || op.TurnAway?) && op.rchan == e.rchan;
    }
  }

  lemma {:induction false} UnknownGrantsNothing(states: seq<Socket>, events: seq<Event>, c: nat)
    requires IsRun(states, events) && c !in Last(states).channels.mail
    ensures Granted(events, c) == 0 && forall e :: e in events && e.Sends? ==> e.rchan != c
  {
    if events != [] {
      var before, done := Front(states), Front(events);
      var s, e := Last(before), Last(events);
      RunIsSteady(before, done);
      StepKnows(s, e, c, Last(states));
      UnknownGrantsNothing(before, done, c);
      assert events == done + [e];
    }
  }

  /** A caller's channel is granted what its one call asked for. */
  lemma {:induction false} GrantedOnce(states: seq<Socket>, events: seq<Event>, e: Event, c: nat)
    requires IsRun(states, events) && e in events && e.Sends? && e.rchan == c
    ensures Granted(events, c) == Grants(e, c)
  {
    var before, done := Front(states), Front(events);
    var s, last := Last(before), Last(events);
    if last.Sends? && last.rchan == c {
      UnknownGrantsNothing(before, done, c);
      assert e in done || e == last;
    } else {
      assert e in done;
      GrantedOnce(before, done, e, c);
    }
  }

  /** A request handed in with `n` tries is never written more than `n` times, or once where `n` is below one. */
  lemma WrittenAtMost(states: seq<Socket>, events: seq<Event>, endpoint: string, n: int, c: nat)
    requires IsRun(states, events) && Sends(endpoint, n, c, true) in events
    ensures WritesOn(Last(states).outputs, c) <= if n < 1 then 1 else n
  {
    NoMoreThanGranted(states, events, c, BooksOf(Last(states)));
    GrantedOnce(states, events, Sends(endpoint, n, c, true), c);
  }

  // ----- Runs without a hazard

  lemma SettleSpares(b: Books, k: Key, o: Outcome, stops: bool, c: nat)
    requires Possible(b, Settle(k, o, stops)) && Counted(b) && Tied(b.queue, b.out, b.live) && b.out[k].rchan != c
    ensures Spares(b, Settle(k, o, stops), c)
  {
    var timer := b.out[k].timer;
    if timer in b.live && b.live[timer].request.tries > 1 {
      assert KeyOf(b.live[timer].request) == k;
    }
  }

  lemma SettleAllSpares(b: Books, c: nat)
    requires Possible(b, SettleAll) && Tied(b.queue, b.out, b.live) && Waiting(b.out, c) == {}
    ensures Spares(b, SettleAll, c)
  {
    forall t | t in Stopped(b.out, b.live) ensures TimerShare(b.live[t].request, c) == 0 {
      if b.live[t].request.tries > 1 {
        assert KeyOf(b.live[t].request) !in Waiting(b.out, c);
      }
    }
  }

  lemma RestSpares(b: Books, op: Op, c: nat)
    requires Possible(b, op) && !op.Settle? && !op.SettleAll?
    requires c in b.channels.mail && Apply(b, op).channels.mail[c] == []
    ensures b.channels.mail[c] == [] && Spares(b, op, c)
  {
    match op
    case Rest =>
    case Arrive(_) =>
    case Enter(_, _, _) =>
    case TurnAway(_, _) =>
    case Drop =>
    case Refuse(_, _) =>
    case Register(_) =>
    case Fire(_) =>
    case Expire(_) =>
  }

  lemma UntoldIsSpared(b: Books, op: Op, c: nat)
    requires Possible(b, op) && Counted(b) && Tied(b.queue, b.out, b.live)
    requires c in b.channels.mail && Apply(b, op).channels.mail[c] == []
    ensures b.channels.mail[c] == [] && Spares(b, op, c)
  {
    if op.Settle? {
      SettleSpares(b, op.key, op.outcome, op.stops, c);
    } else if op.SettleAll? {
      SettleAllSpares(b, c);
    } else {
      RestSpares(b, op, c);
    }
  }

  lemma NewcomerIsSpared(b: Books, op: Op, c: nat)
    requires Possible(b, op) && HandedIn(b) && c !in b.channels.mail && c in Apply(b, op).channels.mail
    ensures Spares(b, op, c) && Timeout !in Apply(b, op).channels.mail[c]
  {
    assert b.queue != [] ==> b.queue[0] in b.queue;
    match op
    case Rest =>
    case Arrive(_) =>
    case Enter(_, _, _) =>
    case TurnAway(_, _) =>
    case Drop =>
    case Settle(_, _, _) =>
    case SettleAll =>
    case Refuse(_, _) =>
    case Register(_) =>
    case Fire(_) =>
    case Expire(_) =>
  }

  lemma {:induction false} QueuedIsFresh(queue: seq<Msg>, m: Msg, c: nat)
    requires m in queue && m.Transmit? && !IsRetry(m) && m.request.rchan == c
    ensures FreshOn(queue, c) >= 1
  {
    if queue[0] != m {
      QueuedIsFresh(queue[1..], m, c);
    }
  }

  lemma OnlyWaiting(b: Books, k: Key, other: Key, c: nat)
    requires Clean(b) && k in b.out && other in b.out && b.out[k].rchan == b.out[other].rchan == c
    ensures k == other && FreshOn(b.queue, c) == 0 && c in b.channels.mail && b.channels.mail[c] == []
  {
    assert Placed(b.queue, b.out, b.channels.mail, c);
    var waiting := Waiting(b.out, c);
    assert k in waiting && other in waiting;
    assert |waiting - {k}| == 0;
  }

  /** When a timeout is told without a hazard, no write is left: nothing of the request is queued or timed. */
  lemma TimeoutLeavesNothing(b: Books, k: Key, c: nat)
    requires Possible(b, Settle(k, Timeout, false)) && Clean(b) && b.out[k].rchan == c
    requires !Hazard(b, Settle(k, Timeout, false))
    ensures Left(b, c) == 0
  {
    OnlyWaiting(b, k, k, c);
    forall m | m in b.queue ensures QueueShare(m, c) == 0 {
      if m.Transmit? && m.request.rchan == c {
        if IsRetry(m) {
          assert RetryQueued(b.queue, KeyOf(m.request));
          OnlyWaiting(b, k, KeyOf(m.request), c);
        } else {
          QueuedIsFresh(b.queue, m, c);
        }
      }
    }
    QueueLeftIsNothing(b.queue, c);
    forall t | t in b.live ensures TimerShare(b.live[t].request, c) == 0 {
      if b.live[t].request.rchan == c && b.live[t].request.tries > 1 {
        OnlyWaiting(b, k, KeyOf(b.live[t].request), c);
      }
    }
    LiveLeftIsNothing(b.live, b.next, c);
  }

  lemma NewlyTold(b: Books, op: Op, c: nat)
    requires Possible(b, op) && c in b.channels.mail && Timeout !in b.channels.mail[c]
    requires Timeout in Apply(b, op).channels.mail[c]
    ensures (op.Settle? && op.outcome == Timeout && b.out[op.key].rchan == c) || (op.Refuse? && op.outcome == Timeout)
  {
    match op
    case Rest =>
    case Arrive(_) =>
    case Enter(_, _, _) =>
    case TurnAway(_, _) =>
    case Drop =>
    case Settle(_, _, _) =>
    case SettleAll =>
    case Refuse(_, _) =>
    case Register(_) =>
    case Fire(_) =>
    case Expire(_) =>
  }

  /** A timeout is told only when a cancellation takes its request out. */
  lemma TimeoutIsCancellation(s: Socket, e: Event)
    requires Enabled(s, e)
    ensures OpOf(s, e).Settle? && OpOf(s, e).outcome == Timeout ==> !OpOf(s, e).stops
    ensures OpOf(s, e).Refuse? ==> OpOf(s, e).outcome != Timeout
  {
    if e.Turn? {
      match s.queue[0]
      case Transmit(_) =>
      case Response(k, _) => if Has(s.requestsMap, k) {} else {}
      case CancelRequest(k) => if Has(s.requestsMap, k) {} else {}
      case SocketClose =>
      case ReadError =>
      case SetDownCommand =>
    }
  }

  /** Untold, the channel has all its writes made or left; told a timeout, it has them all made. */
  ghost predicate Accounted(s: Socket, b: Books, c: nat, granted: nat) {
    c in b.channels.mail ==>
      && (b.channels.mail[c] == [] ==> WritesOn(s.outputs, c) + Left(b, c) == granted)
      && (Timeout in b.channels.mail[c] ==> WritesOn(s.outputs, c) == granted)
  }

  lemma NewChannelAccounted(s: Socket, e: Event, t: Socket, c: nat, b: Books)
    requires Leads(s, e, t) && Steady(s) && b == BooksOf(s) && Counted(b) && HandedIn(b)
    requires c !in b.channels.mail && WritesOn(s.outputs, c) + Left(b, c) == 0
    ensures Accounted(t, BooksOf(t), c, Grants(e, c))
  {
    StepBooks(s, e);
    if c in BooksOf(t).channels.mail {
      NewcomerIsSpared(b, OpOf(s, e), c);
      StepLeaves(s, e, c, b);
    }
  }

  lemma StepAccounted(s: Socket, e: Event, t: Socket, c: nat, b: Books, granted: nat)
    requires Leads(s, e, t) && Steady(s) && b == BooksOf(s) && Counted(b) && Clean(b) && !Hazardous(s, e)
    requires c in b.channels.mail && Accounted(s, b, c, granted)
    requires WritesOn(s.outputs, c) + Left(b, c) <= granted
    ensures Accounted(t, BooksOf(t), c, granted)
  {
    StepBooks(s, e);
    StepLeaves(s, e, c, b);
    StepOutputs(s, e);
    var op := OpOf(s, e);
    WritesAppend(s.outputs, OutputsOf(s, op), c);
    var mail := BooksOf(t).channels.mail;
    MailStays(b, op, c);
    if mail[c] == [] {
      UntoldIsSpared(b, op, c);
    } else if Timeout in mail[c] && Timeout !in b.channels.mail[c] {
      NewlyTold(b, op, c);
      TimeoutIsCancellation(s, e);
      TimeoutLeavesNothing(b, op.key, c);
      OnlyWaiting(b, op.key, op.key, c);
    }
  }

  lemma {:induction false} RunIsAccounted(states: seq<Socket>, events: seq<Event>, c: nat, b: Books)
    requires IsRun(states, events) && Safe(states, events) && b == BooksOf(Last(states))
    ensures Accounted(Last(states), b, c, Granted(events, c))
  {
    if events == [] {
      NewBooks();
    } else {
      var before, done := Front(states), Front(events);
      var s, e := Last(before), Last(events);
      var was := BooksOf(s);
      SafePrefix(states, events, |done|);
      RunIsAccounted(before, done, c, was);
      NoMoreThanGranted(before, done, c, was);
      RunIsSteady(before, done);
      RunIsCounted(before, done, was);
      SafeRunIsClean(before, done, was);
      assert !Hazardous(states[|done|], events[|done|]);
      if c in was.channels.mail {
        StepAccounted(s, e, Last(states), c, was, Granted(done, c));
      } else {
        UnknownGrantsNothing(before, done, c);
        RunIsHandedIn(before, done, was);
        NewChannelAccounted(s, e, Last(states), c, was);
      }
    }
  }

  /**
   Without a hazard a request handed in with `n` tries, or one where `n` is below one, is written exactly that often
   before its caller is told of a timeout; until its caller is told anything, the writes not made are queued or timed.
   */
  lemma TimeoutAfterAllTries(states: seq<Socket>, events: seq<Event>, endpoint: string, n: int, c: nat)
    requires IsRun(states, events) && Safe(states, events) && Sends(endpoint, n, c, true) in events
    ensures var s, tries := Last(states), if n < 1 then 1 else n;
      && c in s.channels.mail
      && (Timeout in s.channels.mail[c] ==> WritesOn(s.outputs, c) == tries)
      && (s.channels.mail[c] == [] ==> WritesOn(s.outputs, c) + Left(BooksOf(s), c) == tries)
  {
    if c !in Last(states).channels.mail {
      UnknownGrantsNothing(states, events, c);
    }
    RunIsAccounted(states, events, c, BooksOf(Last(states)));
    GrantedOnce(states, events, Sends(endpoint, n, c, true), c);
  }
}
