/** What the callers of a RADIUS client socket can rely on over whole runs, and a run where it fails. */
module SocketTheorems {
  import opened Common
  import opened Outstanding
  import Runs
  import opened SocketSpec
  import opened SocketBooks
  import opened SocketRuns
  import opened SocketLedger

  ghost predicate IsClean(s: Socket) {
    Clean(BooksOf(s))
  }

  /** The event takes a request out while its retransmission is on its way, or fails to send a retransmission. */
  ghost predicate Hazardous(s: Socket, e: Event) {
    Enabled(s, e) && Hazard(BooksOf(s), OpOf(s, e))
  }

  lemma StepIsCleanIff(s: Socket, e: Event)
    requires Enabled(s, e) && Steady(s) && Counted(BooksOf(s)) && IsClean(s)
    ensures IsClean(Step(s, e)) <==> !Hazardous(s, e)
  {
    StepBooks(s, e);
    ApplyIsCleanIff(BooksOf(s), OpOf(s, e));
  }

  lemma NoBooksAreClean()
    ensures Clean(NoBooks())
  {
    var b := NoBooks();
    forall c: nat ensures Placed(b.queue, b.out, b.channels.mail, c) {
      assert Waiting(b.out, c) == {};
    }
  }

  ghost predicate Safe(states: seq<Socket>, events: seq<Event>)
    requires |states| == |events| + 1
  {
    forall i :: 0 <= i < |events| ==> !Hazardous(states[i], events[i])
  }

  lemma SafePrefix(states: seq<Socket>, events: seq<Event>, i: nat)
    requires |states| == |events| + 1 && Safe(states, events) && i < |states|
    ensures Safe(states[..i + 1], events[..i])
  {
    var before, done := states[..i + 1], events[..i];
    forall j | 0 <= j < |done| ensures !Hazardous(before[j], done[j]) {
      assert before[j] == states[j] && done[j] == events[j];
    }
  }

  lemma SafeStepIsClean(s: Socket, e: Event, t: Socket)
    requires Leads(s, e, t) && Steady(s) && Counted(BooksOf(s)) && IsClean(s) && !Hazardous(s, e)
    ensures IsClean(t)
  {
    StepBooks(s, e);
    ApplyIsCleanIff(BooksOf(s), OpOf(s, e));
  }

  lemma {:induction false} SafeRunIsClean(states: seq<Socket>, events: seq<Event>, b: Books)
    requires IsRun(states, events) && Safe(states, events) && b == BooksOf(Last(states))
    ensures Clean(b)
  {
    if events == [] {
      NewBooks();
      NoBooksAreClean();
    } else {
      var before, done := Front(states), Front(events);
      var s, e := Last(before), Last(events);
      SafePrefix(states, events, |done|);
      SafeRunIsClean(before, done, BooksOf(s));
      RunIsSteady(before, done);
      RunIsCounted(before, done, BooksOf(s));
      assert !Hazardous(states[|done|], events[|done|]);
      SafeStepIsClean(s, e, Last(states));
    }
  }

  /** A run is clean all along exactly when none of its events is a hazard. */
  lemma CleanIffSafe(states: seq<Socket>, events: seq<Event>)
    requires IsRun(states, events)
    ensures (forall i :: 0 <= i < |states| ==> IsClean(states[i])) <==> Safe(states, events)
  {
    if Safe(states, events) {
      forall i | 0 <= i < |states| ensures IsClean(states[i]) {
        PrefixIsRun(states, events, i);
        SafePrefix(states, events, i);
        SafeRunIsClean(states[..i + 1], events[..i], BooksOf(states[i]));
      }
    }
    if forall i :: 0 <= i < |states| ==> IsClean(states[i]) {
      forall i | 0 <= i < |events| ensures !Hazardous(states[i], events[i]) {
        PrefixIsRun(states, events, i);
        RunIsSteady(states[..i + 1], events[..i]);
        RunIsCounted(states[..i + 1], events[..i], BooksOf(states[i]));
        NextInRun(states, events, i);
        StepIsCleanIff(states[i], events[i]);
        assert IsClean(states[i + 1]);
      }
    }
  }

  lemma PrefixIsRun(states: seq<Socket>, events: seq<Event>, i: nat)
    requires IsRun(states, events) && i < |states|
    ensures IsRun(states[..i + 1], events[..i]) && Last(states[..i + 1]) == states[i]
  {
    Runs.Prefix(Starts, Leads, states, events, i);
  }

  lemma NextInRun(states: seq<Socket>, events: seq<Event>, i: nat)
    requires IsRun(states, events) && i < |events|
    ensures Enabled(states[i], events[i]) && states[i + 1] == Step(states[i], events[i])
  {
    Runs.Next(Starts, Leads, states, events, i);
  }

  /**
   Without a hazard every channel handed in is queued, outstanding or answered, in one place and once;
   it was closed as often as it was told, and an answer came from the endpoint asked.
   */
  lemma OneOutcomePerRequest(states: seq<Socket>, events: seq<Event>, c: nat)
    requires IsRun(states, events) && Safe(states, events) && c in Last(states).channels.mail
    ensures var s := Last(states);
      && FreshOn(s.queue, c) + |Waiting(Flat(s.requestsMap), c)| + |s.channels.mail[c]| == 1
      && c in s.channels.closes && s.channels.closes[c] == |s.channels.mail[c]|
      && forall o :: o in s.channels.mail[c] ==> Fits(s.channels.asked, c, o)
  {
    SafeRunIsClean(states, events, BooksOf(Last(states)));
    var b := BooksOf(Last(states));
    assert Placed(b.queue, b.out, b.channels.mail, c);
  }

  // ----- Requests tried once

  ghost predicate TriedOnce(events: seq<Event>) {
    forall e :: e in events && e.Sends? ==> e.tries <= 1
  }

  ghost predicate NoRetries(queue: seq<Msg>, live: map<nat, Timer<Request>>) {
    && (forall m :: m in queue && m.Transmit? ==> m.request.id == 0 && m.request.tries <= 1)
    && (forall t :: t in live ==> live[t].request.tries <= 1)
  }

  lemma ApplyKeepsNoRetries(b: Books, op: Op)
    requires Possible(b, op) && NoRetries(b.queue, b.live) && (op.Enter? ==> op.tries <= 1)
    ensures NoRetries(Apply(b, op).queue, Apply(b, op).live) && !Hazard(b, op)
  {
    match op
    case Rest =>
    case Arrive(_) =>
    case Enter(_, _, _) =>
    case TurnAway(_, _) =>
    case Drop =>
    case Settle(_, _, _) =>
    case SettleAll =>
    case Refuse(_, alarm) =>
      assert b.queue[0] in b.queue;
      if alarm {} else {}
    case Register(_) => assert b.queue[0] in b.queue;
    case Fire(_) =>
    case Expire(t) => assert TimerAct(b.live[t].request).CancelRequest?;
  }

  lemma EnterOp(s: Socket, e: Event)
    requires Enabled(s, e) && OpOf(s, e).Enter?
    ensures e.Sends? && OpOf(s, e).tries == e.tries
  {
    if e.Turn? {
      match s.queue[0]
      case Transmit(_) =>
      case Response(k, _) => if Has(s.requestsMap, k) {} else {}
      case CancelRequest(k) => if Has(s.requestsMap, k) {} else {}
      case SocketClose =>
      case ReadError =>
      case SetDownCommand =>
    }
  }

  lemma StepHasNoRetries(s: Socket, e: Event)
    requires Enabled(s, e) && Steady(s) && NoRetries(s.queue, s.timers.live) && (e.Sends? ==> e.tries <= 1)
    ensures NoRetries(Step(s, e).queue, Step(s, e).timers.live) && !Hazardous(s, e)
  {
    var b, c := BooksOf(s), BooksOf(Step(s, e));
    StepBooks(s, e);
    if OpOf(s, e).Enter? {
      EnterOp(s, e);
    }
    ApplyKeepsNoRetries(b, OpOf(s, e));
    assert c.queue == Step(s, e).queue && c.live == Step(s, e).timers.live;
  }

  lemma {:induction false} OnceHasNoRetries(states: seq<Socket>, events: seq<Event>)
    requires IsRun(states, events) && TriedOnce(events)
    ensures NoRetries(Last(states).queue, Last(states).timers.live)
  {
    if events != [] {
      OnceHasNoRetries(Front(states), Front(events));
      RunIsSteady(Front(states), Front(events));
      assert Last(events) in events;
      StepHasNoRetries(Last(Front(states)), Last(events));
    }
  }

  /** Requests with a single try never meet a hazard, whatever happens. */
  lemma SingleTriesAreSafe(states: seq<Socket>, events: seq<Event>)
    requires IsRun(states, events) && TriedOnce(events)
    ensures Safe(states, events)
  {
    forall i | 0 <= i < |events| ensures !Hazardous(states[i], events[i]) {
      PrefixIsRun(states, events, i);
      NextInRun(states, events, i);
      OnceHasNoRetries(states[..i + 1], events[..i]);
      RunIsSteady(states[..i + 1], events[..i]);
      assert events[i] in events;
      StepHasNoRetries(states[i], events[i]);
    }
  }

  // ----- Closing

  lemma LifeAfterTurn(s: Socket, m: Msg, marshalOk: bool, writeOk: bool)
    requires !m.Transmit?
    ensures var life := Handle(s, m, marshalOk, writeOk).life;
      && life.phase == (if m.SocketClose? then Ended else s.life.phase)
      && life.reading == s.life.reading && life.leaving == s.life.leaving
  {
    match m
    case SocketClose =>
    case ReadError => GoDownLives(s, s.life.terminated);
    case SetDownCommand => GoDownLives(s, true);
    case Response(k, _) => if Has(s.requestsMap, k) {} else {}
    case CancelRequest(k) => if Has(s.requestsMap, k) {} else {}
  }

  /** Once closing began, nothing new can come and only settling messages are left before the last one. */
  ghost predicate Finishing(queue: seq<Msg>, live: map<nat, Timer<Request>>, life: Life) {
    match life.phase
    case InUse => SocketClose !in queue
    case Closing =>
      && live == map[] && !life.reading && life.leaving == 0
      && queue != [] && Last(queue).SocketClose? && forall m :: m in Front(queue) ==> !m.Transmit? && !m.SocketClose?
    case Ended => queue == [] && live == map[]
    case Crashed => true
  }

  ghost predicate Closes(s: Socket) {
    Finishing(s.queue, s.timers.live, s.life)
  }

  lemma NoneOwed(queue: seq<Msg>)
    requires TransmitsIn(queue) == 0
    ensures forall m :: m in queue ==> !m.Transmit?
  {
    if queue != [] {
      NoneOwed(queue[1..]);
    }
  }

  lemma CloseFinishes(s: Socket)
    requires Enabled(s, Event.Closes) && Counted(BooksOf(s)) && Closes(s)
    ensures Closes(Step(s, Event.Closes))
  {
    var b, t := BooksOf(s), Step(s, Event.Closes);
    assert b.owed == TransmitsIn(s.queue) + |s.timers.live|;
    assert s.timers.live.Keys == {};
    NoneOwed(s.queue);
    assert Front(t.queue) == s.queue;
  }

  lemma ShorterFinishes(queue: seq<Msg>, life: Life, after: Life)
    requires life.phase.Closing? && Finishing(queue, map[], life)
    requires after.phase == (if queue[0].SocketClose? then Ended else Closing)
    requires after.reading == life.reading && after.leaving == life.leaving
    ensures Finishing(queue[1..], map[], after) && !queue[0].Transmit?
  {
    if |queue| > 1 {
      assert queue[0] == Front(queue)[0] && queue[0] in Front(queue);
      assert Front(queue[1..]) == Front(queue)[1..];
    }
  }

  lemma TurnShrinks(s: Socket, e: Event)
    requires e.Turn? && Enabled(s, e) && Steady(s) && s.timers.live == map[] && !s.queue[0].Transmit?
    ensures Step(s, e).queue == s.queue[1..] && Step(s, e).timers.live == map[]
  {
    StepBooks(s, e);
    EmptyStaysEmpty(BooksOf(s), OpOf(s, e));
    var c := BooksOf(Step(s, e));
    assert c.queue == Step(s, e).queue && c.live == Step(s, e).timers.live;
  }

  lemma TurnFinishes(s: Socket, e: Event)
    requires e.Turn? && Enabled(s, e) && Steady(s) && s.life.phase.Closing? && Closes(s)
    ensures Closes(Step(s, e))
  {
    assert |s.queue| > 1 ==> s.queue[0] == Front(s.queue)[0];
    LifeAfterTurn(s.(queue := s.queue[1..]), s.queue[0], e.marshalOk, e.writeOk);
    TurnShrinks(s, e);
    ShorterFinishes(s.queue, s.life, Step(s, e).life);
  }

  lemma EmptyStaysEmpty(b: Books, op: Op)
    requires Possible(b, op) && b.live == map[] && (op.Drop? || op.Settle? || op.SettleAll?)
    ensures Apply(b, op).live == map[] && Apply(b, op).queue == b.queue[1..]
  {
    if op.Drop? {
    } else if op.Settle? {
    } else {
    }
  }

  lemma NoCloseArrives(b: Books, op: Op)
    requires Possible(b, op) && SocketClose !in b.queue && !op.Arrive?
    ensures SocketClose !in Apply(b, op).queue
  {
    match op
    case Rest =>
    case Enter(_, _, _) =>
    case TurnAway(_, _) =>
    case Drop =>
    case Settle(_, _, _) =>
    case SettleAll =>
    case Refuse(_, alarm) => if alarm {} else {}
    case Register(_) =>
    case Fire(_) =>
    case Expire(_) =>
  }

  lemma NoCloseTurns(s: Socket, e: Event, t: Socket)
    requires e.Turn? && Leads(s, e, t) && Steady(s) && s.life.phase.InUse? && Closes(s)
    ensures SocketClose !in t.queue
  {
    StepBooks(s, e);
    NoCloseArrives(BooksOf(s), OpOf(s, e));
  }

  lemma OpenTurnFinishes(s: Socket, e: Event)
    requires e.Turn? && Enabled(s, e) && Steady(s) && s.life.phase.InUse? && Closes(s)
    ensures Closes(Step(s, e))
  {
    var popped := s.(queue := s.queue[1..]);
    NoCloseTurns(s, e, Step(s, e));
    if s.queue[0].Transmit? {
      TransmitLives(popped, s.queue[0].request, e.marshalOk, e.writeOk);
    } else {
      LifeAfterTurn(popped, s.queue[0], e.marshalOk, e.writeOk);
    }
  }

  lemma TransmitLives(s: Socket, r: Request, marshalOk: bool, writeOk: bool)
    ensures var life := HandleTransmit(s, r, marshalOk, writeOk).life;
      life == s.life || life == s.life.(phase := Crashed)
  {
  }

  lemma StepFinishes(s: Socket, e: Event)
    requires Enabled(s, e) && Steady(s) && Counted(BooksOf(s)) && Closes(s)
    ensures Closes(Step(s, e))
  {
    match e
    case Turn(_, _) => if s.life.phase.Closing? { TurnFinishes(s, e); } else { OpenTurnFinishes(s, e); }
    case Sends(_, _, _, codeOk) => if codeOk {} else {}
    case SetsDown =>
    case Reads(_, _) =>
    case ReadEnds => if s.life.terminated {} else {}
    case TimerFires(_) =>
    case TimerSends(t) => if TimerAct(s.timers.live[t].request).Transmit? {} else {}
    case Leaves =>
    case Closes => CloseFinishes(s);
  }

  lemma {:induction false} RunFinishes(states: seq<Socket>, events: seq<Event>)
    requires IsRun(states, events)
    ensures Closes(Last(states))
  {
    if events != [] {
      RunFinishes(Front(states), Front(events));
      RunIsSteady(Front(states), Front(events));
      RunIsCounted(Front(states), Front(events), BooksOf(Last(Front(states))));
      StepFinishes(Last(Front(states)), Last(events));
    }
  }

  lemma NothingLeft(b: Books, c: nat)
    requires Clean(b) && b.queue == [] && b.live == map[] && c in b.channels.mail
    ensures |b.channels.mail[c]| == 1 && c in b.channels.closes && b.channels.closes[c] == 1
  {
    assert Placed(b.queue, b.out, b.channels.mail, c);
    assert b.out.Keys == {};
    assert Waiting(b.out, c) == {};
  }

  /** When the event loop of a safe run has ended, every channel ever handed in was told once and closed once. */
  lemma ClosedSocketAnsweredEverybody(states: seq<Socket>, events: seq<Event>, c: nat)
    requires IsRun(states, events) && Safe(states, events)
    requires Last(states).life.phase.Ended? && c in Last(states).channels.mail
    ensures var k := Last(states).channels; |k.mail[c]| == 1 && c in k.closes && k.closes[c] == 1
  {
    RunFinishes(states, events);
    SafeRunIsClean(states, events, BooksOf(Last(states)));
    NothingLeft(BooksOf(Last(states)), c);
  }
}
