/**
 The one outcome of every request and the hazards: a run that has ended kept every channel in one place
 all along exactly when it met no hazard.
 */
module SocketOutcomes {
  import opened Common
  import opened Outstanding
  import Runs
  import opened SocketSpec
  import opened SocketBooks
  import opened SocketRuns
  import opened SocketLedger
  import opened SocketTheorems
  import opened SocketTwice

  predicate RetryOn(m: Msg, c: nat) {
    IsRetry(m) && m.request.rchan == c
  }

  /** A timer that will queue a retransmission and that nothing stops any more. */
  ghost predicate Loose(out: map<Key, RequestContext>, live: map<nat, Timer<Request>>, t: nat, c: nat) {
    && t in live && live[t].request.tries > 1 && live[t].request.rchan == c
    && (live[t].running || forall k :: k in out ==> out[k].timer != t)
  }

  /** A retransmission for the channel is on its way and cannot be called back. */
  ghost predicate OnItsWay(b: Books, c: nat) {
    (exists m :: m in b.queue && RetryOn(m, c)) || (exists t :: Loose(b.out, b.live, t, c))
  }

  /** It is on its way for a caller that has its answer already. */
  ghost predicate Late(b: Books, c: nat) {
    c in b.channels.mail && b.channels.mail[c] != [] && OnItsWay(b, c)
  }

  ghost predicate PlacedIn(b: Books, c: nat) {
    Placed(b.queue, b.out, b.channels.mail, c)
  }

  // ----- A late retransmission ends in a second place

  lemma ToldStaysTold(b: Books, op: Op, c: nat)
    requires Possible(b, op) && c in b.channels.mail && b.channels.mail[c] != []
    ensures var k := Apply(b, op).channels; c in k.mail && k.mail[c] != []
  {
    match op
    case Rest =>
    case Arrive(_) =>
    case Enter(_, _, _) =>
    case TurnAway(_, _) =>
    case Drop =>
    case Settle(_, _, _) =>
    case SettleAll =>
    case Refuse(_, alarm) => if alarm {} else {}
    case Register(_) =>
    case Fire(_) =>
    case Expire(_) =>
  }

  lemma QueuedGoesOn(b: Books, op: Op, m: Msg)
    requires Possible(b, op) && m in b.queue
    ensures m in Apply(b, op).queue
        || (m == b.queue[0] && (op.Drop? || op.Settle? || op.SettleAll? || op.Refuse? || op.Register?))
  {
    assert m == b.queue[0] || m in b.queue[1..];
    match op
    case Rest =>
    case Arrive(_) =>
    case Enter(_, _, _) =>
    case TurnAway(_, _) =>
    case Drop =>
    case Settle(_, _, _) =>
    case SettleAll =>
    case Refuse(_, alarm) => if alarm {} else {}
    case Register(_) =>
    case Fire(_) =>
    case Expire(_) =>
  }

  lemma LooseGoesOn(b: Books, op: Op, t: nat, c: nat)
    requires Possible(b, op) && Counted(b) && Loose(b.out, b.live, t, c) && op != Expire(t)
    ensures var a := Apply(b, op); Loose(a.out, a.live, t, c)
  {
    match op
    case Rest =>
    case Arrive(_) =>
    case Enter(_, _, _) =>
    case TurnAway(_, _) =>
    case Drop =>
    case Settle(_, _, _) =>
    case SettleAll => assert t !in Stopped(b.out, b.live);
    case Refuse(_, alarm) => if alarm {} else {}
    case Register(_) => assert t < b.next;
    case Fire(_) =>
    case Expire(_) =>
  }

  lemma LooseIsQueued(b: Books, t: nat, c: nat)
    requires Possible(b, Expire(t)) && Loose(b.out, b.live, t, c)
    ensures exists m :: m in Apply(b, Expire(t)).queue && RetryOn(m, c)
  {
    var m := TimerAct(b.live[t].request);
    assert RetryOn(m, c);
    assert Apply(b, Expire(t)).queue == b.queue + [m];
  }

  lemma HandledRetryIsMisplaced(b: Books, op: Op, c: nat)
    requires Possible(b, op) && (op.Register? || op.Refuse?) && RetryOn(b.queue[0], c)
    requires c in b.channels.mail && b.channels.mail[c] != []
    ensures !PlacedIn(Apply(b, op), c)
  {
    RetryReopens(b, op);
    var a := Apply(b, op);
    if |a.channels.mail[c]| < 2 {
      var k :| k in a.out && a.out[k].rchan == c;
      assert k in Waiting(a.out, c);
    }
  }

  lemma LateStaysOrIsMisplaced(b: Books, op: Op, c: nat)
    requires Possible(b, op) && Counted(b) && Late(b, c)
    ensures Late(Apply(b, op), c) || !PlacedIn(Apply(b, op), c)
  {
    ToldStaysTold(b, op, c);
    if m :| m in b.queue && RetryOn(m, c) {
      QueuedGoesOn(b, op, m);
      if m !in Apply(b, op).queue {
        HandledRetryIsMisplaced(b, op, c);
      }
    } else {
      var t :| Loose(b.out, b.live, t, c);
      if op == Expire(t) {
        LooseIsQueued(b, t, c);
      } else {
        LooseGoesOn(b, op, t, c);
      }
    }
  }

  // ----- A hazard leaves a late retransmission, or misplaces at once

  lemma TakenOutIsLate(b: Books, op: Op, k: Key)
    requires Possible(b, op) && Counted(b) && Clean(b) && k in b.out
    requires op.Settle? ==> op.key == k && RetryPending(b, k, op.stops)
    requires op.SettleAll? ==> RetryPending(b, k, true)
    requires op.Settle? || op.SettleAll?
    ensures Late(Apply(b, op), b.out[k].rchan)
  {
    var a, c, timer := Apply(b, op), b.out[k].rchan, b.out[k].timer;
    TakenOutIsTold(b, op, k);
    if RetryQueued(b.queue, k) {
      var m :| m in b.queue && IsRetry(m) && KeyOf(m.request) == k;
      var i :| 0 <= i < |b.queue| && b.queue[i] == m;
      assert RetryOn(m, c);
      QueuedGoesOn(b, op, m);
    } else {
      assert KeyOf(b.live[timer].request) == k;
      LeftTimerIsLoose(b, op, k);
    }
  }

  lemma TakenOutIsTold(b: Books, op: Op, k: Key)
    requires Possible(b, op) && Clean(b) && k in b.out
        && (op == Settle(k, if op.Settle? then op.outcome else Cancelled, op.Settle? && op.stops) || op.SettleAll?)
    ensures var mail := Apply(b, op).channels.mail; b.out[k].rchan in mail && mail[b.out[k].rchan] != []
  {
    var c := b.out[k].rchan;
    assert c in b.channels.mail;
    if op.SettleAll? {
      assert k in Waiting(b.out, c);
    }
  }

  lemma LeftTimerIsLoose(b: Books, op: Op, k: Key)
    requires Possible(b, op) && Counted(b) && Clean(b) && k in b.out && (op.SettleAll? || (op.Settle? && op.key == k))
    requires var t := b.out[k].timer;
      t in b.live && b.live[t].request.tries > 1 && !((op.Settle? ==> op.stops) && Armed(b.live, t))
    ensures var a := Apply(b, op); Loose(a.out, a.live, b.out[k].timer, b.out[k].rchan)
  {
    var t := b.out[k].timer;
    assert KeyOf(b.live[t].request) == k;
    if op.SettleAll? {
      assert t !in Stopped(b.out, b.live);
    } else {
      forall j | j in b.out && j != k ensures b.out[j].timer != t {
        assert b.out[j].timer in b.live ==> KeyOf(b.live[b.out[j].timer].request) == j;
      }
    }
  }

  lemma HazardIsLateOrMisplaced(b: Books, op: Op)
    requires Possible(b, op) && Counted(b) && Clean(b) && Hazard(b, op)
    ensures exists c :: Late(Apply(b, op), c) || !PlacedIn(Apply(b, op), c)
  {
    match op
    case Settle(k, _, _) =>
      TakenOutIsLate(b, op, k);
    case SettleAll =>
      var k :| k in b.out && RetryPending(b, k, true);
      TakenOutIsLate(b, op, k);
    case Refuse(o, alarm) =>
      var c := b.queue[0].request.rchan;
      RefusedRetryIsMisplaced(b, o, alarm);
      assert !PlacedIn(Apply(b, op), c);
    case Rest =>
    case Arrive(_) =>
    case Enter(_, _, _) =>
    case TurnAway(_, _) =>
    case Drop =>
    case Register(_) =>
    case Fire(_) =>
    case Expire(_) =>
  }

  lemma RefusedRetryIsMisplaced(b: Books, o: Outcome, alarm: bool)
    requires Possible(b, Refuse(o, alarm)) && Clean(b) && IsRetry(b.queue[0])
    ensures !PlacedIn(Apply(b, Refuse(o, alarm)), b.queue[0].request.rchan)
  {
    var t, rchan := Apply(b, Refuse(o, alarm)), b.queue[0].request.rchan;
    assert KeyOf(b.queue[0].request) in Waiting(b.out, rchan);
    assert |t.channels.mail[rchan]| >= 1 && t.out == b.out;
  }

  // ----- Whole runs

  ghost predicate AllPlaced(s: Socket) {
    forall c :: PlacedIn(BooksOf(s), c)
  }

  ghost predicate AlwaysPlaced(states: seq<Socket>) {
    forall i :: 0 <= i < |states| ==> AllPlaced(states[i])
  }

  /** A retransmission that is late at some point of a run in which nothing gets misplaced is late at the end. */
  lemma LateUntilTheEnd(states: seq<Socket>, events: seq<Event>, i: nat, j: nat, c: nat)
    requires IsRun(states, events) && AlwaysPlaced(states) && i <= j < |states|
    requires Late(BooksOf(states[i]), c)
    ensures Late(BooksOf(states[j]), c)
    decreases j
  {
    if i < j {
      LateUntilTheEnd(states, events, i, j - 1, c);
      NextBooks(states, events, j - 1, BooksOf(states[j - 1]), BooksOf(states[j]));
      LateStaysOrIsMisplaced(BooksOf(states[j - 1]), OpOf(states[j - 1], events[j - 1]), c);
      assert AllPlaced(states[j]);
    }
  }

  lemma NextBooks(states: seq<Socket>, events: seq<Event>, i: nat, b: Books, a: Books)
    requires IsRun(states, events) && i < |events| && b == BooksOf(states[i]) && a == BooksOf(states[i + 1])
    ensures Enabled(states[i], events[i]) && Steady(states[i]) && Counted(b)
    ensures Possible(b, OpOf(states[i], events[i])) && a == Apply(b, OpOf(states[i], events[i]))
  {
    PrefixIsRun(states, events, i);
    RunIsSteady(states[..i + 1], events[..i]);
    RunIsCounted(states[..i + 1], events[..i], b);
    NextInRun(states, events, i);
    StepBooks(states[i], events[i]);
  }

  lemma NothingLateAtTheEnd(states: seq<Socket>, events: seq<Event>, c: nat)
    requires IsRun(states, events) && Last(states).life.phase.Ended?
    ensures !Late(BooksOf(Last(states)), c)
  {
    RunFinishes(states, events);
  }

  lemma SafeUpTo(states: seq<Socket>, events: seq<Event>, k: nat)
    requires |states| == |events| + 1 && k < |states|
    requires forall j :: 0 <= j < k ==> !Hazardous(states[j], events[j])
    ensures Safe(states[..k + 1], events[..k])
  {
    var before, done := states[..k + 1], events[..k];
    forall j | 0 <= j < |done| ensures !Hazardous(before[j], done[j]) {
      assert before[j] == states[j] && done[j] == events[j];
    }
  }

  /** Before its first hazard a run is clean. */
  lemma {:induction false} FirstHazard(states: seq<Socket>, events: seq<Event>, k: nat) returns (i: nat)
    requires IsRun(states, events) && k < |events| && Hazardous(states[k], events[k])
    ensures i < |events| && Hazardous(states[i], events[i]) && IsClean(states[i])
    decreases k
  {
    if j: nat :| j < k && Hazardous(states[j], events[j]) {
      i := FirstHazard(states, events, j);
    } else {
      i := k;
      SafeUpTo(states, events, k);
      PrefixIsRun(states, events, k);
      SafeRunIsClean(states[..k + 1], events[..k], BooksOf(states[k]));
    }
  }

  lemma LateIsMisplaced(states: seq<Socket>, events: seq<Event>, i: nat, c: nat)
    requires IsRun(states, events) && Last(states).life.phase.Ended? && i < |states|
    requires Late(BooksOf(states[i]), c)
    ensures !AlwaysPlaced(states)
  {
    if AlwaysPlaced(states) {
      LateUntilTheEnd(states, events, i, |states| - 1, c);
      NothingLateAtTheEnd(states, events, c);
    }
  }

  lemma StepMisplaces(s: Socket, e: Event, t: Socket) returns (c: nat)
    requires Leads(s, e, t) && Steady(s) && Counted(BooksOf(s)) && IsClean(s) && Hazardous(s, e)
    ensures Late(BooksOf(t), c) || !PlacedIn(BooksOf(t), c)
  {
    StepBooks(s, e);
    HazardIsLateOrMisplaced(BooksOf(s), OpOf(s, e));
    c :| Late(BooksOf(t), c) || !PlacedIn(BooksOf(t), c);
  }

  lemma HazardAtMisplaces(states: seq<Socket>, events: seq<Event>, i: nat)
    requires IsRun(states, events) && Last(states).life.phase.Ended? && i < |events|
    requires Hazardous(states[i], events[i]) && IsClean(states[i])
    ensures !AlwaysPlaced(states)
  {
    NextBooks(states, events, i, BooksOf(states[i]), BooksOf(states[i + 1]));
    NextInRun(states, events, i);
    var c := StepMisplaces(states[i], events[i], states[i + 1]);
    if PlacedIn(BooksOf(states[i + 1]), c) {
      LateIsMisplaced(states, events, i + 1, c);
    } else {
      assert !AllPlaced(states[i + 1]);
    }
  }

  lemma SomeHazard(states: seq<Socket>, events: seq<Event>) returns (i: nat)
    requires |states| == |events| + 1 && !Safe(states, events)
    ensures i < |events| && Hazardous(states[i], events[i])
  {
    i :| 0 <= i < |events| && Hazardous(states[i], events[i]);
  }

  lemma HazardMisplaces(states: seq<Socket>, events: seq<Event>)
    requires IsRun(states, events) && Last(states).life.phase.Ended? && !Safe(states, events)
    ensures !AlwaysPlaced(states)
  {
    var k := SomeHazard(states, events);
    var i := FirstHazard(states, events, k);
    HazardAtMisplaces(states, events, i);
  }

  /** In a run that has ended every channel was always in one place and once, exactly when no event was a hazard. */
  lemma AlwaysPlacedIffSafe(states: seq<Socket>, events: seq<Event>)
    requires IsRun(states, events) && Last(states).life.phase.Ended?
    ensures AlwaysPlaced(states) <==> Safe(states, events)
  {
    if Safe(states, events) {
      CleanIffSafe(states, events);
      forall i | 0 <= i < |states| ensures AllPlaced(states[i]) {
        assert IsClean(states[i]);
      }
    } else {
      HazardMisplaces(states, events);
    }
  }

  // ----- A caller that is forgotten

  /** Nothing is queued, outstanding or to be sent again for the caller, and it was not told. */
  ghost predicate Forgotten(b: Books, c: nat) {
    && c in b.channels.mail && b.channels.mail[c] == [] && c in b.channels.closes && b.channels.closes[c] == 0
    && (forall m :: m in b.queue && m.Transmit? ==> m.request.rchan != c)
    && (forall k :: k in b.out ==> b.out[k].rchan != c)
    && (forall t :: t in b.live && b.live[t].request.tries > 1 ==> b.live[t].request.rchan != c)
  }

  lemma StaysForgotten(b: Books, op: Op, c: nat)
    requires Possible(b, op) && Forgotten(b, c)
    ensures Forgotten(Apply(b, op), c)
  {
    match op
    case Rest =>
    case Arrive(_) =>
    case Enter(_, _, _) =>
    case TurnAway(_, _) =>
    case Drop =>
    case Settle(_, _, _) =>
    case SettleAll => assert Waiting(b.out, c) == {};
    case Refuse(_, alarm) =>
      assert b.queue[0] in b.queue;
      if alarm {} else {}
    case Register(_) => assert b.queue[0] in b.queue;
    case Fire(_) =>
    case Expire(t) => if TimerAct(b.live[t].request).Transmit? {} else {}
  }

  /** The same of a socket, said so that a proof about a run need not look into it. */
  ghost predicate IsForgotten(s: Socket, c: nat) {
    forall b {:trigger Forgotten(b, c)} :: b == BooksOf(s) ==> Forgotten(b, c)
  }

  lemma NextIsForgotten(states: seq<Socket>, events: seq<Event>, i: nat, c: nat)
    requires IsRun(states, events) && i < |events| && IsForgotten(states[i], c)
    ensures IsForgotten(states[i + 1], c)
  {
    var b, a := BooksOf(states[i]), BooksOf(states[i + 1]);
    NextBooks(states, events, i, b, a);
    assert Forgotten(b, c);
    StaysForgotten(b, OpOf(states[i], events[i]), c);
  }

  /** A forgotten caller is never told and its channel never closed, whatever happens. */
  lemma ForgottenForever(states: seq<Socket>, events: seq<Event>, i: nat, j: nat, c: nat)
    requires IsRun(states, events) && i <= j < |states| && Forgotten(BooksOf(states[i]), c)
    ensures Forgotten(BooksOf(states[j]), c)
  {
    var keeps := (s: Socket) => IsForgotten(s, c);
    forall k | i <= k < j && keeps(states[k]) ensures keeps(states[k + 1]) {
      NextIsForgotten(states, events, k, c);
    }
    Runs.Kept(keeps, states, i, j);
    assert IsForgotten(states[j], c);
  }
}
