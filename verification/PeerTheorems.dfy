/** Every response channel handed to a Diameter peer gets one message and one close. */
module PeerTheorems {
  import opened Common
  import opened Outstanding
  import opened PeerSpec

  /** The part of a peer that knows about response channels. */
  datatype Books = Books(
    queue: seq<Msg>,
    requestsMap: map<nat, RequestContext>,
    mail: map<nat, seq<Outcome>>,
    closes: map<nat, nat>,
    asked: map<nat, nat>)

  function BooksOf(s: Peer): Books {
    Books(s.queue, s.requestsMap, s.channels.mail, s.channels.closes, s.channels.asked)
  }

  function QueuedOn(queue: seq<Msg>, c: nat): nat {
    if queue == [] then 0
    else (if queue[0].Egress? && queue[0].rchan == Some(c) then 1 else 0) + QueuedOn(queue[1..], c)
  }

  function InHand(extra: Option<nat>, c: nat): nat {
    if extra == Some(c) then 1 else 0
  }

  /** A channel is queued, outstanding, answered or in the event loop's hands, in one place and once. */
  ghost predicate Placed(b: Books, extra: Option<nat>, c: nat) {
    if c in b.mail then
      QueuedOn(b.queue, c) + |Waiting(b.requestsMap, c)| + |b.mail[c]| + InHand(extra, c) == 1
    else
      QueuedOn(b.queue, c) == 0 && Waiting(b.requestsMap, c) == {} && InHand(extra, c) == 0
  }

  /** An answer goes to the channel of the request it answers. */
  predicate Fits(asked: map<nat, nat>, c: nat, o: Outcome) {
    o.Answer? ==> c in asked && !o.message.isRequest && o.message.applicationId != 0 && o.message.hopByHopId == asked[c]
  }

  /** Only requests of other applications wait for an answer, under the hop id they were handed in with. */
  predicate ProperMsg(asked: map<nat, nat>, m: Msg) {
    m.Egress? ==>
      && (m.waited <==> m.rchan.Some?)
      && (m.rchan.Some? ==> m.message.isRequest && m.message.applicationId != 0
                            && m.rchan.value in asked && asked[m.rchan.value] == m.message.hopByHopId)
  }

  ghost predicate Balanced(b: Books, extra: Option<nat>) {
    && b.mail.Keys == b.closes.Keys == b.asked.Keys
    && (forall c :: Placed(b, extra, c))
    && (forall c :: c in b.mail ==> b.closes[c] == |b.mail[c]|)
    && (forall c, o :: c in b.mail && o in b.mail[c] ==> Fits(b.asked, c, o))
    && (forall m :: m in b.queue ==> ProperMsg(b.asked, m))
    && (forall hop :: hop in b.requestsMap ==>
        b.requestsMap[hop].rchan in b.asked && b.asked[b.requestsMap[hop].rchan] == hop)
  }

  predicate Plain(m: Msg) {
    m.Egress? ==> m.rchan.None? && !m.waited
  }

  lemma {:induction false} QueuedOnConcat(a: seq<Msg>, b: seq<Msg>, c: nat)
    ensures QueuedOn(a + b, c) == QueuedOn(a, c) + QueuedOn(b, c)
  {
    if a == [] {
      assert a + b == b;
    } else {
      assert (a + b)[1..] == a[1..] + b;
      QueuedOnConcat(a[1..], b, c);
    }
  }

  // ----- What happens to the books

  function Posted(b: Books, m: Msg): Books {
    b.(queue := b.queue + [m])
  }

  function Replied(b: Books, c: nat, o: Outcome): Books
    requires c in b.mail && c in b.closes
  {
    b.(mail := b.mail[c := b.mail[c] + [o]], closes := b.closes[c := b.closes[c] + 1])
  }

  function Registered(b: Books, hop: nat, context: RequestContext): Books {
    b.(requestsMap := b.requestsMap[hop := context])
  }

  function Removed(b: Books, hop: nat): Books {
    b.(requestsMap := b.requestsMap - {hop})
  }

  function AllCancelled(b: Books): Books {
    var told := AllTold(Channels(b.mail, b.closes, b.asked), b.requestsMap, Cancelled);
    b.(requestsMap := map[], mail := told.mail, closes := told.closes)
  }

  lemma PostedBalances(b: Books, m: Msg, extra: Option<nat>)
    requires Balanced(b, extra) && Plain(m)
    ensures Balanced(Posted(b, m), extra)
  {
    forall c: nat ensures Placed(Posted(b, m), extra, c) {
      assert Placed(b, extra, c);
      QueuedOnConcat(b.queue, [m], c);
    }
  }

  lemma HeldChannel(b: Books, c: nat)
    requires Balanced(b, Some(c))
    ensures c in b.mail && c in b.closes && c in b.asked && b.mail[c] == []
  {
    assert Placed(b, Some(c), c);
  }

  lemma RepliedBalances(b: Books, c: nat, o: Outcome)
    requires Balanced(b, Some(c)) && Fits(b.asked, c, o)
    ensures c in b.mail && c in b.closes && Balanced(Replied(b, c, o), None)
  {
    HeldChannel(b, c);
    forall d: nat ensures Placed(Replied(b, c, o), None, d) {
      assert Placed(b, Some(c), d);
    }
  }

  lemma RegisteredBalances(b: Books, hop: nat, context: RequestContext)
    requires Balanced(b, Some(context.rchan)) && hop !in b.requestsMap
    requires context.rchan in b.asked && b.asked[context.rchan] == hop
    ensures Balanced(Registered(b, hop, context), None)
  {
    var t := Registered(b, hop, context);
    forall d: nat ensures Placed(t, None, d) {
      assert Placed(b, Some(context.rchan), d);
      assert Waiting(t.requestsMap, d) == Waiting(b.requestsMap, d) + if d == context.rchan then {hop} else {};
    }
  }

  /** Takes the channel of an outstanding request into the event loop's hands. */
  lemma RemovedBalances(b: Books, hop: nat)
    requires Balanced(b, None) && hop in b.requestsMap
    ensures Balanced(Removed(b, hop), Some(b.requestsMap[hop].rchan))
  {
    var c := b.requestsMap[hop].rchan;
    forall d: nat ensures Placed(Removed(b, hop), Some(c), d) {
      assert Placed(b, None, d);
      assert hop in Waiting(b.requestsMap, c);
      assert Waiting(Removed(b, hop).requestsMap, d) == Waiting(b.requestsMap, d) - if d == c then {hop} else {};
    }
  }

  lemma AllCancelledBalances(b: Books)
    requires Balanced(b, None)
    ensures Balanced(AllCancelled(b), None)
  {
    var t := AllCancelled(b);
    forall d: nat ensures Placed(t, None, d) {
      assert Placed(b, None, d);
      assert Waiting(t.requestsMap, d) == {};
    }
    forall c, o | c in t.mail && o in t.mail[c] ensures Fits(t.asked, c, o) {
      assert o in b.mail[c] || o == Cancelled;
    }
  }

  lemma PoppedBalances(b: Books)
    requires Balanced(b, None) && b.queue != []
    ensures Balanced(b.(queue := b.queue[1..]), if b.queue[0].Egress? then b.queue[0].rchan else None)
    ensures ProperMsg(b.asked, b.queue[0])
  {
    assert b.queue[0] in b.queue;
    var extra := if b.queue[0].Egress? then b.queue[0].rchan else None;
    forall d: nat ensures Placed(b.(queue := b.queue[1..]), extra, d) {
      assert Placed(b, None, d);
    }
  }

  lemma OpenedBalances(b: Books, c: nat, hop: nat)
    requires Balanced(b, None) && c !in b.mail
    ensures Balanced(b.(mail := b.mail[c := []], closes := b.closes[c := 0], asked := b.asked[c := hop]), Some(c))
  {
    var t := b.(mail := b.mail[c := []], closes := b.closes[c := 0], asked := b.asked[c := hop]);
    forall d: nat ensures Placed(t, Some(c), d) {
      assert Placed(b, None, d);
    }
    forall h | h in t.requestsMap ensures t.requestsMap[h].rchan in t.asked && t.asked[t.requestsMap[h].rchan] == h {
      assert t.requestsMap[h].rchan in b.asked;
    }
    forall m | m in t.queue ensures ProperMsg(t.asked, m) {
      assert ProperMsg(b.asked, m);
    }
  }

  lemma QueuedBalances(b: Books, m: Message, c: nat)
    requires Balanced(b, Some(c)) && ProperMsg(b.asked, Egress(m, Some(c), true))
    ensures Balanced(Posted(b, Egress(m, Some(c), true)), None)
  {
    var e := Egress(m, Some(c), true);
    forall d: nat ensures Placed(Posted(b, e), None, d) {
      assert Placed(b, Some(c), d);
      QueuedOnConcat(b.queue, [e], d);
    }
  }

  // ----- What the event loop does

  ghost predicate Sound(s: Peer, extra: Option<nat>) {
    Balanced(BooksOf(s), extra)
  }

  lemma TerminateIsSound(s: Peer)
    requires Sound(s, None)
    ensures Sound(Terminate(s), None)
  {
    AllCancelledBalances(BooksOf(s));
    assert s.status < StatusTerminated ==> BooksOf(Terminate(s)) == AllCancelled(BooksOf(s));
  }

  lemma PostIsSound(s: Peer, t: Peer, m: Msg, extra: Option<nat>)
    requires Sound(s, extra) && Plain(m) && BooksOf(t) == Posted(BooksOf(s), m)
    ensures Sound(t, extra)
  {
    PostedBalances(BooksOf(s), m, extra);
  }

  lemma ReplyIsSound(s: Peer, t: Peer, c: nat, o: Outcome)
    requires Sound(s, Some(c)) && Fits(s.channels.asked, c, o)
    requires c in s.channels.mail && c in s.channels.closes && BooksOf(t) == Replied(BooksOf(s), c, o)
    ensures Sound(t, None)
  {
    RepliedBalances(BooksOf(s), c, o);
  }

  lemma WrittenIsSound(s: Peer, m: Message, rchan: Option<nat>)
    requires Sound(s, rchan) && (rchan.Some? ==> m.isRequest && rchan.value in s.channels.asked)
    requires rchan.Some? ==> s.channels.asked[rchan.value] == m.hopByHopId
    requires m.isRequest ==> m.hopByHopId !in s.requestsMap
    ensures Sound(Written(s, m, rchan), None)
  {
    if rchan.Some? {
      var context := RequestContext(rchan.value, s.timers.next);
      RegisteredBalances(BooksOf(s), m.hopByHopId, context);
      assert BooksOf(Written(s, m, rchan)) == Registered(BooksOf(s), m.hopByHopId, context);
    } else {
      assert BooksOf(Written(s, m, rchan)) == BooksOf(s);
    }
  }

  lemma NotWrittenIsSound(s: Peer, m: Message, rchan: Option<nat>)
    requires Sound(s, rchan) && (rchan.Some? ==> m.isRequest)
    ensures Sound(NotWritten(s, m, rchan), None)
  {
    var t := Post(s, WriteError).(status := StatusTerminating);
    PostIsSound(s, t, WriteError, rchan);
    if rchan.Some? {
      HeldChannel(BooksOf(t), rchan.value);
      ReplyIsSound(t, NotWritten(s, m, rchan), rchan.value, NotSent);
    }
  }

  lemma SendIsSound(s: Peer, m: Message, rchan: Option<nat>, writeOk: bool)
    requires Sound(s, rchan) && (rchan.Some? ==> m.isRequest && rchan.value in s.channels.asked)
    requires rchan.Some? ==> s.channels.asked[rchan.value] == m.hopByHopId
    requires m.isRequest ==> m.hopByHopId !in s.requestsMap
    ensures Sound(Send(s, m, rchan, writeOk), None)
  {
    var t := if IsDisconnectAnswer(m) then Post(s, PeerSetDown).(status := StatusTerminating) else s;
    if IsDisconnectAnswer(m) {
      PostIsSound(s, t, PeerSetDown, rchan);
    }
    if writeOk {
      WrittenIsSound(t, m, rchan);
    } else {
      NotWrittenIsSound(t, m, rchan);
    }
  }

  lemma EgressIsSound(s: Peer, m: Message, rchan: Option<nat>, waited: bool, writeOk: bool)
    requires Sound(s, rchan) && (rchan.Some? ==> m.isRequest && rchan.value in s.channels.asked)
    requires rchan.Some? ==> s.channels.asked[rchan.value] == m.hopByHopId
    ensures var t := HandleEgress(s, m, rchan, waited, writeOk); !t.phase.Crashed? ==> Sound(t, None)
  {
    if !(Sendable(s, m) && m.isRequest && m.hopByHopId in s.requestsMap) {
      if Sendable(s, m) {
        SendIsSound(s, m, rchan, writeOk);
        assert BooksOf(HandleEgress(s, m, rchan, waited, writeOk)) == BooksOf(Send(s, m, rchan, writeOk));
      } else if rchan.Some? {
        RepliedBalances(BooksOf(s), rchan.value, NotSent);
        assert BooksOf(HandleEgress(s, m, rchan, waited, writeOk)) == Replied(BooksOf(s), rchan.value, NotSent);
      } else {
        assert BooksOf(HandleEgress(s, m, rchan, waited, writeOk)) == BooksOf(s);
      }
    }
  }

  lemma DoneIsSound(s: Peer, hop: nat, o: Outcome)
    requires Sound(s, None) && hop in s.requestsMap
    requires o.Answer? ==> !o.message.isRequest && o.message.applicationId != 0 && o.message.hopByHopId == hop
    ensures Sound(Reply(s, s.requestsMap[hop].rchan, o).(requestsMap := s.requestsMap - {hop}), None)
  {
    var b, c := BooksOf(s), s.requestsMap[hop].rchan;
    RemovedBalances(b, hop);
    RepliedBalances(Removed(b, hop), c, o);
    assert BooksOf(Reply(s, c, o).(requestsMap := s.requestsMap - {hop})) == Replied(Removed(b, hop), c, o);
  }

  lemma AnswerIsSound(s: Peer, m: Message)
    requires Sound(s, None) && !m.isRequest && m.applicationId != 0
    ensures Sound(HandleAnswer(s, m), None)
  {
    if m.hopByHopId in s.requestsMap {
      var stopped := StopTimer(s, s.requestsMap[m.hopByHopId].timer);
      assert BooksOf(stopped) == BooksOf(s);
      DoneIsSound(stopped, m.hopByHopId, Answer(m));
    }
  }

  lemma CERIsSound(s: Peer, m: Message)
    requires Sound(s, None)
    ensures Sound(HandleCER(s, m), None)
  {
    var t := Post(s, Own(AnswerTo(m)));
    if s.status != StatusConnected {
      PostIsSound(s, HandleCER(s, m), PeerSetDown, None);
      return;
    }
    PostIsSound(s, t, Own(AnswerTo(m)), None);
    if m.sound {
      PostIsSound(t, HandleCER(s, m), PeerUp(m.host), None);
    } else {
      PostIsSound(t, HandleCER(s, m), PeerSetDown, None);
    }
  }

  lemma BaseRequestIsSound(s: Peer, m: Message)
    requires Sound(s, None)
    ensures Sound(HandleBaseRequest(s, m), None)
  {
    var t := HandleBaseRequest(s, m);
    if m.command.CapabilitiesExchange? {
      CERIsSound(s, m);
    } else if m.command.OtherCommand? {
      assert BooksOf(t) == BooksOf(s);
    } else {
      PostIsSound(s, t, Own(AnswerTo(m)), None);
    }
  }

  lemma BaseAnswerIsSound(s: Peer, m: Message)
    requires Sound(s, None)
    ensures Sound(HandleBaseAnswer(s, m), None)
  {
    var t := HandleBaseAnswer(s, m);
    if m.command.CapabilitiesExchange? && m.sound {
      PostIsSound(s, t, PeerUp(s.host), None);
    } else if (m.command.CapabilitiesExchange? || m.command.DeviceWatchdog?) && !m.sound {
      PostIsSound(s, t, PeerSetDown, None);
    } else {
      assert BooksOf(t) == BooksOf(s);
    }
  }

  lemma WatchdogIsSound(s: Peer, newHop: nat)
    requires Sound(s, None)
    ensures Sound(HandleWatchdog(s, newHop), None)
  {
    var t := if s.outstandingDWA > MAX_UNANSWERED_WATCHDOG_REQUESTS
             then Post(s.(status := StatusTerminating), PeerSetDown) else s;
    if s.outstandingDWA > MAX_UNANSWERED_WATCHDOG_REQUESTS {
      PostIsSound(s, t, PeerSetDown, None);
    }
    PostIsSound(t, HandleWatchdog(s, newHop), Own(Request(DeviceWatchdog, newHop)), None);
  }

  lemma HandleIsSound(s: Peer, m: Msg, writeOk: bool, newHop: nat)
    requires Sound(s, if m.Egress? then m.rchan else None) && ProperMsg(s.channels.asked, m)
    ensures var t := Handle(s, m, writeOk, newHop); !t.phase.Crashed? ==> Sound(t, None)
  {
    match m
    case Egress(message, rchan, waited) => EgressIsSound(s, message, rchan, waited, writeOk);
    case Ingress(message) =>
      if message.applicationId == 0 {
        BaseRequestIsSound(s, message);
        BaseAnswerIsSound(s, message);
      } else if !message.isRequest {
        AnswerIsSound(s, message);
      } else {
        assert BooksOf(HandleIngress(s, message)) == BooksOf(s);
      }
    case CancelRequest(hop) => if hop in s.requestsMap { DoneIsSound(s, hop, Timeout); }
    case ConnectionEstablished =>
      PostedBalances(BooksOf(s), Own(Request(CapabilitiesExchange, newHop)), None);
      assert BooksOf(Handle(s, m, writeOk, newHop)) == Posted(BooksOf(s), Own(Request(CapabilitiesExchange, newHop)));
    case Watchdog => WatchdogIsSound(s, newHop);
    case ReadEOF => TerminateIsSound(s);
    case ReadError => TerminateIsSound(s);
    case WriteError => TerminateIsSound(s);
    case PeerSetDown => TerminateIsSound(s);
    case PeerClose => assert BooksOf(Handle(s, m, writeOk, newHop)) == BooksOf(s);
    case ConnectionError => assert BooksOf(Handle(s, m, writeOk, newHop)) == BooksOf(s);
    case PeerUp(_) => assert BooksOf(Handle(s, m, writeOk, newHop)) == BooksOf(s);
  }

  lemma OpenedIsSound(s: Peer, t: Peer, c: nat, hop: nat)
    requires Sound(s, None) && c !in s.channels.mail
    requires BooksOf(t) == BooksOf(s).(
               mail := s.channels.mail[c := []],
               closes := s.channels.closes[c := 0],
               asked := s.channels.asked[c := hop])
    ensures Sound(t, Some(c))
  {
    OpenedBalances(BooksOf(s), c, hop);
  }

  lemma InvalidIsSound(s: Peer, m: Message, c: nat)
    requires Sound(Open(s, m, c), Some(c)) && (m.applicationId == 0 || !m.isRequest)
    ensures Sound(Exchange(s, m, c), None)
  {
    ReplyIsSound(Open(s, m, c), Exchange(s, m, c), c, Invalid);
  }

  lemma QueuedIsSound(s: Peer, t: Peer, m: Message, c: nat)
    requires Sound(s, Some(c)) && ProperMsg(s.channels.asked, Egress(m, Some(c), true))
    requires BooksOf(t) == Posted(BooksOf(s), Egress(m, Some(c), true))
    ensures Sound(t, None)
  {
    QueuedBalances(BooksOf(s), m, c);
  }

  lemma ExchangeIsSound(s: Peer, m: Message, c: nat)
    requires Sound(s, None) && c !in s.channels.mail
    ensures Sound(Exchange(s, m, c), None)
  {
    OpenedIsSound(s, Open(s, m, c), c, m.hopByHopId);
    if m.applicationId == 0 || !m.isRequest {
      InvalidIsSound(s, m, c);
    } else {
      QueuedIsSound(Open(s, m, c), Exchange(s, m, c), m, c);
    }
  }

  lemma StepIsSound(s: Peer, e: Event)
    requires Enabled(s, e) && Sound(s, None)
    ensures !Step(s, e).phase.Crashed? ==> Sound(Step(s, e), None)
  {
    var t := Step(s, e);
    match e
    case Turn(writeOk, newHop) =>
      PoppedBalances(BooksOf(s));
      var popped := s.(queue := s.queue[1..]);
      assert BooksOf(popped) == BooksOf(s).(queue := s.queue[1..]);
      HandleIsSound(popped, s.queue[0], writeOk, newHop);
    case Ticks =>
      if s.status == StatusEngaged { PostIsSound(s, t, Watchdog, None); }
      else if s.status < StatusEngaged { PostIsSound(s, t, PeerSetDown, None); }
    case Exchanges(m, c) => ExchangeIsSound(s, m, c);
    case SetsDown => PostIsSound(s, t, PeerSetDown, None);
    case ConnectEnds(ok) => PostIsSound(s, t, if ok then ConnectionEstablished else ConnectionError, None);
    case Reads(m) => PostIsSound(s, t, Ingress(m), None);
    case ReadEnds(eof) => PostIsSound(s, t, if eof then ReadEOF else ReadError, None);
    case TimerFires(_) => assert BooksOf(t) == BooksOf(s);
    case TimerSends(i) => PostIsSound(s, t, CancelRequest(s.timers.live[i].request), None);
    case HandlerEnds(answer) => PostIsSound(s, t, Own(answer), None);
    case Leaves => assert BooksOf(t) == BooksOf(s);
    case Closes => PostIsSound(s, t, PeerClose, None);
  }

  lemma StartIsSound(s: Peer)
    requires Starts(s)
    ensures Sound(s, None)
  {
    forall c: nat ensures Placed(BooksOf(s), None, c) {
      assert Waiting(s.requestsMap, c) == {};
    }
  }

  lemma {:induction false} RunIsSound(states: seq<Peer>, events: seq<Event>)
    requires IsRun(states, events)
    ensures !Last(states).phase.Crashed? ==> Sound(Last(states), None)
  {
    if events == [] {
      StartIsSound(states[0]);
    } else {
      RunIsSound(Front(states), Front(events));
      StepIsSound(Last(Front(states)), Last(events));
    }
  }

  /**
   At any point of a run each channel handed in is in one place, and holds as many messages as it was closed: none or
   one.
   */
  lemma EveryChannelIsInOnePlace(states: seq<Peer>, events: seq<Event>, c: nat)
    requires IsRun(states, events) && !Last(states).phase.Crashed? && c in Last(states).channels.mail
    ensures var s := Last(states);
      && QueuedOn(s.queue, c) + |Waiting(s.requestsMap, c)| + |s.channels.mail[c]| == 1
      && c in s.channels.closes && s.channels.closes[c] == |s.channels.mail[c]|
      && forall o :: o in s.channels.mail[c] ==> Fits(s.channels.asked, c, o)
  {
    RunIsSound(states, events);
    assert Placed(BooksOf(Last(states)), None, c);
  }
}
