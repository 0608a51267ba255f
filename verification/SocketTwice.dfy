/** A response that overtakes a retransmission: the channel of the request is told twice. */
module SocketTwice {
  import opened Common
  import opened Outstanding
  import opened SocketSpec
  import opened SocketBooks
  import opened SocketRuns

  lemma RetryReopens(b: Books, op: Op)
    requires Possible(b, op) && (op.Register? || op.Refuse?)
    requires var c := b.queue[0].request.rchan; c in b.channels.mail && b.channels.mail[c] != []
    ensures var c := b.queue[0].request.rchan; var t := Apply(b, op);
      && c in t.channels.mail && |t.channels.mail[c]| >= 1
      && (|t.channels.mail[c]| >= 2 || exists k :: k in t.out && t.out[k].rchan == c)
  {
    if op.Register? {
      assert KeyOf(b.queue[0].request.(id := op.id)) in Apply(b, op).out;
    } else {
    }
  }

  /** A retransmission for a channel already told opens the request again, or tells the channel once more. */
  lemma RetryOfToldChannel(s: Socket, marshalOk: bool, writeOk: bool)
    requires Steady(s) && Enabled(s, Turn(marshalOk, writeOk)) && IsRetry(s.queue[0])
    requires var c := s.queue[0].request.rchan; c in s.channels.mail && s.channels.mail[c] != []
    ensures var c := s.queue[0].request.rchan; var t := Step(s, Turn(marshalOk, writeOk));
      && c in t.channels.mail && |t.channels.mail[c]| >= 1
      && (|t.channels.mail[c]| >= 2 || exists k :: k in Flat(t.requestsMap) && Flat(t.requestsMap)[k].rchan == c)
  {
    StepBooks(s, Turn(marshalOk, writeOk));
    RetryReopens(BooksOf(s), TurnOp(s, marshalOk, writeOk));
    assert BooksOf(Step(s, Turn(marshalOk, writeOk))).channels == Step(s, Turn(marshalOk, writeOk)).channels;
  }

  lemma Extend(states: seq<Socket>, events: seq<Event>, e: Event, t: Socket)
    requires IsRun(states, events) && Enabled(Last(states), e) && t == Step(Last(states), e)
    ensures IsRun(states + [t], events + [e]) && Last(states + [t]) == t
  {
    RunGoesOn(states, events, e);
  }

  function Sending(address: string, tries: int): Request {
    Request(address, 1, tries, 0)
  }

  function Told0(address: string, mail: seq<Outcome>): Channels<Outcome, string> {
    Channels(map[0 := mail], map[0 := |mail|], map[0 := address])
  }

  /** The request is on the wire for the first time. */
  function Outbound(address: string): Socket {
    Socket([], map[address := map[1 := RequestContext(0, 0)]], map[address := 1],
           Timers(map[0 := Timer(Sending(address, 2), false)], 1), 1, Told0(address, []),
           [Wrote(Sending(address, 2))], Life(false, true, true, 0, InUse))
  }

  /** Its timer has queued the retransmission, behind the response. */
  function Overtaken(address: string): Socket {
    Outbound(address).(
      queue := [Response(Key(address, 1), Good), Transmit(Sending(address, 1))], timers := Timers(map[], 1), wg := 2,
      life := Life(false, true, true, 1, InUse))
  }

  /** The response is handled first: the caller has its answer. */
  function Answered(address: string): Socket {
    Overtaken(address).(
      queue := [Transmit(Sending(address, 1))], requestsMap := map[address := map[]],
      channels := Told0(address, [Answer(Key(address, 1))]))
  }

  /** The request was answered and sent again. */
  function SentAgain(address: string): Socket {
    Overtaken(address).(
      queue := [], requestsMap := map[address := map[1 := RequestContext(0, 1)]],
      timers := Timers(map[1 := Timer(Sending(address, 1), false)], 2),
      channels := Told0(address, [Answer(Key(address, 1))]),
      outputs := [Wrote(Sending(address, 2)), Wrote(Sending(address, 1))])
  }

  lemma GoesOut(address: string) returns (states: seq<Socket>, events: seq<Event>)
    ensures IsRun(states, events) && Last(states) == Outbound(address)
  {
    var sends := Sends(address, 2, 0, true);
    var s1 := New().(queue := [Transmit(Request(address, 0, 2, 0))], wg := 1, channels := Told0(address, []));
    Extend([New()], [], sends, s1);
    assert FirstFree<RequestContext>(map[], 0, MAX_ID) == Some(1);
    states, events := [New()] + [s1], [] + [sends];
    var s2 := Step(s1, Turn(true, true));
    assert s1.queue[1..] == [];
    Extend(states, events, Turn(true, true), s2);
    states, events := states + [s2], events + [Turn(true, true)];
  }

  lemma IsOvertaken(address: string) returns (states: seq<Socket>, events: seq<Event>)
    ensures IsRun(states, events) && Last(states) == Overtaken(address)
  {
    states, events := GoesOut(address);
    var s := Outbound(address);
    var s1 := s.(timers := Timers(map[0 := Timer(Sending(address, 2), true)], 1));
    Extend(states, events, TimerFires(0), s1);
    states, events := states + [s1], events + [TimerFires(0)];
    var s2 := s1.(queue := [Response(Key(address, 1), Good)]);
    Extend(states, events, Reads(Key(address, 1), Good), s2);
    states, events := states + [s2], events + [Reads(Key(address, 1), Good)];
    var s3 := Overtaken(address);
    assert s1.timers.live - {0} == map[];
    assert s2.queue + [Transmit(Sending(address, 1))] == s3.queue;
    Extend(states, events, TimerSends(0), s3);
    states, events := states + [s3], events + [TimerSends(0)];
  }

  lemma AnswerIsFirst(address: string)
    ensures Leads(Overtaken(address), Turn(true, true), Answered(address))
  {
    var s, t, k := Overtaken(address), Answered(address), Key(address, 1);
    assert s.queue[1..] == t.queue;
    assert s.requestsMap[address] - {1} == map[];
    var answered := HandleResponse(s.(queue := t.queue), k, Good);
    assert answered.requestsMap == t.requestsMap;
    assert answered.channels == t.channels by { assert [] + [Answer(k)] == [Answer(k)]; }
  }

  lemma RetryIsSent(address: string)
    ensures Leads(Answered(address), Turn(true, true), SentAgain(address))
  {
    var s, r := Answered(address), Sending(address, 1);
    assert s.queue[1..] == [];
    var t := Done(Sent(s.(queue := []), r));
    assert Step(s, Turn(true, true)) == HandleTransmit(s.(queue := []), r, true, true) == t;
    assert t.requestsMap == SentAgain(address).requestsMap;
  }

  lemma GoesOutAgain(address: string) returns (states: seq<Socket>, events: seq<Event>)
    ensures IsRun(states, events) && Last(states) == SentAgain(address)
  {
    states, events := IsOvertaken(address);
    AnswerIsFirst(address);
    Extend(states, events, Turn(true, true), Answered(address));
    states, events := states + [Answered(address)], events + [Turn(true, true)];
    RetryIsSent(address);
    Extend(states, events, Turn(true, true), SentAgain(address));
    states, events := states + [SentAgain(address)], events + [Turn(true, true)];
  }

  /** A server that answers both copies of a request makes the socket tell, and close, the same channel twice. */
  lemma ToldTwice(address: string) returns (states: seq<Socket>, events: seq<Event>)
    ensures IsRun(states, events)
    ensures var k := Last(states).channels; 0 in k.mail && |k.mail[0]| == 2 && 0 in k.closes && k.closes[0] == 2
  {
    states, events := GoesOutAgain(address);
    var s, k := SentAgain(address), Key(address, 1);
    var s1 := s.(queue := [Response(k, Good)]);
    Extend(states, events, Reads(k, Good), s1);
    states, events := states + [s1], events + [Reads(k, Good)];
    var s2 := Step(s1, Turn(true, true));
    assert s1.queue[1..] == [];
    assert s2 == HandleResponse(s1.(queue := []), k, Good);
    Extend(states, events, Turn(true, true), s2);
    states, events := states + [s2], events + [Turn(true, true)];
  }
}
