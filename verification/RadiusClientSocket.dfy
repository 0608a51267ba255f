/**
 The RADIUS client socket as the object it is: fields, event loop, allocator and timers, each proved against the
 specification.
 */
module RadiusClientSocket {
  import opened Common
  import opened Outstanding
  import opened SocketSpec
  import Books = SocketBooks
  import SocketRuns

  /** Every outstanding request answers on a channel that exists. */
  ghost predicate AllAnswerable(out: map<Key, RequestContext>, k: Channels<SocketSpec.Outcome, string>) {
    forall key :: key in out ==> out[key].rchan in k.mail && out[key].rchan in k.closes
  }

  ghost predicate Answerable(s: Socket) {
    AllAnswerable(Flat(s.requestsMap), s.channels)
  }

  lemma RunIsAnswerable(states: seq<Socket>, events: seq<Event>)
    requires IsRun(states, events)
    ensures Answerable(Last(states))
  {
    SocketRuns.RunIsHandedIn(states, events, Books.BooksOf(Last(states)));
  }

  /** One round of the inner loop of cancelAll. */
  function CancelOne(s: Socket, k: Key): Socket
    requires Has(s.requestsMap, k)
  {
    var context := s.requestsMap[k.endpoint][k.id];
    Reply(StopTimer(s, context.timer), context.rchan, Cancelled).(requestsMap := Without(s.requestsMap, k))
  }

  lemma CancelledFirst(s: Socket, t: Socket, out: map<Key, RequestContext>, k: Key)
    requires k in out && AllAnswerable(out, s.channels)
    requires t == Reply(StopTimer(s, out[k].timer), out[k].rchan, Cancelled).(requestsMap := t.requestsMap)
    ensures CancelThese(t, out - {k}) == CancelThese(s, out)
  {
    OneFewerStopped(out, s.timers.live, k);
    ToldOneByOne(s.channels, out, k, Cancelled);
  }

  /** The order in which the outstanding requests are cancelled does not matter. */
  lemma CancelledOneByOne(s: Socket, k: Key)
    requires Has(s.requestsMap, k) && Answerable(s)
    ensures CancelAll(CancelOne(s, k)) == CancelAll(s)
    ensures Answerable(CancelOne(s, k))
  {
    FlatHas(s.requestsMap, k);
    FlatWithout(s.requestsMap, k);
    CancelledFirst(s, CancelOne(s, k), Flat(s.requestsMap), k);
  }

  lemma EmptyEndpointIsFlat(m: Nested, left: Nested, endpoint: string)
    requires endpoint in m && m[endpoint] == map[] && left == m - {endpoint}
    ensures Flat(left) == Flat(m)
  {
    forall k: Key ensures k in Flat(left) <==> k in Flat(m) {
      FlatHas(left, k);
      FlatHas(m, k);
    }
  }

  lemma ForgottenEndpoint(s: Socket, t: Socket, endpoint: string)
    requires endpoint in s.requestsMap && s.requestsMap[endpoint] == map[] && Answerable(s)
    requires t == s.(requestsMap := s.requestsMap - {endpoint})
    ensures CancelAll(t) == CancelAll(s) && Answerable(t)
  {
    EmptyEndpointIsFlat(s.requestsMap, t.requestsMap, endpoint);
    SameWhenFlat(s, t, Flat(s.requestsMap));
  }

  lemma SameWhenFlat(s: Socket, t: Socket, out: map<Key, RequestContext>)
    requires t == s.(requestsMap := t.requestsMap)
    ensures CancelThese(t, out) == CancelThese(s, out)
  {
  }

  lemma NoneToCancel(s: Socket, out: map<Key, RequestContext>)
    requires s.requestsMap == map[] && out == map[]
    ensures CancelThese(s, out) == s
  {
    assert Stopped(out, s.timers.live) == {};
    NobodyTold(s.channels, out, Cancelled);
  }

  lemma NothingToCancel(s: Socket)
    requires s.requestsMap == map[]
    ensures CancelAll(s) == s
  {
    FlatEmpty();
    NoneToCancel(s, Flat(s.requestsMap));
  }

  class RadiusClientSocket {
    var eventLoopChannel: seq<Msg>
    var requestsMap: Nested
    var lastRadiusIdMap: map<string, nat>
    var timers: Timers<Request>
    var wg: int
    var channels: Channels<SocketSpec.Outcome, string>
    var outputs: seq<Output>
    var life: Life
    ghost var states: seq<Socket>
    ghost var events: seq<Event>

    ghost function View(): Socket
      reads this
    {
      Socket(eventLoopChannel, requestsMap, lastRadiusIdMap, timers, wg, channels, outputs, life)
    }

    /** The object is where a run of the specification leads. */
    ghost predicate Valid()
      reads this
    {
      IsRun(states, events) && Last(states) == View()
    }

    constructor NewRadiusClientSocket()
      ensures Valid() && View() == New()
    {
      eventLoopChannel, requestsMap, lastRadiusIdMap, timers := [], map[], map[], Timers(map[], 0);
      wg, channels, outputs := 0, Channels(map[], map[], map[]), [];
      life := Life(false, true, true, 0, InUse);
      states, events := [New()], [];
    }

    /** Notes the step just made. */
    ghost method Record(e: Event)
      requires IsRun(states, events) && Enabled(Last(states), e) && View() == Step(Last(states), e)
      modifies this`states, this`events
      ensures Valid() && events == old(events) + [e] && states == old(states) + [View()]
    {
      RunGoesOn(states, events, e);
      states, events := states + [View()], events + [e];
    }

    method Send(m: Msg)
      modifies this`eventLoopChannel
      ensures View() == Post(old(View()), m)
    {
      eventLoopChannel := eventLoopChannel + [m];
    }

    /** Sends on a response channel and closes it. */
    method Answer(c: nat, o: Outcome)
      modifies this`channels
      ensures View() == Reply(old(View()), c, o)
    {
      channels := Told(channels, c, o);
    }

    method Stop(t: nat)
      modifies this`timers, this`wg
      ensures View() == StopTimer(old(View()), t)
    {
      if t in timers.live && !timers.live[t].running {
        timers := timers.(live := timers.live - {t});
        wg := wg - 1;
      }
    }

    /** The inner loop of cancelAll: an endpoint is left with no outstanding request. */
    method CancelEndpoint(endpoint: string)
      requires Answerable(View()) && endpoint in requestsMap
      modifies this`requestsMap, this`timers, this`wg, this`channels
      ensures requestsMap.Keys == old(requestsMap.Keys) && requestsMap[endpoint] == map[]
      ensures var t := View().(requestsMap := requestsMap - {endpoint});
        Answerable(t) && SocketSpec.CancelAll(t) == SocketSpec.CancelAll(old(View()))
    {
      while requestsMap[endpoint].Keys != {}
        invariant endpoint in requestsMap && requestsMap.Keys == old(requestsMap.Keys)
        invariant Answerable(View()) && SocketSpec.CancelAll(View()) == SocketSpec.CancelAll(old(View()))
        decreases requestsMap[endpoint].Keys
      {
        var radiusId :| radiusId in requestsMap[endpoint].Keys;
        CancelledOneByOne(View(), Key(endpoint, radiusId));
        var requestContext := requestsMap[endpoint][radiusId];
        Stop(requestContext.timer);
        Answer(requestContext.rchan, Cancelled);
        requestsMap := requestsMap[endpoint := requestsMap[endpoint] - {radiusId}];
      }
      ForgottenEndpoint(View(), View().(requestsMap := requestsMap - {endpoint}), endpoint);
    }

    method CancelAll()
      requires Answerable(View())
      modifies this`requestsMap, this`timers, this`wg, this`channels
      ensures View() == SocketSpec.CancelAll(old(View()))
    {
      while requestsMap.Keys != {}
        invariant Answerable(View()) && SocketSpec.CancelAll(View()) == SocketSpec.CancelAll(old(View()))
        decreases requestsMap.Keys
      {
        var endpoint :| endpoint in requestsMap.Keys;
        CancelEndpoint(endpoint);
        requestsMap := requestsMap - {endpoint};
      }
      NothingToCancel(View());
    }

    /** The next identifier after the last one used that is not busy, going round once. */
    method GetNextRadiusId(endpoint: string, currentRadiusId: nat) returns (id: Option<nat>)
      modifies this`requestsMap, this`lastRadiusIdMap
      ensures (View(), id) == SocketSpec.GetNextRadiusId(old(View()), endpoint, currentRadiusId)
    {
      if currentRadiusId != 0 {
        return Some(currentRadiusId);
      }
      var idMap: map<nat, RequestContext> := map[];
      if endpoint in requestsMap {
        idMap := requestsMap[endpoint];
      } else {
        requestsMap := requestsMap[endpoint := map[]];
      }
      var lastId := 0;
      if endpoint in lastRadiusIdMap {
        lastId := lastRadiusIdMap[endpoint];
      } else {
        lastRadiusIdMap := lastRadiusIdMap[endpoint := 1];
      }
      assert idMap == Known(old(View()), endpoint) && lastId == LastId(old(View()), endpoint);
      assert requestsMap == old(requestsMap)[endpoint := idMap];
      assert lastRadiusIdMap ==
             old(lastRadiusIdMap)[endpoint := if endpoint in old(lastRadiusIdMap) then lastId else 1];
      var nextId := lastId;
      for i := 0 to MAX_ID
        invariant FirstFree(idMap, lastId, MAX_ID) == FirstFree(idMap, nextId, MAX_ID - i)
      {
        nextId := if nextId == 255 then 1 else nextId + 1;
        if nextId !in idMap {
          lastRadiusIdMap := lastRadiusIdMap[endpoint := nextId];
          assert lastRadiusIdMap == old(lastRadiusIdMap)[endpoint := nextId];
          return Some(nextId);
        }
      }
      return None;
    }

    // ----- The event loop

    method HandleTransmit(r: Request, marshalOk: bool, writeOk: bool)
      modifies this`eventLoopChannel, this`requestsMap, this`lastRadiusIdMap, this`timers, this`wg, this`channels
      modifies this`outputs, this`life
      ensures View() == SocketSpec.HandleTransmit(old(View()), r, marshalOk, writeOk)
    {
      var id := GetNextRadiusId(r.endpoint, r.id);
      if id.None? {
        Answer(r.rchan, NoIdentifier);
        wg := wg - 1;
      } else if !marshalOk {
        Answer(r.rchan, NotMarshalled);
        wg := wg - 1;
      } else if !(life.open && writeOk) {
        Answer(r.rchan, NotWritten);
        Send(SetDownCommand);
        wg := wg - 1;
      } else if r.endpoint !in requestsMap {
        life := life.(phase := Crashed);
      } else {
        var sent := r.(id := id.value);
        outputs := outputs + [Wrote(sent)];
        wg := wg + 1;
        requestsMap := With(requestsMap, KeyOf(sent), RequestContext(sent.rchan, timers.next));
        timers := Timers(timers.live[timers.next := Timer(sent, false)], timers.next + 1);
        wg := wg - 1;
      }
    }

    method HandleResponse(k: Key, v: Verdict)
      modifies this`requestsMap, this`timers, this`wg, this`channels
      ensures View() == SocketSpec.HandleResponse(old(View()), k, v)
    {
      if k.endpoint !in requestsMap {
      } else if k.id !in requestsMap[k.endpoint] {
      } else {
        var requestContext := requestsMap[k.endpoint][k.id];
        Stop(requestContext.timer);
        requestsMap := requestsMap[k.endpoint := requestsMap[k.endpoint] - {k.id}];
        match v
        case BadAuthenticator => Answer(requestContext.rchan, Rejected(k, BadAuthenticator));
        case Undecodable => Answer(requestContext.rchan, Rejected(k, Undecodable));
        case Good => Answer(requestContext.rchan, SocketSpec.Answer(k));
      }
    }

    method HandleCancel(k: Key)
      modifies this`requestsMap, this`channels
      ensures View() == SocketSpec.HandleCancel(old(View()), k)
    {
      if k.endpoint in requestsMap && k.id in requestsMap[k.endpoint] {
        Answer(requestsMap[k.endpoint][k.id].rchan, Timeout);
        requestsMap := requestsMap[k.endpoint := requestsMap[k.endpoint] - {k.id}];
      }
    }

    method CloseSocket(terminated: bool)
      modifies this`life
      ensures View() == SocketSpec.CloseSocket(old(View()), terminated)
      ensures old(Answerable(View())) ==> Answerable(View())
    {
      life := life.(terminated := terminated, open := false);
    }

    method ReportDown()
      modifies this`outputs
      ensures View() == SocketSpec.ReportDown(old(View()))
    {
      outputs := outputs + [Down];
    }

    method GoDown(terminated: bool)
      requires Answerable(View())
      modifies this`requestsMap, this`timers, this`wg, this`channels, this`outputs, this`life
      ensures View() == SocketSpec.GoDown(old(View()), terminated)
    {
      CloseSocket(terminated);
      CancelAll();
      ReportDown();
    }

    method Dispatch(m: Msg, marshalOk: bool, writeOk: bool)
      requires Answerable(View())
      modifies this`eventLoopChannel, this`requestsMap, this`lastRadiusIdMap, this`timers, this`wg, this`channels
      modifies this`outputs, this`life
      ensures View() == Handle(old(View()), m, marshalOk, writeOk)
    {
      match m
      case SocketClose => life := life.(phase := Ended);
      case ReadError =>
        GoDown(life.terminated);
        assert View() == SocketSpec.GoDown(old(View()), old(life.terminated));
      case SetDownCommand =>
        GoDown(true);
        assert View() == SocketSpec.GoDown(old(View()), true);
      case Response(k, v) => HandleResponse(k, v);
      case Transmit(r) => HandleTransmit(r, marshalOk, writeOk);
      case CancelRequest(k) => HandleCancel(k);
    }

    /** One turn: takes the first message and handles it. */
    method EventLoopTurn(marshalOk: bool, writeOk: bool)
      requires Valid() && Enabled(View(), Turn(marshalOk, writeOk))
      modifies this
      ensures Valid() && events == old(events) + [Turn(marshalOk, writeOk)]
    {
      RunIsAnswerable(states, events);
      var m := eventLoopChannel[0];
      eventLoopChannel := eventLoopChannel[1..];
      Dispatch(m, marshalOk, writeOk);
      Record(Turn(marshalOk, writeOk));
    }

    // ----- Calls from outside, the read loop and the timers

    method SendRadiusRequest(endpoint: string, serverTries: int, rchan: nat, codeOk: bool)
      requires Valid() && Enabled(View(), Sends(endpoint, serverTries, rchan, codeOk))
      modifies this`eventLoopChannel, this`channels, this`wg, this`states, this`events
      ensures Valid() && events == old(events) + [Sends(endpoint, serverTries, rchan, codeOk)]
    {
      channels := Channels(channels.mail[rchan := []], channels.closes[rchan := 0], channels.asked[rchan := endpoint]);
      if !codeOk {
        Answer(rchan, NotARequest);
      } else {
        wg := wg + 1;
        Send(Transmit(Request(endpoint, 0, serverTries, rchan)));
      }
      Record(Sends(endpoint, serverTries, rchan, codeOk));
    }

    method SetDown()
      requires Valid() && Enabled(View(), SetsDown)
      modifies this`eventLoopChannel, this`states, this`events
      ensures Valid() && events == old(events) + [SetsDown]
    {
      Send(SetDownCommand);
      Record(SetsDown);
    }

    /** What Close does once the read loop is done and the wait group at zero. */
    method Close()
      requires Valid() && Enabled(View(), Closes)
      modifies this`eventLoopChannel, this`life, this`states, this`events
      ensures Valid() && events == old(events) + [Closes]
    {
      life := life.(phase := Closing);
      Send(SocketClose);
      Record(Closes);
    }

    method ReadLoopReceives(k: Key, v: Verdict)
      requires Valid() && Enabled(View(), Reads(k, v))
      modifies this`eventLoopChannel, this`states, this`events
      ensures Valid() && events == old(events) + [Reads(k, v)]
    {
      Send(Response(k, v));
      Record(Reads(k, v));
    }

    method ReadLoopEnds()
      requires Valid() && Enabled(View(), ReadEnds)
      modifies this`eventLoopChannel, this`life, this`states, this`events
      ensures Valid() && events == old(events) + [ReadEnds]
    {
      life := life.(reading := false);
      if !life.terminated {
        Send(ReadError);
      }
      Record(ReadEnds);
    }

    method TimerExpires(t: nat)
      requires Valid() && Enabled(View(), TimerFires(t))
      modifies this`timers, this`states, this`events
      ensures Valid() && events == old(events) + [TimerFires(t)]
    {
      timers := timers.(live := timers.live[t := timers.live[t].(running := true)]);
      Record(TimerFires(t));
    }

    /** The last try ran out of time: the request is to be given up. */
    method SendCancel(t: nat)
      requires Valid() && Enabled(View(), TimerSends(t)) && timers.live[t].request.tries <= 1
      modifies this`timers, this`eventLoopChannel, this`life, this`wg, this`states, this`events
      ensures Valid() && events == old(events) + [TimerSends(t)]
    {
      var v := timers.live[t].request;
      timers := timers.(live := timers.live - {t});
      life := life.(leaving := life.leaving + 1);
      Send(CancelRequest(Key(v.endpoint, v.id)));
      Record(TimerSends(t));
    }

    /** A try ran out of time with tries left: the request is to be sent again under its identifier. */
    method SendRetry(t: nat)
      requires Valid() && Enabled(View(), TimerSends(t)) && timers.live[t].request.tries > 1
      modifies this`timers, this`eventLoopChannel, this`life, this`wg, this`states, this`events
      ensures Valid() && events == old(events) + [TimerSends(t)]
    {
      var v := timers.live[t].request;
      timers := timers.(live := timers.live - {t});
      life := life.(leaving := life.leaving + 1);
      wg := wg + 1;
      Send(Transmit(v.(tries := v.tries - 1)));
      Record(TimerSends(t));
    }

    /** Cancels the request, or sends it again under the same identifier with one try less. */
    method TimerActs(t: nat)
      requires Valid() && Enabled(View(), TimerSends(t))
      modifies this`timers, this`eventLoopChannel, this`life, this`wg, this`states, this`events
      ensures Valid() && events == old(events) + [TimerSends(t)]
    {
      if timers.live[t].request.tries <= 1 {
        SendCancel(t);
      } else {
        SendRetry(t);
      }
    }

    method GoroutineDone()
      requires Valid() && Enabled(View(), Leaves)
      modifies this`life, this`wg, this`states, this`events
      ensures Valid() && events == old(events) + [Leaves]
    {
      life := life.(leaving := life.leaving - 1);
      wg := wg - 1;
      Record(Leaves);
    }
  }
}
