/**
 * The request/response ledger of a pulse: per request topic a call counter, a reply counter and a
 * queue of callers. TCP keeps order, so the n-th response on a topic answers the n-th request.
 */
module CallLedger {

  type Topic = nat
  type FailureCallback = nat

  datatype Caller = Caller(callId: nat, cb: FailureCallback)
  datatype TopicCalls = TopicCalls(callIndex: nat, replyIndex: nat, callers: seq<Caller>)
  datatype Ledger = Ledger(calls: map<Topic, TopicCalls>, pairs: map<Topic, Topic>)

  const EMPTY := Ledger(map[], map[])

  function CallsOf(l: Ledger, req: Topic): TopicCalls {
    if req in l.calls then l.calls[req] else TopicCalls(0, 0, [])
  }

  function Issue(l: Ledger, req: Topic, res: Topic, cb: FailureCallback): Ledger {
    var tc := CallsOf(l, req);
    var id := tc.callIndex + 1;
    Ledger(l.calls[req := TopicCalls(id, tc.replyIndex, tc.callers + [Caller(id, cb)])], l.pairs[res := req])
  }

  /** A response topic that some call of this connection was paired with. */
  predicate Tracked(l: Ledger, res: Topic) {
    res in l.pairs && l.pairs[res] in l.calls
  }

  /** Popping the caller queue is defined: a tracked response must find a caller waiting. */
  predicate Expected(l: Ledger, res: Topic) {
    Tracked(l, res) ==> l.calls[l.pairs[res]].callers != []
  }

  function Receive(l: Ledger, res: Topic): Ledger
    requires Expected(l, res)
  {
    if !Tracked(l, res) then l else
    var req := l.pairs[res];
    var tc := l.calls[req];
    l.(calls := l.calls[req := TopicCalls(tc.callIndex, tc.replyIndex + 1, tc.callers[1..])])
  }

  function Least(s: set<Topic>): (m: Topic)
    requires s != {}
    ensures m in s && forall x | x in s :: m <= x
  {
    LeastExists(s);
    var m :| m in s && forall x | x in s :: m <= x;
    m
  }

  lemma LeastExists(s: set<Topic>)
    requires s != {}
    ensures exists m :: m in s && forall x | x in s :: m <= x
  {
    var m :| m in s;
    while exists x :: x in s && x < m
      invariant m in s
      decreases m
    {
      var x :| x in s && x < m;
      m := x;
    }
  }

  /** A call, named by its request topic and the callback it left behind. */
  datatype Ticket = Ticket(req: Topic, cb: FailureCallback)

  function Tickets(req: Topic, callers: seq<Caller>): (ts: seq<Ticket>)
    ensures |ts| == |callers|
    ensures forall i | 0 <= i < |ts| :: ts[i] == Ticket(req, callers[i].cb)
  {
    seq(|callers|, i requires 0 <= i < |callers| => Ticket(req, callers[i].cb))
  }

  /** The calls a closed connection fails: topic by topic in the order of the map, each queue front to back. */
  function Failures(calls: map<Topic, TopicCalls>): seq<Ticket>
    decreases calls.Keys
  {
    if calls == map[] then [] else
    var req := Least(calls.Keys);
    Tickets(req, calls[req].callers) + Failures(calls - {req})
  }

  datatype Step =
    | Call(req: Topic, res: Topic, cb: FailureCallback)
    | Response(res: Topic)
    | Close

  datatype Settlement = Settlement(ticket: Ticket, failed: bool)

  /** The ledger with the history of a run: calls in the order issued, and how each was settled, in order. */
  datatype History = History(ledger: Ledger, issued: seq<Ticket>, settled: seq<Settlement>)

  /** `Undefined` stands for taking the front of an empty queue. */
  datatype Outcome = Undefined | Known(h: History)

  function Failed(ts: seq<Ticket>): (ss: seq<Settlement>)
    ensures |ss| == |ts|
    ensures forall i | 0 <= i < |ss| :: ss[i] == Settlement(ts[i], true)
  {
    seq(|ts|, i requires 0 <= i < |ts| => Settlement(ts[i], true))
  }

  function Next(h: History, s: Step): Outcome {
    match s
    case Call(req, res, cb) =>
      Known(h.(ledger := Issue(h.ledger, req, res, cb), issued := h.issued + [Ticket(req, cb)]))
    case Response(res) =>
      if !Expected(h.ledger, res) then Undefined
      else if !Tracked(h.ledger, res) then Known(h)
      else
        var req := h.ledger.pairs[res];
        var answered := Ticket(req, h.ledger.calls[req].callers[0].cb);
        Known(h.(ledger := Receive(h.ledger, res), settled := h.settled + [Settlement(answered, false)]))
    case Close =>
      Known(h.(ledger := h.ledger.(calls := map[]), settled := h.settled + Failed(Failures(h.ledger.calls))))
  }

  function Run(steps: seq<Step>): Outcome {
    if steps == [] then Known(History(EMPTY, [], [])) else
    match Run(steps[..|steps| - 1])
    case Undefined => Undefined
    case Known(h) => Next(h, steps[|steps| - 1])
  }

  function OfTopic(ts: seq<Ticket>, req: Topic): seq<Ticket> {
    if ts == [] then [] else
    OfTopic(ts[..|ts| - 1], req) + if ts[|ts| - 1].req == req then [ts[|ts| - 1]] else []
  }

  function SettledTickets(ss: seq<Settlement>): (ts: seq<Ticket>)
    ensures |ts| == |ss|
    ensures forall i | 0 <= i < |ts| :: ts[i] == ss[i].ticket
  {
    seq(|ss|, i requires 0 <= i < |ss| => ss[i].ticket)
  }

  /** The pending callers carry the numbers after the last reply, up to the last call, in order. */
  predicate Numbered(tc: TopicCalls) {
    && tc.callIndex == tc.replyIndex + |tc.callers|
    && forall i | 0 <= i < |tc.callers| :: tc.callers[i].callId == tc.replyIndex + 1 + i
  }

  /** Per request topic: the calls issued are those settled, in the same order, followed by those pending. */
  predicate Balanced(h: History, req: Topic) {
    var tc := CallsOf(h.ledger, req);
    && Numbered(tc)
    && OfTopic(h.issued, req) == OfTopic(SettledTickets(h.settled), req) + Tickets(req, tc.callers)
  }

  lemma {:induction false} OfTopicConcat(a: seq<Ticket>, b: seq<Ticket>, req: Topic)
    ensures OfTopic(a + b, req) == OfTopic(a, req) + OfTopic(b, req)
  {
    if b == [] {
      assert a + b == a;
    } else {
      assert (a + b)[..|a + b| - 1] == a + b[..|b| - 1];
      OfTopicConcat(a, b[..|b| - 1], req);
    }
  }

  lemma OfTopicOne(t: Ticket, req: Topic)
    ensures OfTopic([t], req) == if t.req == req then [t] else []
  {
    assert [t][..0] == [];
  }

  lemma {:induction false} OfTopicTickets(req: Topic, callers: seq<Caller>, other: Topic)
    ensures OfTopic(Tickets(req, callers), other) == if other == req then Tickets(req, callers) else []
  {
    if callers != [] {
      var init := callers[..|callers| - 1];
      assert Tickets(req, callers)[..|callers| - 1] == Tickets(req, init);
      OfTopicTickets(req, init, other);
      assert Tickets(req, callers) == Tickets(req, init) + [Tickets(req, callers)[|init|]];
    }
  }

  /** The failures of a close are exactly the pending calls, in call order per request topic. */
  lemma {:induction false} FailuresArePending(calls: map<Topic, TopicCalls>, req: Topic)
    ensures OfTopic(Failures(calls), req) == Tickets(req, if req in calls then calls[req].callers else [])
    decreases calls.Keys
  {
    if calls != map[] {
      var first := Least(calls.Keys);
      OfTopicTickets(first, calls[first].callers, req);
      OfTopicConcat(Tickets(first, calls[first].callers), Failures(calls - {first}), req);
      FailuresArePending(calls - {first}, req);
    }
  }

  /** ... and topics come in the order of the map. */
  lemma {:induction false} FailuresAscend(calls: map<Topic, TopicCalls>)
    ensures forall t | t in Failures(calls) :: t.req in calls
    ensures forall i, j | 0 <= i < j < |Failures(calls)| :: Failures(calls)[i].req <= Failures(calls)[j].req
    decreases calls.Keys
  {
    if calls != map[] {
      var first := Least(calls.Keys);
      FailuresAscend(calls - {first});
      var head, rest := Tickets(first, calls[first].callers), Failures(calls - {first});
      forall t | t in Failures(calls) ensures t.req in calls {
        assert t in head || t in rest;
      }
      forall i, j | 0 <= i < j < |head + rest| ensures (head + rest)[i].req <= (head + rest)[j].req {
        if j >= |head| {
          assert (head + rest)[j] in rest;
        }
      }
    }
  }

  lemma SettleAppends(ss: seq<Settlement>, ts: seq<Settlement>, req: Topic)
    ensures OfTopic(SettledTickets(ss + ts), req)
         == OfTopic(SettledTickets(ss), req) + OfTopic(SettledTickets(ts), req)
  {
    assert SettledTickets(ss + ts) == SettledTickets(ss) + SettledTickets(ts);
    OfTopicConcat(SettledTickets(ss), SettledTickets(ts), req);
  }

  /** What one call changes for a request topic. */
  lemma CallChanges(h: History, s: Step, req: Topic)
    requires s.Call?
    ensures var g, before := Next(h, s).h, CallsOf(h.ledger, req);
      && Next(h, s).Known? && g.issued == h.issued + [Ticket(s.req, s.cb)] && g.settled == h.settled
      && CallsOf(g.ledger, req) == if req != s.req then before else
           TopicCalls(before.callIndex + 1, before.replyIndex, before.callers + [Caller(before.callIndex + 1, s.cb)])
  {
  }

  lemma TicketsSnoc(req: Topic, callers: seq<Caller>, c: Caller)
    ensures Tickets(req, callers + [c]) == Tickets(req, callers) + [Ticket(req, c.cb)]
  {
  }

  lemma CallBalances(h: History, s: Step, req: Topic)
    requires Balanced(h, req) && s.Call?
    ensures Balanced(Next(h, s).h, req)
  {
    hide *;
    CallChanges(h, s, req);
    var ticket, g := Ticket(s.req, s.cb), Next(h, s).h;
    OfTopicConcat(h.issued, [ticket], req);
    OfTopicOne(ticket, req);
    if req == s.req {
      OwnCallBalances(h, g, req, s.cb);
    } else {
      OtherCallBalances(h, g, req);
    }
  }

  lemma OtherCallBalances(h: History, g: History, req: Topic)
    requires Balanced(h, req) && OfTopic(g.issued, req) == OfTopic(h.issued, req) + []
    requires g.settled == h.settled && CallsOf(g.ledger, req) == CallsOf(h.ledger, req)
    ensures Balanced(g, req)
  {
    hide OfTopic, SettledTickets, Tickets, CallsOf;
    assert OfTopic(h.issued, req) + [] == OfTopic(h.issued, req);
  }

  lemma OwnCallBalances(h: History, g: History, req: Topic, cb: FailureCallback)
    requires Balanced(h, req) && OfTopic(g.issued, req) == OfTopic(h.issued, req) + [Ticket(req, cb)]
    requires g.settled == h.settled
    requires var before := CallsOf(h.ledger, req);
      CallsOf(g.ledger, req)
        == TopicCalls(before.callIndex + 1, before.replyIndex, before.callers + [Caller(before.callIndex + 1, cb)])
    ensures Balanced(g, req)
  {
    hide OfTopic, SettledTickets, Tickets, CallsOf;
    var before := CallsOf(h.ledger, req);
    TicketsSnoc(req, before.callers, Caller(before.callIndex + 1, cb));
    assert OfTopic(h.issued, req) + [Ticket(req, cb)]
        == OfTopic(SettledTickets(h.settled), req) + (Tickets(req, before.callers) + [Ticket(req, cb)]);
  }

  lemma ResponseBalances(h: History, res: Topic, req: Topic)
    requires Balanced(h, req) && Expected(h.ledger, res) && Tracked(h.ledger, res)
    ensures Balanced(Next(h, Response(res)).h, req)
  {
    hide OfTopic, SettledTickets, Tickets;
    var h' := Next(h, Response(res)).h;
    var answered := h'.settled[|h.settled|];
    SettleAppends(h.settled, [answered], req);
    assert SettledTickets([answered]) == [answered.ticket];
    OfTopicOne(answered.ticket, req);
    var before, after := CallsOf(h.ledger, req).callers, CallsOf(h'.ledger, req).callers;
    assert req == answered.ticket.req ==> Tickets(req, before) == [answered.ticket] + Tickets(req, after);
  }

  lemma CloseBalances(h: History, req: Topic)
    requires Balanced(h, req)
    ensures Balanced(Next(h, Close).h, req)
  {
    hide OfTopic;
    var failed := Failures(h.ledger.calls);
    assert SettledTickets(Failed(failed)) == failed;
    SettleAppends(h.settled, Failed(failed), req);
    FailuresArePending(h.ledger.calls, req);
  }

  /** In every reachable state, every call issued has been settled exactly once, in call order, or is pending. */
  lemma {:induction false} EveryCallSettlesOnce(steps: seq<Step>, req: Topic)
    requires Run(steps).Known?
    ensures Balanced(Run(steps).h, req)
  {
    if steps != [] {
      var before, s := steps[..|steps| - 1], steps[|steps| - 1];
      EveryCallSettlesOnce(before, req);
      var h := Run(before).h;
      match s
      case Call(_, _, _) => CallBalances(h, s, req);
      case Response(res) => if Tracked(h.ledger, res) { ResponseBalances(h, res, req); }
      case Close => CloseBalances(h, req);
    }
  }

  lemma RunSnoc(steps: seq<Step>, s: Step)
    requires Run(steps).Known?
    ensures Run(steps + [s]) == Next(Run(steps).h, s)
  {
    assert (steps + [s])[..|steps|] == steps;
  }

  /** A tracked response is handled, and credited to the caller numbered next, exactly when a call is outstanding. */
  lemma ResponseDefinedIff(steps: seq<Step>, res: Topic)
    requires Run(steps).Known? && Tracked(Run(steps).h.ledger, res)
    ensures var h := Run(steps).h;
            var req := h.ledger.pairs[res];
      && (Run(steps + [Response(res)]).Known? <==>
            |OfTopic(SettledTickets(h.settled), req)| < |OfTopic(h.issued, req)|)
      && (Run(steps + [Response(res)]).Known? ==>
            h.ledger.calls[req].callers[0].callId == h.ledger.calls[req].replyIndex + 1)
  {
    var h := Run(steps).h;
    var req := h.ledger.pairs[res];
    EveryCallSettlesOnce(steps, req);
    RunSnoc(steps, Response(res));
  }

  /** After a close nothing is pending, so closing again fails no call. */
  lemma SecondCloseFailsNothing(steps: seq<Step>)
    requires Run(steps).Known?
    ensures var once := steps + [Close];
      Run(once).Known? && Run(once + [Close]).Known? && Run(once + [Close]).h.settled == Run(once).h.settled
  {
    RunSnoc(steps, Close);
    RunSnoc(steps + [Close], Close);
    assert Failed(Failures(map[])) == [];
  }

  /** The request topic of the most recent call that named `res` as its response. */
  function LastRequestFor(steps: seq<Step>, res: Topic): (t: set<Topic>)
    ensures |t| <= 1
  {
    if steps == [] then {} else
    var s := steps[|steps| - 1];
    if s.Call? && s.res == res then {s.req} else LastRequestFor(steps[..|steps| - 1], res)
  }

  /** A response is credited to the request topic that last named it, so sharing one response topic miscredits. */
  lemma {:induction false} ResponseCreditsLastRequest(steps: seq<Step>, res: Topic)
    requires Run(steps).Known?
    ensures var pairs := Run(steps).h.ledger.pairs;
      LastRequestFor(steps, res) == if res in pairs then {pairs[res]} else {}
  {
    if steps != [] {
      ResponseCreditsLastRequest(steps[..|steps| - 1], res);
    }
  }
}
