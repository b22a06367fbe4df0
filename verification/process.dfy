/**
 * A whole process: pulses are set up, call, change session and stop, frames are published, and the runner
 * gets to what was posted, in any order and with anything in between.
 */
module PulseProcess {
  import opened CallLedger
  import opened Options
  import opened PulseForest
  import opened Broadcast
  import opened Lifecycle

  /** `ran` is what the runner has run, and `steps` what became of each pulse's ledger, both for the statements only. */
  datatype Process<P(==)> = Process(forest: Forest<P>, queue: seq<Task<P>>, ran: seq<Task<P>>, steps: map<P, seq<Step>>)

  datatype Event<P> =
    | Do(op: Op<P>)
    | Publish(at: P, session: SessionKey, topic: Topic, frame: Frame, anySession: seq<P>, thisSession: seq<P>)
    | Execute(i: nat)

  function Start<P(==)>(): Process<P> {
    Process(map[], [], [], map[])
  }

  function StepsOf<P(==)>(steps: map<P, seq<Step>>, p: P): seq<Step> {
    if p in steps then steps[p] else []
  }

  function Logged<P(==)>(steps: map<P, seq<Step>>, p: P, step: Step): map<P, seq<Step>> {
    steps[p := StepsOf(steps, p) + [step]]
  }

  /** What a publish at `p` posts; only roots serve interest groups. */
  function PublishPosts<P(==)>(f: Forest<P>, p: P, se: SessionKey, t: Topic, fr: Frame, g0: seq<P>,
                               g1: seq<P>): seq<Task<P>>
    requires p in f && (forall c | c in g0 :: c in f) && forall c | c in g1 :: c in f
  {
    OwnPosts(f, p, se, t, fr, false)
      + if f[p].parent == None then GroupPosts(f, g0, NO_SESSION, t, fr) + GroupPosts(f, g1, se, t, fr) else []
  }

  /** A posted callback runs with the arguments it was posted with. */
  function Answered<P(==)>(s: Process<P>, x: Task<P>): Process<P>
    requires x.Deliver? && x.owner in s.forest
    requires x.cb.ReplyTo? ==> Expected(s.forest[x.owner].ledger, x.cb.res)
  {
    var p, n := x.owner, s.forest[x.owner];
    s.(forest := s.forest[p := n.(ledger := RanLedger(n.ledger, n.session, x.cb, x.session))],
       queue := s.queue + RanPosts(n, p, x.cb, x.session),
       steps := match x.cb
         case User(_) => s.steps
         case ReplyTo(res) => Logged(s.steps, p, Response(res))
         case ClosedNotice => if x.session == n.session then Logged(s.steps, p, Step.Close) else s.steps)
  }

  /** Replies and closes happen as the runner gets to them; a reply must find a caller to be defined. */
  ghost predicate CanHappen<P>(s: Process<P>, e: Event<P>) {
    match e
    case Do(op) => Enabled(s.forest, op) && !op.Reply? && !op.Close?
    case Publish(p, se, t, fr, g0, g1) =>
      && p in s.forest && (forall c | c in g0 :: c in s.forest) && (forall c | c in g1 :: c in s.forest)
      && (s.forest[p].parent == None ==>
            Dispatched(s.forest, p, se, t, fr, g0, g1, PublishPosts(s.forest, p, se, t, fr, g0, g1)))
    case Execute(i) =>
      && i < |s.queue| && s.queue[i].owner in s.forest
      && (s.queue[i].Deliver? && s.queue[i].cb.ReplyTo? ==>
            Expected(s.forest[s.queue[i].owner].ledger, s.queue[i].cb.res))
  }

  ghost function After<P>(s: Process<P>, e: Event<P>): Process<P>
    requires Inv(s.forest) && CanHappen(s, e)
  {
    match e
    case Do(op) =>
      s.(forest := Apply(s.forest, op),
         steps := if op.Call? then Logged(s.steps, op.p, Step.Call(op.req, op.res, op.failure)) else s.steps)
    case Publish(p, se, t, fr, g0, g1) =>
      s.(queue := s.queue + PublishPosts(s.forest, p, se, t, fr, g0, g1))
    case Execute(i) =>
      var x := s.queue[i];
      var rest := s.(queue := s.queue[..i] + s.queue[i + 1..], ran := s.ran + [x]);
      if x.CallFailed? then rest else Answered(rest, x)
  }

  // ---- the books ----------------------------------------------------------------------------------

  /** The failures of `p` among `ts`. */
  function Fails<P(==)>(ts: seq<Task<P>>, p: P): multiset<FailureCallback> {
    if ts == [] then multiset{} else
    var last := ts[|ts| - 1];
    Fails(ts[..|ts| - 1], p) + if last.CallFailed? && last.owner == p then multiset{last.failure} else multiset{}
  }

  function FailedCalls(ss: seq<Settlement>): multiset<FailureCallback> {
    if ss == [] then multiset{} else
    var last := ss[|ss| - 1];
    FailedCalls(ss[..|ss| - 1]) + if last.failed then multiset{last.ticket.cb} else multiset{}
  }

  /** The ledger of `p` has the history that the log says. */
  ghost predicate HistoryOk<P>(s: Process<P>, p: P)
    requires p in s.forest
  {
    var r := Run(StepsOf(s.steps, p));
    r.Known? && r.h.ledger == s.forest[p].ledger
  }

  ghost function HistoryOf<P>(s: Process<P>, p: P): History
    requires p in s.forest && HistoryOk(s, p)
  {
    Run(StepsOf(s.steps, p)).h
  }

  /** Each failed call is failed to its caller once: posted and not run yet, or run. */
  ghost predicate FailuresOk<P>(s: Process<P>, p: P)
    requires p in s.forest && HistoryOk(s, p)
  {
    Fails(s.queue, p) + Fails(s.ran, p) == FailedCalls(HistoryOf(s, p).settled)
  }

  ghost predicate BooksOk<P>(s: Process<P>, p: P)
    requires p in s.forest
  {
    HistoryOk(s, p) && FailuresOk(s, p)
  }

  ghost predicate Good<P>(s: Process<P>) {
    && Inv(s.forest) && s.steps.Keys <= s.forest.Keys
    && (forall x | x in s.queue + s.ran :: x.owner in s.forest)
    && forall p {:trigger BooksOk(s, p)} | p in s.forest :: BooksOk(s, p)
  }

  lemma {:induction false} FailsConcat<P>(a: seq<Task<P>>, b: seq<Task<P>>, p: P)
    ensures Fails(a + b, p) == Fails(a, p) + Fails(b, p)
  {
    if b == [] {
      assert a + b == a;
    } else {
      assert (a + b)[..|a + b| - 1] == a + b[..|b| - 1];
      FailsConcat(a, b[..|b| - 1], p);
    }
  }

  lemma FailsOne<P>(x: Task<P>, p: P)
    ensures Fails([x], p) == if x.CallFailed? && x.owner == p then multiset{x.failure} else multiset{}
  {
    assert [x][..0] == [];
  }

  /** Running a task moves it from the queue to what was run. */
  lemma FailsMove<P>(queue: seq<Task<P>>, ran: seq<Task<P>>, i: nat, p: P)
    requires i < |queue|
    ensures Fails(queue[..i] + queue[i + 1..], p) + Fails(ran + [queue[i]], p) == Fails(queue, p) + Fails(ran, p)
  {
    var a, x, b := queue[..i], queue[i], queue[i + 1..];
    assert queue == a + [x] + b;
    hide Fails;
    FailsConcat(a + [x], b, p);
    FailsConcat(a, [x], p);
    FailsConcat(a, b, p);
    FailsConcat(ran, [x], p);
  }

  lemma {:induction false} DeliveriesFailNone<P>(ts: seq<Task<P>>, p: P)
    requires forall x | x in ts :: x.Deliver?
    ensures Fails(ts, p) == multiset{}
  {
    if ts != [] {
      assert ts[|ts| - 1] in ts;
      DeliveriesFailNone(ts[..|ts| - 1], p);
    }
  }

  lemma {:induction false} FailedConcat(a: seq<Settlement>, b: seq<Settlement>)
    ensures FailedCalls(a + b) == FailedCalls(a) + FailedCalls(b)
  {
    if b == [] {
      assert a + b == a;
    } else {
      assert (a + b)[..|a + b| - 1] == a + b[..|b| - 1];
      FailedConcat(a, b[..|b| - 1]);
    }
  }

  lemma FailedOne(t: Ticket)
    ensures FailedCalls([Settlement(t, true)]) == multiset{t.cb}
  {
    assert [Settlement(t, true)][..0] == [];
  }

  lemma {:induction false} FailsOfTasks<P>(p: P, strand: nat, ts: seq<Ticket>, q: P)
    ensures Fails(FailureTasks(p, strand, ts), q) == if q == p then FailedCalls(Failed(ts)) else multiset{}
  {
    if ts == [] {
      assert FailureTasks(p, strand, ts) == [] && Failed(ts) == [];
    } else {
      var init, last := ts[..|ts| - 1], ts[|ts| - 1];
      FailsOfTasks(p, strand, init, q);
      assert FailureTasks(p, strand, ts) == FailureTasks(p, strand, init) + [CallFailed(p, strand, last.cb)];
      assert Failed(ts) == Failed(init) + [Settlement(last, true)];
      hide Fails, FailedCalls;
      FailsConcat(FailureTasks(p, strand, init), [CallFailed(p, strand, last.cb)], q);
      FailsOne(CallFailed(p, strand, last.cb), q);
      FailedConcat(Failed(init), [Settlement(last, true)]);
      FailedOne(last);
    }
  }

  lemma AnsweredFailsNone(ss: seq<Settlement>, t: Ticket)
    ensures FailedCalls(ss + [Settlement(t, false)]) == FailedCalls(ss)
  {
    assert (ss + [Settlement(t, false)])[..|ss|] == ss;
  }

  lemma {:induction false} GroupPostsDeliver<P>(f: Forest<P>, group: seq<P>, se: SessionKey, t: Topic, fr: Frame)
    requires forall c | c in group :: c in f
    ensures forall x | x in GroupPosts(f, group, se, t, fr) :: x.Deliver? && x.owner in f
  {
    if group != [] {
      var last := group[|group| - 1];
      GroupPostsDeliver(f, group[..|group| - 1], se, t, fr);
      PostsDeliver(last, f[last].strand, SubsOn(f[last].subs, t), se, fr, true);
    }
  }

  lemma PublishDelivers<P>(f: Forest<P>, p: P, se: SessionKey, t: Topic, fr: Frame, g0: seq<P>, g1: seq<P>)
    requires p in f && (forall c | c in g0 :: c in f) && forall c | c in g1 :: c in f
    ensures forall x | x in PublishPosts(f, p, se, t, fr, g0, g1) :: x.Deliver? && x.owner in f
  {
    hide GroupPosts, Posts;
    PostsDeliver(p, f[p].strand, SubsOn(f[p].subs, t), se, fr, false);
    GroupPostsDeliver(f, g0, NO_SESSION, t, fr);
    GroupPostsDeliver(f, g1, se, t, fr);
  }

  // ---- every event keeps the books --------------------------------------------------------------

  /** What an operation changes of a pulse's session and ledger. */
  lemma OpChanges<P>(f: Forest<P>, op: Op<P>, p: P)
    requires Inv(f) && Enabled(f, op) && !op.Reply? && !op.Close? && p in f
    ensures var g := Apply(f, op);
      && p in g
      && g[p].session == (if op.WithSession? && op.p == p then op.session else f[p].session)
      && g[p].ledger == if op.Call? && op.p == p then Issue(f[p].ledger, op.req, op.res, op.failure) else f[p].ledger
  {
    assert op.p in f ==> NodeOk(f, op.p);
    hide Inv, Issue;
    match op
    case Attach(c, q) =>
      hide NodeOk;
    case Sub(q, t, id) =>
      RootApart(f, q);
      SubscribeAt(f, q, t, User(id), p);
      hide NodeOk, Subscribe;
    case StopPulse(q) =>
      ParentOf(f, q);
      StopAt(f, q, p);
      hide Stop, NodeOk;
    case Call(q, req, res, failure) =>
      CallSubscribeChanges(f, q, TOPIC_CLOSED, ClosedNotice);
      CallSubscribeChanges(CallSubscribe(f, q, TOPIC_CLOSED, ClosedNotice), q, res, ReplyTo(res));
      hide CallSubscribe, NodeOk;
    case _ =>
      hide NodeOk;
  }

  lemma Cancel<T>(a: multiset<T>, b: multiset<T>, c: multiset<T>)
    requires a + c == c + b
    ensures a == b
  {
    assert (a + c) - c == a && (c + b) - c == b;
  }

  /** Another step of a ledger. */
  lemma StepKeepsBooks<P>(s: Process<P>, s': Process<P>, p: P, step: Step)
    requires p in s.forest && BooksOk(s, p) && p in s'.forest
    requires StepsOf(s'.steps, p) == StepsOf(s.steps, p) + [step]
    requires Next(HistoryOf(s, p), step).Known? && Next(HistoryOf(s, p), step).h.ledger == s'.forest[p].ledger
    requires Fails(s'.queue, p) + Fails(s'.ran, p) + FailedCalls(HistoryOf(s, p).settled)
          == Fails(s.queue, p) + Fails(s.ran, p) + FailedCalls(Next(HistoryOf(s, p), step).h.settled)
    ensures BooksOk(s', p)
  {
    hide Run, Next, Fails, FailedCalls, StepsOf;
    RunSnoc(StepsOf(s.steps, p), step);
    Cancel(Fails(s'.queue, p) + Fails(s'.ran, p), FailedCalls(Next(HistoryOf(s, p), step).h.settled),
           FailedCalls(HistoryOf(s, p).settled));
  }

  lemma SameKeepsBooks<P>(s: Process<P>, s': Process<P>, p: P)
    requires p in s.forest && BooksOk(s, p) && p in s'.forest
    requires StepsOf(s'.steps, p) == StepsOf(s.steps, p) && s'.forest[p].ledger == s.forest[p].ledger
    requires Fails(s'.queue, p) + Fails(s'.ran, p) == Fails(s.queue, p) + Fails(s.ran, p)
    ensures BooksOk(s', p)
  {
    hide Run, Fails, FailedCalls;
  }

  lemma DoKeepsGood<P>(s: Process<P>, op: Op<P>)
    requires Good(s) && CanHappen(s, Do(op))
    ensures Good(After(s, Do(op)))
  {
    var s' := After(s, Do(op));
    ApplyKeepsInv(s.forest, op);
    OnlyNewAdds(s.forest, op);
    forall p {:trigger BooksOk(s', p)} | p in s'.forest ensures BooksOk(s', p) {
      DoKeepsBooks(s, op, p);
    }
    hide BooksOk, Inv, Apply;
  }

  lemma DoKeepsBooks<P>(s: Process<P>, op: Op<P>, p: P)
    requires Good(s) && CanHappen(s, Do(op)) && p in After(s, Do(op)).forest
    ensures BooksOk(After(s, Do(op)), p)
  {
    var s' := After(s, Do(op));
    if p in s.forest {
      OpChanges(s.forest, op, p);
    } else {
      OnlyNewAdds(s.forest, op);
      assert s'.forest[p].ledger == EMPTY;
    }
    hide Apply, Inv, Issue, Fails, FailedCalls, StepsOf;
    if p !in s.forest {
      NothingLogged(s.steps, p);
      OwnersAbsent(s.queue + s.ran, p);
      FailsConcat(s.queue, s.ran, p);
    } else {
      assert BooksOk(s, p);
      if op.Call? && op.p == p {
        LoggedAt(s.steps, p, Step.Call(op.req, op.res, op.failure), p);
        StepKeepsBooks(s, s', p, Step.Call(op.req, op.res, op.failure));
      } else {
        if op.Call? {
          LoggedAt(s.steps, op.p, Step.Call(op.req, op.res, op.failure), p);
        }
        SameKeepsBooks(s, s', p);
      }
    }
  }

  lemma LoggedAt<P>(steps: map<P, seq<Step>>, q: P, step: Step, p: P)
    ensures StepsOf(Logged(steps, q, step), p) == StepsOf(steps, p) + if p == q then [step] else []
  {
  }

  lemma NothingLogged<P>(steps: map<P, seq<Step>>, p: P)
    requires p !in steps
    ensures StepsOf(steps, p) == [] && Run(StepsOf(steps, p)) == Known(History(EMPTY, [], []))
    ensures FailedCalls([]) == multiset{}
  {
  }

  lemma {:induction false} OwnersAbsent<P>(ts: seq<Task<P>>, p: P)
    requires forall x | x in ts :: x.owner != p
    ensures Fails(ts, p) == multiset{}
  {
    if ts != [] {
      OwnersAbsent(ts[..|ts| - 1], p);
    }
  }

  lemma PublishKeepsGood<P>(s: Process<P>, e: Event<P>)
    requires Good(s) && CanHappen(s, e) && e.Publish?
    ensures Good(After(s, e))
  {
    var s' := After(s, e);
    var posts := PublishPosts(s.forest, e.at, e.session, e.topic, e.frame, e.anySession, e.thisSession);
    PublishDelivers(s.forest, e.at, e.session, e.topic, e.frame, e.anySession, e.thisSession);
    hide PublishPosts, Dispatched, Inv;
    forall p {:trigger BooksOk(s', p)} | p in s'.forest ensures BooksOk(s', p) {
      assert BooksOk(s, p);
      FailsConcat(s.queue, posts, p);
      DeliveriesFailNone(posts, p);
      SameKeepsBooks(s, s', p);
    }
  }

  lemma ExecuteKeepsGood<P>(s: Process<P>, i: nat)
    requires Good(s) && CanHappen(s, Execute(i))
    ensures Good(After(s, Execute(i)))
  {
    var s', x := After(s, Execute(i)), s.queue[i];
    ExecuteKeepsForest(s, i);
    forall p {:trigger BooksOk(s', p)} | p in s'.forest ensures BooksOk(s', p) {
      ExecuteKeepsBooks(s, i, p);
    }
    hide BooksOk, Inv;
  }

  lemma ExecuteKeepsForest<P>(s: Process<P>, i: nat)
    requires Good(s) && CanHappen(s, Execute(i))
    ensures var s' := After(s, Execute(i));
      && Inv(s'.forest) && s'.forest.Keys == s.forest.Keys && s'.steps.Keys <= s'.forest.Keys
      && forall y | y in s'.queue + s'.ran :: y.owner in s'.forest
  {
    var s', x := After(s, Execute(i)), s.queue[i];
    if x.Deliver? {
      assert NodeOk(s.forest, x.owner);
      OtherFieldsKeepInv(s.forest, x.owner, s'.forest[x.owner]);
    }
    hide BooksOk, Inv;
  }

  lemma ExecuteKeepsBooks<P>(s: Process<P>, i: nat, p: P)
    requires Good(s) && CanHappen(s, Execute(i)) && p in s.forest
    ensures p in After(s, Execute(i)).forest && BooksOk(After(s, Execute(i)), p)
  {
    var s', x := After(s, Execute(i)), s.queue[i];
    assert BooksOk(s, p);
    hide Inv;
    FailsMove(s.queue, s.ran, i, p);
    if x.Deliver? {
      RunKeepsBooks(s, s.(queue := s.queue[..i] + s.queue[i + 1..], ran := s.ran + [x]), x, p);
    } else {
      SameKeepsBooks(s, s', p);
    }
  }

  /** Running a callback, once it is taken from the queue. */
  lemma RunKeepsBooks<P>(s: Process<P>, rest: Process<P>, x: Task<P>, p: P)
    requires p in s.forest && BooksOk(s, p) && x.Deliver? && x.owner in s.forest
    requires rest == s.(queue := rest.queue, ran := rest.ran)
    requires Fails(rest.queue, p) + Fails(rest.ran, p) == Fails(s.queue, p) + Fails(s.ran, p)
    requires x.cb.ReplyTo? ==> Expected(s.forest[x.owner].ledger, x.cb.res)
    ensures BooksOk(Answered(rest, x), p)
  {
    var s', n := Answered(rest, x), s.forest[x.owner];
    FailsConcat(rest.queue, RanPosts(n, x.owner, x.cb, x.session), p);
    if x.cb == ClosedNotice && x.session == n.session {
      CloseKeepsBooks(s, rest, x, p);
    } else {
      assert Fails<P>([], p) == multiset{};
      if x.owner == p && x.cb.ReplyTo? {
        ReplyKeepsBooks(s, s', p, x.cb.res);
      } else {
        SameKeepsBooks(s, s', p);
      }
    }
  }

  lemma ReplyKeepsBooks<P>(s: Process<P>, s': Process<P>, p: P, res: Topic)
    requires p in s.forest && BooksOk(s, p) && Expected(s.forest[p].ledger, res)
    requires p in s'.forest && s'.forest[p].ledger == Receive(s.forest[p].ledger, res)
    requires StepsOf(s'.steps, p) == StepsOf(s.steps, p) + [Response(res)]
    requires Fails(s'.queue, p) + Fails(s'.ran, p) == Fails(s.queue, p) + Fails(s.ran, p)
    ensures BooksOk(s', p)
  {
    hide Run, Fails, FailedCalls;
    var h := HistoryOf(s, p);
    if Tracked(h.ledger, res) {
      AnsweredFailsNone(h.settled, Ticket(h.ledger.pairs[res], h.ledger.calls[h.ledger.pairs[res]].callers[0].cb));
    }
    StepKeepsBooks(s, s', p, Response(res));
  }

  lemma CloseKeepsBooks<P>(s: Process<P>, rest: Process<P>, x: Task<P>, p: P)
    requires p in s.forest && BooksOk(s, p) && x.Deliver? && x.owner in s.forest
    requires rest == s.(queue := rest.queue, ran := rest.ran)
    requires x.cb == ClosedNotice && x.session == s.forest[x.owner].session
    requires Fails(rest.queue, p) + Fails(rest.ran, p) == Fails(s.queue, p) + Fails(s.ran, p)
    requires Fails(Answered(rest, x).queue, p)
          == Fails(rest.queue, p) + Fails(RanPosts(s.forest[x.owner], x.owner, x.cb, x.session), p)
    ensures BooksOk(Answered(rest, x), p)
  {
    var s', n := Answered(rest, x), s.forest[x.owner];
    FailsOfTasks(x.owner, n.strand, Failures(n.ledger.calls), p);
    LoggedAt(s.steps, x.owner, Step.Close, p);
    hide Run, Fails, FailedCalls, Failures, Logged, StepsOf;
    if x.owner == p {
      OwnCloseKeepsBooks(s, s', p);
    } else {
      SameKeepsBooks(s, s', p);
    }
  }

  lemma OwnCloseKeepsBooks<P>(s: Process<P>, s': Process<P>, p: P)
    requires p in s.forest && BooksOk(s, p) && p in s'.forest
    requires s'.forest[p].ledger == s.forest[p].ledger.(calls := map[])
    requires StepsOf(s'.steps, p) == StepsOf(s.steps, p) + [Step.Close]
    requires Fails(s'.queue, p) + Fails(s'.ran, p)
          == Fails(s.queue, p) + Fails(s.ran, p) + FailedCalls(Failed(Failures(s.forest[p].ledger.calls)))
    ensures BooksOk(s', p)
  {
    hide Run, Fails, FailedCalls, Failures, StepsOf;
    FailedConcat(HistoryOf(s, p).settled, Failed(Failures(s.forest[p].ledger.calls)));
    StepKeepsBooks(s, s', p, Step.Close);
  }

  lemma EventKeepsGood<P>(s: Process<P>, e: Event<P>)
    requires Good(s) && CanHappen(s, e)
    ensures Good(After(s, e))
  {
    match e
    case Do(op) => DoKeepsGood(s, op);
    case Publish(_, _, _, _, _, _) => PublishKeepsGood(s, e);
    case Execute(i) => ExecuteKeepsGood(s, i);
  }

  // ---- runs ---------------------------------------------------------------------------------------

  /** `t` is reached from `s` by the events, each possible when it happens. */
  ghost predicate Leads<P>(s: Process<P>, events: seq<Event<P>>, t: Process<P>)
    decreases |events|
  {
    if events == [] then t == s else
    && Inv(s.forest) && CanHappen(s, events[0])
    && Leads(After(s, events[0]), events[1..], t)
  }

  lemma {:induction false} RunKeepsGood<P>(s: Process<P>, events: seq<Event<P>>, t: Process<P>)
    requires Good(s) && Leads(s, events, t)
    ensures Good(t)
    decreases |events|
  {
    if events != [] {
      EventKeepsGood(s, events[0]);
      hide Inv, After, CanHappen, BooksOk;
      RunKeepsGood(After(s, events[0]), events[1..], t);
    }
  }

  lemma StartIsGood<P>()
    ensures Good(Start<P>())
  {
  }

  /**
   * On every run of a process, whatever is published, and in whatever order and however late the runner
   * gets to it: each pulse's calls on a topic are those settled, once each and in call order, followed by
   * those pending; and each failed call has its failure posted once, to be run or run already.
   */
  lemma EveryRunSettlesOnce<P>(events: seq<Event<P>>, t: Process<P>, p: P, req: Topic)
    requires Leads(Start(), events, t) && p in t.forest
    ensures HistoryOk(t, p) && HistoryOf(t, p).ledger == t.forest[p].ledger
    ensures Balanced(HistoryOf(t, p), req)
    ensures Fails(t.queue, p) + Fails(t.ran, p) == FailedCalls(HistoryOf(t, p).settled)
  {
    StartIsGood<P>();
    RunKeepsGood(Start(), events, t);
    assert BooksOk(t, p);
    EveryCallSettlesOnce(StepsOf(t.steps, p), req);
  }

  // ---- closes -------------------------------------------------------------------------------------

  /** A posted close handler that, run while `p` is bound to `k`, fails its pending calls. */
  predicate Notice<P(==)>(x: Task<P>, p: P, k: SessionKey) {
    x.Deliver? && x.owner == p && x.cb == ClosedNotice && x.session == k
  }

  predicate NoticeWaits<P(==)>(ts: seq<Task<P>>, p: P, k: SessionKey) {
    exists i :: 0 <= i < |ts| && Notice(ts[i], p, k)
  }

  lemma {:induction false} NoticeIffRuns<P>(ts: seq<Task<P>>, p: P, k: SessionKey)
    requires forall x | x in ts :: x.owner == p
    ensures NoticeWaits(ts, p, k) <==> RunsFor(ts, ClosedNotice, k) > 0
  {
    if ts != [] {
      var init := ts[..|ts| - 1];
      NoticeIffRuns(init, p, k);
      if NoticeWaits(init, p, k) {
        var i :| 0 <= i < |init| && Notice(init[i], p, k);
        assert Notice(ts[i], p, k);
      }
      if NoticeWaits(ts, p, k) && !Notice(ts[|ts| - 1], p, k) {
        var i :| 0 <= i < |ts| && Notice(ts[i], p, k);
        assert Notice(init[i], p, k);
      }
    }
  }

  lemma {:induction false} NoticeOfOwner<P>(ts: seq<Task<P>>, p: P, k: SessionKey)
    ensures NoticeWaits(OfOwner(ts, p), p, k) <==> NoticeWaits(ts, p, k)
  {
    if ts != [] {
      var init, last := ts[..|ts| - 1], ts[|ts| - 1];
      NoticeOfOwner(init, p, k);
      assert ts == init + [last];
      hide OfOwner;
      OfOwnerSnoc(init, last, p);
      NoticeSnoc(init, [last], p, k);
      NoticeSnoc(OfOwner(init, p), if last.owner == p then [last] else [], p, k);
      assert [last][0] == last;
    }
  }

  lemma OfOwnerSnoc<P>(init: seq<Task<P>>, last: Task<P>, p: P)
    ensures OfOwner(init + [last], p) == OfOwner(init, p) + if last.owner == p then [last] else []
  {
    assert (init + [last])[..|init|] == init;
  }

  lemma NoticeSnoc<P>(a: seq<Task<P>>, b: seq<Task<P>>, p: P, k: SessionKey)
    ensures NoticeWaits(a + b, p, k) <==> NoticeWaits(a, p, k) || NoticeWaits(b, p, k)
  {
    if NoticeWaits(a, p, k) {
      var i :| 0 <= i < |a| && Notice(a[i], p, k);
      assert Notice((a + b)[i], p, k);
    }
    if NoticeWaits(b, p, k) {
      var i :| 0 <= i < |b| && Notice(b[i], p, k);
      assert Notice((a + b)[|a| + i], p, k);
    }
    if NoticeWaits(a + b, p, k) {
      var i :| 0 <= i < |a + b| && Notice((a + b)[i], p, k);
      assert i < |a| ==> Notice(a[i], p, k);
      assert i >= |a| ==> Notice(b[i - |a|], p, k);
    }
  }

  lemma {:induction false} OfOwnerOwned<P>(ts: seq<Task<P>>, p: P)
    ensures forall x | x in OfOwner(ts, p) :: x.owner == p
  {
    if ts != [] {
      OfOwnerOwned(ts[..|ts| - 1], p);
    }
  }

  /**
   * The close of a session posts a notice that counts for a descendant exactly when one stands for the session
   * it is bound to.
   */
  lemma NoticePostedIff<P>(s: Process<P>, e: Event<P>, p: P)
    requires Inv(s.forest) && CanHappen(s, e) && e.Publish? && e.topic == TOPIC_CLOSED
    requires p in s.forest && s.forest[p].parent != None && e.at == s.forest[p].root
    ensures var f, k := s.forest, s.forest[p].session;
      NoticeWaits(PublishPosts(f, e.at, e.session, e.topic, e.frame, e.anySession, e.thisSession), p, k)
      <==> (k == NO_SESSION || k == e.session) && HeardAt(f[p], TOPIC_CLOSED, ClosedNotice, k) > 0
  {
    var f, k := s.forest, s.forest[p].session;
    assert NodeOk(f, p);
    PulseRunsFor(f, p, e.session, TOPIC_CLOSED, e.frame, ClosedNotice, k);
    hide Inv, NodeOk, PublishPosts, Dispatched, PulsePosts, RunsFor, HeardAt, OfOwner, NoticeWaits;
    var posts := PublishPosts(f, e.at, e.session, e.topic, e.frame, e.anySession, e.thisSession);
    DispatchReachesEachPulse(f, e.at, e.session, TOPIC_CLOSED, e.frame, e.anySession, e.thisSession, posts, p);
    NoticeOfOwner(posts, p, k);
    OfOwnerOwned(posts, p);
    NoticeIffRuns(OfOwner(posts, p), p, k);
  }

  /** Histories only grow, and a close leaves nothing pending. */
  lemma NextGrows(h: History, step: Step, req: Topic)
    requires Next(h, step).Known?
    ensures var h' := Next(h, step).h;
      && OfTopic(h.issued, req) <= OfTopic(h'.issued, req)
      && OfTopic(SettledTickets(h.settled), req) <= OfTopic(SettledTickets(h'.settled), req)
  {
    match step
    case Call(r, _, cb) => OfTopicConcat(h.issued, [Ticket(r, cb)], req);
    case Response(res) =>
      if Tracked(h.ledger, res) {
        var more := Next(h, step).h.settled[|h.settled|..];
        SettleAppends(h.settled, more, req);
      }
    case Close => SettleAppends(h.settled, Failed(Failures(h.ledger.calls)), req);
  }

  lemma CloseSettlesAll(h: History, req: Topic)
    requires Balanced(h, req)
    ensures var h' := Next(h, Step.Close).h;
      OfTopic(SettledTickets(h'.settled), req) == OfTopic(h'.issued, req) == OfTopic(h.issued, req)
  {
    CloseBalances(h, req);
    assert Tickets(req, []) == [];
  }

  /** Either `due` is settled, or it was issued and a notice that will settle it is on its way. */
  ghost predicate Owed<P>(s: Process<P>, p: P, req: Topic, due: seq<Ticket>)
    requires p in s.forest && HistoryOk(s, p)
  {
    || due <= OfTopic(SettledTickets(HistoryOf(s, p).settled), req)
    || (NoticeWaits(s.queue, p, s.forest[p].session) && due <= OfTopic(HistoryOf(s, p).issued, req))
  }

  /** What an event adds to the log of `p`. */
  ghost function StepFor<P>(s: Process<P>, e: Event<P>, p: P): Option<Step>
    requires CanHappen(s, e)
  {
    match e
    case Do(op) => if op.Call? && op.p == p then Some(Step.Call(op.req, op.res, op.failure)) else None
    case Publish(_, _, _, _, _, _) => None
    case Execute(i) =>
      var x := s.queue[i];
      if !x.Deliver? || x.owner != p then None
      else if x.cb.ReplyTo? then Some(Response(x.cb.res))
      else if Notice(x, p, s.forest[p].session) then Some(Step.Close)
      else None
  }

  lemma LogGrows<P>(s: Process<P>, e: Event<P>, p: P)
    requires Inv(s.forest) && CanHappen(s, e)
    ensures var step := StepFor(s, e, p);
      StepsOf(After(s, e).steps, p) == StepsOf(s.steps, p) + if step.Some? then [step.value] else []
  {
    match e
    case Do(op) =>
      if op.Call? {
        LoggedAt(s.steps, op.p, Step.Call(op.req, op.res, op.failure), p);
      }
      hide Apply, Inv, Enabled;
    case Publish(_, _, _, _, _, _) =>
      hide Dispatched, Inv;
    case Execute(i) =>
      ExecuteLogs(s, i, p);
  }

  lemma ExecuteLogs<P>(s: Process<P>, i: nat, p: P)
    requires Inv(s.forest) && CanHappen(s, Execute(i))
    ensures var step := StepFor(s, Execute(i), p);
      StepsOf(After(s, Execute(i)).steps, p) == StepsOf(s.steps, p) + if step.Some? then [step.value] else []
  {
    var x := s.queue[i];
    if x.Deliver? {
      if x.cb.ReplyTo? {
        LoggedAt(s.steps, x.owner, Response(x.cb.res), p);
      } else {
        LoggedAt(s.steps, x.owner, Step.Close, p);
      }
    }
    hide Inv, Logged, StepsOf;
  }

  lemma SessionStays<P>(s: Process<P>, e: Event<P>, p: P)
    requires Inv(s.forest) && CanHappen(s, e) && p in s.forest
    ensures p in After(s, e).forest
    ensures After(s, e).forest[p].session
         == if e.Do? && e.op.WithSession? && e.op.p == p then e.op.session else s.forest[p].session
  {
    match e
    case Do(op) => OpChanges(s.forest, op, p);
    case _ =>
  }

  /** A waiting notice goes on waiting, or the event runs one. */
  lemma NoticeStays<P>(s: Process<P>, e: Event<P>, p: P, k: SessionKey)
    requires Inv(s.forest) && CanHappen(s, e) && NoticeWaits(s.queue, p, k)
    ensures NoticeWaits(After(s, e).queue, p, k) || (e.Execute? && Notice(s.queue[e.i], p, k))
  {
    match e
    case Do(op) => hide Apply;
    case Publish(q, se, t, fr, g0, g1) => NoticeSnoc(s.queue, PublishPosts(s.forest, q, se, t, fr, g0, g1), p, k);
    case Execute(i) =>
      var x, a, b := s.queue[i], s.queue[..i], s.queue[i + 1..];
      assert s.queue == a + [x] + b;
      NoticeSnoc(a + [x], b, p, k);
      NoticeSnoc(a, [x], p, k);
      NoticeSnoc(a, b, p, k);
      if x.Deliver? {
        NoticeSnoc(a + b, RanPosts(s.forest[x.owner], x.owner, x.cb, x.session), p, k);
      }
  }

  lemma OwedStays<P>(s: Process<P>, e: Event<P>, p: P, req: Topic, due: seq<Ticket>)
    requires Good(s) && CanHappen(s, e) && p in s.forest && HistoryOk(s, p) && Owed(s, p, req, due)
    requires e.Do? && e.op.WithSession? ==> e.op.p != p
    ensures p in After(s, e).forest && HistoryOk(After(s, e), p) && Owed(After(s, e), p, req, due)
  {
    EventKeepsGood(s, e);
    SessionStays(s, e, p);
    assert BooksOk(After(s, e), p);
    LogGrows(s, e, p);
    if NoticeWaits(s.queue, p, s.forest[p].session) {
      NoticeStays(s, e, p, s.forest[p].session);
    }
    var step := StepFor(s, e, p);
    assert e.Execute? && Notice(s.queue[e.i], p, s.forest[p].session) ==> step == Some(Step.Close);
    hide *;
    SettledGrows(StepsOf(s.steps, p), StepsOf(After(s, e).steps, p), step, req);
    OwedByHistory(s, After(s, e), p, req, due, step);
  }

  /** What one more step of a ledger does to what is settled and issued. */
  lemma SettledGrows(steps: seq<Step>, after: seq<Step>, step: Option<Step>, req: Topic)
    requires Run(steps).Known? && Run(after).Known? && after == steps + if step.Some? then [step.value] else []
    ensures var h, h' := Run(steps).h, Run(after).h;
      && OfTopic(h.issued, req) <= OfTopic(h'.issued, req)
      && OfTopic(SettledTickets(h.settled), req) <= OfTopic(SettledTickets(h'.settled), req)
      && (step == Some(Step.Close) ==> OfTopic(h.issued, req) <= OfTopic(SettledTickets(h'.settled), req))
  {
    if step == None {
      assert after == steps;
    } else {
      hide Run, Next, OfTopic, SettledTickets;
      RunSnoc(steps, step.value);
      NextGrows(Run(steps).h, step.value, req);
      if step.value.Close? {
        EveryCallSettlesOnce(steps, req);
        CloseSettlesAll(Run(steps).h, req);
      }
    }
  }

  lemma OwedByHistory<P>(s: Process<P>, s': Process<P>, p: P, req: Topic, due: seq<Ticket>, step: Option<Step>)
    requires p in s.forest && p in s'.forest && HistoryOk(s, p) && HistoryOk(s', p) && Owed(s, p, req, due)
    requires var h, h' := HistoryOf(s, p), HistoryOf(s', p);
      && OfTopic(h.issued, req) <= OfTopic(h'.issued, req)
      && OfTopic(SettledTickets(h.settled), req) <= OfTopic(SettledTickets(h'.settled), req)
      && (step == Some(Step.Close) ==> OfTopic(h.issued, req) <= OfTopic(SettledTickets(h'.settled), req))
    requires s'.forest[p].session == s.forest[p].session
    requires NoticeWaits(s.queue, p, s.forest[p].session) ==>
      NoticeWaits(s'.queue, p, s.forest[p].session) || step == Some(Step.Close)
    ensures Owed(s', p, req, due)
  {
    hide Run, OfTopic, SettledTickets, NoticeWaits;
  }

  /**
   * Running a notice posts, to the strand of the pulse, one failure for each call pending, topics ascending and
   * each topic's calls in the order they were made, behind all that waits; and nothing is pending after it.
   */
  lemma NoticeFailsPending<P>(s: Process<P>, i: nat, p: P)
    requires Good(s) && CanHappen(s, Execute(i)) && p in s.forest && Notice(s.queue[i], p, s.forest[p].session)
    ensures p in After(s, Execute(i)).forest && After(s, Execute(i)).forest[p].ledger.calls == map[]
    ensures exists ts ::
      && FailsInOrder(ts, s.forest[p].ledger)
      && After(s, Execute(i)).queue == s.queue[..i] + s.queue[i + 1..] + FailureTasks(p, s.forest[p].strand, ts)
  {
    var ts := Failures(s.forest[p].ledger.calls);
    FailuresAscend(s.forest[p].ledger.calls);
    forall req ensures OfTopic(ts, req) == Tickets(req, CallsOf(s.forest[p].ledger, req).callers) {
      FailuresArePending(s.forest[p].ledger.calls, req);
    }
    assert FailsInOrder(ts, s.forest[p].ledger);
    hide Failures, FailsInOrder, Good;
  }

  ghost predicate FailsInOrder(ts: seq<Ticket>, l: Ledger) {
    && (forall req :: OfTopic(ts, req) == Tickets(req, CallsOf(l, req).callers))
    && forall i, j | 0 <= i < j < |ts| :: ts[i].req <= ts[j].req
  }

  /** Running anything else posts nothing. */
  lemma OthersPostNothing<P>(s: Process<P>, i: nat)
    requires CanHappen(s, Execute(i)) && Inv(s.forest)
    requires !Notice(s.queue[i], s.queue[i].owner, s.forest[s.queue[i].owner].session)
    ensures After(s, Execute(i)).queue == s.queue[..i] + s.queue[i + 1..]
  {
    hide Inv;
  }

  ghost predicate KeepsSession<P>(events: seq<Event<P>>, p: P) {
    forall e | e in events :: e.Do? && e.op.WithSession? ==> e.op.p != p
  }

  lemma {:induction false} OwedOverRuns<P>(s: Process<P>, events: seq<Event<P>>, t: Process<P>, p: P, req: Topic,
                                           due: seq<Ticket>)
    requires Good(s) && Leads(s, events, t) && KeepsSession(events, p)
    requires p in s.forest && HistoryOk(s, p) && Owed(s, p, req, due)
    ensures p in t.forest && t.forest[p].session == s.forest[p].session && HistoryOk(t, p) && Owed(t, p, req, due)
    decreases |events|
  {
    if events != [] {
      EventKeepsGood(s, events[0]);
      assert events[0] in events;
      OwedStays(s, events[0], p, req, due);
      SessionStays(s, events[0], p);
      hide Inv, After, CanHappen, Owed, BooksOk;
      OwedOverRuns(After(s, events[0]), events[1..], t, p, req, due);
    }
  }

  /**
   * The close of a session settles every call pending then, if a notice stands for the session the pulse is
   * bound to and the pulse stays bound to it: on every run from there, once no such notice waits any longer,
   * the calls issued before the close are settled, whatever else was issued, answered or published meanwhile.
   */
  lemma CloseSettlesPending<P>(s: Process<P>, e: Event<P>, events: seq<Event<P>>, t: Process<P>, p: P, req: Topic)
    requires Good(s) && CanHappen(s, e) && e.Publish? && e.topic == TOPIC_CLOSED
    requires p in s.forest && s.forest[p].parent != None && e.at == s.forest[p].root
    requires s.forest[p].session == NO_SESSION || s.forest[p].session == e.session
    requires HeardAt(s.forest[p], TOPIC_CLOSED, ClosedNotice, s.forest[p].session) > 0
    requires Leads(After(s, e), events, t) && KeepsSession(events, p)
    ensures HistoryOk(s, p) && p in t.forest && HistoryOk(t, p)
    ensures !NoticeWaits(t.queue, p, s.forest[p].session) ==>
      OfTopic(HistoryOf(s, p).issued, req) <= OfTopic(SettledTickets(HistoryOf(t, p).settled), req)
  {
    assert BooksOk(s, p);
    var s', k := After(s, e), s.forest[p].session;
    NoticePostedIff(s, e, p);
    NoticeSnoc(s.queue, PublishPosts(s.forest, e.at, e.session, e.topic, e.frame, e.anySession, e.thisSession), p, k);
    EventKeepsGood(s, e);
    assert NoticeWaits(s'.queue, p, k) && s'.forest == s.forest && s'.steps == s.steps;
    hide Inv, After, CanHappen, Run, HeardAt, NoticeWaits, PublishPosts, BooksOk, Leads;
    OwedOverRuns(s', events, t, p, req, OfTopic(HistoryOf(s, p).issued, req));
  }

  // ---- pulses that go on listening ----------------------------------------------------------------

  lemma SubscribeKeepsHeardAt<P>(f: Forest<P>, q: P, u: Topic, handler: Callback, p: P, t: Topic, cb: Callback,
                                 k: SessionKey)
    requires Inv(f) && q in f && p in f
    ensures NodeOk(f, q)
    ensures var g := Subscribe(f, q, u, handler);
      && p in g && g[p].parent == f[p].parent && g[p].root == f[p].root
      && HeardAt(g[p], t, cb, k) >= HeardAt(f[p], t, cb, k)
  {
    assert NodeOk(f, q);
    RootApart(f, q);
    SubscribeAt(f, q, u, handler, p);
    hide Subscribe, Inv;
    if p == q && u == t {
      HandlersAtSnoc(SubsOn(f[p].subs, t), Subscription(f[p].session, handler), cb, k);
    }
    hide NodeOk, HandlersAt;
  }

  lemma HandlersAtSnoc(subs: seq<Subscription>, s: Subscription, cb: Callback, k: SessionKey)
    ensures HandlersAt(subs + [s], cb, k) >= HandlersAt(subs, cb, k)
  {
    assert (subs + [s])[..|subs|] == subs;
  }

  /** Neither stopped nor bound to another session, nor carried along under another root. */
  ghost predicate Undisturbed<P>(e: Event<P>, p: P, r: P) {
    e.Do? ==> match e.op
      case WithSession(q, _) => q != p
      case StopPulse(q) => q != p
      case Attach(c, _) => c != r
      case _ => true
  }

  lemma OpKeepsHeardAt<P>(f: Forest<P>, op: Op<P>, p: P, t: Topic, cb: Callback, k: SessionKey)
    requires Inv(f) && Enabled(f, op) && !op.Reply? && !op.Close? && p in f && f[p].parent != None
    requires Undisturbed(Do(op), p, f[p].root)
    ensures var g := Apply(f, op);
      && p in g && g[p].parent == f[p].parent && g[p].root == f[p].root
      && HeardAt(g[p], t, cb, k) >= HeardAt(f[p], t, cb, k)
  {
    assert op.p in f ==> NodeOk(f, op.p);
    match op
    case Attach(c, q) =>
      hide Inv, NodeOk, HandlersAt;
    case Sub(q, u, id) =>
      SubscribeKeepsHeardAt(f, q, u, User(id), p, t, cb, k);
      hide Subscribe, Inv, HeardAt;
    case StopPulse(q) =>
      ParentOf(f, q);
      StopAt(f, q, p);
      StopKeepsRest(f, q);
      hide Stop, Inv, NodeOk, HandlersAt;
    case Call(q, req, res, failure) =>
      CallOpKeepsHeardAt(f, q, req, res, failure, p, t, cb, k);
      hide CallOp, Inv, HeardAt;
    case _ =>
      hide Inv, NodeOk, HandlersAt;
  }

  lemma CallOpKeepsHeardAt<P>(f: Forest<P>, q: P, req: Topic, res: Topic, failure: FailureCallback,
                              p: P, t: Topic, cb: Callback, k: SessionKey)
    requires Inv(f) && q in f && p in f
    ensures NodeOk(f, q)
    ensures var g := CallOp(f, q, req, res, failure);
      && p in g && g[p].parent == f[p].parent && g[p].root == f[p].root
      && HeardAt(g[p], t, cb, k) >= HeardAt(f[p], t, cb, k)
  {
    SubscribeKeepsHeardAt(f, q, TOPIC_CLOSED, ClosedNotice, p, t, cb, k);
    CallSubscribeChanges(f, q, TOPIC_CLOSED, ClosedNotice);
    var f1 := CallSubscribe(f, q, TOPIC_CLOSED, ClosedNotice);
    SubscribeKeepsHeardAt(f1, q, res, ReplyTo(res), p, t, cb, k);
    CallSubscribeChanges(f1, q, res, ReplyTo(res));
    hide Subscribe, Inv, NodeOk, HandlersAt;
  }

  lemma EventKeepsHeardAt<P>(s: Process<P>, e: Event<P>, p: P, t: Topic, cb: Callback, k: SessionKey)
    requires Inv(s.forest) && CanHappen(s, e) && p in s.forest && s.forest[p].parent != None
    requires Undisturbed(e, p, s.forest[p].root)
    ensures var g := After(s, e).forest;
      && p in g && g[p].parent == s.forest[p].parent && g[p].root == s.forest[p].root
      && HeardAt(g[p], t, cb, k) >= HeardAt(s.forest[p], t, cb, k)
  {
    match e
    case Do(op) => OpKeepsHeardAt(s.forest, op, p, t, cb, k);
    case _ =>
  }

  lemma {:induction false} RunKeepsHeardAt<P>(s: Process<P>, events: seq<Event<P>>, t: Process<P>, p: P, k: SessionKey)
    requires Good(s) && Leads(s, events, t) && p in s.forest && s.forest[p].parent != None && s.forest[p].session == k
    requires forall e | e in events :: Undisturbed(e, p, s.forest[p].root)
    ensures p in t.forest && t.forest[p].parent == s.forest[p].parent && t.forest[p].root == s.forest[p].root
    ensures t.forest[p].session == k
    ensures HeardAt(t.forest[p], TOPIC_CLOSED, ClosedNotice, k) >= HeardAt(s.forest[p], TOPIC_CLOSED, ClosedNotice, k)
    decreases |events|
  {
    if events != [] {
      assert events[0] in events;
      EventKeepsGood(s, events[0]);
      EventKeepsHeardAt(s, events[0], p, TOPIC_CLOSED, ClosedNotice, k);
      SessionStays(s, events[0], p);
      hide Inv, After, CanHappen, BooksOk, HeardAt;
      RunKeepsHeardAt(After(s, events[0]), events[1..], t, p, k);
    }
  }

  /**
   * A pulse below a root calls, with no close subscription of its own or one of a call before. As long as it is not
   * stopped, keeps its session and stays under its root, the close of that session settles all it has pending:
   * from `s` it calls, any run leads to `t`, the session closes, and any run leads on to `u`.
   */
  lemma ClosesAlwaysSettle<P>(s: Process<P>, call: Op<P>, before: seq<Event<P>>, t: Process<P>,
                              close: Event<P>, after: seq<Event<P>>, u: Process<P>, req: Topic)
    requires Good(s) && call.Call? && call.p in s.forest && s.forest[call.p].parent != None
    requires TOPIC_CLOSED !in s.forest[call.p].subs
      || HeardAt(s.forest[call.p], TOPIC_CLOSED, ClosedNotice, s.forest[call.p].session) > 0
    requires Leads(s, [Do(call)] + before, t)
    requires forall e | e in before :: Undisturbed(e, call.p, s.forest[call.p].root)
    requires close.Publish? && close.at == s.forest[call.p].root && close.topic == TOPIC_CLOSED
    requires s.forest[call.p].session == NO_SESSION || s.forest[call.p].session == close.session
    requires Leads(t, [close] + after, u) && KeepsSession(after, call.p)
    ensures call.p in t.forest && HistoryOk(t, call.p) && call.p in u.forest && HistoryOk(u, call.p)
    ensures !NoticeWaits(u.queue, call.p, s.forest[call.p].session) ==>
      OfTopic(HistoryOf(t, call.p).issued, req) <= OfTopic(SettledTickets(HistoryOf(u, call.p).settled), req)
  {
    assert ([Do(call)] + before)[1..] == before && ([close] + after)[1..] == after;
    var p, s1 := call.p, After(s, Do(call));
    EventKeepsGood(s, Do(call));
    SessionStays(s, Do(call), p);
    CallListens(s, call);
    hide Inv, After, CanHappen, HeardAt, BooksOk, Run;
    RunKeepsGood(s1, before, t);
    RunKeepsHeardAt(s1, before, t, p, s.forest[p].session);
    CloseSettlesPending(t, close, after, u, p, req);
  }

  lemma CallListens<P>(s: Process<P>, call: Op<P>)
    requires Inv(s.forest) && call.Call? && CanHappen(s, Do(call)) && s.forest[call.p].parent != None
    requires TOPIC_CLOSED !in s.forest[call.p].subs
      || HeardAt(s.forest[call.p], TOPIC_CLOSED, ClosedNotice, s.forest[call.p].session) > 0
    ensures var g := After(s, Do(call)).forest;
      && call.p in g && g[call.p].parent == s.forest[call.p].parent && g[call.p].root == s.forest[call.p].root
      && HeardAt(g[call.p], TOPIC_CLOSED, ClosedNotice, s.forest[call.p].session) > 0
  {
    CallHeardAt(s.forest, call.p, call.req, call.res, call.failure);
    CallKeepsPlace(s.forest, call.p, call.req, call.res, call.failure);
    hide Inv, HeardAt, CallOp, CallSubscribe;
  }
}
