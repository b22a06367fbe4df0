/**
 * class pulse: heap objects linked by pointers. `all` is the set of pulses of the process; the state
 * of PulseForest is the map of their fields, and every method changes it as its function says.
 */
module Pulse {
  import opened CallLedger
  import opened Options
  import opened PulseForest
  import opened Broadcast
  import opened PlainWalk

  /** Whatever the posted lambdas capture, in the order they were posted. */
  class Runner {
    var queue: seq<Task<Pulse>>

    constructor ()
      ensures queue == []
    {
      queue := [];
    }

    method Post(x: Task<Pulse>)
      modifies this
      ensures queue == old(queue) + [x]
    {
      queue := queue + [x];
    }
  }

  ghost function View(all: set<Pulse>): Forest<Pulse>
    reads all
  {
    map p | p in all :: p.State()
  }

  lemma ViewIsStates(all: set<Pulse>)
    ensures View(all).Keys == all && forall q | q in all :: View(all)[q] == q.State()
  {
  }

  lemma ViewUpdatedAt(all: set<Pulse>, f: Forest<Pulse>, p: Pulse)
    requires f.Keys == all && p in all
    requires forall q | q in all && q != p :: q.State() == f[q]
    ensures View(all) == f[p := p.State()]
  {
  }

  /** All but two pulses are as `f` says. */
  lemma ViewUpdated(all: set<Pulse>, f: Forest<Pulse>, p: Pulse, r: Pulse)
    requires f.Keys == all && p in all && r in all
    requires forall q | q in all && q != p && q != r :: q.State() == f[q]
    ensures View(all) == f[p := p.State()][r := r.State()]
  {
  }

  lemma AsChildFields(all: set<Pulse>, f: Forest<Pulse>, c: Pulse, p: Pulse)
    requires f.Keys == all && c in f && p in f
    requires forall q | q in all :: q.State() == Linked(Moved(f[q], c, f[p].root, f[p].depth + 1), c, p, q)
    ensures View(all) == AsChild(f, c, p)
  {
    hide Moved, Linked;
  }

  lemma Attachable<P>(f: Forest<P>, c: P, p: P)
    requires Inv(f) && CanAttach(f, c, p)
    ensures c in f && p in f && c != p
  {
    assert NodeOk(f, c);
  }

  lemma UnbindFields<P>(f: Forest<P>, c: P, p: P, n: Node<P>, m: Node<P>)
    requires c in f && p in f && c != p
    requires var root := f[p].parent == None;
      && n == f[p].(children := f[p].children - {c},
                    interests := if root then Withdraw(f[p].interests, f[c].kept, c) else f[p].interests)
      && m == f[c].(live := if root then {} else f[c].live)
    ensures Unbind(f, c, p) == f[p := n][c := m]
  {
  }

  lemma CallOpFields<P>(f: Forest<P>, p: P, req: Topic, res: Topic, failure: FailureCallback)
    requires p in f && f[p].root in f
    ensures var f2 := CallSubscribe(CallSubscribe(f, p, TOPIC_CLOSED, ClosedNotice), p, res, ReplyTo(res));
      CallOp(f, p, req, res, failure) == f2[p := f2[p].(ledger := Issue(f2[p].ledger, req, res, failure))]
  {
  }

  lemma SubscribeBelow<P>(f: Forest<P>, p: P, t: Topic, cb: Callback)
    requires p in f && f[p].root in f && f[p].parent != None && f[p].root != p
    ensures Subscribe(f, p, t, cb)
      == f[p := Subscribed(f[p], t, cb)][f[p].root := Shown(f[f[p].root], Key(f[p].session, t), p)]
  {
    hide Subscribed, Shown;
  }

  lemma SubscribeAtRoot<P>(f: Forest<P>, p: P, t: Topic, cb: Callback)
    requires p in f && f[p].root in f && f[p].parent == None
    ensures Subscribe(f, p, t, cb) == f[p := Subscribed(f[p], t, cb)]
  {
    hide Subscribed, Shown;
  }

  lemma PlaceOf<P>(f: Forest<P>, p: P)
    requires Inv(f) && p in f
    ensures f[p].root in f && (f[p].parent == None <==> f[p].root == p) && (f[p].parent == None <==> f[p].mode != Child)
    ensures f[p].hasRunner <==> f[p].mode != NoMode && f[p].mode != Child
    ensures f[p].parent.Some? ==>
      var q := f[p].parent.value;
      q in f && q != p && f[q].root == f[p].root && f[p].depth == f[q].depth + 1 && !f[p].hasRunner
  {
    assert NodeOk(f, p);
  }

  ghost predicate Valid(all: set<Pulse>)
    reads all
  {
    Inv(View(all))
  }

  class Pulse {
    var mode: Mode
    var isFinal: bool
    var stopped: bool
    var parent: Pulse?
    var children: set<Pulse>
    var session: SessionKey
    var strand: nat
    var runner: Runner?
    var subs: map<Topic, seq<Subscription>>
    var interests: map<Key, set<Pulse>>
    var selfInterests: set<Key>
    var calls: map<Topic, TopicCalls>
    var callPairs: map<Topic, Topic>
    ghost var root: Pulse
    ghost var depth: nat
    ghost var live: set<Key>
    ghost var missed: set<Key>

    ghost function State(): Node<Pulse>
      reads this
    {
      Node(mode, if parent == null then None else Some(parent as Pulse), root, depth, children, isFinal, stopped,
           session, strand, runner != null, subs, interests, selfInterests, live, missed, Ledger(calls, callPairs))
    }

    constructor ()
      ensures State() == NewNode(this) && runner == null
    {
      mode, isFinal, stopped := NoMode, false, false;
      parent, children, session, strand, runner := null, {}, NO_SESSION, 0, null;
      subs, interests, selfInterests, calls, callPairs := map[], map[], {}, map[], map[];
      root, depth, live, missed := this, 0, {}, {};
    }

    method GetRoot(ghost all: set<Pulse>) returns (r: Pulse)
      requires Valid(all) && this in all
      ensures r == root
      decreases depth
    {
      PlaceOf(View(all), this);
      if parent == null {
        return this;
      }
      r := parent.GetRoot(all);
    }

    method GetRunner(ghost all: set<Pulse>) returns (r: Runner)
      requires Valid(all) && this in all && root.runner != null
      ensures r == root.runner
      decreases depth
    {
      PlaceOf(View(all), this);
      if runner == null {
        r := parent.GetRunner(all);
      } else {
        r := runner;
      }
    }

    method BindChild(child: Pulse) returns (ok: bool)
      modifies this`children
      ensures ok == !isFinal
      ensures children == old(children) + if ok then {child} else {}
    {
      if isFinal {
        return false;
      }
      children := children + {child};
      return true;
    }

    /** The parent pointer is set first; the result says whether the parent then listed the child. */
    method AttachTo(p: Pulse, ghost all: set<Pulse>) returns (ok: bool)
      requires p != this
      modifies this`mode, this`parent, p`children
      ensures ok == !old(p.isFinal)
      ensures forall q | q in all :: q.State() == Linked(old(q.State()), this, p, q)
    {
      mode := Child;
      parent := p;
      ok := p.BindChild(this);
    }

    /** All pulses below come under the new root; only the statements about them need to know. */
    ghost method Reroot(r: Pulse, above: nat, all: set<Pulse>)
      modifies all`root, all`depth, all`live, all`missed
      ensures forall q | q in all :: q.State() == Moved(old(q.State()), this, r, above)
    {
      forall q | q in all && q.root == this { q.missed := q.missed + q.live; }
      forall q | q in all && q.root == this { q.depth := q.depth + above; }
      forall q | q in all && q.root == this { q.live := {}; }
      forall q | q in all && q.root == this { q.root := r; }
    }

    /** The source throws where the result is false. */
    method AsChild(p: Pulse, ghost all: set<Pulse>) returns (ok: bool)
      requires Valid(all) && CanAttach(View(all), this, p)
      modifies this`mode, this`parent, p`children, all`root, all`depth, all`live, all`missed
      ensures Valid(all) && ok == !old(p.isFinal)
      ensures View(all) == PulseForest.AsChild(old(View(all)), this, p)
    {
      hide Inv, View, State, CanAttach, PulseForest.AsChild, Moved, Linked;
      ViewIsStates(all);
      ghost var f: Forest<Pulse> := View(all);
      Attachable(f, this, p);
      AttachKeepsInv(f, this, p);
      Reroot(f[p].root, f[p].depth + 1, all);
      ok := AttachTo(p, all);
      AsChildFields(all, f, this, p);
    }

    /** as_server, as_client and as_independent: a runner of its own, and a mode for start(). */
    method AsRoot(how: Mode, r: Runner, ghost all: set<Pulse>)
      requires Valid(all) && this in all && parent == null && how != NoMode && how != Child
      modifies this`mode, this`runner
      ensures Valid(all) && runner == r
      ensures View(all) == old(View(all))[this := old(State()).(mode := how, hasRunner := true)]
    {
      hide Inv, View;
      ViewIsStates(all);
      ghost var f: Forest<Pulse> := View(all);
      OtherFieldsKeepInv(f, this, f[this].(mode := how, hasRunner := true));
      mode, runner := how, r;
      ViewUpdatedAt(all, f, this);
    }

    method WithSession(s: SessionKey, ghost all: set<Pulse>)
      requires Valid(all) && this in all
      modifies this`session
      ensures Valid(all)
      ensures View(all) == old(View(all))[this := old(State()).(session := s)]
    {
      hide Inv, View;
      ViewIsStates(all);
      ghost var f: Forest<Pulse> := View(all);
      PlaceOf(f, this);
      OtherFieldsKeepInv(f, this, f[this].(session := s));
      session := s;
      ViewUpdatedAt(all, f, this);
    }

    method ShowInterest(child: Pulse, k: Key)
      modifies this`interests
      ensures interests == old(interests)[k := GroupAt(old(interests), k) + {child}]
    {
      if k !in interests {
        interests := interests[k := {}];
      }
      interests := interests[k := interests[k] + {child}];
    }

    /** The subscription itself, and for all but roots the note of the interest. */
    method NoteSubscription(t: Topic, cb: Callback)
      modifies this`subs, this`selfInterests, this`live, this`missed
      ensures State() == Subscribed(old(State()), t, cb)
    {
      hide SubsOn;
      AddSubscription(t, cb);
      NoteInterest(Key(session, t));
    }

    method NoteInterest(k: Key)
      modifies this`selfInterests, this`live, this`missed
      ensures State() == if parent == null then old(State()).(missed := old(missed) + {k})
        else old(State()).(kept := old(selfInterests) + {k}, live := old(live) + {k}, missed := old(missed) - {k})
    {
      if parent != null {
        selfInterests := selfInterests + {k};
        live, missed := live + {k}, missed - {k};
      } else {
        missed := missed + {k};
      }
    }

    method AddSubscription(t: Topic, cb: Callback)
      modifies this`subs
      ensures State() == old(State()).(subs := old(subs)[t := SubsOn(old(subs), t) + [Subscription(session, cb)]])
    {
      if t !in subs {
        subs := subs[t := []];
      }
      subs := subs[t := subs[t] + [Subscription(session, cb)]];
    }

    /** A descendant also tells its root. */
    method SubscribeVia(r: Pulse, t: Topic, cb: Callback)
      requires parent != null ==> r != this
      modifies this`subs, this`selfInterests, this`live, this`missed, r`interests
      ensures State() == Subscribed(old(State()), t, cb)
      ensures parent != null ==> r.State() == Shown(old(r.State()), Key(session, t), this)
      ensures parent == null ==> r.interests == old(r.interests)
    {
      hide Subscribed;
      NoteSubscription(t, cb);
      if parent != null {
        r.ShowInterest(this, Key(session, t));
      }
    }

    method Subscribe(t: Topic, cb: Callback, ghost all: set<Pulse>)
      requires Valid(all) && this in all && root in all
      modifies this`subs, this`selfInterests, this`live, this`missed, root`interests
      ensures Valid(all)
      ensures View(all) == PulseForest.Subscribe(old(View(all)), this, t, cb)
    {
      hide Inv, View, PulseForest.Subscribe, Subscribed, Shown;
      ViewIsStates(all);
      ghost var f: Forest<Pulse> := View(all);
      PlaceOf(f, this);
      SubscribeKeepsInv(f, this, t, cb);
      var r := GetRoot(all);
      SubscribeVia(r, t, cb);
      if parent != null {
        ViewUpdated(all, f, this, r);
        SubscribeBelow(f, this, t, cb);
      } else {
        ViewUpdatedAt(all, f, this);
        SubscribeAtRoot(f, this, t, cb);
      }
    }

    /** The child leaves; a root also withdraws, key by key, the interests the child kept. */
    method Forget(child: Pulse)
      requires child != this
      modifies this`children, this`interests, child`live
      ensures children == old(children) - {child}
      ensures interests == if parent == null then Withdraw(old(interests), child.selfInterests, child)
        else old(interests)
      ensures child.live == if parent == null then {} else old(child.live)
    {
      children := children - {child};
      if parent == null {
        WithdrawAll(child);
        child.live := {};
      }
    }

    method UnbindChild(child: Pulse, ghost all: set<Pulse>)
      requires this in all && child in all && child != this
      modifies this`children, this`interests, child`live
      ensures View(all) == Unbind(old(View(all)), child, this)
    {
      hide View, Unbind;
      ViewIsStates(all);
      ghost var f: Forest<Pulse> := View(all);
      Forget(child);
      ViewUpdated(all, f, this, child);
      UnbindFields(f, child, this, State(), child.State());
    }

    method WithdrawAll(child: Pulse)
      requires child != this
      modifies this`interests
      ensures interests == Withdraw(old(interests), child.selfInterests, child)
    {
      var rest := child.selfInterests;
      while rest != {}
        invariant rest <= child.selfInterests
        invariant interests == Withdraw(old(interests), child.selfInterests - rest, child)
      {
        var k :| k in rest;
        if k in interests {
          interests := interests[k := interests[k] - {child}];
        }
        rest := rest - {k};
        assert interests == Withdraw(old(interests), child.selfInterests - rest, child);
      }
    }

    /** The result is false where the source throws: children are still bound. */
    method Stop(ghost all: set<Pulse>) returns (ok: bool)
      requires Valid(all) && this in all
      modifies this, parent
      ensures Valid(all) && ok == !StopRefused(old(View(all)), this)
      ensures NodeOk(old(View(all)), this) && View(all) == PulseForest.Stop(old(View(all)), this)
    {
      hide Inv, View;
      ViewIsStates(all);
      ghost var f: Forest<Pulse> := View(all);
      PlaceOf(f, this);
      StopKeepsInv(f, this);
      if stopped {
        return true;
      }
      stopped := true;
      ViewUpdatedAt(all, f, this);
      if children != {} {
        return false;
      }
      if mode == Child {
        parent.UnbindChild(this, all);
      }
      return true;
    }

    predicate HasSubscription(t: Topic)
      reads this
    {
      t in subs
    }

    method CallSubscribe(t: Topic, cb: Callback, ghost all: set<Pulse>)
      requires Valid(all) && this in all && root in all
      modifies this`subs, this`selfInterests, this`live, this`missed, root`interests
      ensures Valid(all)
      ensures View(all) == PulseForest.CallSubscribe(old(View(all)), this, t, cb)
    {
      hide Inv, PulseForest.Subscribe;
      if !HasSubscription(t) {
        Subscribe(t, cb, all);
      }
    }

    /** Remembers a request that was sent, to fail it if the session closes before its response. */
    method Call(req: Topic, res: Topic, failure: FailureCallback, ghost all: set<Pulse>)
      requires Valid(all) && this in all && root in all
      modifies this`subs, this`selfInterests, this`live, this`missed, this`calls, this`callPairs, root`interests
      ensures Valid(all)
      ensures View(all) == CallOp(old(View(all)), this, req, res, failure)
    {
      hide Inv, View, PulseForest.CallSubscribe, CallOp, Issue;
      ViewIsStates(all);
      CallOpFields(View(all), this, req, res, failure);
      InstallHandlers(res, all);
      RegisterCall(req, res, failure, all);
    }

    method RegisterCall(req: Topic, res: Topic, failure: FailureCallback, ghost all: set<Pulse>)
      requires Valid(all) && this in all
      modifies this`calls, this`callPairs
      ensures Valid(all)
      ensures this in old(View(all))
      ensures View(all) == old(View(all))[this :=
        old(View(all)[this]).(ledger := Issue(old(View(all)[this]).ledger, req, res, failure))]
    {
      hide Inv, View, Issue;
      ViewIsStates(all);
      ghost var f: Forest<Pulse> := View(all);
      PlaceOf(f, this);
      OtherFieldsKeepInv(f, this, f[this].(ledger := Issue(f[this].ledger, req, res, failure)));
      IssueCall(req, res, failure);
      ViewUpdatedAt(all, f, this);
    }

    method InstallHandlers(res: Topic, ghost all: set<Pulse>)
      requires Valid(all) && this in all && root in all
      modifies this`subs, this`selfInterests, this`live, this`missed, root`interests
      ensures Valid(all)
      ensures var f1 := PulseForest.CallSubscribe(old(View(all)), this, TOPIC_CLOSED, ClosedNotice);
        && this in f1 && f1[this].root in f1
        && View(all) == PulseForest.CallSubscribe(f1, this, res, ReplyTo(res))
    {
      hide Inv, PulseForest.CallSubscribe;
      CallSubscribe(TOPIC_CLOSED, ClosedNotice, all);
      CallSubscribe(res, ReplyTo(res), all);
    }

    method IssueCall(req: Topic, res: Topic, failure: FailureCallback)
      modifies this`calls, this`callPairs
      ensures Ledger(calls, callPairs) == Issue(old(Ledger(calls, callPairs)), req, res, failure)
    {
      if req !in calls {
        calls := calls[req := TopicCalls(0, 0, [])];
      }
      var tc := calls[req];
      var id := tc.callIndex + 1;
      calls := calls[req := TopicCalls(id, tc.replyIndex, tc.callers + [Caller(id, failure)])];
      callPairs := callPairs[res := req];
    }

    /** A response came in; taking the front of an empty queue is undefined, hence the requirement. */
    method CallReceive(res: Topic)
      requires Expected(Ledger(calls, callPairs), res)
      modifies this`calls
      ensures Ledger(calls, callPairs) == Receive(old(Ledger(calls, callPairs)), res)
    {
      if res in callPairs {
        var req := callPairs[res];
        if req in calls {
          var tc := calls[req];
          calls := calls[req := TopicCalls(tc.callIndex, tc.replyIndex + 1, tc.callers[1..])];
        }
      }
    }

    /** The bound session closed: every pending call fails, once, and the ledger forgets them all. */
    method CallClosed(se: SessionKey, ghost all: set<Pulse>)
      requires Valid(all) && this in all && root.runner != null
      modifies this`calls, root.runner
      ensures callPairs == old(callPairs) && calls == if se == session then map[] else old(calls)
      ensures root.runner.queue == if se == session
        then old(root.runner.queue) + FailureTasks(this, strand, Failures(old(calls))) else old(root.runner.queue)
    {
      if se != session {
        return;
      }
      var failing := CollectFailures();
      var r := GetRunner(all);
      calls := map[];
      for i := 0 to |failing|
        invariant calls == map[] && r.queue == old(root.runner.queue) + FailureTasks(this, strand, failing[..i])
      {
        r.Post(CallFailed(this, strand, failing[i].cb));
        assert FailureTasks(this, strand, failing[..i + 1])
            == FailureTasks(this, strand, failing[..i]) + [CallFailed(this, strand, failing[i].cb)];
      }
      assert failing[..|failing|] == failing;
    }

    method CollectFailures() returns (failing: seq<Ticket>)
      ensures failing == Failures(calls)
    {
      failing := [];
      var rest := calls;
      while rest != map[]
        invariant failing + Failures(rest) == Failures(calls)
        decreases rest.Keys
      {
        var req := Least(rest.Keys);
        assert failing + (Tickets(req, rest[req].callers) + Failures(rest - {req})) == Failures(calls);
        failing := failing + Tickets(req, rest[req].callers);
        rest := rest - {req};
      }
      assert Failures(rest) == [] && failing + [] == failing;
    }

    /** What a posted callback does when the runner gets to it. */
    method RunCallback(cb: Callback, se: SessionKey, ghost all: set<Pulse>)
      requires Valid(all) && this in all && root.runner != null
      requires cb.ReplyTo? ==> Expected(Ledger(calls, callPairs), cb.res)
      modifies this`calls, root.runner
      ensures Valid(all)
      ensures View(all) == old(View(all))[this :=
        old(State()).(ledger := RanLedger(old(Ledger(calls, callPairs)), session, cb, se))]
      ensures root.runner.queue == old(root.runner.queue) + RanPosts(old(State()), this, cb, se)
    {
      hide Inv, View, RanLedger, RanPosts, Expected;
      ViewIsStates(all);
      ghost var f: Forest<Pulse> := View(all);
      PlaceOf(f, this);
      OtherFieldsKeepInv(f, this, f[this].(ledger := RanLedger(f[this].ledger, session, cb, se)));
      RunHandler(cb, se, all);
      ViewUpdatedAt(all, f, this);
    }

    method RunHandler(cb: Callback, se: SessionKey, ghost all: set<Pulse>)
      requires Valid(all) && this in all && root.runner != null
      requires cb.ReplyTo? ==> Expected(Ledger(calls, callPairs), cb.res)
      modifies this`calls, root.runner
      ensures Ledger(calls, callPairs) == RanLedger(old(Ledger(calls, callPairs)), session, cb, se)
      ensures root.runner.queue == old(root.runner.queue) + RanPosts(old(State()), this, cb, se)
    {
      hide Inv, View, Failures, Receive, Expected;
      match cb
      case User(_) =>
      case ReplyTo(res) => CallReceive(res);
      case ClosedNotice => CallClosed(se, all);
    }

    /** Posts the callbacks of this pulse's own subscribers, in subscription order. */
    method PostOwn(se: SessionKey, t: Topic, fr: Frame, fromRoot: bool, ghost all: set<Pulse>)
      requires Valid(all) && this in all && root.runner != null
      modifies root.runner
      ensures root.runner.queue == old(root.runner.queue) + OwnPosts(View(all), this, se, t, fr, fromRoot)
    {
      hide Inv;
      if t !in subs {
        return;
      }
      var found := subs[t];
      for i := 0 to |found|
        invariant root.runner.queue == old(root.runner.queue) + Posts(this, strand, found[..i], se, fr, fromRoot)
      {
        assert found[..i + 1][..i] == found[..i];
        if IsTarget(found[i].session, se, fromRoot) {
          var r := GetRunner(all);
          r.Post(Deliver(this, strand, found[i].cb, se, fr));
        }
      }
      assert found[..|found|] == found;
    }

    /** Dispatches to every member of one interest group; the map may yield them in any order. */
    method DispatchGroup(group: set<Pulse>, se: SessionKey, t: Topic, fr: Frame, ghost all: set<Pulse>)
      returns (ghost order: seq<Pulse>)
      requires Valid(all) && this in all && root == this && runner != null
      requires forall c | c in group :: c in all && c.parent != null && c.root == this
      modifies runner
      ensures Lists(order, group) && (forall c | c in order :: c in View(all))
      ensures runner.queue == old(runner.queue) + GroupPosts(View(all), order, se, t, fr)
      decreases 1
    {
      hide Inv, View, Served;
      ghost var f: Forest<Pulse> := View(all);
      ViewIsStates(all);
      order := [];
      var rest := group;
      ServedNone(f, runner.queue, group, se, t, fr);
      while rest != {}
        invariant rest <= group && View(all) == f
        invariant Served(f, old(runner.queue), runner.queue, order, group - rest, se, t, fr)
      {
        var c :| c in rest;
        ghost var queue := runner.queue;
        ghost var _, _ := c.Dispatch(se, t, fr, true, all);
        ServedOneMore(f, old(runner.queue), queue, order, group, rest, c, se, t, fr);
        order := order + [c];
        rest := rest - {c};
      }
      ServedAll(f, old(runner.queue), runner.queue, order, group, rest, se, t, fr);
    }

    /**
     * Own subscribers first; a root then serves the two interest groups the frame concerns, telling
     * the session-blind one no session.
     */
    method Dispatch(se: SessionKey, t: Topic, fr: Frame, fromRoot: bool, ghost all: set<Pulse>)
      returns (ghost anySession: seq<Pulse>, ghost thisSession: seq<Pulse>)
      requires Valid(all) && this in all && root.runner != null
      requires parent == null ==> !fromRoot
      modifies root.runner
      ensures parent != null ==>
        root.runner.queue == old(root.runner.queue) + OwnPosts(View(all), this, se, t, fr, fromRoot)
      ensures (forall c | c in anySession :: c in View(all)) && forall c | c in thisSession :: c in View(all)
      ensures parent == null ==>
        && Lists(anySession, GroupAt(interests, Key(NO_SESSION, t)))
        && Lists(thisSession, if se == NO_SESSION then {} else GroupAt(interests, Key(se, t)))
        && root.runner.queue == old(root.runner.queue) + OwnPosts(View(all), this, se, t, fr, false)
             + GroupPosts(View(all), anySession, NO_SESSION, t, fr) + GroupPosts(View(all), thisSession, se, t, fr)
      decreases if parent == null then 2 else 0
    {
      hide Inv, View, OwnPosts, Posts, GroupPosts, Lists;
      anySession, thisSession := [], [];
      ViewIsStates(all);
      PlaceOf(View(all), this);
      PostOwn(se, t, fr, fromRoot, all);
      EmptyGroupPosts(View(all), NO_SESSION, t, fr);
      EmptyGroupPosts(View(all), se, t, fr);
      if parent == null {
        var key := Key(NO_SESSION, t);
        if key in interests {
          GroupMembers(all, this, key);
          anySession := DispatchGroup(interests[key], NO_SESSION, t, fr, all);
        }
        if se != NO_SESSION {
          var key' := Key(se, t);
          if key' in interests {
            GroupMembers(all, this, key');
            thisSession := DispatchGroup(interests[key'], se, t, fr, all);
          }
        }
      }
    }

    /**
     * A frame from the network, or a test, enters here. Whatever order a naive walk over the tree would
     * take, it would post the same callbacks, as often.
     */
    method Publish(se: SessionKey, t: Topic, fr: Frame, ghost order: seq<Pulse>, ghost all: set<Pulse>)
      returns (ghost anySession: seq<Pulse>, ghost thisSession: seq<Pulse>)
      requires Valid(all) && this in all && parent == null && runner != null && root == this
      requires Lists(order, TreeOf(View(all), this)) && forall p | p in order :: p in View(all)
      modifies runner
      ensures (forall c | c in anySession :: c in View(all)) && (forall c | c in thisSession :: c in View(all))
      ensures old(runner.queue) <= runner.queue
      ensures var posts := runner.queue[|old(runner.queue)|..];
        && Dispatched(View(all), this, se, t, fr, anySession, thisSession, posts)
        && multiset(posts) == multiset(NaiveWalk(View(all), this, order, se, t, fr))
        && (TidyTree(View(all), this) ==> multiset(posts) == multiset(Walk(View(all), this, order, se, t, fr)))
    {
      hide Inv, OwnPosts, GroupPosts, Lists, NaiveWalk, Walk, TidyTree;
      ViewIsStates(all);
      hide View;
      anySession, thisSession := Dispatch(se, t, fr, false, all);
      ghost var posts := OwnPosts(View(all), this, se, t, fr, false)
        + GroupPosts(View(all), anySession, NO_SESSION, t, fr) + GroupPosts(View(all), thisSession, se, t, fr);
      assert runner.queue == old(runner.queue) + posts;
      DispatchIsNaiveWalk(View(all), this, se, t, fr, anySession, thisSession, posts, order);
      if TidyTree(View(all), this) {
        DispatchIsWalk(View(all), this, se, t, fr, anySession, thisSession, posts, order);
      }
    }
  }

  /** The pulses of `order`, which lists `served`, have added their posts to a queue that was `start`. */
  ghost predicate Served<P>(f: Forest<P>, start: seq<Task<P>>, queue: seq<Task<P>>, order: seq<P>, served: set<P>,
                            se: SessionKey, t: Topic, fr: Frame)
  {
    && Lists(order, served) && (forall c | c in order :: c in f)
    && queue == start + GroupPosts(f, order, se, t, fr)
  }

  lemma ServedNone<P>(f: Forest<P>, start: seq<Task<P>>, group: set<P>, se: SessionKey, t: Topic, fr: Frame)
    ensures Served(f, start, start, [], group - group, se, t, fr)
  {
    assert group - group == {};
    assert start + [] == start;
  }

  lemma ServedOneMore<P>(f: Forest<P>, start: seq<Task<P>>, queue: seq<Task<P>>, order: seq<P>, group: set<P>,
                         rest: set<P>, c: P,
                         se: SessionKey, t: Topic, fr: Frame)
    requires Served(f, start, queue, order, group - rest, se, t, fr) && c in rest && rest <= group && c in f
    ensures Served(f, start, queue + OwnPosts(f, c, se, t, fr, true), order + [c], group - (rest - {c}), se, t, fr)
  {
    ListsOneMore(order, group, rest, c);
    assert (order + [c])[..|order|] == order;
    hide Lists, OwnPosts;
    assert start + (GroupPosts(f, order, se, t, fr) + OwnPosts(f, c, se, t, fr, true))
        == start + GroupPosts(f, order, se, t, fr) + OwnPosts(f, c, se, t, fr, true);
  }

  lemma ServedAll<P>(f: Forest<P>, start: seq<Task<P>>, queue: seq<Task<P>>, order: seq<P>, group: set<P>, rest: set<P>,
                     se: SessionKey, t: Topic, fr: Frame)
    requires Served(f, start, queue, order, group - rest, se, t, fr) && rest == {}
    ensures Lists(order, group) && (forall c | c in order :: c in f) && queue == start + GroupPosts(f, order, se, t, fr)
  {
    assert group - rest == group;
  }

  lemma EmptyGroupPosts<P>(f: Forest<P>, se: SessionKey, t: Topic, fr: Frame)
    ensures GroupPosts(f, [], se, t, fr) == [] && Lists<P>([], {})
  {
  }

  lemma ListsOneMore<P>(order: seq<P>, group: set<P>, rest: set<P>, c: P)
    requires Lists(order, group - rest) && c in rest && rest <= group
    ensures Lists(order + [c], group - (rest - {c}))
  {
    assert group - (rest - {c}) == (group - rest) + {c};
    assert multiset((group - rest) + {c}) == multiset(group - rest) + multiset{c};
  }

  /** Whom a root's interest group holds. */
  lemma GroupMembers(all: set<Pulse>, r: Pulse, k: Key)
    requires Valid(all) && r in all && r.parent == null && k in r.interests
    ensures forall c | c in r.interests[k] :: c in all && c.parent != null && c.root == r
  {
    assert IndexOk(View(all), r, k);
    forall c | c in r.interests[k] ensures c in all && c.parent != null && c.root == r {
      assert c in Listeners(View(all), r, k);
      assert NodeOk(View(all), c);
    }
  }
}
