/** Whom a parent lists, from attaching to stopping, and what that means for its own stop. */
module Children {
  import opened CallLedger
  import opened Options
  import opened PulseForest
  import opened Lifecycle

  // ---- one operation ------------------------------------------------------------------------------

  /** The attachment is one that the parent does not refuse. */
  ghost predicate Joins<P>(f: Forest<P>, op: Op<P>, c: P, p: P) {
    op == Attach(c, p) && p in f && !f[p].isFinal
  }

  ghost predicate Parts<P>(f: Forest<P>, op: Op<P>, c: P) {
    op == StopPulse(c) && c in f && Leaves(f, c)
  }

  /** Attaching lists the child, unless the parent is final, and changes no other pulse's children. */
  lemma AttachLists<P>(f: Forest<P>, c: P, p: P)
    requires c in f && p in f && c != p
    ensures AsChild(f, c, p).Keys == f.Keys && AsChild(f, c, p)[c].parent == Some(p)
    ensures AsChild(f, c, p)[p].children == f[p].children + if f[p].isFinal then {} else {c}
    ensures forall q | q in f && q != p :: AsChild(f, c, p)[q].children == f[q].children
  {
    forall q | q in f
      ensures AsChild(f, c, p).Keys == f.Keys
      ensures AsChild(f, c, p)[q].children == f[q].children + (if q == p && p != c && !f[p].isFinal then {c} else {})
    {
      AttachedAt(f, c, p, q);
    }
    AttachedAt(f, c, p, c);
    hide AsChild;
  }

  /**
   * The first stop of a childless pulse, however deep, takes it off its parent's children; if it was the only
   * one there, the parent can stop then.
   */
  lemma StopUnlists<P>(f: Forest<P>, c: P, p: P)
    requires Inv(f) && c in f && p in f && f[c].parent == Some(p) && !f[c].stopped && f[c].children == {}
    ensures NodeOk(f, c)
    ensures Stop(f, c).Keys == f.Keys && Stop(f, c)[p].children == f[p].children - {c} && Stop(f, c)[c].stopped
    ensures f[p].children <= {c} ==> !StopRefused(Stop(f, c), p)
  {
    assert NodeOk(f, c);
    ParentOf(f, c);
    StopAt(f, c, p);
    StopAt(f, c, c);
    hide Stop, Inv, NodeOk;
  }

  /** Only a first stop does anything, or is refused. */
  lemma SecondStopDoesNothing<P>(f: Forest<P>, c: P)
    requires Inv(f) && c in f
    ensures NodeOk(f, c)
    ensures f[c].stopped ==> Stop(f, c) == f && !StopRefused(f, c)
    ensures c in Stop(f, c) && Stop(Stop(f, c), c) == Stop(f, c) && !StopRefused(Stop(f, c), c)
  {
    assert NodeOk(f, c);
    ParentOf(f, c);
    StopAt(f, c, c);
    StopKeepsInv(f, c);
    hide Inv, NodeOk, Unbind;
  }

  lemma OpKeepsChildren<P>(f: Forest<P>, op: Op<P>, p: P)
    requires Inv(f) && Enabled(f, op) && p in f
    ensures var g := Apply(f, op);
      && p in g
      && g[p].children == f[p].children + (if Joins(f, op, op.p, p) then {op.p} else {})
                        - (if Parts(f, op, op.p) && f[op.p].parent == Some(p) then {op.p} else {})
      && g[p].isFinal == (f[p].isFinal || op == MarkFinal(p))
      && g[p].stopped == (f[p].stopped || op == StopPulse(p))
  {
    assert op.p in f ==> NodeOk(f, op.p);
    hide Inv, NodeOk;
    match op
    case Attach(c, q) =>
      AttachedAt(f, c, q, p);
      hide AsChild;
    case StopPulse(q) =>
      ParentOf(f, q);
      StopAt(f, q, p);
      hide Stop;
    case Sub(q, t, id) =>
      SubscribeKeepsRest(f, q, t, User(id), p);
      hide Subscribe, Leaves;
    case Call(q, req, res, failure) =>
      CallKeepsRest(f, q, req, res, failure, p);
      hide CallOp, Leaves;
    case _ =>
      hide Leaves;
  }

  // ---- runs ---------------------------------------------------------------------------------------

  ghost predicate PartsDuring<P>(f: Forest<P>, ops: seq<Op<P>>, c: P)
    decreases |ops|
  {
    && ops != [] && Inv(f) && Enabled(f, ops[0])
    && (Parts(f, ops[0], c) || PartsDuring(Apply(f, ops[0]), ops[1..], c))
  }

  /** At some point of the run `c` is attached to `p`, not refused, and does not part later. */
  ghost predicate JoinsForGood<P>(f: Forest<P>, ops: seq<Op<P>>, c: P, p: P)
    decreases |ops|
  {
    && ops != [] && Inv(f) && Enabled(f, ops[0])
    && (var g := Apply(f, ops[0]);
        || (Joins(f, ops[0], c, p) && !PartsDuring(g, ops[1..], c))
        || JoinsForGood(g, ops[1..], c, p))
  }

  ghost predicate Listed<P>(f: Forest<P>, c: P, p: P) {
    p in f && c in f[p].children
  }

  lemma StepListedIff<P>(f: Forest<P>, op: Op<P>, c: P, p: P)
    requires Inv(f) && Enabled(f, op)
    ensures Listed(Apply(f, op), c, p) <==> (Listed(f, c, p) && !Parts(f, op, c)) || Joins(f, op, c, p)
  {
    OnlyNewAdds(f, op);
    if p in f {
      OpKeepsChildren(f, op, p);
      if Listed(f, c, p) {
        assert NodeOk(f, p) && PlaceOk(f, p);
      }
      assert !(op.Attach? && op.StopPulse?);
    } else {
      assert op.New? ==> Apply(f, op)[op.p] == NewNode(op.p);
    }
    hide Inv, Apply;
  }

  /**
   * On every run, a parent lists exactly the pulses attached to it and not refused that have not had a
   * childless first stop since, in whatever depth and order it all happened.
   */
  lemma {:induction false} ListedIff<P>(f: Forest<P>, ops: seq<Op<P>>, g: Forest<P>, c: P, p: P)
    requires Inv(f) && Reaches(f, ops, g)
    ensures Listed(g, c, p) <==> (Listed(f, c, p) && !PartsDuring(f, ops, c)) || JoinsForGood(f, ops, c, p)
    decreases |ops|
  {
    if ops != [] {
      ApplyKeepsInv(f, ops[0]);
      StepListedIff(f, ops[0], c, p);
      ListedIff(Apply(f, ops[0]), ops[1..], g, c, p);
      hide Inv, Listed, Joins, Parts, Enabled, Apply;
    }
  }

  /** So the first stop of a pulse is refused exactly when somebody joined it for good. */
  lemma StopRefusedIff<P>(ops: seq<Op<P>>, g: Forest<P>, p: P)
    requires Reaches(map[], ops, g) && p in g && !g[p].stopped
    ensures StopRefused(g, p) <==> exists c :: JoinsForGood(map[], ops, c, p)
  {
    EmptyKeepsInv<P>();
    hide Inv, JoinsForGood, PartsDuring, Reaches;
    forall c ensures c in g[p].children <==> JoinsForGood(map[], ops, c, p) {
      ListedIff(map[], ops, g, c, p);
    }
    if c :| c in g[p].children {
      assert JoinsForGood(map[], ops, c, p);
    }
  }

  /** Once marked final a pulse refuses every child to come: it never lists more than it does then. */
  lemma {:induction false} FinalRefuses<P>(f: Forest<P>, ops: seq<Op<P>>, g: Forest<P>, p: P)
    requires Inv(f) && p in f && f[p].isFinal && Reaches(f, ops, g)
    ensures p in g && g[p].isFinal && g[p].children <= f[p].children
    decreases |ops|
  {
    if ops != [] {
      ApplyKeepsInv(f, ops[0]);
      OpKeepsChildren(f, ops[0], p);
      FinalRefuses(Apply(f, ops[0]), ops[1..], g, p);
      hide Inv, Apply, Enabled;
    }
  }
}
