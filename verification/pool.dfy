/** object_pool: blocks are taken from the heap only when none is pooled. */
module ObjectPools {
  type Block = nat

  /** `live` and `raw` are what the pool itself does not keep: the blocks in use and how many `new` gave. */
  datatype Pool = Pool(pooled: seq<Block>, live: set<Block>, raw: nat, allocs: nat, frees: nat, poolSize: nat)

  const EMPTY := Pool([], {}, 0, 0, 0, 0)

  // ---- operations -------------------------------------------------------------------------------

  /** `given` is what the heap would give. */
  function Construct(p: Pool, given: Block): Pool {
    if |p.pooled| == 0 then p.(live := p.live + {given}, raw := p.raw + 1, allocs := p.allocs + 1)
    else p.(pooled := p.pooled[1..], live := p.live + {p.pooled[0]}, allocs := p.allocs + 1)
  }

  function Release(p: Pool, b: Block): Pool {
    p.(pooled := p.pooled + [b], live := p.live - {b}, frees := p.frees + 1, poolSize := |p.pooled| + 1)
  }

  datatype Event = Constructed(given: Block) | Released(block: Block)

  /** The heap gives no block that is in use or pooled, and an object is destroyed once. */
  predicate Enabled(p: Pool, e: Event) {
    match e
    case Constructed(b) => b !in p.live && b !in p.pooled
    case Released(b) => b in p.live
  }

  function Apply(p: Pool, e: Event): Pool {
    match e
    case Constructed(b) => Construct(p, b)
    case Released(b) => Release(p, b)
  }

  predicate Possible(p: Pool, events: seq<Event>)
    decreases |events|
  {
    |events| > 0 ==> Enabled(p, events[0]) && Possible(Apply(p, events[0]), events[1..])
  }

  function Run(p: Pool, events: seq<Event>): Pool
    decreases |events|
  {
    if |events| == 0 then p else Run(Apply(p, events[0]), events[1..])
  }

  function Max(a: nat, b: nat): nat {
    if a < b then b else a
  }

  /** The most objects that were live at once, from `p` on. */
  function Peak(p: Pool, events: seq<Event>): (n: nat)
    ensures n >= |p.live|
    decreases |events|
  {
    if |events| == 0 then |p.live| else Max(|p.live|, Peak(Apply(p, events[0]), events[1..]))
  }

  // ---- what every run keeps ---------------------------------------------------------------------

  /** No block is pooled twice, or pooled and in use; each came from the heap once; the counters tell. */
  ghost predicate Inv(p: Pool) {
    && (forall i, j | 0 <= i < j < |p.pooled| :: p.pooled[i] != p.pooled[j])
    && (forall i | 0 <= i < |p.pooled| :: p.pooled[i] !in p.live)
    && |p.live| + |p.pooled| == p.raw
    && p.allocs == p.frees + |p.live|
  }

  lemma ApplyKeepsInv(p: Pool, e: Event)
    requires Inv(p) && Enabled(p, e)
    ensures Inv(Apply(p, e)) && |Apply(p, e).live| == if e.Constructed? then |p.live| + 1 else |p.live| - 1
    ensures Apply(p, e).raw == Max(p.raw, |Apply(p, e).live|)
  {
    if e.Released? {
      assert |p.live - {e.block}| == |p.live| - 1;
    } else if |p.pooled| > 0 {
      assert p.pooled[0] !in p.live;
    }
  }

  /** The heap is asked for exactly as many blocks as were ever in use at once, whatever the history. */
  lemma {:induction false} RawIsPeak(p: Pool, events: seq<Event>)
    requires Inv(p) && Possible(p, events)
    ensures Inv(Run(p, events)) && Run(p, events).raw == Max(p.raw, Peak(p, events))
    decreases |events|
  {
    if |events| > 0 {
      ApplyKeepsInv(p, events[0]);
      RawIsPeak(Apply(p, events[0]), events[1..]);
    }
  }

  lemma PoolFromStart(events: seq<Event>)
    requires Possible(EMPTY, events)
    ensures var p := Run(EMPTY, events);
      && Inv(p) && p.raw == Peak(EMPTY, events) && p.allocs - p.frees == |p.live|
  {
    RawIsPeak(EMPTY, events);
  }

  // ---- which block comes back ---------------------------------------------------------------------

  /** The block released, if one is. */
  function Given(e: Event): seq<Block> {
    if e.Released? then [e.block] else []
  }

  /** The pooled block that comes into use again, if one does. */
  function Taken(p: Pool, e: Event): seq<Block> {
    if e.Constructed? && |p.pooled| > 0 then [p.pooled[0]] else []
  }

  function Returned(events: seq<Event>): seq<Block>
    decreases |events|
  {
    if |events| == 0 then [] else Given(events[0]) + Returned(events[1..])
  }

  function Handed(p: Pool, events: seq<Event>): seq<Block>
    decreases |events|
  {
    if |events| == 0 then [] else Taken(p, events[0]) + Handed(Apply(p, events[0]), events[1..])
  }

  lemma StepFirstInFirstOut(p: Pool, e: Event)
    ensures p.pooled + Given(e) == Taken(p, e) + Apply(p, e).pooled
  {
  }

  lemma Regroup(a: seq<Block>, b: seq<Block>, c: seq<Block>)
    ensures a + b + c == a + (b + c)
  {
  }

  /**
   * First in, first out: on every history the blocks handed out again, and then those still pooled, are those
   * returned, in that order.
   */
  lemma {:induction false} FirstInFirstOut(p: Pool, events: seq<Event>)
    ensures p.pooled + Returned(events) == Handed(p, events) + Run(p, events).pooled
    decreases |events|
  {
    if |events| > 0 {
      var e, q := events[0], Apply(p, events[0]);
      FirstInFirstOut(q, events[1..]);
      StepFirstInFirstOut(p, e);
      hide Given, Taken, Apply;
      Regroup(p.pooled, Given(e), Returned(events[1..]));
      Regroup(Taken(p, e), q.pooled, Returned(events[1..]));
      Regroup(Taken(p, e), Handed(q, events[1..]), Run(q, events[1..]).pooled);
    }
  }

  /** A construction makes live the block that has been pooled longest, and one from the heap only if none is. */
  lemma ConstructMakesLive(p: Pool, given: Block)
    requires Inv(p) && Enabled(p, Constructed(given))
    ensures Construct(p, given).live == p.live + {if |p.pooled| > 0 then p.pooled[0] else given}
    ensures Construct(p, given).raw == if |p.pooled| > 0 then p.raw else p.raw + 1
  {
  }

  function Count(events: seq<Event>, constructed: bool): nat {
    if |events| == 0 then 0 else
    Count(events[..|events| - 1], constructed) + if events[|events| - 1].Constructed? == constructed then 1 else 0
  }

  /** The two counters count constructions and releases. */
  lemma {:induction false} CountersCount(events: seq<Event>)
    ensures Run(EMPTY, events).allocs == Count(events, true) && Run(EMPTY, events).frees == Count(events, false)
  {
    if |events| > 0 {
      var before := events[..|events| - 1];
      CountersCount(before);
      assert events == before + [events[|events| - 1]];
      RunSnoc(EMPTY, before, events[|events| - 1]);
    }
  }

  lemma {:induction false} RunSnoc(p: Pool, events: seq<Event>, e: Event)
    ensures Run(p, events + [e]) == Apply(Run(p, events), e)
    decreases |events|
  {
    if |events| > 0 {
      assert (events + [e])[1..] == events[1..] + [e];
      RunSnoc(Apply(p, events[0]), events[1..], e);
    } else {
      assert events + [e] == [e] && [e][1..] == [];
    }
  }

  /** How many pooled blocks were reused since the last release. */
  function Reused(p: Pool, events: seq<Event>, since: nat): nat
    decreases |events|
  {
    if |events| == 0 then since else
    Reused(Apply(p, events[0]), events[1..],
           if events[0].Released? then 0 else if p.pooled == [] then since else since + 1)
  }

  /** At every point of every history the reported size is too large by the blocks reused since the last release. */
  lemma {:induction false} PoolSizeLags(p: Pool, events: seq<Event>, since: nat)
    requires p.poolSize == |p.pooled| + since
    ensures Run(p, events).poolSize == |Run(p, events).pooled| + Reused(p, events, since)
    decreases |events|
  {
    if |events| > 0 {
      PoolSizeLags(Apply(p, events[0]), events[1..],
                   if events[0].Released? then 0 else if p.pooled == [] then since else since + 1);
    }
  }

  /** So from the start it is right exactly when no pooled block was reused since the last release. */
  lemma PoolSizeIsRightIff(events: seq<Event>)
    ensures var p := Run(EMPTY, events);
      && p.poolSize == |p.pooled| + Reused(EMPTY, events, 0)
      && (p.poolSize == |p.pooled| <==> Reused(EMPTY, events, 0) == 0)
  {
    PoolSizeLags(EMPTY, events, 0);
  }

  // ---- the pool ---------------------------------------------------------------------------------

  class ObjectPool {
    var pooled: seq<Block>
    var allocCount: nat
    var freeCount: nat
    var poolSize: nat
    ghost var live: set<Block>
    ghost var raw: nat

    ghost function State(): Pool
      reads this
    {
      Pool(pooled, live, raw, allocCount, freeCount, poolSize)
    }

    constructor ()
      ensures State() == EMPTY
    {
      pooled, allocCount, freeCount, poolSize := [], 0, 0, 0;
      live, raw := {}, 0;
    }

    method Construct(given: Block) returns (b: Block)
      requires Inv(State()) && Enabled(State(), Constructed(given))
      modifies this
      ensures Inv(State()) && State() == Apply(old(State()), Constructed(given))
      ensures b !in old(live) && live == old(live) + {b}
      ensures old(pooled) != [] ==> b == old(pooled[0])
    {
      ApplyKeepsInv(State(), Constructed(given));
      allocCount := allocCount + 1;
      if |pooled| == 0 {
        b := given;
        raw := raw + 1;
      } else {
        b := pooled[0];
        pooled := pooled[1..];
      }
      live := live + {b};
    }

    /** The deleter destroys the object and hands the block back. */
    method Release(b: Block)
      requires Inv(State()) && b in live
      modifies this
      ensures Inv(State()) && State() == Apply(old(State()), Released(b))
    {
      ApplyKeepsInv(State(), Released(b));
      freeCount := freeCount + 1;
      pooled := pooled + [b];
      poolSize := |pooled|;
      live := live - {b};
    }
  }
}
