/**
 * What the root's index is for: a published frame reaches exactly the subscriptions that a walk over
 * every pulse would find, without the walk.
 */
module Broadcast {
  import opened CallLedger
  import opened Options
  import opened PulseForest

  // ---- the naive walk ---------------------------------------------------------------------------

  /** A subscription that a frame on (se, t) is meant for, at pulse `p` of the tree rooted at `r`. */
  predicate Hears<P(==)>(f: Forest<P>, r: P, p: P, s: Subscription, se: SessionKey, t: Topic)
    requires p in f
  {
    (s.session == NO_SESSION || s.session == se) && (p == r || Key(s.session, t) in f[p].live)
  }

  /** Descendants get the session they subscribed for, so a session-blind one gets none; the root gets the frame's. */
  function NaivePosts<P(==)>(f: Forest<P>, r: P, p: P, subs: seq<Subscription>, se: SessionKey, t: Topic,
                             fr: Frame): seq<Task<P>>
    requires p in f
  {
    if subs == [] then [] else
    var last := subs[|subs| - 1];
    NaivePosts(f, r, p, subs[..|subs| - 1], se, t, fr)
      + if Hears(f, r, p, last, se, t) then
          [Deliver(p, f[p].strand, last.cb, if p == r then se else last.session, fr)]
        else []
  }

  function NaiveWalk<P(==)>(f: Forest<P>, r: P, order: seq<P>, se: SessionKey, t: Topic, fr: Frame): seq<Task<P>>
    requires forall p | p in order :: p in f
  {
    if order == [] then [] else
    var last := order[|order| - 1];
    NaiveWalk(f, r, order[..|order| - 1], se, t, fr) + NaivePosts(f, r, last, SubsOn(f[last].subs, t), se, t, fr)
  }

  ghost function TreeOf<P>(f: Forest<P>, r: P): set<P> {
    set p | p in f && f[p].root == r
  }

  // ---- what each pulse gets ---------------------------------------------------------------------

  function OfOwner<P(==)>(ts: seq<Task<P>>, p: P): seq<Task<P>> {
    if ts == [] then [] else
    var last := ts[|ts| - 1];
    OfOwner(ts[..|ts| - 1], p) + if last.owner == p then [last] else []
  }

  /** The part of a broadcast that pulse `p` posts, in order. */
  function PulsePosts<P(==)>(f: Forest<P>, r: P, p: P, se: SessionKey, t: Topic, fr: Frame): seq<Task<P>>
    requires r in f
  {
    var below := p in f && p != r && f[p].root == r;
    (if p == r then OwnPosts(f, r, se, t, fr, false) else [])
      + (if below && Key(NO_SESSION, t) in f[p].live then OwnPosts(f, p, NO_SESSION, t, fr, true) else [])
      + (if below && se != NO_SESSION && Key(se, t) in f[p].live then OwnPosts(f, p, se, t, fr, true) else [])
  }

  lemma {:induction false} OfOwnerConcat<P>(a: seq<Task<P>>, b: seq<Task<P>>, p: P)
    ensures OfOwner(a + b, p) == OfOwner(a, p) + OfOwner(b, p)
  {
    if b == [] {
      assert a + b == a;
    } else {
      assert (a + b)[..|a + b| - 1] == a + b[..|b| - 1];
      OfOwnerConcat(a, b[..|b| - 1], p);
    }
  }

  lemma {:induction false} OfOwnerAll<P>(ts: seq<Task<P>>, owner: P, p: P)
    requires forall x | x in ts :: x.owner == owner
    ensures OfOwner(ts, p) == if p == owner then ts else []
  {
    if ts != [] {
      OfOwnerAll(ts[..|ts| - 1], owner, p);
      assert ts == ts[..|ts| - 1] + [ts[|ts| - 1]];
    }
  }

  lemma {:induction false} OfOwnerCounts<P>(ts: seq<Task<P>>, x: Task<P>)
    ensures multiset(OfOwner(ts, x.owner))[x] == multiset(ts)[x]
  {
    if ts != [] {
      var init, last := ts[..|ts| - 1], ts[|ts| - 1];
      assert ts == init + [last];
      OfOwnerCounts(init, x);
    }
  }

  lemma {:induction false} PostsOwned<P>(p: P, strand: nat, subs: seq<Subscription>, se: SessionKey, fr: Frame,
                                         fromRoot: bool)
    ensures forall x | x in Posts(p, strand, subs, se, fr, fromRoot) :: x.owner == p
  {
    if subs != [] {
      PostsOwned(p, strand, subs[..|subs| - 1], se, fr, fromRoot);
    }
  }

  lemma {:induction false} NaivePostsOwned<P>(f: Forest<P>, r: P, p: P, subs: seq<Subscription>, se: SessionKey,
                                              t: Topic, fr: Frame)
    requires p in f
    ensures forall x | x in NaivePosts(f, r, p, subs, se, t, fr) :: x.owner == p
  {
    if subs != [] {
      NaivePostsOwned(f, r, p, subs[..|subs| - 1], se, t, fr);
    }
  }

  /** Dropping the last of a listing lists the set without it. */
  lemma ListsInit<P>(order: seq<P>, s: set<P>)
    requires Lists(order, s)
    ensures forall p :: p in order <==> p in s
    ensures order != [] ==>
      var last := order[|order| - 1];
      last in s && Lists(order[..|order| - 1], s - {last})
  {
    if order != [] {
      var init, last := order[..|order| - 1], order[|order| - 1];
      assert order == init + [last];
      assert last in multiset(order);
      assert multiset(s - {last}) == multiset(s) - multiset{last};
    }
    forall p ensures p in order <==> p in s {
      assert p in multiset(order) <==> p in multiset(s);
    }
  }

  lemma {:induction false} GroupOfOwner<P>(f: Forest<P>, group: seq<P>, s: set<P>, se: SessionKey, t: Topic, fr: Frame,
                                           p: P)
    requires Lists(group, s) && forall c | c in group :: c in f
    ensures p in s ==> p in f
    ensures OfOwner(GroupPosts(f, group, se, t, fr), p) == if p in s then OwnPosts(f, p, se, t, fr, true) else []
  {
    ListsInit(group, s);
    if group != [] {
      var init, last := group[..|group| - 1], group[|group| - 1];
      GroupOfOwner(f, init, s - {last}, se, t, fr, p);
      var own := OwnPosts(f, last, se, t, fr, true);
      PostsOwned(last, f[last].strand, SubsOn(f[last].subs, t), se, fr, true);
      OfOwnerAll(own, last, p);
      OfOwnerConcat(GroupPosts(f, init, se, t, fr), own, p);
    }
  }

  lemma {:induction false} WalkOfOwner<P>(f: Forest<P>, r: P, order: seq<P>, s: set<P>, se: SessionKey, t: Topic,
                                          fr: Frame, p: P)
    requires Lists(order, s) && forall c | c in order :: c in f
    ensures p in s ==> p in f
    ensures OfOwner(NaiveWalk(f, r, order, se, t, fr), p)
         == if p in s then NaivePosts(f, r, p, SubsOn(f[p].subs, t), se, t, fr) else []
  {
    ListsInit(order, s);
    if order != [] {
      var init, last := order[..|order| - 1], order[|order| - 1];
      WalkOfOwner(f, r, init, s - {last}, se, t, fr, p);
      var own := NaivePosts(f, r, last, SubsOn(f[last].subs, t), se, t, fr);
      NaivePostsOwned(f, r, last, SubsOn(f[last].subs, t), se, t, fr);
      OfOwnerAll(own, last, p);
      OfOwnerConcat(NaiveWalk(f, r, init, se, t, fr), own, p);
    }
  }

  lemma PartsOfOwner<P>(f: Forest<P>, r: P, se: SessionKey, t: Topic, fr: Frame,
                        g0: seq<P>, g1: seq<P>, posts: seq<Task<P>>, p: P)
    requires r in f && (forall c | c in g0 :: c in f) && forall c | c in g1 :: c in f
    requires Dispatched(f, r, se, t, fr, g0, g1, posts)
    ensures OfOwner(posts, p)
         == (if p == r then OwnPosts(f, r, se, t, fr, false) else [])
            + OfOwner(GroupPosts(f, g0, NO_SESSION, t, fr), p) + OfOwner(GroupPosts(f, g1, se, t, fr), p)
  {
    hide Posts, GroupPosts, OfOwner, Interested, Lists;
    var own := OwnPosts(f, r, se, t, fr, false);
    var d0, d1 := GroupPosts(f, g0, NO_SESSION, t, fr), GroupPosts(f, g1, se, t, fr);
    PostsOwned(r, f[r].strand, SubsOn(f[r].subs, t), se, fr, false);
    OfOwnerAll(own, r, p);
    OfOwnerConcat(own, d0, p);
    OfOwnerConcat(own + d0, d1, p);
  }

  lemma GroupsOfOwner<P>(f: Forest<P>, r: P, se: SessionKey, t: Topic, fr: Frame,
                         g0: seq<P>, g1: seq<P>, posts: seq<Task<P>>, p: P)
    requires r in f && (forall c | c in g0 :: c in f) && forall c | c in g1 :: c in f
    requires Dispatched(f, r, se, t, fr, g0, g1, posts)
    ensures var s0, s1 := Interested(f[r], Key(NO_SESSION, t)), Interested(f[r], Key(se, t));
      && (p in s0 ==> p in f) && (se != NO_SESSION && p in s1 ==> p in f)
      && OfOwner(posts, p)
         == (if p == r then OwnPosts(f, r, se, t, fr, false) else [])
            + (if p in s0 then OwnPosts(f, p, NO_SESSION, t, fr, true) else [])
            + (if se != NO_SESSION && p in s1 then OwnPosts(f, p, se, t, fr, true) else [])
  {
    hide Posts, GroupPosts, OfOwner, Interested, Lists;
    PartsOfOwner(f, r, se, t, fr, g0, g1, posts, p);
    GroupOfOwner(f, g0, Interested(f[r], Key(NO_SESSION, t)), NO_SESSION, t, fr, p);
    GroupOfOwner(f, g1, if se == NO_SESSION then {} else Interested(f[r], Key(se, t)), se, t, fr, p);
  }

  /** Every pulse's share of what a dispatch posts, in the order posted. */
  lemma DispatchReachesEachPulse<P>(f: Forest<P>, r: P, se: SessionKey, t: Topic, fr: Frame,
                                    g0: seq<P>, g1: seq<P>, posts: seq<Task<P>>, p: P)
    requires Inv(f) && r in f && f[r].parent == None
    requires (forall c | c in g0 :: c in f) && forall c | c in g1 :: c in f
    requires Dispatched(f, r, se, t, fr, g0, g1, posts)
    ensures OfOwner(posts, p) == PulsePosts(f, r, p, se, t, fr)
  {
    GroupsOfOwner(f, r, se, t, fr, g0, g1, posts, p);
    InterestedIff(f, r, Key(NO_SESSION, t), p);
    InterestedIff(f, r, Key(se, t), p);
    hide Inv, Dispatched, Interested, OfOwner, OwnPosts, Posts;
  }

  lemma InterestedIff<P>(f: Forest<P>, r: P, k: Key, p: P)
    requires Inv(f) && r in f && f[r].parent == None
    ensures p in Interested(f[r], k) <==> p in f && p != r && f[p].root == r && k in f[p].live
  {
    assert IndexOk(f, r, k);
  }

  lemma PostsSnoc<P>(p: P, strand: nat, init: seq<Subscription>, last: Subscription, se: SessionKey, fr: Frame)
    ensures multiset(Posts(p, strand, init + [last], se, fr, true))
         == multiset(Posts(p, strand, init, se, fr, true))
            + if last.session == se then multiset{Deliver(p, strand, last.cb, se, fr)} else multiset{}
  {
    assert (init + [last])[..|init|] == init;
  }

  lemma NaiveSnoc<P>(f: Forest<P>, r: P, p: P, init: seq<Subscription>, last: Subscription, se: SessionKey, t: Topic,
                     fr: Frame)
    requires p in f && p != r
    ensures multiset(NaivePosts(f, r, p, init + [last], se, t, fr))
         == multiset(NaivePosts(f, r, p, init, se, t, fr))
            + if Hears(f, r, p, last, se, t) then multiset{Deliver(p, f[p].strand, last.cb, last.session, fr)}
              else multiset{}
  {
    assert (init + [last])[..|init|] == init;
  }

  /** What the subscriptions bound to session `k` post, if the root knows of that interest. */
  ghost function Share<P>(f: Forest<P>, p: P, subs: seq<Subscription>, k: SessionKey, t: Topic,
                          fr: Frame): multiset<Task<P>>
    requires p in f
  {
    if Key(k, t) in f[p].live then multiset(Posts(p, f[p].strand, subs, k, fr, true)) else multiset{}
  }

  lemma ShareSnoc<P>(f: Forest<P>, p: P, init: seq<Subscription>, last: Subscription, k: SessionKey, t: Topic,
                     fr: Frame)
    requires p in f
    ensures Share(f, p, init + [last], k, t, fr)
         == Share(f, p, init, k, t, fr)
            + if Key(k, t) in f[p].live && last.session == k then multiset{Deliver(p, f[p].strand, last.cb, k, fr)}
              else multiset{}
  {
    PostsSnoc(p, f[p].strand, init, last, k, fr);
  }

  lemma AddToOneShare<T>(a: multiset<T>, b: multiset<T>, x: T, toA: bool, toB: bool)
    requires !(toA && toB)
    ensures a + b + (if toA || toB then multiset{x} else multiset{})
         == (a + if toA then multiset{x} else multiset{}) + (b + if toB then multiset{x} else multiset{})
  {
  }

  /** The session-blind and the session-bound subscriptions of a pulse, posted apart, are all that hear. */
  lemma {:induction false} SplitBySession<P>(f: Forest<P>, r: P, p: P, subs: seq<Subscription>, se: SessionKey,
                                             t: Topic, fr: Frame)
    requires p in f && p != r
    ensures multiset(NaivePosts(f, r, p, subs, se, t, fr))
         == Share(f, p, subs, NO_SESSION, t, fr) + if se != NO_SESSION then Share(f, p, subs, se, t, fr) else multiset{}
  {
    if subs != [] {
      var init, last := subs[..|subs| - 1], subs[|subs| - 1];
      assert subs == init + [last];
      SplitBySession(f, r, p, init, se, t, fr);
      NaiveSnoc(f, r, p, init, last, se, t, fr);
      ShareSnoc(f, p, init, last, NO_SESSION, t, fr);
      ShareSnoc(f, p, init, last, se, t, fr);
      hide Posts, NaivePosts, Share;
      var blind := last.session == NO_SESSION && Key(NO_SESSION, t) in f[p].live;
      var bound := last.session == se && se != NO_SESSION && Key(se, t) in f[p].live;
      var boundShare := if se != NO_SESSION then Share(f, p, init, se, t, fr) else multiset{};
      assert Hears(f, r, p, last, se, t) <==> blind || bound;
      AddToOneShare(Share(f, p, init, NO_SESSION, t, fr), boundShare,
                    Deliver(p, f[p].strand, last.cb, last.session, fr), blind, bound);
    }
  }

  lemma {:induction false} RootHearsItself<P>(f: Forest<P>, r: P, subs: seq<Subscription>, se: SessionKey, t: Topic,
                                              fr: Frame)
    requires r in f
    ensures NaivePosts(f, r, r, subs, se, t, fr) == Posts(r, f[r].strand, subs, se, fr, false)
  {
    if subs != [] {
      RootHearsItself(f, r, subs[..|subs| - 1], se, t, fr);
    }
  }

  lemma PulsePostsAreNaive<P>(f: Forest<P>, r: P, p: P, se: SessionKey, t: Topic, fr: Frame)
    requires r in f && p in f && f[p].root == r
    ensures multiset(PulsePosts(f, r, p, se, t, fr)) == multiset(NaivePosts(f, r, p, SubsOn(f[p].subs, t), se, t, fr))
  {
    if p == r {
      RootHearsItself(f, r, SubsOn(f[r].subs, t), se, t, fr);
    } else {
      SplitBySession(f, r, p, SubsOn(f[p].subs, t), se, t, fr);
    }
  }

  /**
   * The indexed dispatch posts what the naive walk posts, as often: one callback per subscription on
   * the topic, at the root or at a descendant, whose session is 0 or the published one.
   */
  lemma DispatchIsNaiveWalk<P>(f: Forest<P>, r: P, se: SessionKey, t: Topic, fr: Frame,
                               g0: seq<P>, g1: seq<P>, posts: seq<Task<P>>, order: seq<P>)
    requires Inv(f) && r in f && f[r].parent == None
    requires (forall c | c in g0 :: c in f) && (forall c | c in g1 :: c in f) && forall c | c in order :: c in f
    requires Dispatched(f, r, se, t, fr, g0, g1, posts)
    requires Lists(order, TreeOf(f, r))
    ensures multiset(posts) == multiset(NaiveWalk(f, r, order, se, t, fr))
  {
    hide Inv, Dispatched, Lists, NaiveWalk;
    forall x ensures multiset(posts)[x] == multiset(NaiveWalk(f, r, order, se, t, fr))[x] {
      CountsAgree(f, r, se, t, fr, g0, g1, posts, order, x);
    }
    EqualByCounts(multiset(posts), multiset(NaiveWalk(f, r, order, se, t, fr)));
  }

  lemma {:induction false} EqualByCounts<T>(a: multiset<T>, b: multiset<T>)
    requires forall x :: a[x] == b[x]
    ensures a == b
    decreases |a|
  {
    if x :| x in a {
      assert b[x] == a[x] > 0;
      EqualByCounts(a - multiset{x}, b - multiset{x});
      assert b == b - multiset{x} + multiset{x};
    } else if y :| y in b {
      assert false;
    }
  }

  lemma CountsAgree<P>(f: Forest<P>, r: P, se: SessionKey, t: Topic, fr: Frame,
                       g0: seq<P>, g1: seq<P>, posts: seq<Task<P>>, order: seq<P>, x: Task<P>)
    requires Inv(f) && r in f && f[r].parent == None
    requires (forall c | c in g0 :: c in f) && (forall c | c in g1 :: c in f) && forall c | c in order :: c in f
    requires Dispatched(f, r, se, t, fr, g0, g1, posts)
    requires Lists(order, TreeOf(f, r))
    ensures multiset(posts)[x] == multiset(NaiveWalk(f, r, order, se, t, fr))[x]
  {
    var p := x.owner;
    assert NodeOk(f, r);
    assert r in TreeOf(f, r);
    hide Inv, Dispatched, Lists, NaiveWalk, OfOwner, Posts, NaivePosts;
    OfOwnerCounts(posts, x);
    OfOwnerCounts(NaiveWalk(f, r, order, se, t, fr), x);
    DispatchReachesEachPulse(f, r, se, t, fr, g0, g1, posts, p);
    WalkOfOwner(f, r, order, TreeOf(f, r), se, t, fr, p);
    if p in TreeOf(f, r) {
      PulsePostsAreNaive(f, r, p, se, t, fr);
      assert multiset(OfOwner(posts, p))[x] == multiset(OfOwner(NaiveWalk(f, r, order, se, t, fr), p))[x];
    } else {
      assert PulsePosts(f, r, p, se, t, fr) == [];
      assert OfOwner(posts, p) == [];
      assert OfOwner(NaiveWalk(f, r, order, se, t, fr), p) == [];
    }
    assert multiset(OfOwner(posts, p))[x] == multiset(OfOwner(NaiveWalk(f, r, order, se, t, fr), p))[x];
    assert multiset(OfOwner(posts, p))[x] == multiset(posts)[x];
    assert multiset(OfOwner(NaiveWalk(f, r, order, se, t, fr), p))[x]
        == multiset(NaiveWalk(f, r, order, se, t, fr))[x];
  }
}
