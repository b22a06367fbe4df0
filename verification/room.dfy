/** room_actor: reservations, check-ins and leaves against a capacity. */
module Rooms {
  import opened ActorStore
  import opened ActorContainers
  import opened Options

  datatype ErrorCode = Success | FailRoomFull | FailRoomUserNotFound

  datatype Room = Room(capacity: nat, users: Store, pending: Store)

  const USERS := Has(true, true, false)
  const PENDING := Has(true, false, false)

  function Opened(capacity: nat): Room {
    Room(capacity, Empty(USERS), Empty(PENDING))
  }

  function Held(r: Room): nat {
    |r.users.actors| + |r.pending.actors|
  }

  // ---- operations -------------------------------------------------------------------------------

  /** The user made for a reservation waits under its name. */
  function Reserve(r: Room, user: Actor): Room {
    if Held(r) < r.capacity then r.(pending := Add(r.pending, user)) else r
  }

  /** A check-in makes a new user and drops the one found pending under the name. */
  function CheckIn(r: Room, user: Actor): Room {
    if Find(r.pending, ByName(user.name)) == None then r else
    r.(users := Add(r.users, user), pending := Del(r.pending, ByName(user.name)))
  }

  /** What post_del_user posts. */
  function Leave(r: Room, id: Id): Room {
    r.(users := Del(r.users, ById(id)))
  }

  datatype Step = Reserving(user: Actor) | CheckingIn(user: Actor) | Leaving(id: Id)

  function Apply(r: Room, step: Step): Room {
    match step
    case Reserving(user) => Reserve(r, user)
    case CheckingIn(user) => CheckIn(r, user)
    case Leaving(id) => Leave(r, id)
  }

  function Run(r: Room, steps: seq<Step>): Room
    decreases |steps|
  {
    if |steps| == 0 then r else Run(Apply(r, steps[0]), steps[1..])
  }

  // ---- capacity ---------------------------------------------------------------------------------

  ghost predicate Ok(s: Store) {
    AllSound(s) && Flagged(s)
  }

  /** Never more users and reservations than the capacity, and indexes that are right. */
  ghost predicate InOrder(r: Room) {
    r.users.has == USERS && r.pending.has == PENDING && Ok(r.users) && Ok(r.pending) && Held(r) <= r.capacity
  }

  lemma AddCounts(s: Store, a: Actor)
    requires Ok(s)
    ensures Ok(Add(s, a)) && Add(s, a).has == s.has
    ensures |Add(s, a).actors| == |s.actors| + if a.id in s.actors then 0 else 1
  {
    hide AllSound, Flagged, AllComplete, Linked;
    AddKeeps(s, a);
    if a.id !in s.actors {
      assert s.actors[a.id := a].Keys == s.actors.Keys + {a.id};
      SizeIsKeys(s.actors);
      SizeIsKeys(s.actors[a.id := a]);
    }
  }

  lemma SizeIsKeys(m: map<Id, Actor>)
    ensures |m| == |m.Keys|
  {
  }

  lemma DelCounts(s: Store, via: By)
    requires Ok(s)
    ensures Ok(Del(s, via)) && Del(s, via).has == s.has
    ensures |Del(s, via).actors| == |s.actors| - if Find(s, via) == None then 0 else 1
  {
    ApplyKeepsSound(s, Deleting(via));
    if Find(s, via).Some? {
      FoundIsStored(s, via);
      var a := Find(s, via).value;
      hide AllSound, Flagged, Find;
      assert (s.actors - {a.id}).Keys == s.actors.Keys - {a.id};
      SizeIsKeys(s.actors);
      SizeIsKeys(s.actors - {a.id});
    }
  }

  lemma ApplyKeepsOrder(r: Room, step: Step)
    requires InOrder(r)
    ensures InOrder(Apply(r, step)) && Apply(r, step).capacity == r.capacity
  {
    hide Ok, Add, Del, Find;
    match step
    case Reserving(user) =>
      AddCounts(r.pending, user);
    case CheckingIn(user) =>
      AddCounts(r.users, user);
      DelCounts(r.pending, ByName(user.name));
    case Leaving(id) =>
      DelCounts(r.users, ById(id));
  }

  lemma {:induction false} RunKeepsOrder(r: Room, steps: seq<Step>)
    requires InOrder(r)
    ensures InOrder(Run(r, steps)) && Run(r, steps).capacity == r.capacity
    decreases |steps|
  {
    if |steps| > 0 {
      ApplyKeepsOrder(r, steps[0]);
      RunKeepsOrder(Apply(r, steps[0]), steps[1..]);
    }
  }

  /** On every run of a room, users and reservations together never exceed its capacity. */
  lemma CapacityHolds(capacity: nat, steps: seq<Step>)
    ensures Held(Run(Opened(capacity), steps)) <= capacity
  {
    RunKeepsOrder(Opened(capacity), steps);
  }

  /** A check-in moves one unit from pending to users exactly when it finds the name and its id is fresh. */
  lemma CheckInMovesOneIff(r: Room, user: Actor)
    requires InOrder(r)
    ensures var t := CheckIn(r, user);
      && (|t.users.actors| == |r.users.actors| + 1 && |t.pending.actors| == |r.pending.actors| - 1
          <==> Find(r.pending, ByName(user.name)).Some? && user.id !in r.users.actors)
      && (user.id !in r.users.actors ==> Held(t) == Held(r))
  {
    hide Ok, Add, Del, Find;
    AddCounts(r.users, user);
    DelCounts(r.pending, ByName(user.name));
  }

  /** A reservation takes one unit exactly when there is room and its id is fresh. */
  lemma ReserveTakesOneIff(r: Room, user: Actor)
    requires InOrder(r)
    ensures Held(Reserve(r, user)) == Held(r) + 1 <==> Held(r) < r.capacity && user.id !in r.pending.actors
  {
    hide Ok, Add, Del, Find;
    AddCounts(r.pending, user);
  }

  // ---- who is where -----------------------------------------------------------------------------

  ghost predicate KeysFree(s: Store, a: Actor) {
    forall id | id in s.actors && id != a.id :: s.actors[id].session != a.session && s.actors[id].name != a.name
  }

  /**
   * A check-in that finds the name takes away the very reservation the name led to, and stores the new user
   * under its own id, session and name, unless the id is in use; the user is then found by all of them.
   */
  lemma CheckInStoresUser(r: Room, user: Actor)
    requires InOrder(r) && Find(r.pending, ByName(user.name)).Some?
    ensures var t, waited := CheckIn(r, user), Find(r.pending, ByName(user.name)).value;
      && t.capacity == r.capacity
      && waited.id in r.pending.actors && waited.name == user.name
      && t.pending.actors == r.pending.actors - {waited.id}
      && Find(t.pending, ByName(user.name)) == None
      && (user.id in r.users.actors ==> t.users == r.users)
      && (user.id !in r.users.actors ==>
            && t.users.actors == r.users.actors[user.id := user]
            && Find(t.users, ById(user.id)) == Some(user)
            && (KeysFree(r.users, user) ==>
                  && Find(t.users, BySession(user.session)) == Some(user)
                  && Find(t.users, ByName(user.name)) == Some(user)))
  {
    FoundIsStored(r.pending, ByName(user.name));
  }

  /** A check-in under a name that leads to no reservation changes nothing. */
  lemma CheckInRefused(r: Room, user: Actor)
    requires Find(r.pending, ByName(user.name)) == None
    ensures CheckIn(r, user) == r
  {
  }

  /**
   * A reservation that finds room waits as it is, and is what its name leads to unless another one is; else
   * nothing changes.
   */
  lemma ReserveStoresUser(r: Room, user: Actor)
    requires InOrder(r) && user.id !in r.pending.actors
    ensures var t := Reserve(r, user);
      && t.users == r.users && t.capacity == r.capacity
      && (Held(r) == r.capacity ==> t == r)
      && (Held(r) < r.capacity ==>
            && t.pending.actors == r.pending.actors[user.id := user]
            && Find(t.pending, ByName(user.name))
               == if user.name in r.pending.names then Find(r.pending, ByName(user.name)) else Some(user))
  {
  }

  /** Leaving takes away the user of that id and nobody else. */
  lemma LeaveRemoves(r: Room, id: Id)
    requires InOrder(r)
    ensures Leave(r, id).users.actors == r.users.actors - {id} && Leave(r, id).pending == r.pending
    ensures Leave(r, id).capacity == r.capacity
  {
  }

  /** A reservation that its name leads to. */
  ghost predicate Waits(r: Room, user: Actor) {
    Find(r.pending, ByName(user.name)) == Some(user)
  }

  lemma WaitsOn(r: Room, user: Actor, step: Step)
    requires InOrder(r) && Waits(r, user) && (step.CheckingIn? ==> step.user.name != user.name)
    ensures Waits(Apply(r, step), user)
  {
    match step
    case Reserving(other) =>
    case CheckingIn(other) =>
      if Find(r.pending, ByName(other.name)).Some? {
        FoundIsStored(r.pending, ByName(other.name));
        FoundIsStored(r.pending, ByName(user.name));
      }
    case Leaving(id) =>
  }

  lemma {:induction false} WaitsThroughRun(r: Room, user: Actor, steps: seq<Step>)
    requires InOrder(r) && Waits(r, user) && forall s | s in steps :: s.CheckingIn? ==> s.user.name != user.name
    ensures InOrder(Run(r, steps)) && Waits(Run(r, steps), user)
    decreases |steps|
  {
    if |steps| > 0 {
      assert steps[0] in steps && forall s | s in steps[1..] :: s in steps;
      WaitsOn(r, user, steps[0]);
      ApplyKeepsOrder(r, steps[0]);
      hide InOrder, Waits, Apply;
      WaitsThroughRun(Apply(r, steps[0]), user, steps[1..]);
    }
  }

  /**
   * Who reserved under an unused name while there was room is let in, whatever else happens until that name is
   * checked in.
   */
  lemma ReservedIsLetIn(r: Room, user: Actor, steps: seq<Step>, guest: Actor)
    requires InOrder(r) && Held(r) < r.capacity && user.id !in r.pending.actors && user.name !in r.pending.names
    requires (forall s | s in steps :: s.CheckingIn? ==> s.user.name != user.name) && guest.name == user.name
    ensures var t := Run(Reserve(r, user), steps);
      && Find(t.pending, ByName(guest.name)) == Some(user)
      && (guest.id !in t.users.actors ==>
            && CheckIn(t, guest).users.actors == t.users.actors[guest.id := guest]
            && user.id !in CheckIn(t, guest).pending.actors)
  {
    ReserveStoresUser(r, user);
    ApplyKeepsOrder(r, Reserving(user));
    hide InOrder, Reserve, CheckIn;
    WaitsThroughRun(Reserve(r, user), user, steps);
    var t := Run(Reserve(r, user), steps);
    if guest.id !in t.users.actors {
      CheckInStoresUser(t, guest);
      FoundIs(t, user);
    }
  }

  lemma FoundIs(r: Room, user: Actor)
    requires InOrder(r) && Waits(r, user)
    ensures user.id in r.pending.actors && r.pending.actors[user.id] == user
  {
    FoundIsStored(r.pending, ByName(user.name));
  }

  // ---- reservations that are never released -----------------------------------------------------

  /** A reservation that its name does not lead to. */
  ghost predicate Stranded(r: Room, user: Actor) {
    && user.id in r.pending.actors && r.pending.actors[user.id] == user
    && (user.name in r.pending.names ==> r.pending.names[user.name] != user.id)
  }

  /** A reservation is stranded from the start exactly when the name index has an entry for its name. */
  lemma ReserveStrandsIff(r: Room, user: Actor)
    requires InOrder(r) && Held(r) < r.capacity && user.id !in r.pending.actors
    ensures Stranded(Reserve(r, user), user) <==> user.name in r.pending.names
  {
    assert user.name in r.pending.names ==> r.pending.names[user.name] in r.pending.actors;
  }

  lemma StrandedStays(r: Room, user: Actor, step: Step)
    requires InOrder(r) && Stranded(r, user)
    ensures Stranded(Apply(r, step), user)
  {
    match step
    case Reserving(other) =>
    case CheckingIn(other) =>
      if Find(r.pending, ByName(other.name)).Some? {
        FoundIsStored(r.pending, ByName(other.name));
        assert r.pending.actors[r.pending.names[other.name]].name == other.name;
      }
    case Leaving(id) =>
  }

  /** No run of the room ever releases a stranded reservation: that unit of its capacity is lost. */
  lemma {:induction false} StrandedForever(r: Room, user: Actor, steps: seq<Step>)
    requires InOrder(r) && Stranded(r, user)
    ensures Stranded(Run(r, steps), user) && Held(Run(r, steps)) > 0
    decreases |steps|
  {
    if |steps| > 0 {
      StrandedStays(r, user, steps[0]);
      ApplyKeepsOrder(r, steps[0]);
      StrandedForever(Apply(r, steps[0]), user, steps[1..]);
    }
  }

  // ---- the actor --------------------------------------------------------------------------------

  class RoomActor {
    const capacity: nat
    const users: ActorContainer
    const pending: ActorContainer

    ghost function State(): Room
      reads users, pending, users.Repr(), pending.Repr()
    {
      Room(capacity, users.State(), pending.State())
    }

    ghost predicate Valid()
      reads users, pending, users.Repr(), pending.Repr()
    {
      && users.Valid() && pending.Valid() && users.Repr() !! pending.Repr()
      && InOrder(State())
    }

    constructor (capacity: nat)
      ensures Valid() && State() == Opened(capacity)
    {
      this.capacity := capacity;
      users := new ActorContainer(USERS);
      pending := new ActorContainer(PENDING);
    }

    /** The answer that is sent back. */
    method DoReserve(user: Actor) returns (ec: ErrorCode)
      requires Valid()
      modifies pending.Repr()
      ensures Valid() && State() == Reserve(old(State()), user)
      ensures ec == if Held(old(State())) < capacity then Success else FailRoomFull
    {
      ApplyKeepsOrder(State(), Reserving(user));
      hide InOrder, ActorStore.Add;
      if capacity > |users.actors| + |pending.actors| {
        var added := pending.Add(user);
        return Success;
      }
      return FailRoomFull;
    }

    method DoCheckIn(user: Actor) returns (ec: ErrorCode)
      requires Valid()
      modifies users.Repr(), pending.Repr()
      ensures Valid() && State() == CheckIn(old(State()), user)
      ensures ec == if user.name in old(pending.names.entries) then Success else FailRoomUserNotFound
    {
      ApplyKeepsOrder(State(), CheckingIn(user));
      var found := pending.Find(ByName(user.name));
      if found.Some? {
        hide InOrder, ActorStore.Add, ActorStore.Del;
        var added := users.Add(user);
        pending.Del(ByName(user.name));
        return Success;
      }
      return FailRoomUserNotFound;
    }

    /** The posted lambda of post_del_user. */
    method DelUser(id: Id)
      requires Valid()
      modifies users.Repr()
      ensures Valid() && State() == Leave(old(State()), id)
    {
      ApplyKeepsOrder(State(), Leaving(id));
      hide InOrder, ActorStore.Del;
      users.Del(ById(id));
    }
  }
}
