/** actor_container: actors by id, with up to three secondary indexes that must agree with a scan. */
module ActorStore {
  import opened Options

  type Id = nat
  type SessionKey = nat
  datatype Uuid = Uuid(value: nat)

  /** The keys an actor keeps while it is stored. */
  datatype Actor = Actor(id: Id, name: string, session: SessionKey, uuid: Uuid)

  /** The template flags HasName, HasSession and HasUuid. */
  datatype Has = Has(name: bool, session: bool, uuid: bool)

  datatype Store = Store(has: Has, actors: map<Id, Actor>,
                         names: map<string, Id>, sessions: map<SessionKey, Id>, uuids: map<Uuid, Id>)

  /** Which key del and find go by. */
  datatype By = ById(id: Id) | ByName(name: string) | BySession(session: SessionKey) | ByUuid(uuid: Uuid)

  // ---- operations -------------------------------------------------------------------------------

  function Empty(has: Has): Store {
    Store(has, map[], map[], map[], map[])
  }

  /** index::link: the first id linked under a key stays. */
  function Linked<K>(has: bool, index: map<K, Id>, k: K, id: Id): map<K, Id> {
    if has && k !in index then index[k := id] else index
  }

  function Unlinked<K>(has: bool, index: map<K, Id>, k: K): map<K, Id> {
    if has then index - {k} else index
  }

  function Add(s: Store, a: Actor): Store {
    if a.id in s.actors then s else
    s.(actors := s.actors[a.id := a],
       names := Linked(s.has.name, s.names, a.name, a.id),
       sessions := Linked(s.has.session, s.sessions, a.session, a.id),
       uuids := Linked(s.has.uuid, s.uuids, a.uuid, a.id))
  }

  function IndexFind<K>(actors: map<Id, Actor>, index: map<K, Id>, k: K): Option<Actor> {
    if k in index && index[k] in actors then Some(actors[index[k]]) else None
  }

  function Find(s: Store, via: By): Option<Actor> {
    match via
    case ById(id) => if id in s.actors then Some(s.actors[id]) else None
    case ByName(name) => IndexFind(s.actors, s.names, name)
    case BySession(session) => IndexFind(s.actors, s.sessions, session)
    case ByUuid(uuid) => IndexFind(s.actors, s.uuids, uuid)
  }

  /** The found actor goes, and with it whatever is linked under its keys. */
  function Erased(s: Store, a: Actor): Store {
    s.(actors := s.actors - {a.id},
       names := Unlinked(s.has.name, s.names, a.name),
       sessions := Unlinked(s.has.session, s.sessions, a.session),
       uuids := Unlinked(s.has.uuid, s.uuids, a.uuid))
  }

  function Del(s: Store, via: By): Store {
    match Find(s, via)
    case None => s
    case Some(a) => Erased(s, a)
  }

  // ---- agreement with a scan --------------------------------------------------------------------

  function NameOf(a: Actor): string { a.name }
  function SessionOf(a: Actor): SessionKey { a.session }
  function UuidOf(a: Actor): Uuid { a.uuid }

  predicate Keyed(actors: map<Id, Actor>) {
    forall id | id in actors :: actors[id].id == id
  }

  /** Every entry names a stored actor that has the key. */
  ghost predicate Sound<K(!new)>(actors: map<Id, Actor>, index: map<K, Id>, key: Actor -> K) {
    forall k | k in index :: index[k] in actors && key(actors[index[k]]) == k
  }

  /** Every stored actor's key has an entry. */
  ghost predicate Complete<K(!new)>(actors: map<Id, Actor>, index: map<K, Id>, key: Actor -> K) {
    forall id | id in actors :: key(actors[id]) in index
  }

  ghost predicate Distinct<K(!new)>(actors: map<Id, Actor>, key: Actor -> K) {
    forall i, j | i in actors && j in actors && key(actors[i]) == key(actors[j]) :: i == j
  }

  ghost predicate AllSound(s: Store) {
    && Keyed(s.actors)
    && Sound(s.actors, s.names, NameOf) && Sound(s.actors, s.sessions, SessionOf) && Sound(s.actors, s.uuids, UuidOf)
  }

  /** What the indexes the store has are worth. */
  ghost predicate AllComplete(s: Store) {
    && (s.has.name ==> Complete(s.actors, s.names, NameOf))
    && (s.has.session ==> Complete(s.actors, s.sessions, SessionOf))
    && (s.has.uuid ==> Complete(s.actors, s.uuids, UuidOf))
  }

  ghost predicate AllDistinct(s: Store) {
    && (s.has.name ==> Distinct(s.actors, NameOf))
    && (s.has.session ==> Distinct(s.actors, SessionOf))
    && (s.has.uuid ==> Distinct(s.actors, UuidOf))
  }

  lemma LinkKeepsSound<K(!new)>(has: bool, actors: map<Id, Actor>, index: map<K, Id>, key: Actor -> K, a: Actor)
    requires Sound(actors, index, key) && a.id !in actors
    ensures Sound(actors[a.id := a], Linked(has, index, key(a), a.id), key)
    ensures has && Complete(actors, index, key) ==> Complete(actors[a.id := a], Linked(has, index, key(a), a.id), key)
  {
    var more, linked := actors[a.id := a], Linked(has, index, key(a), a.id);
    forall k | k in linked ensures linked[k] in more && key(more[linked[k]]) == k {
      assert k in index ==> index[k] in actors;
    }
  }

  /** Erasing by key leaves no entry for the erased actor, but may drop one that leads to another. */
  lemma UnlinkKeepsSound<K(!new)>(has: bool, actors: map<Id, Actor>, index: map<K, Id>, key: Actor -> K, a: Actor)
    requires Sound(actors, index, key) && a.id in actors && actors[a.id] == a && (!has ==> index == map[])
    ensures Sound(actors - {a.id}, Unlinked(has, index, key(a)), key)
  {
    var fewer, unlinked := actors - {a.id}, Unlinked(has, index, key(a));
    forall k | k in unlinked ensures unlinked[k] in fewer && key(fewer[unlinked[k]]) == k {
      assert index[k] in actors && key(actors[index[k]]) == k;
    }
  }

  /** An index stays complete over an erasure exactly when no other stored actor shares the key. */
  lemma UnlinkKeepsCompleteIff<K(!new)>(actors: map<Id, Actor>, index: map<K, Id>, key: Actor -> K, a: Actor)
    requires Sound(actors, index, key) && Complete(actors, index, key) && a.id in actors && actors[a.id] == a
    ensures Complete(actors - {a.id}, Unlinked(true, index, key(a)), key)
      <==> forall id | id in actors && id != a.id :: key(actors[id]) != key(a)
  {
    var fewer, unlinked := actors - {a.id}, Unlinked(true, index, key(a));
    if Complete(fewer, unlinked, key) {
      forall id | id in actors && id != a.id ensures key(actors[id]) != key(a) {
        assert id in fewer;
      }
    }
  }

  /** Looking a key up finds every actor a scan finds exactly when the index is complete. */
  lemma FindIsScanIff<K(!new)>(actors: map<Id, Actor>, index: map<K, Id>, key: Actor -> K)
    requires Sound(actors, index, key)
    ensures (forall k :: IndexFind(actors, index, k) == None <==> forall id | id in actors :: key(actors[id]) != k)
      <==> Complete(actors, index, key)
    ensures forall k :: IndexFind(actors, index, k).Some? ==>
      var a := IndexFind(actors, index, k).value; a in actors.Values && key(a) == k
  {
    if Complete(actors, index, key) {
      forall k ensures IndexFind(actors, index, k) == None <==> forall id | id in actors :: key(actors[id]) != k {
        if k in index {
          assert key(actors[index[k]]) == k;
        }
      }
    } else {
      var id :| id in actors && key(actors[id]) !in index;
      assert IndexFind(actors, index, key(actors[id])) == None;
    }
  }

  // ---- runs -------------------------------------------------------------------------------------

  datatype Op = Adding(actor: Actor) | Deleting(via: By)

  function Apply(s: Store, op: Op): Store {
    match op
    case Adding(a) => Add(s, a)
    case Deleting(via) => Del(s, via)
  }

  function Run(s: Store, ops: seq<Op>): Store
    decreases |ops|
  {
    if |ops| == 0 then s else Run(Apply(s, ops[0]), ops[1..])
  }

  ghost predicate Flagged(s: Store) {
    && (!s.has.name ==> s.names == map[])
    && (!s.has.session ==> s.sessions == map[])
    && (!s.has.uuid ==> s.uuids == map[])
  }

  lemma FoundIsStored(s: Store, via: By)
    requires AllSound(s) && Find(s, via).Some?
    ensures var a := Find(s, via).value; a.id in s.actors && s.actors[a.id] == a
  {
  }

  lemma AddKeeps(s: Store, a: Actor)
    requires AllSound(s) && Flagged(s)
    ensures AllSound(Add(s, a)) && Flagged(Add(s, a)) && (AllComplete(s) ==> AllComplete(Add(s, a)))
  {
    if a.id !in s.actors {
      assert Flagged(Add(s, a));
      LinkKeepsSound(s.has.name, s.actors, s.names, NameOf, a);
      LinkKeepsSound(s.has.session, s.actors, s.sessions, SessionOf, a);
      LinkKeepsSound(s.has.uuid, s.actors, s.uuids, UuidOf, a);
      hide Sound, Complete, Linked;
    }
  }

  lemma EraseKeepsSound(s: Store, a: Actor)
    requires AllSound(s) && Flagged(s) && a.id in s.actors && s.actors[a.id] == a
    ensures AllSound(Erased(s, a)) && Flagged(Erased(s, a))
  {
    UnlinkKeepsSound(s.has.name, s.actors, s.names, NameOf, a);
    UnlinkKeepsSound(s.has.session, s.actors, s.sessions, SessionOf, a);
    UnlinkKeepsSound(s.has.uuid, s.actors, s.uuids, UuidOf, a);
    hide Sound;
  }

  lemma ApplyKeepsSound(s: Store, op: Op)
    requires AllSound(s) && Flagged(s)
    ensures AllSound(Apply(s, op)) && Flagged(Apply(s, op))
  {
    match op
    case Adding(a) =>
      hide *;
      AddKeeps(s, a);
      ApplyIs(s, op);
    case Deleting(via) =>
      if Find(s, via).Some? {
        FoundIsStored(s, via);
        hide AllSound, Flagged, Erased, Find;
        EraseKeepsSound(s, Find(s, via).value);
      }
  }

  lemma ApplyIs(s: Store, op: Op)
    ensures op.Adding? ==> Apply(s, op) == Add(s, op.actor)
    ensures op.Deleting? ==> Apply(s, op) == if Find(s, op.via).Some? then Erased(s, Find(s, op.via).value) else s
  {
    hide Add, Erased, Find;
  }

  /** On every run every index entry is right, whatever keys are shared. */
  lemma {:induction false} RunKeepsSound(s: Store, ops: seq<Op>)
    requires AllSound(s) && Flagged(s)
    ensures AllSound(Run(s, ops)) && Flagged(Run(s, ops))
    decreases |ops|
  {
    if |ops| > 0 {
      ApplyKeepsSound(s, ops[0]);
      RunKeepsSound(Apply(s, ops[0]), ops[1..]);
    }
  }

  // ---- who is stored ----------------------------------------------------------------------------

  /** Adding an actor of a new id stores it as it is; a used id, and an addition in general, leaves the others. */
  lemma AddStores(s: Store, a: Actor)
    ensures Add(s, a).actors == if a.id in s.actors then s.actors else s.actors[a.id := a]
    ensures a.id !in s.actors ==> Find(Add(s, a), ById(a.id)) == Some(a)
  {
  }

  /** A removal takes away what find finds by that key, and nobody else. */
  lemma DelRemoves(s: Store, via: By)
    requires AllSound(s)
    ensures Del(s, via).actors == match Find(s, via)
      case None => s.actors
      case Some(a) => s.actors - {a.id}
    ensures Find(s, via).Some? ==> Find(Del(s, via), via) == None || !Asks(s.has, via)
  {
  }

  ghost predicate RemovedIn(s: Store, ops: seq<Op>, id: Id)
    decreases |ops|
  {
    && |ops| > 0
    && (var removed := Removed(s, ops[0]);
        (removed.Some? && removed.value.id == id) || RemovedIn(Apply(s, ops[0]), ops[1..], id))
  }

  /** Once stored, an actor stays, unchanged, through every run that does not remove it. */
  lemma {:induction false} StoredUntilRemoved(s: Store, ops: seq<Op>, a: Actor)
    requires AllSound(s) && Flagged(s) && a.id in s.actors && s.actors[a.id] == a && !RemovedIn(s, ops, a.id)
    ensures a.id in Run(s, ops).actors && Run(s, ops).actors[a.id] == a
    decreases |ops|
  {
    if |ops| > 0 {
      ApplyKeepsSound(s, ops[0]);
      match ops[0] {
        case Adding(b) => AddStores(s, b);
        case Deleting(via) => DelRemoves(s, via);
      }
      hide AllSound, Flagged, Add, Del, Find;
      StoredUntilRemoved(Apply(s, ops[0]), ops[1..], a);
    }
  }

  /** The stored actor an operation removes. */
  ghost function Removed(s: Store, op: Op): Option<Actor> {
    if op.Deleting? then Find(s, op.via) else None
  }

  ghost predicate Alone<K(!new)>(actors: map<Id, Actor>, key: Actor -> K, a: Actor) {
    forall id | id in actors && id != a.id :: key(actors[id]) != key(a)
  }

  /** No index the store has holds another actor under a key of `a`. */
  ghost predicate Unshared(s: Store, a: Actor) {
    && (s.has.name ==> Alone(s.actors, NameOf, a))
    && (s.has.session ==> Alone(s.actors, SessionOf, a))
    && (s.has.uuid ==> Alone(s.actors, UuidOf, a))
  }

  lemma EraseKeepsCompleteIff(s: Store, a: Actor)
    requires AllSound(s) && AllComplete(s) && a.id in s.actors && s.actors[a.id] == a
    ensures AllComplete(Erased(s, a)) <==> Unshared(s, a)
  {
    hide Sound, Complete, Unlinked, Alone, Keyed;
    EraseKeepsIndexIff(s.has.name, s.actors, s.names, NameOf, a);
    EraseKeepsIndexIff(s.has.session, s.actors, s.sessions, SessionOf, a);
    EraseKeepsIndexIff(s.has.uuid, s.actors, s.uuids, UuidOf, a);
  }

  lemma EraseKeepsIndexIff<K(!new)>(has: bool, actors: map<Id, Actor>, index: map<K, Id>, key: Actor -> K, a: Actor)
    requires Sound(actors, index, key) && (has ==> Complete(actors, index, key)) && a.id in actors && actors[a.id] == a
    ensures (has ==> Complete(actors - {a.id}, Unlinked(has, index, key(a)), key)) <==> (has ==> Alone(actors, key, a))
  {
    if has {
      UnlinkKeepsCompleteIff(actors, index, key, a);
    }
  }

  /** Additions keep complete indexes complete; a removal does exactly when the removed actor shares no key. */
  lemma ApplyKeepsCompleteIff(s: Store, op: Op)
    requires AllSound(s) && Flagged(s) && AllComplete(s)
    ensures AllComplete(Apply(s, op)) <==> (Removed(s, op).Some? ==> Unshared(s, Removed(s, op).value))
  {
    hide AllSound, AllComplete, Flagged, Erased, Find, Add, Unshared;
    match op
    case Adding(a) =>
      AddKeeps(s, a);
    case Deleting(via) =>
      if Find(s, via).Some? {
        FoundIsStored(s, via);
        EraseKeepsCompleteIff(s, Find(s, via).value);
      }
  }

  /** No step of the run removes an actor that shares a key with another stored one. */
  ghost predicate RemovesUnshared(s: Store, ops: seq<Op>)
    decreases |ops|
  {
    |ops| > 0 ==>
      && (Removed(s, ops[0]).Some? ==> Unshared(s, Removed(s, ops[0]).value))
      && RemovesUnshared(Apply(s, ops[0]), ops[1..])
  }

  lemma {:induction false} RunKeepsComplete(s: Store, ops: seq<Op>)
    requires AllSound(s) && Flagged(s) && AllComplete(s) && RemovesUnshared(s, ops)
    ensures AllComplete(Run(s, ops))
    decreases |ops|
  {
    if |ops| > 0 {
      hide AllSound, AllComplete, Flagged, Apply, Unshared;
      ApplyKeepsSound(s, ops[0]);
      ApplyKeepsCompleteIff(s, ops[0]);
      RunKeepsComplete(Apply(s, ops[0]), ops[1..]);
    }
  }

  // ---- find and scan on every run ---------------------------------------------------------------

  /** The stored actors a scan by that key meets. */
  ghost predicate Matches(a: Actor, via: By) {
    match via
    case ById(id) => a.id == id
    case ByName(name) => a.name == name
    case BySession(session) => a.session == session
    case ByUuid(uuid) => a.uuid == uuid
  }

  /** The keys the store may be asked by: find and del assert the flag of the index they use. */
  predicate Asks(has: Has, via: By) {
    match via
    case ById(_) => true
    case ByName(_) => has.name
    case BySession(_) => has.session
    case ByUuid(_) => has.uuid
  }

  /** A scan: some stored actor that matches, if there is one; the only one, if keys are distinct. */
  ghost predicate FoundByScan(s: Store, via: By, r: Option<Actor>) {
    && (r == None <==> forall id | id in s.actors :: !Matches(s.actors[id], via))
    && (r.Some? ==> r.value.id in s.actors && s.actors[r.value.id] == r.value && Matches(r.value, via))
    && (r.Some? && AllDistinct(s) ==>
          forall id | id in s.actors && Matches(s.actors[id], via) :: s.actors[id] == r.value)
  }

  /** One index, and what its key says of an actor. */
  lemma IndexIsScan<K(!new)>(s: Store, index: map<K, Id>, key: Actor -> K, k: K, via: By)
    requires Keyed(s.actors) && Sound(s.actors, index, key) && Complete(s.actors, index, key)
    requires Find(s, via) == IndexFind(s.actors, index, k)
    requires (forall id | id in s.actors :: Matches(s.actors[id], via) <==> key(s.actors[id]) == k)
    requires AllDistinct(s) ==> Distinct(s.actors, key)
    ensures FoundByScan(s, via, Find(s, via))
  {
    hide Find, Matches, AllDistinct;
    if k in index {
      assert key(s.actors[index[k]]) == k;
    }
  }

  lemma FindIsScan(s: Store, via: By)
    requires AllSound(s) && AllComplete(s) && Asks(s.has, via)
    ensures FoundByScan(s, via, Find(s, via))
  {
    hide Sound, Complete, Distinct, IndexFind, FoundByScan;
    match via
    case ById(id) => IdIsScan(s, id);
    case ByName(name) => IndexIsScan(s, s.names, NameOf, name, via);
    case BySession(session) => IndexIsScan(s, s.sessions, SessionOf, session, via);
    case ByUuid(uuid) => IndexIsScan(s, s.uuids, UuidOf, uuid, via);
  }

  lemma IdIsScan(s: Store, id: Id)
    requires Keyed(s.actors)
    ensures FoundByScan(s, ById(id), Find(s, ById(id)))
  {
    hide AllDistinct;
  }

  /** After any run from empty that never removes an actor sharing a key, find by any key is a scan. */
  lemma RunFindsAsScan(has: Has, ops: seq<Op>, via: By)
    requires RemovesUnshared(Empty(has), ops) && Asks(has, via)
    ensures FoundByScan(Run(Empty(has), ops), via, Find(Run(Empty(has), ops), via))
  {
    RunKeepsSound(Empty(has), ops);
    RunKeepsComplete(Empty(has), ops);
    RunKeepsFlags(Empty(has), ops);
    FindIsScan(Run(Empty(has), ops), via);
  }

  lemma {:induction false} RunKeepsFlags(s: Store, ops: seq<Op>)
    ensures Run(s, ops).has == s.has
    decreases |ops|
  {
    if |ops| > 0 {
      RunKeepsFlags(Apply(s, ops[0]), ops[1..]);
    }
  }

  /** Removing one of two actors of one name hides the other: it is stored, and no name leads to it. */
  lemma SharedNameHidesActor(s: Store, a: Actor, b: Actor)
    requires AllSound(s) && s.has.name && a.id in s.actors && s.actors[a.id] == a && b.id in s.actors
    requires s.actors[b.id] == b
    requires a.id != b.id && a.name == b.name
    ensures var t := Del(s, ById(a.id));
      b.id in t.actors && t.actors[b.id] == b && Find(t, ByName(b.name)) == None
  {
  }
}
