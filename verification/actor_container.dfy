/** class index and class actor_container. */
module ActorContainers {
  import opened ActorStore
  import opened Options

  class Index<K(==)> {
    var entries: map<K, Id>

    constructor ()
      ensures entries == map[]
    {
      entries := map[];
    }

    /** insert does nothing for a key that is linked already. */
    method Link(k: K, id: Id)
      modifies this
      ensures entries == Linked(true, old(entries), k, id)
    {
      if k !in entries {
        entries := entries[k := id];
      }
    }

    method Unlink(k: K)
      modifies this
      ensures entries == Unlinked(true, old(entries), k)
    {
      entries := entries - {k};
    }

    method Find(k: K, actors: map<Id, Actor>) returns (r: Option<Actor>)
      ensures r == IndexFind(actors, entries, k)
    {
      if k !in entries || entries[k] !in actors {
        return None;
      }
      return Some(actors[entries[k]]);
    }
  }

  class ActorContainer {
    const has: Has
    const names: Index<string>
    const sessions: Index<SessionKey>
    const uuids: Index<Uuid>
    var actors: map<Id, Actor>

    ghost function State(): Store
      reads this, names, sessions, uuids
    {
      Store(has, actors, names.entries, sessions.entries, uuids.entries)
    }

    ghost function Repr(): set<object> {
      {this, names, sessions, uuids}
    }

    ghost predicate Apart() {
      && names as object != sessions as object && names as object != uuids as object
      && sessions as object != uuids as object
    }

    /** The indexes are three, and right about the actors stored. */
    ghost predicate Valid()
      reads this, names, sessions, uuids
    {
      Apart() && AllSound(State()) && Flagged(State())
    }

    constructor (has: Has)
      ensures Valid() && fresh(Repr()) && State() == Empty(has)
    {
      this.has := has;
      names := new Index();
      sessions := new Index();
      uuids := new Index();
      actors := map[];
    }

    method LinkKeys(a: Actor)
      requires Apart()
      modifies names, sessions, uuids
      ensures names.entries == Linked(has.name, old(names.entries), a.name, a.id)
      ensures sessions.entries == Linked(has.session, old(sessions.entries), a.session, a.id)
      ensures uuids.entries == Linked(has.uuid, old(uuids.entries), a.uuid, a.id)
    {
      if has.name {
        names.Link(a.name, a.id);
      }
      if has.session {
        sessions.Link(a.session, a.id);
      }
      if has.uuid {
        uuids.Link(a.uuid, a.id);
      }
    }

    method UnlinkKeys(a: Actor)
      requires Apart()
      modifies names, sessions, uuids
      ensures names.entries == Unlinked(has.name, old(names.entries), a.name)
      ensures sessions.entries == Unlinked(has.session, old(sessions.entries), a.session)
      ensures uuids.entries == Unlinked(has.uuid, old(uuids.entries), a.uuid)
    {
      if has.name {
        names.Unlink(a.name);
      }
      if has.session {
        sessions.Unlink(a.session);
      }
      if has.uuid {
        uuids.Unlink(a.uuid);
      }
    }

    method Add(actor: Actor) returns (added: bool)
      requires Valid()
      modifies Repr()
      ensures Valid() && State() == ActorStore.Add(old(State()), actor)
      ensures added == (actor.id !in old(actors))
    {
      hide AllSound, Flagged, AllComplete, Linked;
      AddKeeps(State(), actor);
      if actor.id in actors {
        return false;
      }
      actors := actors[actor.id := actor];
      LinkKeys(actor);
      return true;
    }

    method Find(via: By) returns (r: Option<Actor>)
      requires Asks(has, via)
      ensures r == ActorStore.Find(State(), via)
    {
      match via
      case ById(id) => r := if id in actors then Some(actors[id]) else None;
      case ByName(name) => r := names.Find(name, actors);
      case BySession(session) => r := sessions.Find(session, actors);
      case ByUuid(uuid) => r := uuids.Find(uuid, actors);
    }

    /** The keys are read off the actor before it is erased. */
    method Del(via: By)
      requires Valid() && Asks(has, via)
      modifies Repr()
      ensures Valid() && State() == ActorStore.Del(old(State()), via)
    {
      ApplyKeepsSound(State(), Deleting(via));
      var found := Find(via);
      hide AllSound, Flagged, ActorStore.Find;
      if found.Some? {
        var a := found.value;
        actors := actors - {a.id};
        UnlinkKeys(a);
      }
    }
  }
}
