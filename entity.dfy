/** `Entity` of src/game/entity.rs: a process-wide id counter and a builder that writes
    components into the game state at its id. */
module Entities {
  import opened GameState

  /** The `static mut GLOBAL_ID` counter, with the ghost list of the ids handed out. */
  class IdCounter {
    var globalId: nat
    ghost var issued: seq<nat>

    /** The ids handed out are strictly increasing and all below the counter. */
    ghost predicate Valid()
      reads this
    {
      (forall i, j :: 0 <= i < j < |issued| ==> issued[i] < issued[j])
      && forall i :: 0 <= i < |issued| ==> issued[i] < globalId
    }

    constructor ()
      ensures Valid() && globalId == 0 && issued == []
    {
      globalId := 0;
      issued := [];
    }

    /** The read-and-increment of `Entity::new`: the counter's old value, which differs
        from every id handed out before it. */
    method Next() returns (id: nat)
      requires Valid()
      modifies this
      ensures Valid()
      ensures id == old(globalId) && globalId == old(globalId) + 1 && issued == old(issued) + [id]
      ensures forall i :: 0 <= i < |old(issued)| ==> old(issued)[i] < id
    {
      id := globalId;
      globalId := globalId + 1;
      issued := issued + [id];
    }
  }

  /** An entity under construction: its id and the game state it writes into. */
  class Entity {
    const id: nat
    const world: World

    /** `Entity::new`: the next id from the counter. */
    constructor (counter: IdCounter, world: World)
      requires counter.Valid()
      modifies counter
      ensures counter.Valid()
      ensures id == old(counter.globalId) && counter.globalId == old(counter.globalId) + 1
      ensures counter.issued == old(counter.issued) + [id]
      ensures this.world == world
    {
      var next := counter.Next();
      id := next;
      this.world := world;
    }

    /** `with_physics`: the physics component at this entity's id is replaced; every other
        index, the other vectors and the step are unchanged. Indexing past the end panics,
        so the id must be in range. */
    method WithPhysics(component: Physics) returns (r: Entity)
      requires id < |world.state.physicsComponents|
      modifies world
      ensures r == this
      ensures var before, after := old(world.state), world.state;
        |after.physicsComponents| == |before.physicsComponents| && after.physicsComponents[id] == component
        && (forall j :: 0 <= j < |before.physicsComponents| && j != id ==> after.physicsComponents[j] == before.physicsComponents[j])
        && after.graphicsComponents == before.graphicsComponents && after.deltaTime == before.deltaTime
    {
      world.state := world.state.(physicsComponents := world.state.physicsComponents[id := component]);
      return this;
    }

    /** `with_graphics`: the graphics component at this entity's id is replaced and
        nothing else changes. */
    method WithGraphics(component: Graphics) returns (r: Entity)
      requires id < |world.state.graphicsComponents|
      modifies world
      ensures r == this
      ensures var before, after := old(world.state), world.state;
        |after.graphicsComponents| == |before.graphicsComponents| && after.graphicsComponents[id] == component
        && (forall j :: 0 <= j < |before.graphicsComponents| && j != id ==> after.graphicsComponents[j] == before.graphicsComponents[j])
        && after.physicsComponents == before.physicsComponents && after.deltaTime == before.deltaTime
    {
      world.state := world.state.(graphicsComponents := world.state.graphicsComponents[id := component]);
      return this;
    }

    /** `build`: the entity's id. */
    method Build() returns (r: nat)
      ensures r == id
    {
      return id;
    }
  }
}
