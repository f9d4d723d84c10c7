/** The game state of src/game/state.rs that the entity builder and the main loop touch,
    with the component records of src/game/component. Float fields are modelled as
    exact reals. */
module GameState {
  datatype Vector3 = Vector3(x: real, y: real, z: real)

  /** `component::Physics`. */
  datatype Physics = Physics(pos: Vector3, momentum: Vector3, invMass: real)

  datatype ModelState = Unloaded | Loaded

  /** `component::Graphics`. */
  datatype Graphics = Graphics(modelPath: string, modelState: ModelState)

  /** `State`: the fixed update step, in nanoseconds, and the component vectors indexed
      by entity id. */
  datatype State = State(deltaTime: nat, physicsComponents: seq<Physics>, graphicsComponents: seq<Graphics>)

  /** The game state an entity builder borrows mutably. */
  class World {
    var state: State

    constructor (state: State)
      ensures this.state == state
    {
      this.state := state;
    }
  }
}
