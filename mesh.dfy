/** `Mesh` of src/game/asset/mesh.rs: a mesh asset whose `load` installs a fixed set of
    eight coloured vertices. */
module Meshes {
  import opened Wrappers

  datatype LoadingState = Unloaded | Loaded

  /** `renderer::Vertex::new(position, colour)`, each a homogeneous 4-vector. */
  datatype Vertex = Vertex(position: seq<real>, colour: seq<real>)

  /** The eight corners of the half-unit cube that `load` installs, with their colours. */
  const CUBE_VERTICES: seq<Vertex> := [
    Vertex([0.0, 0.0, 0.5, 1.0], [0.2, 0.2, 0.0, 1.0]),
    Vertex([0.0, 0.5, 0.0, 1.0], [0.0, 0.6, 0.0, 1.0]),
    Vertex([0.5, 0.0, 0.0, 1.0], [0.2, 0.8, 0.0, 1.0]),
    Vertex([0.0, 0.0, 0.0, 1.0], [0.2, 0.9, 0.0, 1.0]),
    Vertex([0.5, 0.5, 0.5, 1.0], [1.0, 0.0, 0.0, 1.0]),
    Vertex([0.5, 0.5, 0.0, 1.0], [0.2, 0.2, 1.0, 1.0]),
    Vertex([0.5, 0.0, 0.5, 1.0], [0.7, 0.2, 1.0, 1.0]),
    Vertex([0.0, 0.5, 0.5, 1.0], [0.2, 0.2, 0.8, 1.0])
  ]

  class Mesh {
    var vertices: seq<Vertex>
    var indices: seq<nat>
    const path: string
    var loadingState: LoadingState
    var descriptorsChanged: bool

    /** `Mesh::new`: an unloaded, empty mesh for `path`. */
    constructor (path: string)
      ensures this.path == path && vertices == [] && indices == []
      ensures loadingState == Unloaded && !descriptorsChanged
    {
      this.path := path;
      vertices, indices := [], [];
      loadingState := Unloaded;
      descriptorsChanged := false;
    }

    /** `load`: always succeeds; the mesh is loaded and holds exactly the eight cube
        vertices, whatever it held before, so a second load changes nothing. Indices,
        path and the descriptor flag are untouched. */
    method Load() returns (r: Outcome)
      modifies this`loadingState, this`vertices
      ensures r == Pass
      ensures loadingState == Loaded && vertices == CUBE_VERTICES && |vertices| == 8
      ensures indices == old(indices) && descriptorsChanged == old(descriptorsChanged)
    {
      loadingState := Loaded;
      vertices := CUBE_VERTICES;
      return Pass;
    }

    /** `unload`: does nothing. */
    method Unload()
      ensures vertices == old(vertices) && indices == old(indices) && loadingState == old(loadingState)
      ensures descriptorsChanged == old(descriptorsChanged)
    {
    }
  }
}
