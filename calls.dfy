/** The calls the merger and the importers make on the cached writer they
    drive, recorded in order; what the writer does with them is the cached
    writer model's business. Names are text of type `S`. */
module Calls {

  datatype Call<S> =
    | AddBlock(x: int, y: int, z: int, blockType: S, states: seq<(S, S)>)
    | Finalize
}
