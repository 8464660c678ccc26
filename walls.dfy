/** The wall geometry the paddle and block layout depend on. The wall module
    of the game is not part of this model, so its constants are a parameter. */
module Walls {

  /** `LEFT_WALL`, `RIGHT_WALL`, `BOTTOM_WALL`, `TOP_WALL` and `WALL_THICKNESS`. */
  datatype Walls = Walls(left: real, right: real, bottom: real, top: real, thickness: real)
}
