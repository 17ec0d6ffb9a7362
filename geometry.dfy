/** The plain geometric records of the graphics libraries the games use: a 2D vector
    (`glm::vec2`, raylib's `Vector2`) and an axis-aligned rectangle given by its top-left
    corner and its size (raylib's `Rectangle`, SDL's `SDL_FRect`). Floats are reals. */
module Geometry {

  datatype Vec2 = Vec2(x: real, y: real)

  const Zero: Vec2 := Vec2(0.0, 0.0)

  datatype Rect = Rect(x: real, y: real, width: real, height: real)
}
