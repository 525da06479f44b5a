/** updateCamera's arithmetic: centre the viewport on the player, then clamp it to the map. */
module Camera {
  /** Math.floor(centre - view / 2): the viewport origin that centres it on `centre`. */
  function CentredOn(centre: real, view: int): int {
    (centre - view as real / 2.0).Floor
  }

  /**
   * Math.max(0, Math.min(world - view, v)). The result is never negative, never lets the
   * viewport run past the map's far edge when the map is larger, keeps values that
   * already fit, and pins to 0 when the viewport is not smaller than the map.
   */
  function Clamp(v: int, world: int, view: int): (c: int)
    ensures 0 <= c
    ensures view <= world ==> c <= world - view
    ensures 0 <= v <= world - view ==> c == v
    ensures v < 0 || world <= view ==> c == 0
    ensures 0 <= world - view < v ==> c == world - view
  {
    var m := if world - view < v then world - view else v;
    if m < 0 then 0 else m
  }

  /** Clamping twice is clamping once. */
  lemma ClampIdempotent(v: int, world: int, view: int)
    ensures Clamp(Clamp(v, world, view), world, view) == Clamp(v, world, view)
  {
  }

  /** A viewport further along the map never clamps to an earlier position. */
  lemma ClampMonotone(v1: int, v2: int, world: int, view: int)
    requires v1 <= v2
    ensures Clamp(v1, world, view) <= Clamp(v2, world, view)
  {
  }
}
