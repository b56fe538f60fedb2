/** The one computed choice among the scroll-triggered entrance animations:
    skill cards fly in from alternating sides with alternating tilt. */
module Entrance {

  /** The `x` offset (px) and `rotation` (degrees) a skill card starts from. */
  datatype Offset = Offset(x: int, rotation: int)

  function SkillCardOffset(index: nat): (r: Offset)
    ensures r.x < 0 <==> index % 2 == 0
    ensures r.x == 20 * r.rotation && (r.x == 100 || r.x == -100)
  {
    if index % 2 == 0 then Offset(-100, -5) else Offset(100, 5)
  }

  /** Neighbouring cards come from opposite sides with opposite tilt. */
  lemma NeighboursMirror(index: nat)
    ensures SkillCardOffset(index + 1) == Offset(-SkillCardOffset(index).x, -SkillCardOffset(index).rotation)
  {
  }
}
