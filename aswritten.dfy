/** The pointer's pull as the page computes it, for the one case the model of
    the particle field corrects: a particle exactly under the pointer. There
    `dx / dist` is the double division 0 / 0, which is NaN; NaN spreads to the
    velocity and, in the same frame, to the position, which the wrap checks
    (comparisons, all false on NaN) leave alone. Drawing that particle then
    throws, because a radial gradient takes finite coordinates only, and the
    exception ends the animation frame before the next one is requested. */
module AsWritten {
  import Particles

  /** A double reduced to what this needs: a finite value or NaN. */
  datatype Num = Fin(v: real) | NaN

  function Add(a: Num, b: Num): Num
  {
    if a.Fin? && b.Fin? then Fin(a.v + b.v) else NaN
  }

  function Mul(a: Num, b: Num): Num
  {
    if a.Fin? && b.Fin? then Fin(a.v * b.v) else NaN
  }

  /** Division of two finite values; of the divisions by zero only 0 / 0 can
      arise here (a zero distance means a zero offset), and it is NaN. */
  function Div(a: real, b: real): Num
    requires b == 0.0 ==> a == 0.0
  {
    if b == 0.0 then NaN else Fin(a / b)
  }

  /** `<` on doubles: false whenever either side is NaN. */
  predicate Less(a: Num, b: Num)
  {
    a.Fin? && b.Fin? && a.v < b.v
  }

  /** One axis of the pull, as written: the guard is only `dist < 200`. */
  function PulledVelocity(v: real, d: real, dist: real): (r: Num)
    requires dist == 0.0 ==> d == 0.0
    ensures dist < Particles.InfluenceRadius ==> (r == NaN <==> dist == 0.0)
    ensures dist >= Particles.InfluenceRadius ==> r == Fin(v)
  {
    if dist < Particles.InfluenceRadius then
      var force := (Particles.InfluenceRadius - dist) / Particles.InfluenceRadius;
      Add(Fin(v), Mul(Mul(Div(d, dist), Fin(force)), Fin(Particles.Pull)))
    else Fin(v)
  }

  /** A particle exactly under the pointer gets a NaN velocity. */
  lemma ZeroDistanceIsNaN(v: real)
    ensures PulledVelocity(v, 0.0, 0.0) == NaN
  {
  }

  /** Away from zero distance the page and the corrected model agree. */
  lemma AgreesAwayFromZero(v: real, d: real, dist: real)
    requires dist > 0.0
    ensures PulledVelocity(v, d, dist) == Fin(v + Particles.Impulse(d, dist))
  {
  }

  /** One axis of the rest of the frame, as written: integrate, apply friction,
      then the two wrap checks, each a `<` or `>` comparison. */
  function Advance(c: Num, v: Num, radius: real, extent: real): (r: (Num, Num))
    ensures v == NaN ==> r == (NaN, NaN)
    ensures c.Fin? && v.Fin? ==>
              r == (Fin(Particles.Wrap(c.v + v.v, radius, extent)), Fin(v.v * Particles.Friction))
  {
    var moved := Add(c, v);
    var damped := Mul(v, Fin(Particles.Friction));
    var low := if Less(moved, Fin(-radius)) then Fin(extent + radius) else moved;
    var high := if Less(Fin(extent + radius), low) then Fin(-radius) else low;
    (high, damped)
  }

  /** A particle exactly under the pointer has a NaN position by the end of
      the same frame's update, before it is drawn. */
  lemma CentredParticleIsNaN(c: real, v: real, radius: real, extent: real)
    ensures Advance(Fin(c), PulledVelocity(v, 0.0, 0.0), radius, extent).0 == NaN
  {
    ZeroDistanceIsNaN(v);
  }

  /** Drawing a particle calls `createRadialGradient` on its coordinates,
      which throws unless both are finite. */
  predicate Drawable(position: (Num, Num))
  {
    position.0.Fin? && position.1.Fin?
  }

  /** How one call of `animate` ends. */
  datatype Outcome =
    | Scheduled     // every particle was drawn and the next frame is requested
    | Thrown(at: nat) // drawing particle `at` threw: the rest of the frame and
                      // the request for the next frame are skipped

  /** One call of `animate`, given each particle's position after its update
      in this frame: the particles are updated and drawn in order, and the
      first one that cannot be drawn ends the call. */
  function FrameOutcome(positions: seq<(Num, Num)>): (r: Outcome)
    ensures r.Thrown? ==> r.at < |positions| && !Drawable(positions[r.at])
    ensures r.Thrown? ==> forall j :: 0 <= j < r.at ==> Drawable(positions[j])
    ensures r == Scheduled <==> forall j :: 0 <= j < |positions| ==> Drawable(positions[j])
  {
    if positions == [] then Scheduled
    else if !Drawable(positions[0]) then Thrown(0)
    else
      match FrameOutcome(positions[1..])
      case Scheduled => Scheduled
      case Thrown(i) => Thrown(i + 1)
  }

  /** A particle exactly under the pointer, anywhere in the population, stops
      the animation: the frame throws at or before it and no next frame is
      requested, so every particle stays where it is from then on. */
  lemma {:induction false} CentredParticleStopsAnimation(
      before: seq<(Num, Num)>, after: seq<(Num, Num)>,
      x: real, y: real, vx: real, vy: real, radius: real, width: real, height: real)
    ensures var centred := (Advance(Fin(x), PulledVelocity(vx, 0.0, 0.0), radius, width).0,
                            Advance(Fin(y), PulledVelocity(vy, 0.0, 0.0), radius, height).0);
            var r := FrameOutcome(before + [centred] + after);
            r.Thrown? && r.at <= |before|
  {
    var centred := (Advance(Fin(x), PulledVelocity(vx, 0.0, 0.0), radius, width).0,
                    Advance(Fin(y), PulledVelocity(vy, 0.0, 0.0), radius, height).0);
    CentredParticleIsNaN(x, vx, radius, width);
    assert (before + [centred] + after)[|before|] == centred;
  }

  /** A hero section of zero size when the page loads: the pointer starts at
      (0 / 2, 0 / 2) and every particle is created at (0, 0), so each one is
      exactly under the pointer (`Math.sqrt(0)` is 0) and the very first,
      synchronous frame throws. */
  lemma {:induction false} EmptyHeroStopsFirstFrame(
      d: Particles.Draw, before: seq<(Num, Num)>, after: seq<(Num, Num)>)
    requires Particles.IsDraw(d)
    ensures var p := Particles.Spawn(d, 0, 0);
            var mouseX, mouseY := 0.0 / 2.0, 0.0 / 2.0;
            && mouseX - p.x == 0.0 && mouseY - p.y == 0.0
            && var first := (Advance(Fin(p.x), PulledVelocity(p.vx, mouseX - p.x, 0.0), p.radius, 0.0).0,
                             Advance(Fin(p.y), PulledVelocity(p.vy, mouseY - p.y, 0.0), p.radius, 0.0).0);
               FrameOutcome(before + [first] + after).Thrown?
  {
    var p := Particles.Spawn(d, 0, 0);
    CentredParticleStopsAnimation(before, after, p.x, p.y, p.vx, p.vy, p.radius, 0.0, 0.0);
  }
}
