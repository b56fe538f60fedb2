/** The ambient particle field behind the hero section: fifty soft particles
    that drift, are pulled toward the pointer, slow down by friction and wrap
    around the edges of the surface. Numbers are exact reals standing for the
    page's doubles; `Math.random()` draws and `Math.sqrt` results are inputs
    (a `Draw` per particle, a `dist` per particle and frame). Drawing is not
    modelled: only the state each handler updates. */
module Particles {

  /** The size of the population, fixed at creation. */
  const Count: nat := 50
  /** Beyond this distance the pointer exerts no pull. */
  const InfluenceRadius: real := 200.0
  /** The pull at zero distance (before the direction is applied). */
  const Pull: real := 2.0
  /** The factor applied to each velocity component every frame. */
  const Friction: real := 0.95
  /** The largest per-axis speed a particle can reach: `Friction * (MaxSpeed + Pull) == MaxSpeed`. */
  const MaxSpeed: real := 38.0

  datatype Particle = Particle(x: real, y: real, vx: real, vy: real,
                               radius: real, hue: real, opacity: real)

  /** The five `Math.random()` results used to create one particle, each in [0, 1). */
  datatype Draw = Draw(x: real, y: real, radius: real, hue: real, opacity: real)

  predicate IsDraw(d: Draw)
  {
    && 0.0 <= d.x < 1.0 && 0.0 <= d.y < 1.0 && 0.0 <= d.radius < 1.0
    && 0.0 <= d.hue < 1.0 && 0.0 <= d.opacity < 1.0
  }

  /** The fixed traits lie in their creation ranges: radius in [50, 150),
      hue in the blue-cyan range [180, 240), opacity in [0.1, 0.4). */
  predicate Traits(p: Particle)
  {
    && 50.0 <= p.radius < 150.0
    && 180.0 <= p.hue < 240.0
    && 0.1 <= p.opacity < 0.4
  }

  predicate SpeedBounded(p: Particle)
  {
    -MaxSpeed <= p.vx <= MaxSpeed && -MaxSpeed <= p.vy <= MaxSpeed
  }

  /** The particle lies within one radius of the surface on every side. */
  predicate InField(p: Particle, width: nat, height: nat)
  {
    && -p.radius <= p.x <= width as real + p.radius
    && -p.radius <= p.y <= height as real + p.radius
  }

  lemma ScaledDrawInRange(u: real, extent: real)
    requires 0.0 <= u < 1.0 && 0.0 <= extent
    ensures 0.0 <= u * extent <= extent
  {
    assert extent - u * extent == (1.0 - u) * extent;
  }

  /** A draw in [0, 1) scaled to an extent lands on [0, extent]. */
  function Scaled(u: real, extent: real): (r: real)
    requires 0.0 <= u < 1.0 && 0.0 <= extent
    ensures 0.0 <= r <= extent
  {
    ScaledDrawInRange(u, extent);
    u * extent
  }

  /** A new particle: uniformly placed on the surface, at rest, with its traits
      drawn from their ranges. */
  function Spawn(d: Draw, width: nat, height: nat): (p: Particle)
    requires IsDraw(d)
    ensures 0.0 <= p.x <= width as real && 0.0 <= p.y <= height as real
    ensures p.vx == 0.0 && p.vy == 0.0
    ensures Traits(p) && SpeedBounded(p) && InField(p, width, height)
  {
    Particle(Scaled(d.x, width as real), Scaled(d.y, height as real), 0.0, 0.0,
             d.radius * 100.0 + 50.0, d.hue * 60.0 + 180.0, d.opacity * 0.3 + 0.1)
  }

  /** `dist` is the Euclidean length of (dx, dy): what `Math.sqrt(dx * dx + dy * dy)`
      stands for, taken exactly. */
  predicate IsDist(dx: real, dy: real, dist: real)
  {
    dist >= 0.0 && dist * dist == dx * dx + dy * dy
  }

  /** The velocity one axis gains from the pointer, `d` being that axis's offset
      from the particle to the pointer: a pull toward the pointer that falls off
      linearly to zero at the influence radius. A particle exactly under the
      pointer (`dist == 0`) gets none; see AsWritten for what the page does. */
  function Impulse(d: real, dist: real): (r: real)
    ensures !(0.0 < dist < InfluenceRadius) ==> r == 0.0
    ensures d == 0.0 ==> r == 0.0
  {
    if 0.0 < dist < InfluenceRadius then
      var force := (InfluenceRadius - dist) / InfluenceRadius;
      (d / dist) * force * Pull
    else 0.0
  }

  lemma SquareBelow(a: real, b: real)
    requires 0.0 < b < a
    ensures b * b < a * a
  {
    assert b * b < a * b;
    assert a * b < a * a;
  }

  lemma SquareNonNegative(a: real)
    ensures a * a >= 0.0
  {
  }

  /** Neither offset exceeds the distance. */
  lemma OffsetWithinDistance(dx: real, dy: real, dist: real)
    requires dist > 0.0 && dist * dist == dx * dx + dy * dy
    ensures -dist <= dx <= dist
  {
    SquareNonNegative(dy);
    if dx > dist {
      SquareBelow(dx, dist);
    } else if dx < -dist {
      SquareBelow(-dx, dist);
    }
  }

  lemma UnitQuotient(d: real, dist: real)
    requires dist > 0.0 && -dist <= d <= dist
    ensures -1.0 <= d / dist <= 1.0
  {
  }

  lemma ScaledUnit(u: real, k: real)
    requires -1.0 <= u <= 1.0 && 0.0 < k < 2.0
    ensures -2.0 < u * k < 2.0
  {
  }

  lemma SameSign(d: real, dist: real, k: real)
    requires dist > 0.0 && k > 0.0
    ensures (d / dist * k) * d >= 0.0
  {
  }

  /** The pointer's pull on one axis: nothing at or beyond the influence
      radius, nothing at zero distance, otherwise strictly weaker than `Pull`,
      and always directed toward the pointer. */
  lemma ImpulseBounded(dx: real, dy: real, dist: real)
    requires IsDist(dx, dy, dist)
    ensures dist >= InfluenceRadius || dist == 0.0 ==> Impulse(dx, dist) == 0.0
    ensures -Pull < Impulse(dx, dist) < Pull
    ensures Impulse(dx, dist) * dx >= 0.0
  {
    if 0.0 < dist < InfluenceRadius {
      var k := (InfluenceRadius - dist) / InfluenceRadius * Pull;
      assert 0.0 < k < Pull;
      assert Impulse(dx, dist) == dx / dist * k;
      OffsetWithinDistance(dx, dy, dist);
      UnitQuotient(dx, dist);
      ScaledUnit(dx / dist, k);
      SameSign(dx, dist, k);
    }
  }

  /** The two boundary checks on one coordinate, in the page's order: below
      the low margin jumps to the high margin, then above the high margin jumps
      to the low one. */
  function Wrap(c: real, radius: real, extent: real): (r: real)
    ensures 0.0 <= radius && 0.0 <= extent ==> -radius <= r <= extent + radius
    ensures 0.0 <= radius && 0.0 <= extent ==> (r == c <==> -radius <= c <= extent + radius)
    ensures 0.0 <= radius && 0.0 <= extent ==> (c < -radius ==> r == extent + radius)
    ensures 0.0 <= radius && 0.0 <= extent ==> (c > extent + radius ==> r == -radius)
  {
    var c1 := if c < -radius then extent + radius else c;
    if c1 > extent + radius then -radius else c1
  }

  /** One particle's update in one frame: pull, integrate, friction, wrap. */
  function StepParticle(p: Particle, mouseX: real, mouseY: real, dist: real,
                        width: nat, height: nat): (r: Particle)
    ensures r.vx == (p.vx + Impulse(mouseX - p.x, dist)) * Friction
    ensures r.vy == (p.vy + Impulse(mouseY - p.y, dist)) * Friction
    ensures r.radius == p.radius && r.hue == p.hue && r.opacity == p.opacity
    ensures p.radius >= 0.0 ==> InField(r, width, height)
    ensures p.radius >= 0.0 && -p.radius <= p.x + p.vx + Impulse(mouseX - p.x, dist) <= width as real + p.radius
            ==> r.x == p.x + p.vx + Impulse(mouseX - p.x, dist)
    ensures p.radius >= 0.0 && -p.radius <= p.y + p.vy + Impulse(mouseY - p.y, dist) <= height as real + p.radius
            ==> r.y == p.y + p.vy + Impulse(mouseY - p.y, dist)
  {
    var vx := p.vx + Impulse(mouseX - p.x, dist);
    var vy := p.vy + Impulse(mouseY - p.y, dist);
    Particle(Wrap(p.x + vx, p.radius, width as real), Wrap(p.y + vy, p.radius, height as real),
             vx * Friction, vy * Friction, p.radius, p.hue, p.opacity)
  }

  /** The per-particle callback of the animation loop, statement by statement. */
  method UpdateParticle(p: Particle, mouseX: real, mouseY: real, dist: real,
                        width: nat, height: nat) returns (q: Particle)
    ensures q == StepParticle(p, mouseX, mouseY, dist, width, height)
  {
    var dx := mouseX - p.x;
    var dy := mouseY - p.y;
    var vx, vy := p.vx, p.vy;
    if 0.0 < dist < InfluenceRadius {
      var force := (InfluenceRadius - dist) / InfluenceRadius;
      assert (dx / dist) * force * Pull == Impulse(dx, dist);
      assert (dy / dist) * force * Pull == Impulse(dy, dist);
      vx := vx + (dx / dist) * force * Pull;
      vy := vy + (dy / dist) * force * Pull;
    }
    assert vx == p.vx + Impulse(dx, dist) && vy == p.vy + Impulse(dy, dist);
    var x := p.x + vx;
    var y := p.y + vy;
    ghost var ux, uy := vx, vy;
    vx := vx * Friction;
    vy := vy * Friction;
    x := WrapCoordinate(x, p.radius, width as real);
    y := WrapCoordinate(y, p.radius, height as real);
    assert x == Wrap(p.x + ux, p.radius, width as real);
    assert y == Wrap(p.y + uy, p.radius, height as real);
    q := p.(x := x, y := y, vx := vx, vy := vy);
  }

  /** The callback's two boundary checks on one coordinate. */
  method WrapCoordinate(c: real, radius: real, extent: real) returns (r: real)
    ensures r == Wrap(c, radius, extent)
  {
    r := c;
    if r < -radius { r := extent + radius; }
    if r > extent + radius { r := -radius; }
  }

  /** Friction keeps every particle's speed at most `MaxSpeed` per axis. */
  lemma SpeedStaysBounded(p: Particle, mouseX: real, mouseY: real, dist: real,
                          width: nat, height: nat)
    requires SpeedBounded(p)
    requires IsDist(mouseX - p.x, mouseY - p.y, dist)
    ensures SpeedBounded(StepParticle(p, mouseX, mouseY, dist, width, height))
  {
    assert -Pull < Impulse(mouseX - p.x, dist) < Pull by {
      ImpulseBounded(mouseX - p.x, mouseY - p.y, dist);
    }
    assert -Pull < Impulse(mouseY - p.y, dist) < Pull by {
      ImpulseBounded(mouseY - p.y, mouseX - p.x, dist);
    }
  }

  /** What one frame sees of the world: the pointer, the distance to it and the
      surface size. */
  datatype Frame = Frame(mouseX: real, mouseY: real, dist: real, width: nat, height: nat)

  /** A particle after a sequence of frames. */
  function Frames(p: Particle, frames: seq<Frame>): Particle
  {
    if frames == [] then p
    else
      var f := frames[|frames| - 1];
      StepParticle(Frames(p, frames[..|frames| - 1]), f.mouseX, f.mouseY, f.dist, f.width, f.height)
  }

  function Pow(b: real, k: nat): real
  {
    if k == 0 then 1.0 else b * Pow(b, k - 1)
  }

  /** A velocity component after `k` frames of friction alone. */
  function Damped(v: real, k: nat): real
  {
    if k == 0 then v else Damped(v, k - 1) * Friction
  }

  /** Friction alone is geometric decay. */
  lemma {:induction false} DampedIsGeometric(v: real, k: nat)
    ensures Damped(v, k) == v * Pow(Friction, k)
  {
    if k > 0 {
      DampedIsGeometric(v, k - 1);
      Reassociate(v, Pow(Friction, k - 1), Friction);
    }
  }

  /** While the pointer stays out of range, each velocity component only
      decays: after k frames it is `Damped(v, k)`, that is v * 0.95^k. */
  lemma {:induction false} DecaysWithoutPointer(p: Particle, frames: seq<Frame>)
    requires forall i :: 0 <= i < |frames| ==> frames[i].dist >= InfluenceRadius
    ensures Frames(p, frames).vx == Damped(p.vx, |frames|)
    ensures Frames(p, frames).vy == Damped(p.vy, |frames|)
  {
    if frames != [] {
      var pre := frames[..|frames| - 1];
      DecaysWithoutPointer(p, pre);
      FarStepDamps(Frames(p, pre), frames[|frames| - 1]);
    }
  }

  /** Out of the pointer's range a frame only applies friction to the velocity. */
  lemma FarStepDamps(q: Particle, f: Frame)
    requires f.dist >= InfluenceRadius
    ensures var r := StepParticle(q, f.mouseX, f.mouseY, f.dist, f.width, f.height);
            r.vx == q.vx * Friction && r.vy == q.vy * Friction
  {
  }

  lemma Reassociate(a: real, w: real, b: real)
    ensures (a * w) * b == a * (b * w)
  {
  }

  /** Radius, hue and opacity never change; after at least one frame the
      particle is inside the current surface's margins. */
  lemma {:induction false} TraitsAndMarginsKept(p: Particle, frames: seq<Frame>)
    requires p.radius >= 0.0
    ensures var q := Frames(p, frames);
            q.radius == p.radius && q.hue == p.hue && q.opacity == p.opacity
    ensures frames != [] ==> InField(Frames(p, frames), frames[|frames| - 1].width, frames[|frames| - 1].height)
  {
    if frames != [] {
      TraitsAndMarginsKept(p, frames[..|frames| - 1]);
    }
  }

  // ----- Pointer tracking -----

  datatype Point = Point(x: real, y: real)

  /** The pointer's position and its velocity estimate. */
  datatype Pointer = Pointer(x: real, y: real, vx: real, vy: real)

  /** A pointer move to (newX, newY), relative to the hero section: the velocity
      is half the displacement from the last observed position. */
  function Track(last: Point, newX: real, newY: real): (m: Pointer)
    ensures m.x == newX && m.y == newY
    ensures 2.0 * m.vx == newX - last.x && 2.0 * m.vy == newY - last.y
  {
    Pointer(newX, newY, (newX - last.x) * 0.5, (newY - last.y) * 0.5)
  }

  /** A jump from (100, 100) to (150, 100) records velocity (25, 0). */
  lemma TrackJump()
    ensures Track(Point(100.0, 100.0), 150.0, 100.0) == Pointer(150.0, 100.0, 25.0, 0.0)
  {
  }

  /** The last observed position after a path of moves. */
  function LastPoint(start: Point, path: seq<Point>): Point
  {
    if path == [] then start else path[|path| - 1]
  }

  /** The sum of the velocities recorded along a path of moves. */
  function VelocitySum(start: Point, path: seq<Point>): Point
  {
    if path == [] then Point(0.0, 0.0)
    else
      var pre := path[..|path| - 1];
      var s := VelocitySum(start, pre);
      var m := Track(LastPoint(start, pre), path[|path| - 1].x, path[|path| - 1].y);
      Point(s.x + m.vx, s.y + m.vy)
  }

  /** Because every move re-bases on the previous one, the recorded velocities
      over any path add up to half its net displacement. */
  lemma {:induction false} VelocitiesTelescope(start: Point, path: seq<Point>)
    ensures var s := VelocitySum(start, path);
            var e := LastPoint(start, path);
            2.0 * s.x == e.x - start.x && 2.0 * s.y == e.y - start.y
  {
    if path != [] {
      VelocitiesTelescope(start, path[..|path| - 1]);
    }
  }

  // ----- The field -----

  /** The effect's state: the surface size, the particles, the pointer and the
      last observed pointer position. */
  class Field {
    var width: nat
    var height: nat
    const particles: array<Particle>
    var mouse: Pointer
    var lastMouse: Point

    ghost predicate Valid()
      reads this, particles
    {
      && particles.Length == Count
      && (forall i :: 0 <= i < Count ==> Traits(particles[i]) && SpeedBounded(particles[i]))
      && mouse.x == lastMouse.x && mouse.y == lastMouse.y
    }

    /** Set-up on a hero section of the given size, with one set of draws per particle. */
    constructor (width: nat, height: nat, draws: seq<Draw>)
      requires |draws| == Count
      requires forall i :: 0 <= i < Count ==> IsDraw(draws[i])
      ensures Valid() && fresh(particles)
      ensures this.width == width && this.height == height
      ensures forall i :: 0 <= i < Count ==> particles[i] == Spawn(draws[i], width, height)
      ensures forall i :: 0 <= i < Count ==> InField(particles[i], width, height)
      ensures mouse == Pointer(width as real / 2.0, height as real / 2.0, 0.0, 0.0)
      ensures lastMouse == Point(width as real / 2.0, height as real / 2.0)
    {
      this.width := width;
      this.height := height;
      mouse := Pointer(width as real / 2.0, height as real / 2.0, 0.0, 0.0);
      lastMouse := Point(width as real / 2.0, height as real / 2.0);
      var created := new Particle[Count];
      for i := 0 to Count
        invariant forall k :: 0 <= k < i ==> created[k] == Spawn(draws[k], width, height)
      {
        created[i] := Spawn(draws[i], width, height);
      }
      particles := created;
    }

    /** The `mousemove` handler; the event's client coordinates are made
        relative to the section's bounding box. */
    method MouseMove(clientX: real, clientY: real, rectLeft: real, rectTop: real)
      requires Valid()
      modifies this
      ensures Valid()
      ensures mouse == Track(old(lastMouse), clientX - rectLeft, clientY - rectTop)
      ensures lastMouse == Point(clientX - rectLeft, clientY - rectTop)
      ensures width == old(width) && height == old(height)
    {
      var newX := clientX - rectLeft;
      var newY := clientY - rectTop;
      mouse := Pointer(newX, newY, (newX - lastMouse.x) * 0.5, (newY - lastMouse.y) * 0.5);
      lastMouse := Point(newX, newY);
    }

    /** The particle pass of one animation frame. `dists[i]` is the distance
        from particle `i` to the pointer, as measured before it moves. */
    method Animate(dists: seq<real>)
      requires Valid()
      requires |dists| == Count
      requires forall i :: 0 <= i < Count ==>
                 IsDist(mouse.x - particles[i].x, mouse.y - particles[i].y, dists[i])
      modifies particles
      ensures Valid()
      ensures forall i :: 0 <= i < Count ==>
                particles[i] == StepParticle(old(particles[i]), mouse.x, mouse.y, dists[i], width, height)
      ensures forall i :: 0 <= i < Count ==> InField(particles[i], width, height)
    {
      for i := 0 to Count
        invariant forall k :: 0 <= k < i ==>
                    particles[k] == StepParticle(old(particles[k]), mouse.x, mouse.y, dists[k], width, height)
        invariant forall k :: i <= k < Count ==> particles[k] == old(particles[k])
        invariant forall k :: 0 <= k < Count ==> Traits(particles[k]) && SpeedBounded(particles[k])
      {
        var p := particles[i];
        particles[i] := UpdateParticle(p, mouse.x, mouse.y, dists[i], width, height);
        SpeedStaysBounded(p, mouse.x, mouse.y, dists[i], width, height);
      }
    }

    /** The `resize` handler: only the surface size changes; particles keep
        their absolute coordinates until the next frame wraps them. */
    method Resize(newWidth: nat, newHeight: nat)
      requires Valid()
      modifies this
      ensures Valid()
      ensures width == newWidth && height == newHeight
      ensures mouse == old(mouse) && lastMouse == old(lastMouse)
    {
      width := newWidth;
      height := newHeight;
    }
  }
}
