/** One comet's step: gravity, integration, walls, ceiling, moon, bricks, death line (src/engine/physics.js). */
module Physics {
  import opened Entities

  const GRAVITY: real := 0.12
  const MAX_VY: real := 8.0
  const FIELD_WIDTH: real := 480.0
  const DEATH_LINE: real := 920.0
  const DAMAGE_STEP: real := 0.25
  const KICK: real := 0.03
  const PARTICLE_LIFE: int := 30

  function Min(a: real, b: real): real
  {
    if a <= b then a else b
  }

  function Abs(v: real): real
  {
    if v < 0.0 then -v else v
  }

  /** Vertical velocity after gravity: raised by GRAVITY * dt, but never above MAX_VY. */
  function Gravity(vy: real, dt: real): (v: real)
    ensures v <= MAX_VY
    ensures vy + GRAVITY * dt <= MAX_VY ==> v == vy + GRAVITY * dt
    ensures vy + GRAVITY * dt >= MAX_VY ==> v == MAX_VY
  {
    Min(vy + GRAVITY * dt, MAX_VY)
  }

  /** Position after integration; the later collision steps never move it again. */
  function NextX(c: Comet, dt: real): real
  {
    c.x + c.vx * dt
  }

  function NextY(c: Comet, dt: real): real
  {
    c.y + Gravity(c.vy, dt) * dt
  }

  predicate HitsWall(x: real, r: real)
  {
    x < r || x > FIELD_WIDTH - r
  }

  predicate HitsCeiling(y: real, r: real)
  {
    y < r
  }

  /** The comet's lower edge is below the moon's top edge and its centre strictly inside the moon's span. */
  predicate HitsMoon(m: Moon, x: real, y: real, r: real)
  {
    y + r > m.y - m.ht && x > m.x - m.hw && x < m.x + m.hw
  }

  /** An alive brick whose open x-span holds the centre and whose y-span overlaps [y - r, y + r]. */
  predicate HitsBrick(b: Brick, x: real, y: real, r: real)
  {
    b.alive && x > b.x && x < b.x + b.w && y - r < b.y + b.h && y + r > b.y
  }

  /** A brick's state after one hit. */
  function Damage(b: Brick): (d: Brick)
    ensures d.x == b.x && d.y == b.y && d.w == b.w && d.h == b.h
    ensures d.damage <= 1.0
    ensures b.damage <= 1.0 ==> b.damage <= d.damage
    ensures b.damage + DAMAGE_STEP <= 1.0 ==> d.damage == b.damage + DAMAGE_STEP
    ensures b.damage + DAMAGE_STEP >= 1.0 ==> d.damage == 1.0
    ensures d.alive <==> b.alive && d.damage < 1.0
  {
    var damage := Min(1.0, b.damage + DAMAGE_STEP);
    b.(damage := damage, alive := if damage >= 1.0 then false else b.alive)
  }

  /** The level data's promise about a brick: damage within [0, 1], and below 1 while alive. */
  predicate BrickOk(b: Brick)
  {
    0.0 <= b.damage <= 1.0 && (b.alive ==> b.damage < 1.0)
  }

  predicate BricksOk(bs: seq<Brick>)
  {
    forall i :: 0 <= i < |bs| ==> BrickOk(bs[i])
  }

  /** `after` is `before` worn down: same rectangles, no damage lost, no dead brick revived. */
  predicate BricksEvolve(before: seq<Brick>, after: seq<Brick>)
  {
    && |after| == |before|
    && forall i :: 0 <= i < |before| ==>
         && after[i].x == before[i].x && after[i].y == before[i].y
         && after[i].w == before[i].w && after[i].h == before[i].h
         && before[i].damage <= after[i].damage
         && (!before[i].alive ==> after[i] == before[i])
  }

  /** The number of bricks of `bs` a comet at (x, y) with radius r hits. */
  function CountHits(bs: seq<Brick>, x: real, y: real, r: real): nat
  {
    if bs == [] then 0
    else CountHits(bs[..|bs| - 1], x, y, r) + (if HitsBrick(bs[|bs| - 1], x, y, r) then 1 else 0)
  }

  datatype Scan = Scan(vy: real, bricks: seq<Brick>, spawned: seq<Particle>)

  /**
   * The brick pass, in array order: every hit brick takes one step of damage, flips vy
   * and spawns one particle at the comet's centre; every other brick is left as it was.
   */
  function ScanBricks(bs: seq<Brick>, x: real, y: real, r: real, vy: real): (s: Scan)
    ensures |s.bricks| == |bs|
    ensures forall i :: 0 <= i < |bs| ==>
              s.bricks[i] == if HitsBrick(bs[i], x, y, r) then Damage(bs[i]) else bs[i]
    ensures |s.spawned| == CountHits(bs, x, y, r)
    ensures forall p :: p in s.spawned ==> p == Particle(x, y, PARTICLE_LIFE)
    ensures s.vy == if CountHits(bs, x, y, r) % 2 == 0 then vy else -vy
  {
    if bs == [] then Scan(vy, [], [])
    else
      var s := ScanBricks(bs[..|bs| - 1], x, y, r, vy);
      var b := bs[|bs| - 1];
      if HitsBrick(b, x, y, r) then
        Scan(s.vy * -1.0, s.bricks + [Damage(b)], s.spawned + [Particle(x, y, PARTICLE_LIFE)])
      else
        Scan(s.vy, s.bricks + [b], s.spawned)
  }

  /**
   * The comet after gravity, integration, wall and ceiling reflection and the moon
   * bounce, before the brick pass and the death line.
   */
  function Motion(c: Comet, m: Moon, dt: real): (k: Comet)
    ensures k.x == NextX(c, dt) && k.y == NextY(c, dt)
    ensures k.r == c.r && k.trail == c.trail && k.active == c.active
    ensures Abs(k.vy) == Abs(Gravity(c.vy, dt))
    ensures HitsMoon(m, k.x, k.y, c.r) ==> k.vy <= 0.0
    ensures var vx1 := if HitsWall(k.x, c.r) then -c.vx else c.vx;
      k.vx == if HitsMoon(m, k.x, k.y, c.r) then vx1 + (k.x - m.x) * KICK else vx1
  {
    var vy0 := Gravity(c.vy, dt);
    var x := c.x + c.vx * dt;
    var y := c.y + vy0 * dt;
    var vx1 := if HitsWall(x, c.r) then c.vx * -1.0 else c.vx;
    var vy1 := if HitsCeiling(y, c.r) then vy0 * -1.0 else vy0;
    var bounce := HitsMoon(m, x, y, c.r);
    var vy2 := if bounce then -Abs(vy1) else vy1;
    var vx2 := if bounce then vx1 + (x - m.x) * KICK else vx1;
    c.(x := x, y := y, vx := vx2, vy := vy2)
  }

  /** Motion spelled out from the velocities after the walls and the ceiling. */
  lemma MotionIs(c: Comet, m: Moon, dt: real, vx1: real, vy1: real)
    requires vx1 == if HitsWall(NextX(c, dt), c.r) then c.vx * -1.0 else c.vx
    requires vy1 == if HitsCeiling(NextY(c, dt), c.r) then Gravity(c.vy, dt) * -1.0 else Gravity(c.vy, dt)
    ensures var x, y := NextX(c, dt), NextY(c, dt);
      var bounce := HitsMoon(m, x, y, c.r);
      Motion(c, m, dt) == c.(x := x, y := y,
                             vx := if bounce then vx1 + (x - m.x) * KICK else vx1,
                             vy := if bounce then -Abs(vy1) else vy1)
  {
  }

  datatype StepResult = StepResult(comet: Comet, bricks: seq<Brick>, spawned: seq<Particle>)

  /**
   * What `applyPhysics` computes for one comet against moon `m` and bricks `bricks`:
   * the returned comet, the bricks afterwards, and the particles appended.
   */
  function Step(c: Comet, m: Moon, bricks: seq<Brick>, dt: real): (s: StepResult)
    ensures !c.active ==> s == StepResult(c, bricks, [])
    ensures s.comet.r == c.r && s.comet.trail == c.trail
    ensures c.active ==> s.comet.x == NextX(c, dt) && s.comet.y == NextY(c, dt)
    ensures c.active ==> (s.comet.active <==> s.comet.y <= DEATH_LINE)
    ensures |s.bricks| == |bricks|
    ensures forall i :: 0 <= i < |bricks| ==>
              s.bricks[i] == if c.active && HitsBrick(bricks[i], s.comet.x, s.comet.y, c.r)
                             then Damage(bricks[i]) else bricks[i]
    ensures |s.spawned| == if c.active then CountHits(bricks, s.comet.x, s.comet.y, c.r) else 0
    ensures forall p :: p in s.spawned ==> p == Particle(s.comet.x, s.comet.y, PARTICLE_LIFE)
  {
    if !c.active then StepResult(c, bricks, [])
    else
      var k := Motion(c, m, dt);
      var sc := ScanBricks(bricks, k.x, k.y, k.r, k.vy);
      var active := if k.y > DEATH_LINE then false else k.active;
      StepResult(k.(vy := sc.vy, active := active), sc.bricks, sc.spawned)
  }

  /** If |vy| <= MAX_VY before a step with dt >= 0, it still is afterwards. */
  lemma SpeedBounded(c: Comet, m: Moon, bricks: seq<Brick>, dt: real)
    requires dt >= 0.0 && Abs(c.vy) <= MAX_VY
    ensures Abs(Step(c, m, bricks, dt).comet.vy) <= MAX_VY
  {
    if c.active {
      var vy0 := Gravity(c.vy, dt);
      assert -MAX_VY <= vy0 <= MAX_VY;
    }
  }

  /**
   * The brick pass never touches vx: the returned vx is the wall-reflected vx, kicked by the
   * comet's offset from the moon's centre on a moon hit, whatever bricks are hit.
   */
  lemma StepVx(c: Comet, m: Moon, bricks: seq<Brick>, dt: real)
    requires c.active
    ensures var x, y := NextX(c, dt), NextY(c, dt);
      var vx1 := if HitsWall(x, c.r) then -c.vx else c.vx;
      Step(c, m, bricks, dt).comet.vx == if HitsMoon(m, x, y, c.r) then vx1 + (x - m.x) * KICK else vx1
  {
  }

  /**
   * Walls and ceiling only reflect: away from the moon, vx is negated or kept; away from the
   * bricks as well, so is vy.
   */
  lemma Reflection(c: Comet, m: Moon, bricks: seq<Brick>, dt: real)
    requires c.active
    requires !HitsMoon(m, NextX(c, dt), NextY(c, dt), c.r)
    ensures Step(c, m, bricks, dt).comet.vx == (if HitsWall(NextX(c, dt), c.r) then -c.vx else c.vx)
    ensures CountHits(bricks, NextX(c, dt), NextY(c, dt), c.r) == 0 ==>
              Step(c, m, bricks, dt).comet.vy ==
                (if HitsCeiling(NextY(c, dt), c.r) then -Gravity(c.vy, dt) else Gravity(c.vy, dt))
  {
  }

  /**
   * A moon hit kicks vx by the comet's offset from the moon's centre and, unless an odd number
   * of brick hits turns it back, sends the comet upward at the same speed.
   */
  lemma MoonBounce(c: Comet, m: Moon, bricks: seq<Brick>, dt: real)
    requires c.active
    requires HitsMoon(m, NextX(c, dt), NextY(c, dt), c.r)
    ensures Step(c, m, bricks, dt).comet.vx ==
              (if HitsWall(NextX(c, dt), c.r) then -c.vx else c.vx) + (NextX(c, dt) - m.x) * KICK
    ensures CountHits(bricks, NextX(c, dt), NextY(c, dt), c.r) % 2 == 0 ==>
              && Step(c, m, bricks, dt).comet.vy <= 0.0
              && Abs(Step(c, m, bricks, dt).comet.vy) == Abs(Gravity(c.vy, dt))
  {
  }

  /** Every hit flips vy once, so an odd number of hits reverses it and an even number cancels out. */
  lemma BrickFlips(c: Comet, m: Moon, bricks: seq<Brick>, dt: real)
    requires c.active
    ensures var x, y := NextX(c, dt), NextY(c, dt);
      var vy1 := if HitsCeiling(y, c.r) then -Gravity(c.vy, dt) else Gravity(c.vy, dt);
      var vy2 := if HitsMoon(m, x, y, c.r) then -Abs(vy1) else vy1;
      Step(c, m, bricks, dt).comet.vy == if CountHits(bricks, x, y, c.r) % 2 == 0 then vy2 else -vy2
  {
  }

  /** Wearing down is transitive: two rounds of wear are one. */
  lemma EvolveTrans(a: seq<Brick>, b: seq<Brick>, c: seq<Brick>)
    requires BricksEvolve(a, b) && BricksEvolve(b, c)
    ensures BricksEvolve(a, c)
  {
  }

  /** A step on well-formed bricks keeps them well-formed and only wears them down. */
  lemma StepBricks(c: Comet, m: Moon, bricks: seq<Brick>, dt: real)
    requires BricksOk(bricks)
    ensures BricksOk(Step(c, m, bricks, dt).bricks)
    ensures BricksEvolve(bricks, Step(c, m, bricks, dt).bricks)
  {
  }

  /**
   * The `forEach` over the brick array: hit bricks are damaged in place, vy is flipped
   * and a particle is pushed per hit.
   */
  method HitBricks(bricks: array<Brick>, particles: ParticleList, x: real, y: real, r: real, vy0: real)
    returns (vy: real)
    modifies bricks, particles
    ensures var sc := ScanBricks(old(bricks[..]), x, y, r, vy0);
      bricks[..] == sc.bricks && vy == sc.vy && particles.items == old(particles.items) + sc.spawned
  {
    ghost var bricks0 := bricks[..];
    ghost var particles0 := particles.items;
    ghost var sc := Scan(vy0, [], []);
    vy := vy0;
    var i := 0;
    while i < bricks.Length
      invariant 0 <= i <= bricks.Length
      invariant forall k :: i <= k < bricks.Length ==> bricks[k] == bricks0[k]
      invariant sc == ScanBricks(bricks0[..i], x, y, r, vy0)
      invariant bricks[..i] == sc.bricks && vy == sc.vy && particles.items == particles0 + sc.spawned
    {
      ScanSnoc(bricks0, i, x, y, r, vy0);
      assert bricks[i] == bricks0[i];
      vy := HitBrick(bricks, particles, i, x, y, r, vy);
      if HitsBrick(bricks0[i], x, y, r) {
        sc := Scan(sc.vy * -1.0, sc.bricks + [Damage(bricks0[i])], sc.spawned + [Particle(x, y, PARTICLE_LIFE)]);
      } else {
        sc := Scan(sc.vy, sc.bricks + [bricks0[i]], sc.spawned);
      }
      assert bricks[..i + 1] == bricks[..i] + [bricks[i]];
      i := i + 1;
    }
    assert bricks0[..bricks.Length] == bricks0;
    assert bricks[..bricks.Length] == bricks[..];
  }

  /**
   * The `forEach` callback for brick `i`: a hit damages the brick in place, flips vy and
   * pushes one particle; a dead or missed brick changes nothing.
   */
  method HitBrick(bricks: array<Brick>, particles: ParticleList, i: nat, x: real, y: real, r: real, vy0: real)
    returns (vy: real)
    requires i < bricks.Length
    modifies bricks, particles
    ensures var hit := HitsBrick(old(bricks[i]), x, y, r);
      && bricks[..] == old(bricks[..])[i := if hit then Damage(old(bricks[i])) else old(bricks[i])]
      && vy == (if hit then vy0 * -1.0 else vy0)
      && particles.items == old(particles.items) + (if hit then [Particle(x, y, PARTICLE_LIFE)] else [])
  {
    vy := vy0;
    var b := bricks[i];
    if !b.alive {
      return;
    }
    if x > b.x && x < b.x + b.w && y - r < b.y + b.h && y + r > b.y {
      b := b.(damage := Min(1.0, b.damage + 0.25));
      if b.damage >= 1.0 {
        b := b.(alive := false);
      }
      bricks[i] := b;
      vy := vy * -1.0;
      particles.items := particles.items + [Particle(x, y, 30)];
    }
  }

  /** The brick pass over one more brick: the pass over the prefix, then that brick's fate. */
  lemma ScanSnoc(bs: seq<Brick>, i: nat, x: real, y: real, r: real, vy: real)
    requires i < |bs|
    ensures var s := ScanBricks(bs[..i], x, y, r, vy);
      ScanBricks(bs[..i + 1], x, y, r, vy) ==
        if HitsBrick(bs[i], x, y, r) then
          Scan(s.vy * -1.0, s.bricks + [Damage(bs[i])], s.spawned + [Particle(x, y, PARTICLE_LIFE)])
        else Scan(s.vy, s.bricks + [bs[i]], s.spawned)
  {
    assert bs[..i + 1][..i] == bs[..i];
  }

  /** The statements of `applyPhysics` before the brick loop, on local copies of the fields. */
  method Move(comet: Comet, m: Moon, dt: real) returns (x: real, y: real, vx: real, vy: real)
    ensures comet.(x := x, y := y, vx := vx, vy := vy) == Motion(comet, m, dt)
  {
    var r;
    x, y, vx, vy, r := comet.x, comet.y, comet.vx, comet.vy, comet.r;

    vy := Min(vy + GRAVITY * dt, MAX_VY);
    x := x + vx * dt;
    y := y + vy * dt;
    assert vy == Gravity(comet.vy, dt) && x == NextX(comet, dt) && y == NextY(comet, dt);

    if x < r || x > 480.0 - r {
      vx := vx * -1.0;
    }
    if y < r {
      vy := vy * -1.0;
    }
    ghost var vx1, vy1 := vx, vy;

    if y + r > m.y - m.ht && x > m.x - m.hw && x < m.x + m.hw {
      vy := -Abs(vy);
      vx := vx + (x - m.x) * 0.03;
    }
    MotionIs(comet, m, dt, vx1, vy1);
  }

  /**
   * `applyPhysics(comet, state, dt)` for the comet in slot `i` of the state's comet array.
   * An inactive comet is returned unchanged. Otherwise bricks are damaged in place,
   * particles are pushed, the comet's own `active` is cleared past the death line, and a
   * new record is returned.
   */
  method ApplyPhysics(state: GameState, i: nat, dt: real) returns (result: Comet)
    requires i < |state.comets|
    modifies state`comets, state.bricks, state.particles
    ensures var s := Step(old(state.comets[i]), state.moon, old(state.bricks[..]), dt);
      && result == s.comet
      && state.bricks[..] == s.bricks
      && state.particles.items == old(state.particles.items) + s.spawned
    ensures state.comets == old(state.comets)[i := old(state.comets[i]).(active := result.active)]
  {
    var comet := state.comets[i];
    if !comet.active {
      return comet;
    }
    var x, y, vx, vy := Move(comet, state.moon, dt);
    vy := HitBricks(state.bricks, state.particles, x, y, comet.r, vy);

    if y > 920.0 {
      comet := comet.(active := false);
      state.comets := state.comets[i := comet];
    }

    result := comet.(x := x, y := y, vx := vx, vy := vy);
  }
}
