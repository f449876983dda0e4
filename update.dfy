/** One simulation tick: move the moon, step every comet, count the tick (src/engine/update.js). */
module Orchestrator {
  import opened Entities
  import opened Physics

  function Max(a: real, b: real): real
  {
    if a >= b then a else b
  }

  /** `input?.type === 'moon'`: a missing input and any other tag leave the moon alone. */
  predicate IsMoonMove(input: Option<Input>)
  {
    input.Some? && input.value.kind == "moon"
  }

  /** The moon after the input: shifted by deltaX and clamped into [hw, 480 - hw]. */
  function MoveMoon(m: Moon, input: Option<Input>): (n: Moon)
    ensures n.y == m.y && n.hw == m.hw && n.ht == m.ht
    ensures !IsMoonMove(input) ==> n == m
    ensures IsMoonMove(input) && m.hw <= FIELD_WIDTH - m.hw ==> m.hw <= n.x <= FIELD_WIDTH - m.hw
    ensures IsMoonMove(input) && m.hw <= m.x + input.value.deltaX <= FIELD_WIDTH - m.hw ==>
              n.x == m.x + input.value.deltaX
    ensures IsMoonMove(input) && m.x + input.value.deltaX < m.hw ==> n.x == m.hw
    ensures IsMoonMove(input) && m.hw <= FIELD_WIDTH - m.hw < m.x + input.value.deltaX ==>
              n.x == FIELD_WIDTH - m.hw
    ensures IsMoonMove(input) && FIELD_WIDTH - m.hw < m.hw ==> n.x == m.hw
  {
    if IsMoonMove(input) then
      m.(x := Max(m.hw, Min(480.0 - m.hw, m.x + input.value.deltaX)))
    else m
  }

  predicate SpeedsOk(cs: seq<Comet>)
  {
    forall i :: 0 <= i < |cs| ==> Abs(cs[i].vy) <= MAX_VY
  }

  datatype TickResult = TickResult(comets: seq<Comet>, bricks: seq<Brick>, spawned: seq<Particle>)

  /**
   * `comets.map(c => applyPhysics(c, state, dt))`: the comets stepped in order, each one
   * against the bricks as the comets before it left them, all against the same moon.
   */
  function StepAll(cs: seq<Comet>, m: Moon, bricks: seq<Brick>, dt: real): (t: TickResult)
    ensures |t.comets| == |cs| && |t.bricks| == |bricks|
  {
    if cs == [] then TickResult([], bricks, [])
    else
      var t := StepAll(cs[..|cs| - 1], m, bricks, dt);
      var s := Step(cs[|cs| - 1], m, t.bricks, dt);
      TickResult(t.comets + [s.comet], s.bricks, t.spawned + s.spawned)
  }

  /**
   * What mapping the comets keeps of each comet: its radius and trail, the whole record of an
   * inactive comet, and |vy| <= 8 when dt >= 0.
   */
  lemma StepAllComets(cs: seq<Comet>, m: Moon, bricks: seq<Brick>, dt: real)
    ensures var t := StepAll(cs, m, bricks, dt);
      && (forall i :: 0 <= i < |cs| ==> t.comets[i].r == cs[i].r && t.comets[i].trail == cs[i].trail)
      && (forall i :: 0 <= i < |cs| && !cs[i].active ==> t.comets[i] == cs[i])
      && (dt >= 0.0 && SpeedsOk(cs) ==> SpeedsOk(t.comets))
  {
    var t := StepAll(cs, m, bricks, dt);
    forall i | 0 <= i < |cs|
      ensures t.comets[i].r == cs[i].r && t.comets[i].trail == cs[i].trail
      ensures !cs[i].active ==> t.comets[i] == cs[i]
      ensures dt >= 0.0 && SpeedsOk(cs) ==> Abs(t.comets[i].vy) <= MAX_VY
    {
      StepAllAt(cs, m, bricks, dt, i);
      if dt >= 0.0 && SpeedsOk(cs) {
        SpeedBounded(cs[i], m, StepAll(cs[..i], m, bricks, dt).bricks, dt);
      }
    }
  }

  /** Mapping the comets spawns particles of life 30 only, and well-formed bricks only wear down. */
  lemma {:induction false} StepAllBricks(cs: seq<Comet>, m: Moon, bricks: seq<Brick>, dt: real)
    ensures var t := StepAll(cs, m, bricks, dt);
      && (forall p :: p in t.spawned ==> p.life == PARTICLE_LIFE)
      && (BricksOk(bricks) ==> BricksOk(t.bricks) && BricksEvolve(bricks, t.bricks))
    decreases |cs|
  {
    if cs != [] {
      var n := |cs| - 1;
      StepAllBricks(cs[..n], m, bricks, dt);
      var t := StepAll(cs[..n], m, bricks, dt);
      var s := Step(cs[n], m, t.bricks, dt);
      assert StepAll(cs, m, bricks, dt) == TickResult(t.comets + [s.comet], s.bricks, t.spawned + s.spawned);
      if BricksOk(bricks) {
        StepBricks(cs[n], m, t.bricks, dt);
        EvolveTrans(bricks, t.bricks, s.bricks);
      }
    }
  }

  /**
   * The number of brick hits over the map: each active comet counts the bricks it overlaps at
   * its new position, in the bricks as the comets before it left them.
   */
  function HitsSeen(cs: seq<Comet>, m: Moon, bricks: seq<Brick>, dt: real): nat
    decreases |cs|
  {
    if cs == [] then 0
    else
      var n := |cs| - 1;
      var c := cs[n];
      var seen := StepAll(cs[..n], m, bricks, dt).bricks;
      HitsSeen(cs[..n], m, bricks, dt)
        + if c.active then CountHits(seen, NextX(c, dt), NextY(c, dt), c.r) else 0
  }

  /** One particle per brick hit: the map spawns exactly as many particles as there are hits. */
  lemma {:induction false} StepAllSpawned(cs: seq<Comet>, m: Moon, bricks: seq<Brick>, dt: real)
    ensures |StepAll(cs, m, bricks, dt).spawned| == HitsSeen(cs, m, bricks, dt)
    decreases |cs|
  {
    if cs != [] {
      var n := |cs| - 1;
      StepAllSpawned(cs[..n], m, bricks, dt);
      var t := StepAll(cs[..n], m, bricks, dt);
      var s := Step(cs[n], m, t.bricks, dt);
      assert StepAll(cs, m, bricks, dt).spawned == t.spawned + s.spawned;
    }
  }

  /** The state after `update(state, dt, input)`. */
  function Tick(s: Snapshot, dt: real, input: Option<Input>): (n: Snapshot)
    ensures n.tick == s.tick + 1
    ensures n.moon == MoveMoon(s.moon, input)
    ensures n.comets == StepAll(s.comets, s.moon, s.bricks, dt).comets
    ensures n.bricks == StepAll(s.comets, s.moon, s.bricks, dt).bricks
    ensures n.particles == s.particles + StepAll(s.comets, s.moon, s.bricks, dt).spawned
    ensures |n.comets| == |s.comets|
    ensures |s.particles| <= |n.particles| && n.particles[..|s.particles|] == s.particles
    ensures n.(tick := s.tick, moon := s.moon, comets := s.comets,
               bricks := s.bricks, particles := s.particles) == s
  {
    var t := StepAll(s.comets, s.moon, s.bricks, dt);
    s.(tick := s.tick + 1, moon := MoveMoon(s.moon, input), comets := t.comets,
       bricks := t.bricks, particles := s.particles + t.spawned)
  }

  /** Stepping one more comet extends the results, the bricks and the particles of a prefix. */
  lemma StepAllSnoc(cs: seq<Comet>, i: nat, m: Moon, bricks: seq<Brick>, dt: real)
    requires i < |cs|
    ensures var t := StepAll(cs[..i], m, bricks, dt);
      var s := Step(cs[i], m, t.bricks, dt);
      StepAll(cs[..i + 1], m, bricks, dt) == TickResult(t.comets + [s.comet], s.bricks, t.spawned + s.spawned)
  {
    assert cs[..i + 1][..i] == cs[..i];
  }

  /**
   * `comets'[i]` is `applyPhysics(comets[i], state, dt)`: comet `i` is stepped against the
   * bricks as the comets before it left them.
   */
  lemma {:induction false} StepAllAt(cs: seq<Comet>, m: Moon, bricks: seq<Brick>, dt: real, i: nat)
    requires i < |cs|
    ensures StepAll(cs, m, bricks, dt).comets[i] == Step(cs[i], m, StepAll(cs[..i], m, bricks, dt).bricks, dt).comet
    decreases |cs|
  {
    var n := |cs| - 1;
    var t := StepAll(cs[..n], m, bricks, dt);
    var last := Step(cs[n], m, t.bricks, dt).comet;
    var all := StepAll(cs, m, bricks, dt).comets;
    assert all == t.comets + [last];
    if i < n {
      StepAllAt(cs[..n], m, bricks, dt, i);
      assert cs[..n][i] == cs[i] && cs[..n][..i] == cs[..i];
      assert all[i] == t.comets[i];
    } else {
      assert all[i] == last && cs[..i] == cs[..n];
    }
  }

  lemma AppendAssoc<T>(a: seq<T>, b: seq<T>, c: seq<T>)
    ensures (a + b) + c == a + (b + c)
  {
  }

  /**
   * The `map` of `applyPhysics` over `state.comets`, in index order, each call given the
   * same state. The old array keeps its records, with `active` cleared on those that died.
   */
  method StepComets(state: GameState, dt: real) returns (comets: seq<Comet>)
    modifies state`comets, state.bricks, state.particles
    ensures var t := StepAll(old(state.comets), state.moon, old(state.bricks[..]), dt);
      && comets == t.comets
      && state.bricks[..] == t.bricks
      && state.particles.items == old(state.particles.items) + t.spawned
    ensures |state.comets| == |comets|
    ensures forall k :: 0 <= k < |comets| ==> state.comets[k] == old(state.comets[k]).(active := comets[k].active)
  {
    ghost var comets0 := state.comets;
    ghost var bricks0 := state.bricks[..];
    ghost var particles0 := state.particles.items;
    ghost var t := TickResult([], bricks0, []);
    comets := [];
    var i := 0;
    while i < |state.comets|
      invariant |state.comets| == |comets0| && 0 <= i <= |comets0|
      invariant t == StepAll(comets0[..i], state.moon, bricks0, dt)
      invariant comets == t.comets && state.bricks[..] == t.bricks
      invariant state.particles.items == particles0 + t.spawned
      invariant forall k :: 0 <= k < i ==> state.comets[k] == comets0[k].(active := comets[k].active)
      invariant forall k :: i <= k < |comets0| ==> state.comets[k] == comets0[k]
    {
      ghost var s := Step(comets0[i], state.moon, t.bricks, dt);
      StepAllSnoc(comets0, i, state.moon, bricks0, dt);
      var c := ApplyPhysics(state, i, dt);
      AppendAssoc(particles0, t.spawned, s.spawned);
      comets := comets + [c];
      t := TickResult(t.comets + [s.comet], s.bricks, t.spawned + s.spawned);
      i := i + 1;
    }
    assert comets0[..|comets0|] == comets0;
  }

  /**
   * `update(state, dt, input)`. Every comet is stepped against the old state, and so
   * against the old moon; the new state is a shallow copy that shares the brick array
   * and the particle array with the old one.
   */
  method Update(state: GameState, dt: real, input: Option<Input>) returns (next: GameState)
    requires state.Valid()
    modifies state`comets, state.bricks, state.particles
    ensures fresh(next) && next.Valid()
    ensures next.View() == Tick(old(state.View()), dt, input)
    ensures next.bricks == state.bricks && next.particles == state.particles && next.lvl == state.lvl
    ensures |state.comets| == |next.comets|
    ensures forall k :: 0 <= k < |next.comets| ==>
              state.comets[k] == old(state.comets[k]).(active := next.comets[k].active)
  {
    var moon := state.moon;
    if input.Some? && input.value.kind == "moon" {
      moon := moon.(x := Max(moon.hw, Min(480.0 - moon.hw, moon.x + input.value.deltaX)));
    }
    var comets := StepComets(state, dt);
    next := new GameState.Spread(state, state.tick + 1, moon, comets);
  }
}
