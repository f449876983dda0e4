/** Properties of whole game states that creation, ticks, bonuses and particle ageing keep. */
module Invariants {
  import opened Entities
  import opened Physics
  import opened Orchestrator
  import opened Bonuses
  import opened InitialState
  import opened Particles

  /**
   * A sane state: the moon lies in [hw, 480 - hw], every comet has a positive radius and
   * |vy| <= 8, the bricks are well formed, and every particle has life in [1, 30].
   */
  predicate WellFormed(s: Snapshot)
  {
    && s.moon.hw <= s.moon.x <= FIELD_WIDTH - s.moon.hw
    && SpeedsOk(s.comets)
    && (forall i :: 0 <= i < |s.comets| ==> s.comets[i].r > 0.0)
    && BricksOk(s.bricks)
    && (forall i :: 0 <= i < |s.particles| ==> 0 < s.particles[i].life <= PARTICLE_LIFE)
  }

  /** A level whose bricks are well formed starts in a well-formed state. */
  lemma InitWellFormed(levelIdx: int, lvl: Level, bricks: seq<Brick>)
    requires BricksOk(bricks)
    ensures WellFormed(Initial(levelIdx, lvl, bricks))
  {
  }

  /** A tick with dt >= 0 keeps a state well formed and only wears its bricks down. */
  lemma TickWellFormed(s: Snapshot, dt: real, input: Option<Input>)
    requires WellFormed(s) && dt >= 0.0
    ensures WellFormed(Tick(s, dt, input))
    ensures BricksEvolve(s.bricks, Tick(s, dt, input).bricks)
  {
    var t := StepAll(s.comets, s.moon, s.bricks, dt);
    StepAllComets(s.comets, s.moon, s.bricks, dt);
    StepAllBricks(s.comets, s.moon, s.bricks, dt);
    var n := Tick(s, dt, input);
    assert n.particles == s.particles + t.spawned;
    forall i | 0 <= i < |n.particles|
      ensures 0 < n.particles[i].life <= PARTICLE_LIFE
    {
      if i >= |s.particles| {
        assert n.particles[i] in t.spawned;
      }
    }
  }

  /** A bonus keeps a state well formed. */
  lemma BonusWellFormed(s: Snapshot, bonus: Bonus)
    requires WellFormed(s) && (bonus.CometBonus? ==> |s.comets| > 0)
    ensures WellFormed(Applied(s, bonus))
  {
  }

  /** An ageing pass over the particles keeps a state well formed. */
  lemma AgeingWellFormed(s: Snapshot)
    requires WellFormed(s)
    ensures WellFormed(s.(particles := Aged(s.particles)))
  {
    var qs := Aged(s.particles);
    AgedMembers(s.particles);
    forall i | 0 <= i < |qs|
      ensures 0 < qs[i].life <= PARTICLE_LIFE
    {
      assert qs[i] in qs;
      var p :| p in s.particles && p.life > 1 && qs[i] == p.(life := p.life - 1);
    }
  }

  /** A tick appends one particle of life 30 per brick hit and keeps the older particles. */
  lemma TickParticles(s: Snapshot, dt: real, input: Option<Input>)
    ensures var n := Tick(s, dt, input);
      && |n.particles| == |s.particles| + HitsSeen(s.comets, s.moon, s.bricks, dt)
      && n.particles[..|s.particles|] == s.particles
      && forall i :: |s.particles| <= i < |n.particles| ==> n.particles[i].life == PARTICLE_LIFE
  {
    var t := StepAll(s.comets, s.moon, s.bricks, dt);
    StepAllSpawned(s.comets, s.moon, s.bricks, dt);
    StepAllBricks(s.comets, s.moon, s.bricks, dt);
    var n := Tick(s, dt, input);
    assert n.particles == s.particles + t.spawned;
    forall i | |s.particles| <= i < |n.particles|
      ensures n.particles[i].life == PARTICLE_LIFE
    {
      assert n.particles[i] == t.spawned[i - |s.particles|];
    }
  }

  /**
   * The frame loop's updates: one `update` per fixed step, all with the same dt, each taking
   * at most one queued input (`None` when the queue is empty).
   */
  function Run(s: Snapshot, dt: real, inputs: seq<Option<Input>>): Snapshot
    decreases |inputs|
  {
    if inputs == [] then s else Run(Tick(s, dt, inputs[0]), dt, inputs[1..])
  }

  /** Any number of ticks keeps a state well formed, counts every tick and keeps the comet count. */
  lemma {:induction false} RunWellFormed(s: Snapshot, dt: real, inputs: seq<Option<Input>>)
    requires WellFormed(s) && dt >= 0.0
    ensures WellFormed(Run(s, dt, inputs))
    ensures Run(s, dt, inputs).tick == s.tick + |inputs|
    ensures |Run(s, dt, inputs).comets| == |s.comets|
    ensures BricksEvolve(s.bricks, Run(s, dt, inputs).bricks)
    decreases |inputs|
  {
    if inputs != [] {
      var n := Tick(s, dt, inputs[0]);
      TickWellFormed(s, dt, inputs[0]);
      RunWellFormed(n, dt, inputs[1..]);
      EvolveTrans(s.bricks, n.bricks, Run(n, dt, inputs[1..]).bricks);
    }
  }
}
