/** The records of the simulation: what the engine reads and writes each tick. */
module Entities {

  datatype Option<T> = None | Some(value: T)

  /** The paddle: centre (x, y), half-width hw and half-height ht. */
  datatype Moon = Moon(x: real, y: real, hw: real, ht: real)

  /** A destructible rectangle. Hits raise `damage`; `alive` drops once damage reaches 1. */
  datatype Brick = Brick(x: real, y: real, w: real, h: real, alive: bool, damage: real)

  /** A cosmetic spark at (x, y) that lives `life` more frames. */
  datatype Particle = Particle(x: real, y: real, life: int)

  /** One point of a comet's trail. The engine carries trails along and never looks inside. */
  datatype TrailPoint = TrailPoint(x: real, y: real)

  /**
   * A comet record. The state's comet array holds these by value; the one write the engine
   * makes to a comet it was given (clearing `active`) is made to its slot in that array.
   */
  datatype Comet = Comet(x: real, y: real, vx: real, vy: real, r: real, trail: seq<TrailPoint>, active: bool)

  /** A bonus event, told apart by its `type` tag; `OtherBonus` is any tag the applier does not know. */
  datatype Bonus =
    | MultiplierBonus(factor: real)
    | LifeBonus(amount: int)
    | CometBonus
    | OtherBonus(kind: string)

  /** One queued input command: a tag and a horizontal displacement. */
  datatype Input = Input(kind: string, deltaX: real)

  /** An entry of the level table. Its brick array is shared with every state built from it. */
  datatype Level = Level(bricks: array<Brick>)

  /** The growable particle array that physics pushes onto and the renderer splices. */
  class ParticleList {
    var items: seq<Particle>

    constructor ()
      ensures items == []
    {
      items := [];
    }
  }

  /** The value of a whole game state, with every comet, brick and particle read out. */
  datatype Snapshot = Snapshot(
    phase: string,
    levelIdx: int,
    lvl: Level,
    score: int,
    lives: int,
    multiplier: real,
    moon: Moon,
    comets: seq<Comet>,
    bricks: seq<Brick>,
    particles: seq<Particle>,
    bonusDrop: seq<Bonus>,
    activeBonuses: map<string, real>,
    tick: int,
    shakeT: real)

  /** The game state object. */
  class GameState {
    var phase: string
    var levelIdx: int
    var lvl: Level
    var score: int
    var lives: int
    var multiplier: real
    var moon: Moon
    var comets: seq<Comet>
    var bricks: array<Brick>
    var particles: ParticleList
    var bonusDrop: seq<Bonus>
    var activeBonuses: map<string, real>
    var tick: int
    var shakeT: real

    /** The state's brick array is its level's own array. */
    ghost predicate Valid()
      reads this
    {
      bricks == lvl.bricks
    }

    ghost function View(): Snapshot
      reads this, bricks, particles
    {
      Snapshot(phase, levelIdx, lvl, score, lives, multiplier, moon, comets,
               bricks[..], particles.items, bonusDrop, activeBonuses, tick, shakeT)
    }

    /** A state holding exactly the given fields (an object literal). */
    constructor (phase: string, levelIdx: int, lvl: Level, score: int, lives: int,
                 multiplier: real, moon: Moon, comets: seq<Comet>, bricks: array<Brick>,
                 particles: ParticleList, bonusDrop: seq<Bonus>,
                 activeBonuses: map<string, real>, tick: int, shakeT: real)
      ensures this.phase == phase && this.levelIdx == levelIdx && this.lvl == lvl
      ensures this.score == score && this.lives == lives && this.multiplier == multiplier
      ensures this.moon == moon && this.comets == comets && this.bricks == bricks
      ensures this.particles == particles && this.bonusDrop == bonusDrop
      ensures this.activeBonuses == activeBonuses && this.tick == tick && this.shakeT == shakeT
    {
      this.phase, this.levelIdx, this.lvl := phase, levelIdx, lvl;
      this.score, this.lives, this.multiplier := score, lives, multiplier;
      this.moon, this.comets, this.bricks, this.particles := moon, comets, bricks, particles;
      this.bonusDrop, this.activeBonuses := bonusDrop, activeBonuses;
      this.tick, this.shakeT := tick, shakeT;
    }

    /** `{ ...base, tick, moon, comets }`: a shallow copy of `base` with three fields replaced. */
    constructor Spread(base: GameState, tick: int, moon: Moon, comets: seq<Comet>)
      ensures this.phase == base.phase && this.levelIdx == base.levelIdx && this.lvl == base.lvl
      ensures this.score == base.score && this.lives == base.lives
      ensures this.multiplier == base.multiplier
      ensures this.bricks == base.bricks && this.particles == base.particles
      ensures this.bonusDrop == base.bonusDrop && this.activeBonuses == base.activeBonuses
      ensures this.shakeT == base.shakeT
      ensures this.tick == tick && this.moon == moon && this.comets == comets
    {
      this.phase, this.levelIdx, this.lvl := base.phase, base.levelIdx, base.lvl;
      this.score, this.lives, this.multiplier := base.score, base.lives, base.multiplier;
      this.bricks, this.particles := base.bricks, base.particles;
      this.bonusDrop, this.activeBonuses, this.shakeT := base.bonusDrop, base.activeBonuses, base.shakeT;
      this.tick, this.moon, this.comets := tick, moon, comets;
    }
  }
}
