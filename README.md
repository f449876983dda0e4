# zen-orbits simulation engine, modelled in Dafny

This project models the simulation engine of zen-orbits, a 2D paddle-and-bricks arcade game. A
gravity-driven comet bounces off the side walls, the ceiling, a player-moved paddle (the "moon")
and a field of destructible bricks. The model covers five pieces of the engine:

- `applyPhysics`: one comet's step. It applies capped gravity and integrates the position. Then,
  in order, it handles wall and ceiling reflection, the moon bounce with its steering kick, and
  brick hits. Each hit adds damage, flips `vy` and pushes a particle. Last comes the death line.
- `update`: one tick. It clamps the moon move, maps every comet through `applyPhysics` against
  the old state, and counts the tick.
- `applyBonus`: multiplier, life and comet-copy bonuses, applied in place.
- `initState`: the starting record of a level, chosen by index modulo the level count.
- The ageing loop of `drawParticles`: it walks the particle array backwards, decrements `life`
  and splices out expired particles.

Positions, velocities, sizes, damage, the multiplier and timers are exact `real`s. The counters
score, lives, tick, levelIdx, particle life and a life bonus's amount are `int`s, which is exact
for every value the engine computes for them (0, 3, 30, + 1, - 1, sums). The constants 0.12, 8, 480, 920, 0.25, 0.03 and 30 are the
source's own.

Moon, brick, particle, comet record and bonus are datatypes. The engine writes three of them in
place: a brick's `damage` and `alive`, a particle's `life` and a comet's `active`. Each such
write is modelled as replacing the record in its slot of the array that holds it. The game state is a `GameState` class. Its brick list is an `array<Brick>`, the very
array of the chosen level (`Valid()`), and bricks are damaged in place in it. Its particle list
is a `ParticleList` object that physics pushes onto and the ageing loop splices. Every method is
proved against a function on values:

| method | function |
|---|---|
| `ApplyPhysics` | `Step` |
| `StepComets` / `Update` | `StepAll` / `Tick` |
| `ApplyBonus` | `Applied` |
| `InitState` | `LevelSlot` / `Initial` |
| `DrawParticles` | `Aged` |

The properties the game relies on are lemmas about those functions. They are gathered for whole
states in `Invariants`:

- the moon stays in `[hw, 480 - hw]`;
- `|vy| <= 8`;
- bricks only wear down, and a dead brick stays dead;
- there is one particle per brick hit, per comet (`Step`) and per tick (`TickParticles`);
- particle lives stay in `[1, 30]`.

`update` does not age particles (src/engine/update.js:3-18). Only `drawParticles` does, so `Tick`
leaves every particle it does not append untouched.

## Model

| member | source | states |
|---|---|---|
| Physics.Gravity | src/engine/physics.js:9 | the new vy never exceeds 8; it is vy + 0.12·dt below the cap and exactly 8 at or above it |
| Physics.Damage | src/engine/physics.js:28-29 | damage rises by 0.25 capped at 1, never falls when it started at most 1, the rectangle is kept, and the brick dies exactly when damage reaches 1 |
| Physics.ScanBricks | src/engine/physics.js:25-33 | in brick order, each hit brick is damaged and every other brick is left as it was; one particle {x, y, life 30} per hit; vy is negated once per hit, so it ends reversed iff the hit count is odd |
| Physics.Motion | src/engine/physics.js:9-22 | the position is x + vx·dt and y + vy'·dt with vy' the capped velocity; walls, ceiling and moon never reposition; r, trail and active are kept; \|vy\| stays \|vy'\|; a moon hit leaves vy <= 0; vx is negated on a wall hit and then kicked by (x - m.x)·0.03 on a moon hit |
| Physics.Step | src/engine/physics.js:4-39 | an inactive comet comes back as it was, with bricks untouched and no particles; otherwise the position is integrated, r and trail are kept, the comet is active iff y <= 920, each brick is damaged iff it is hit, and the particle count equals the hit count |
| Physics.SpeedBounded | src/engine/physics.js:9-30 | with dt >= 0 and \|vy\| <= 8 on entry, \|vy\| <= 8 after the step |
| Physics.StepVx | src/engine/physics.js:14-33 | the brick pass never changes vx: the returned vx is the wall-reflected vx, plus (x - m.x)·0.03 on a moon hit, however many bricks are hit |
| Physics.Reflection | src/engine/physics.js:14-15 | away from the moon, vx is negated exactly when x < r or x > 480 - r; away from the bricks as well, vy is negated exactly when y < r |
| Physics.MoonBounce | src/engine/physics.js:18-22 | on a moon hit vx gains (x - m.x)·0.03; with an even number of brick hits as well, vy <= 0 and keeps its magnitude |
| Physics.BrickFlips | src/engine/physics.js:30 | the returned vy is the post-moon vy, negated iff the number of brick hits is odd |
| Physics.StepBricks | src/engine/physics.js:25-29 | well-formed bricks stay well formed; no rectangle changes, no damage decreases and no dead brick changes or revives |
| Physics.HitBrick | src/engine/physics.js:26-31 | on one brick: it is damaged, vy flips and one particle {x, y, life 30} is pushed exactly when the brick is alive and the comet is inside its box; otherwise nothing changes; other bricks are never touched |
| Physics.HitBricks | src/engine/physics.js:25-33 | the in-place brick loop leaves the array, vy and the appended particles exactly as ScanBricks says |
| Physics.Move | src/engine/physics.js:7-22 | the local x, y, vx, vy before the brick loop are those of Motion |
| Physics.ApplyPhysics | src/engine/physics.js:4-39 | the returned record, the bricks array and the particle list are those of Step on the old values, against the state's moon; the comet's own slot has `active` set to the returned record's, and nothing else in the comet array changes |
| Orchestrator.MoveMoon | src/engine/update.js:4-8 | y, hw and ht are kept; without a 'moon' input the moon is unchanged; otherwise x is x + deltaX clamped into [hw, 480 - hw], and lies in that range whenever hw <= 240; when hw > 240 the outer max gives x = hw |
| Orchestrator.StepAll | src/engine/update.js:10 | the map keeps the comet count and the brick count |
| Orchestrator.StepAllComets | src/engine/update.js:10 | r and trail of every comet are kept; inactive comets are unchanged; with dt >= 0, \|vy\| <= 8 holds for every comet if it did before |
| Orchestrator.StepAllBricks | src/engine/update.js:10 | every spawned particle has life 30; well-formed bricks stay well formed and only wear down |
| Orchestrator.StepAllAt | src/engine/update.js:10 | result i is Step of comet i against the old moon and the bricks the comets before it left |
| Orchestrator.StepAllSpawned | src/engine/update.js:10 | the map spawns exactly one particle per brick hit, summed over the comets, each comet counted against the bricks the comets before it left |
| Orchestrator.Tick | src/engine/update.js:3-18 | tick + 1; the moon is MoveMoon of the old moon; the comets are StepAll against the old moon; the bricks and the appended particles are those StepAll leaves and spawns, so the old particles are a prefix of the new ones; every other field is carried over unchanged |
| Orchestrator.StepComets | src/engine/update.js:10 | the mapped comets, the bricks array and the particle list are those of StepAll on the old values; the old comet array keeps its records, with `active` set as in the results |
| Orchestrator.Update | src/engine/update.js:3-18 | a new state whose value is Tick of the old state's value; it shares the old state's brick array, particle list and level |
| Bonuses.Applied | src/engine/bonuses.js:1-5 | each bonus changes only its own field: multiplier·value, lives + value with no clamp, or a copy of comets[0] appended with the other comets unchanged; any other bonus leaves the state unchanged |
| Bonuses.MultiplierCompounds | src/engine/bonuses.js:2 | two multiplier bonuses multiply by the product of their values (x2 twice gives x4) |
| Bonuses.LivesAddUp | src/engine/bonuses.js:3 | two life bonuses add their values, with no clamp |
| Bonuses.Repeat | src/engine/bonuses.js:1-5 | repeating a bonus never shrinks the comet array or changes comets[0] |
| Bonuses.CometCopiesFirst | src/engine/bonuses.js:4 | k comet bonuses append k copies of comets[0] and keep the earlier comets |
| Bonuses.BonusesCommute | src/engine/bonuses.js:1-5 | any two bonuses give the same state in either order, provided a comet exists whenever one of them is a comet bonus |
| Bonuses.ApplyBonus | src/engine/bonuses.js:1-5 | the state's new value is Applied of its old value; the brick array and the level binding are kept |
| InitialState.JsRemainder | src/engine/state.js:4 | `%` truncates: the remainder lies strictly between -n and n, takes the sign of the dividend, and dividend = n·quotient + remainder |
| InitialState.LevelSlot | src/engine/state.js:4 | for levelIdx >= 0 the slot is levelIdx mod the level count; a slot is always in range; no slot exists exactly when the index is negative and not a multiple of the count; a negative multiple of the count reads slot 0 |
| InitialState.Initial | src/engine/state.js:5-20 | score 0, lives 3, multiplier 1, tick 0, shakeT 0, phase 'playing'; the moon x = 240 lies in [hw, 480 - hw]; one active comet with r > 0 and \|vy\| <= 8; empty particles, bonus drops and active bonuses; the level's bricks |
| InitialState.InitState | src/engine/state.js:3-21 | a new state whose value is Initial for the chosen level and which shares that level's brick array; an index that names no slot fails |
| Particles.Aged | src/render/particles.js:2-8 | one pass never lengthens the array |
| Particles.AgedAllDie | src/render/particles.js:6-7 | a pass removes every particle of life at most 1 |
| Particles.AgedMembers | src/render/particles.js:6-7 | the survivors are exactly the particles of prior life above 1, each with life one less and the same position |
| Particles.AgedAppend | src/render/particles.js:2-7 | ageing works slot by slot, so it distributes over concatenation |
| Particles.Survivors | src/render/particles.js:7 | every listed index is in range |
| Particles.SurvivorIndices | src/render/particles.js:7 | the listed indices increase strictly and are exactly those with prior life above 1 |
| Particles.AgedAt | src/render/particles.js:2-7 | the new length is the number of particles of prior life above 1, and survivor j is the j-th such particle with life one less, so relative order is kept |
| Particles.AllExpire | src/render/particles.js:6-7 | particles whose life is at most k + 1 are all gone after k + 1 passes |
| Particles.AgeAt | src/render/particles.js:3-7 | one iteration at index i replaces particle i by itself with life one less, or splices it out when that life is at most 0; the other slots are kept |
| Particles.DrawParticles | src/render/particles.js:2-8 | the backward decrement-and-splice loop leaves the list equal to Aged of the old list |
| Invariants.InitWellFormed | src/engine/state.js:12-16 | a level with well-formed bricks starts in a well-formed state |
| Invariants.TickWellFormed | src/engine/update.js:3-18 | a tick with dt >= 0 keeps the moon in range, \|vy\| <= 8, r > 0, bricks well formed and particle lives in [1, 30], and only wears the bricks down |
| Invariants.TickParticles | src/engine/update.js:3-18 | a tick keeps the old particles as a prefix and appends one particle of life 30 per brick hit |
| Invariants.BonusWellFormed | src/engine/bonuses.js:1-5 | a bonus keeps a state well formed |
| Invariants.AgeingWellFormed | src/render/particles.js:2-8 | an ageing pass keeps a state well formed |
| Invariants.RunWellFormed | src/main.js:21-25 | any number of updates, one input each, keeps a state well formed, adds one to tick per update, keeps the comet count and only wears the bricks down |
| Entities.GameState.constructor | src/engine/state.js:5-20 | the object literal holds exactly the given fields |
| Entities.GameState.Spread | src/engine/update.js:12-17 | the spread copy replaces tick, moon and comets and carries every other field over, sharing the brick array and particle list |
| Entities.ParticleList.constructor | src/engine/state.js:15 | a new particle list is empty |

## Left out

- src/main.js: the animation-frame driver, the wall-clock accumulator and the input queue are left out. `Run` only models its inner loop: one `update` per fixed step, all with one dt, each consuming at most one queued input (`None` when the queue is empty). How many steps a frame runs is not modelled.
- src/input/touch.js and the canvas drawing in src/render/ (including the `ctx` calls inside `drawParticles`) have no effect on state and are not modelled.
- IEEE-754 rounding, NaN and infinities are not modelled: real-valued quantities are exact reals and counters are exact integers.
- The level table, src/data/levels/index.js, is not part of this model. `InitState` takes it as a non-empty sequence of levels. A non-integer `levelIdx` is not modelled.
- Physics.ApplyPhysics: takes the comet by its slot in the state's comet array. In the source it takes any comet object. Its one write to that object (`active`) is made to the slot. Comet records are values, so the model does not capture comet object identity: an inactive comet being returned as the same object, or the new state's array sharing those objects and their `trail` arrays with the old one. No engine code compares or mutates comets after the step, so no state the engine computes depends on this.
- Brick and particle object identity: a brick's `damage` and `alive` and a particle's `life` are written in place on shared objects. The model replaces the record in its slot of the brick array or the particle list, which the state owns, so it does not capture another reference to the same brick or particle object seeing the write. The engine keeps no such reference.
- Bonuses.ApplyBonus: requires a comet to copy for a comet bonus. On an empty comet array the source pushes an empty object (the spread of `undefined`), which no comet record can stand for.
- Bonus payloads are typed: a multiplier carries a real, a life bonus an integer. Any other `type` tag is `OtherBonus` and is ignored, as in the source.
- The `trail` field is carried along as an opaque value; the engine never reads or writes it.
- `update` has no lives accounting at the death line, no phase change and no particle ageing (src/engine/update.js:3-18), so the model has none either.
