/** The starting state of a level (src/engine/state.js). */
module InitialState {
  import opened Entities

  /**
   * JavaScript's `a % n` on integers: the remainder of truncating division, which takes
   * the sign of `a` (Dafny's `%` is Euclidean and never negative).
   */
  function JsRemainder(a: int, n: int): (r: int)
    requires n > 0
    ensures -n < r < n
    ensures a >= 0 ==> 0 <= r
    ensures a <= 0 ==> r <= 0
    ensures a == n * JsQuotient(a, n) + r
  {
    if a >= 0 then a % n
    else
      assert -a == n * ((-a) / n) + (-a) % n;
      assert n * JsQuotient(a, n) == -(n * ((-a) / n));
      -((-a) % n)
  }

  /** JavaScript's integer division rounded toward zero, `Math.trunc(a / n)`. */
  function JsQuotient(a: int, n: int): int
    requires n > 0
  {
    if a >= 0 then a / n else -((-a) / n)
  }

  /**
   * The slot `levels[levelIdx % levels.length]` reads. A negative remainder names no
   * slot (`undefined`, which the later `lvl.bricks` turns into a TypeError); `-0` is slot 0.
   */
  function LevelSlot(levelIdx: int, count: int): (k: Option<nat>)
    requires count > 0
    ensures k.Some? ==> k.value < count
    ensures levelIdx >= 0 ==> k == Some(levelIdx % count)
    ensures k.None? <==> levelIdx < 0 && (-levelIdx) % count != 0
    ensures levelIdx < 0 && (-levelIdx) % count == 0 ==> k == Some(0)
  {
    var r := JsRemainder(levelIdx, count);
    if r >= 0 then Some(r) else None
  }

  const START_MOON := Moon(240.0, 800.0, 70.0, 14.0)
  const START_COMET := Comet(240.0, 760.0, 2.0, -4.0, 7.0, [], true)

  /** The value of the record `initState` returns for level `lvl` holding `bricks`. */
  function Initial(levelIdx: int, lvl: Level, bricks: seq<Brick>): (s: Snapshot)
    ensures s.score == 0 && s.lives == 3 && s.multiplier == 1.0 && s.tick == 0 && s.shakeT == 0.0
    ensures s.phase == "playing" && s.levelIdx == levelIdx && s.lvl == lvl
    ensures s.moon.hw <= s.moon.x <= 480.0 - s.moon.hw
    ensures |s.comets| == 1 && s.comets[0].active && s.comets[0].r > 0.0
    ensures -8.0 <= s.comets[0].vy <= 8.0
    ensures s.bricks == bricks && s.particles == [] && s.bonusDrop == [] && s.activeBonuses == map[]
  {
    Snapshot("playing", levelIdx, lvl, 0, 3, 1.0, START_MOON, [START_COMET], bricks, [], [], map[], 0, 0.0)
  }

  /**
   * `initState(levelIdx)` over the level table `levels`. The new state shares the chosen
   * level's brick array; a `levelIdx` that names no slot fails (None).
   */
  method InitState(levels: seq<Level>, levelIdx: int) returns (r: Option<GameState>)
    requires |levels| > 0
    ensures LevelSlot(levelIdx, |levels|).None? ==> r.None?
    ensures LevelSlot(levelIdx, |levels|).Some? ==>
              var lvl := levels[LevelSlot(levelIdx, |levels|).value];
              && r.Some? && fresh(r.value) && fresh(r.value.particles) && r.value.Valid()
              && r.value.lvl == lvl && r.value.bricks == lvl.bricks
              && r.value.View() == Initial(levelIdx, lvl, lvl.bricks[..])
  {
    var k := JsRemainder(levelIdx, |levels|);
    if k < 0 {
      return None;
    }
    var lvl := levels[k];
    var particles := new ParticleList();
    var s := new GameState("playing", levelIdx, lvl, 0, 3, 1.0, START_MOON,
                           [START_COMET], lvl.bricks, particles,
                           [], map[], 0, 0.0);
    return Some(s);
  }
}
