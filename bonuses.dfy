/** Applying one bonus event to the game state in place (src/engine/bonuses.js). */
module Bonuses {
  import opened Entities

  /** The state after `applyBonus(state, bonus)`. A comet bonus needs a comet to copy. */
  function Applied(s: Snapshot, bonus: Bonus): (n: Snapshot)
    requires bonus.CometBonus? ==> |s.comets| > 0
    ensures n.(multiplier := s.multiplier, lives := s.lives, comets := s.comets) == s
    ensures n.multiplier == if bonus.MultiplierBonus? then s.multiplier * bonus.factor else s.multiplier
    ensures n.lives == if bonus.LifeBonus? then s.lives + bonus.amount else s.lives
    ensures !bonus.CometBonus? ==> n.comets == s.comets
    ensures bonus.CometBonus? ==>
              |n.comets| == |s.comets| + 1 && n.comets[..|s.comets|] == s.comets
              && n.comets[|s.comets|] == s.comets[0]
    ensures bonus.OtherBonus? ==> n == s
  {
    match bonus
    case MultiplierBonus(f) => s.(multiplier := s.multiplier * f)
    case LifeBonus(v) => s.(lives := s.lives + v)
    case CometBonus => s.(comets := s.comets + [s.comets[0]])
    case OtherBonus(_) => s
  }

  /** Multiplier bonuses compound: two of them multiply by the product of their values. */
  lemma MultiplierCompounds(s: Snapshot, a: real, b: real)
    ensures Applied(Applied(s, MultiplierBonus(a)), MultiplierBonus(b)).multiplier == s.multiplier * (a * b)
  {
  }

  /** Life bonuses add up, with no clamp at zero. */
  lemma LivesAddUp(s: Snapshot, a: int, b: int)
    ensures Applied(Applied(s, LifeBonus(a)), LifeBonus(b)) == s.(lives := s.lives + a + b)
  {
  }

  /** The comet bonus never changes `comets[0]`, so repeated bonuses all copy the same record. */
  lemma {:induction false} CometCopiesFirst(s: Snapshot, k: nat)
    requires |s.comets| > 0
    ensures |Repeat(s, CometBonus, k).comets| == |s.comets| + k
    ensures forall i :: |s.comets| <= i < |s.comets| + k ==> Repeat(s, CometBonus, k).comets[i] == s.comets[0]
    ensures Repeat(s, CometBonus, k).comets[..|s.comets|] == s.comets
  {
    if k > 0 {
      CometCopiesFirst(s, k - 1);
      var p := Repeat(s, CometBonus, k - 1);
      assert p.comets[0] == s.comets[0];
    }
  }

  /** Any two bonuses give the same state in either order (a comet bonus needs a comet to copy). */
  lemma BonusesCommute(s: Snapshot, a: Bonus, b: Bonus)
    requires (a.CometBonus? || b.CometBonus?) ==> |s.comets| > 0
    ensures Applied(Applied(s, a), b) == Applied(Applied(s, b), a)
  {
    if a.CometBonus? && b.CometBonus? {
    } else if a.MultiplierBonus? && b.MultiplierBonus? {
      assert s.multiplier * a.factor * b.factor == s.multiplier * b.factor * a.factor;
    }
  }

  /** The same bonus applied `k` times. */
  function Repeat(s: Snapshot, bonus: Bonus, k: nat): (n: Snapshot)
    requires bonus.CometBonus? ==> |s.comets| > 0
    ensures |n.comets| >= |s.comets| && (|s.comets| > 0 ==> n.comets[0] == s.comets[0])
  {
    if k == 0 then s else Applied(Repeat(s, bonus, k - 1), bonus)
  }

  /**
   * `applyBonus(state, bonus)`: the multiplier and lives are updated in place and a copy of
   * `comets[0]` is pushed onto the state's own comet array.
   */
  method ApplyBonus(state: GameState, bonus: Bonus)
    requires bonus.CometBonus? ==> |state.comets| > 0
    modifies state`multiplier, state`lives, state`comets
    ensures state.View() == Applied(old(state.View()), bonus)
    ensures old(state.Valid()) ==> state.Valid()
  {
    if bonus.MultiplierBonus? {
      state.multiplier := state.multiplier * bonus.factor;
    }
    if bonus.LifeBonus? {
      state.lives := state.lives + bonus.amount;
    }
    if bonus.CometBonus? {
      state.comets := state.comets + [state.comets[0]];
    }
  }
}
