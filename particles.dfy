/** The ageing half of `drawParticles` (src/render/particles.js); the canvas calls are not modelled. */
module Particles {
  import opened Entities

  /** One particle after one frame: its life drops by one, and it is gone once life reaches 0. */
  function AgeOne(p: Particle): seq<Particle>
  {
    if p.life - 1 <= 0 then [] else [p.(life := p.life - 1)]
  }

  /** The particle array after one ageing pass, in its original order. */
  function Aged(ps: seq<Particle>): (qs: seq<Particle>)
    ensures |qs| <= |ps|
  {
    if ps == [] then [] else AgeOne(ps[0]) + Aged(ps[1..])
  }

  /** What is left after a pass is exactly the particles of prior life above 1, one life down. */
  lemma {:induction false} AgedMembers(ps: seq<Particle>)
    ensures forall q :: q in Aged(ps) ==> exists p :: p in ps && p.life > 1 && q == p.(life := p.life - 1)
    ensures forall p :: p in ps && p.life > 1 ==> p.(life := p.life - 1) in Aged(ps)
  {
    if ps != [] {
      AgedMembers(ps[1..]);
      assert forall p :: p in ps[1..] ==> p in ps;
      assert forall p :: p in ps ==> p == ps[0] || p in ps[1..];
    }
  }

  /** A pass removes every particle whose life is at most 1. */
  lemma {:induction false} AgedAllDie(ps: seq<Particle>)
    requires forall p :: p in ps ==> p.life <= 1
    ensures Aged(ps) == []
  {
    if ps != [] {
      assert ps[0] in ps;
      assert forall p :: p in ps[1..] ==> p in ps;
      AgedAllDie(ps[1..]);
    }
  }

  /** One pass over a suffix: the first particle's fate, then the rest. */
  lemma AgedCons(ps: seq<Particle>, i: nat)
    requires i < |ps|
    ensures Aged(ps[i..]) == AgeOne(ps[i]) + Aged(ps[i + 1..])
  {
    assert ps[i..][1..] == ps[i + 1..];
  }

  /** Ageing works slot by slot, so it distributes over concatenation. */
  lemma {:induction false} AgedAppend(a: seq<Particle>, b: seq<Particle>)
    ensures Aged(a + b) == Aged(a) + Aged(b)
  {
    if a == [] {
      assert a + b == b;
    } else {
      assert (a + b)[1..] == a[1..] + b;
      AgedAppend(a[1..], b);
    }
  }

  /** The indices of the particles that survive a pass (prior life above 1), in increasing order. */
  function Survivors(ps: seq<Particle>): (ix: seq<nat>)
    ensures forall j :: 0 <= j < |ix| ==> ix[j] < |ps|
  {
    if ps == [] then []
    else
      var n := |ps| - 1;
      Survivors(ps[..n]) + if ps[n].life > 1 then [n] else []
  }

  /** `Survivors` lists every index of prior life above 1, and only those, in increasing order. */
  lemma {:induction false} SurvivorIndices(ps: seq<Particle>)
    ensures forall j :: 0 <= j < |Survivors(ps)| ==> ps[Survivors(ps)[j]].life > 1
    ensures forall j, k :: 0 <= j < k < |Survivors(ps)| ==> Survivors(ps)[j] < Survivors(ps)[k]
    ensures forall i :: 0 <= i < |ps| && ps[i].life > 1 ==> i in Survivors(ps)
  {
    if ps != [] {
      var n := |ps| - 1;
      var init := ps[..n];
      SurvivorIndices(init);
      var ix := Survivors(init);
      assert Survivors(ps) == ix + if ps[n].life > 1 then [n] else [];
      forall j | 0 <= j < |ix|
        ensures ix[j] < n && ps[ix[j]] == init[ix[j]]
      {
      }
    }
  }

  /**
   * The survivors keep their relative order, their positions, and all fields but `life`,
   * which is exactly one less; the new length is the number of particles whose prior life
   * exceeded 1.
   */
  lemma {:induction false} AgedAt(ps: seq<Particle>)
    ensures |Aged(ps)| == |Survivors(ps)|
    ensures forall j :: 0 <= j < |Aged(ps)| ==>
              Aged(ps)[j] == ps[Survivors(ps)[j]].(life := ps[Survivors(ps)[j]].life - 1)
  {
    if ps != [] {
      var n := |ps| - 1;
      var init := ps[..n];
      AgedAt(init);
      SplitLast(ps);
      AgedAppend(init, [ps[n]]);
      assert [ps[n]][1..] == [];
      assert Aged([ps[n]]) == AgeOne(ps[n]);
      SnocAt(init, ps[n], Aged(init), Survivors(init));
    }
  }

  /** The step of `AgedAt`: one more particle at the end extends both sides in step. */
  lemma SnocAt(init: seq<Particle>, last: Particle, a: seq<Particle>, ix: seq<nat>)
    requires |a| == |ix|
    requires forall j :: 0 <= j < |a| ==> ix[j] < |init| && a[j] == init[ix[j]].(life := init[ix[j]].life - 1)
    ensures var ps, qs, jx := init + [last], a + AgeOne(last), ix + if last.life > 1 then [|init|] else [];
      |qs| == |jx| && forall j :: 0 <= j < |qs| ==> jx[j] < |ps| && qs[j] == ps[jx[j]].(life := ps[jx[j]].life - 1)
  {
    var ps, qs, jx := init + [last], a + AgeOne(last), ix + if last.life > 1 then [|init|] else [];
    forall j | 0 <= j < |qs|
      ensures jx[j] < |ps| && qs[j] == ps[jx[j]].(life := ps[jx[j]].life - 1)
    {
      if j < |a| {
        assert qs[j] == a[j] && jx[j] == ix[j] && ps[ix[j]] == init[ix[j]];
      } else {
        assert qs[j] == last.(life := last.life - 1) && jx[j] == |init| && ps[|init|] == last;
      }
    }
  }

  lemma SplitLast<T>(s: seq<T>)
    requires |s| > 0
    ensures s == s[..|s| - 1] + [s[|s| - 1]]
  {
  }

  /** The particle array after `k` ageing passes. */
  function AgedTimes(ps: seq<Particle>, k: nat): seq<Particle>
    decreases k
  {
    if k == 0 then ps else AgedTimes(Aged(ps), k - 1)
  }

  /** Particles whose life is at most `k + 1` are all gone after `k + 1` passes. */
  lemma {:induction false} AllExpire(ps: seq<Particle>, k: nat)
    requires forall p :: p in ps ==> p.life <= k + 1
    ensures AgedTimes(ps, k + 1) == []
    decreases k
  {
    if k == 0 {
      AgedAllDie(ps);
    } else {
      AgedMembers(ps);
      forall q | q in Aged(ps)
        ensures q.life <= k
      {
        var p :| p in ps && p.life > 1 && q == p.(life := p.life - 1);
      }
      AllExpire(Aged(ps), k - 1);
    }
  }

  /** One pass of the loop body at index `i`: decrement `life`, and splice the particle out at 0. */
  method AgeAt(particles: ParticleList, i: nat)
    requires i < |particles.items|
    modifies particles
    ensures var ps := old(particles.items);
      particles.items == ps[..i] + AgeOne(ps[i]) + ps[i + 1..]
  {
    var p := particles.items[i];
    p := p.(life := p.life - 1);
    particles.items := particles.items[i := p];
    if p.life <= 0 {
      particles.items := particles.items[..i] + particles.items[i + 1..];
    }
  }

  /** Splitting `ps[..i + 1] + rest` back into its parts around index `i`. */
  lemma SplitAt(ps: seq<Particle>, i: nat, rest: seq<Particle>)
    requires i < |ps|
    ensures var items := ps[..i + 1] + rest;
      items[..i] == ps[..i] && items[i] == ps[i] && items[i + 1..] == rest
  {
    var items := ps[..i + 1] + rest;
    assert items[i + 1..] == rest;
  }

  /**
   * The loop of `drawParticles`: from the last index down, decrement `life` in place and
   * splice the particle out once its life is at most 0.
   */
  method DrawParticles(particles: ParticleList)
    modifies particles
    ensures particles.items == Aged(old(particles.items))
  {
    ghost var ps := particles.items;
    var i := |particles.items| - 1;
    while i >= 0
      invariant -1 <= i < |ps|
      invariant particles.items == ps[..i + 1] + Aged(ps[i + 1..])
    {
      ghost var rest := Aged(ps[i + 1..]);
      SplitAt(ps, i, rest);
      AgeAt(particles, i);
      AgedCons(ps, i);
      assert particles.items == ps[..i] + (AgeOne(ps[i]) + rest);
      i := i - 1;
    }
    assert ps[0..] == ps;
  }
}
