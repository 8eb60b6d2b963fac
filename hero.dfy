/**
 * The decorative particle table of `src/components/Hero.jsx`: thirty
 * records computed from their index by integer arithmetic.
 */
module Hero {
  /** One floating particle; the float `delay` is not part of this model. */
  datatype Particle = Particle(id: nat, size: nat, x: nat, y: nat, duration: nat)

  const ParticleCount: nat := 30

  /** The record for index `i`. */
  function MakeParticle(i: nat): Particle {
    Particle(i, 4 + (i % 5) * 4, (i * 17 + 7) % 100, (i * 23 + 11) % 100, 6 + (i % 4) * 2)
  }

  /** `Array.from({ length: 30 }, (_, i) => …)` */
  function Particles(): (ps: seq<Particle>)
    ensures |ps| == ParticleCount
    ensures forall i | 0 <= i < |ps| :: ps[i].id == i
  {
    seq(ParticleCount, i requires 0 <= i < ParticleCount => MakeParticle(i))
  }

  /** Every field stays within its visual range. */
  lemma ParticleRanges()
    ensures forall p | p in Particles() ::
      && p.size in {4, 8, 12, 16, 20}
      && 0 <= p.x < 100 && 0 <= p.y < 100
      && p.duration in {6, 8, 10, 12}
  {
    forall p | p in Particles()
      ensures p.size in {4, 8, 12, 16, 20} && p.duration in {6, 8, 10, 12}
    {
      var i :| 0 <= i < |Particles()| && Particles()[i] == p;
      assert i % 5 in {0, 1, 2, 3, 4};
      assert i % 4 in {0, 1, 2, 3};
    }
  }

  /** Two numbers with the same remainder modulo 100 differ by a
      multiple of 100. */
  lemma SameRemainder(x: int, y: int)
    requires x % 100 == y % 100
    ensures y - x == 100 * (y / 100 - x / 100)
  {
  }

  /** Multiplying by the inverse of `step` undoes `step` modulo 100: a
      `d` with `d * step` a multiple of 100 is itself one. */
  lemma CancelStep(d: int, step: int, inverse: int, p: int, k: int)
    requires step * inverse == 100 * p + 1
    requires d * step == 100 * k
    ensures d == 100 * (k * inverse - d * p)
  {
    calc {
      d;
      d * (100 * p + 1) - d * (100 * p);
      d * (step * inverse) - d * (100 * p);
      (d * step) * inverse - 100 * (d * p);
      (100 * k) * inverse - 100 * (d * p);
      100 * (k * inverse - d * p);
    }
  }

  /** An affine map `i ↦ (i * step + offset) % 100` is one-to-one on
      0..99 when `step` has an inverse modulo 100. */
  lemma AffineModInjective(step: int, inverse: int, p: int, offset: int, i: int, j: int)
    requires step * inverse == 100 * p + 1
    requires 0 <= i < j < 100
    ensures (i * step + offset) % 100 != (j * step + offset) % 100
  {
    var a, b := i * step + offset, j * step + offset;
    if a % 100 == b % 100 {
      SameRemainder(a, b);
      assert (j - i) * step == b - a;
      CancelStep(j - i, step, inverse, p, b / 100 - a / 100);
      assert false;
    }
  }

  /** The thirty particles sit in distinct columns and distinct rows,
      since 17 and 23 are invertible modulo 100 (17 · 53 = 901 and
      23 · 87 = 2001). */
  lemma ParticlePositionsDistinct()
    ensures forall i, j | 0 <= i < j < |Particles()| ::
      Particles()[i].x != Particles()[j].x && Particles()[i].y != Particles()[j].y
  {
    forall i, j | 0 <= i < j < |Particles()|
      ensures Particles()[i].x != Particles()[j].x && Particles()[i].y != Particles()[j].y
    {
      AffineModInjective(17, 53, 9, 7, i, j);
      AffineModInjective(23, 87, 20, 11, i, j);
    }
  }
}
