/** The particle generator: even angular spread, palette cycled by index. */
module Particles {
  import Numeric

  datatype Particle = Particle(color: string, degree: real)

  /** `create_particles(count, colors)`. */
  function CreateParticles(count: nat, colors: seq<string>): (ps: seq<Particle>)
    requires count == 0 || |colors| > 0
    ensures |ps| == count
    ensures forall i :: 0 <= i < count ==> ps[i].color == colors[i % |colors|]
    ensures forall i :: 0 <= i < count ==> ps[i].degree == (i * 360) as real / count as real
    ensures forall i :: 0 <= i < count ==> 0.0 <= ps[i].degree < 360.0
  {
    DegreeRange(count);
    seq(count, i requires 0 <= i < count =>
      Particle(colors[i % |colors|], (i * 360) as real / count as real))
  }

  lemma DegreeRange(count: nat)
    ensures forall i :: 0 <= i < count ==> 0.0 <= (i * 360) as real / count as real < 360.0
  {
    var n := count as real;
    forall i | 0 <= i < count
      ensures 0.0 <= (i * 360) as real / n < 360.0
    {
      Numeric.DivMono(0.0, (i * 360) as real, n);
      DivLess((i * 360) as real, (count * 360) as real, n);
      assert (count * 360) as real / n == 360.0;
    }
  }

  /**
   Degrees grow strictly with the index and are evenly
   spaced by 360/count.
   */
  lemma ParticleDegrees(count: nat, colors: seq<string>)
    requires count == 0 || |colors| > 0
    ensures var ps := CreateParticles(count, colors);
      && (forall i, j :: 0 <= i < j < count ==> ps[i].degree < ps[j].degree)
      && (forall i :: 0 <= i < count - 1 ==>
            ps[i + 1].degree - ps[i].degree == 360.0 / count as real)
  {
    var ps := CreateParticles(count, colors);
    var n := count as real;
    forall i, j | 0 <= i < j < count
      ensures ps[i].degree < ps[j].degree
    {
      DivLess((i * 360) as real, (j * 360) as real, n);
    }
    forall i | 0 <= i < count - 1
      ensures ps[i + 1].degree - ps[i].degree == 360.0 / n
    {
      assert ((i + 1) * 360) as real == (i * 360) as real + 360.0;
      DivSub((i * 360) as real + 360.0, (i * 360) as real, n);
    }
  }

  lemma DivLess(x: real, y: real, n: real)
    requires n > 0.0 && x < y
    ensures x / n < y / n
  {
  }

  lemma DivSub(x: real, y: real, n: real)
    requires n > 0.0
    ensures x / n - y / n == (x - y) / n
  {
  }
}
