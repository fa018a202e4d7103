/** The shared numpy random generator, made explicit.

    The run's single generator is an infinite stream of samples of
    `Generator.random()`; every consumer takes samples from the front and hands
    the rest on, so the order of draws is part of each function's contract.
 */
module RandomStream {

  datatype Stream = Stream(sample: nat -> real, pos: nat) {
    /** `Generator.random()` returns values in [0, 1). */
    ghost predicate Valid() {
      forall n: nat :: 0.0 <= sample(n) < 1.0
    }

    /** The `k`-th sample still to come. */
    function Peek(k: nat): real {
      sample(pos + k)
    }

    /** The stream after `k` samples have been taken. */
    function Skip(k: nat): (s: Stream)
      ensures s.sample == sample && s.pos == pos + k
    {
      Stream(sample, pos + k)
    }
  }

  /** `rng.random()` */
  function Draw(s: Stream): (r: (real, Stream))
    ensures r.0 == s.Peek(0) && r.1 == s.Skip(1)
  {
    (s.sample(s.pos), Stream(s.sample, s.pos + 1))
  }

  /** `rng.random(3)`: three samples, in stream order. */
  function Draw3(s: Stream): (r: (seq<real>, Stream))
    ensures |r.0| == 3 && r.1 == s.Skip(3)
    ensures forall i :: 0 <= i < 3 ==> r.0[i] == s.Peek(i)
  {
    ([s.sample(s.pos), s.sample(s.pos + 1), s.sample(s.pos + 2)], Stream(s.sample, s.pos + 3))
  }
}
