/** PHP's process-wide random number generator behind `srand` and `rand`,
    as an explicit state. The concrete step below is a linear congruential
    stand-in, not PHP's Mersenne Twister: every result of the model uses
    only that `Seed`, `Next` and `Range` are functions of their arguments
    and the bounds stated in their contracts. */
module Prng {

  /** `getrandmax()` */
  const RandMax: int := 2147483647

  datatype State = State(s: int)

  /** `srand($seed)`: the state is a function of the seed alone. */
  function Seed(seed: int): State {
    State(seed % (RandMax + 1))
  }

  /** `rand()`: a value in `[0, getrandmax()]` and the advanced state. */
  function Next(st: State): (r: (int, State))
    ensures 0 <= r.0 <= RandMax
  {
    var s' := (st.s * 1103515245 + 12345) % (RandMax + 1);
    (s', State(s'))
  }

  function Min(a: int, b: int): int { if a <= b then a else b }
  function Max(a: int, b: int): int { if a <= b then b else a }

  /** `rand($lo, $hi)`: like PHP's `rand` (but not `mt_rand`), bounds given
      the wrong way round are swapped, so the value lies between the two. */
  function Range(st: State, lo: int, hi: int): (r: (int, State))
    ensures Min(lo, hi) <= r.0 <= Max(lo, hi)
  {
    var (v, st') := Next(st);
    (Min(lo, hi) + v % (Max(lo, hi) - Min(lo, hi) + 1), st')
  }

  /** The generator shared by everything that runs in one PHP request. */
  class Rng {
    var state: State

    constructor (initial: State)
      ensures state == initial
    {
      state := initial;
    }

    method Srand(seed: int)
      modifies this
      ensures state == Seed(seed)
    {
      state := Seed(seed);
    }

    method Rand() returns (v: int)
      modifies this
      ensures 0 <= v <= RandMax
      ensures (v, state) == Next(old(state))
    {
      var (x, st') := Next(state);
      v, state := x, st';
    }

    method RandRange(lo: int, hi: int) returns (v: int)
      modifies this
      ensures Min(lo, hi) <= v <= Max(lo, hi)
      ensures (v, state) == Range(old(state), lo, hi)
    {
      var (x, st') := Range(state, lo, hi);
      v, state := x, st';
    }
  }
}
