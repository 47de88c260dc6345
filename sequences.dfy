/** `SequenceGenerator`: the pseudo-random target sequence a participant is
    shown, and the `generated_sequences` row that lets it be rebuilt. */
module Sequences {
  import opened Json
  import opened Prng
  import Http
  import opened Persistence

  /** `SequenceGenerator::$salt` */
  const Salt: string := "Kr8QpbQeI3cPbufm7TWuNAxWMd0pDCvl"

  /** A generator: the dimensions it was constructed with. */
  datatype SequenceGenerator = SequenceGenerator(width: int, height: int, length: int)

  /** One iteration of the loop of `generate`: `rand(0, width - 1)`, then
      `rand(0, height - 1)`, and the state after both. */
  function Step(st: State, width: int, height: int): (r: ((int, int), State))
    ensures Min(0, width - 1) <= r.0.0 <= Max(0, width - 1)
    ensures Min(0, height - 1) <= r.0.1 <= Max(0, height - 1)
  {
    var (x, st1) := Range(st, 0, width - 1);
    var (y, st2) := Range(st1, 0, height - 1);
    ((x, y), st2)
  }

  /** `n` more iterations of the loop of `generate` from state `st`, with
      the pairs `acc` already in `$result`. */
  function Draws(st: State, width: int, height: int, n: nat, acc: seq<(int, int)>): (r: (seq<(int, int)>, State))
    ensures |r.0| == |acc| + n
    decreases n
  {
    if n == 0 then (acc, st)
    else Draws(Step(st, width, height).1, width, height, n - 1, acc + [Step(st, width, height).0])
  }

  /** The number of iterations of `for ($i = 0; $i < $this->length; $i++)`. */
  function Iterations(length: int): nat {
    if length < 0 then 0 else length
  }

  /** What `generate($seed)` returns: the draws made right after `srand($seed)`. */
  function Coordinates(g: SequenceGenerator, seed: int): seq<(int, int)> {
    Draws(Seed(seed), g.width, g.height, Iterations(g.length), []).0
  }

  /** Every pair lies between `0` and `width - 1`, `height - 1`; with a zero
      dimension `rand(0, -1)` swaps its bounds, so that coordinate is -1 or 0. */
  predicate InBounds(pairs: seq<(int, int)>, width: int, height: int) {
    forall k :: 0 <= k < |pairs| ==>
      && Min(0, width - 1) <= pairs[k].0 <= Max(0, width - 1)
      && Min(0, height - 1) <= pairs[k].1 <= Max(0, height - 1)
  }

  lemma {:induction false} DrawsBounds(st: State, width: int, height: int, n: nat, acc: seq<(int, int)>)
    requires InBounds(acc, width, height)
    ensures InBounds(Draws(st, width, height, n, acc).0, width, height)
    decreases n
  {
    if n > 0 {
      var next := Step(st, width, height);
      DrawsBounds(next.1, width, height, n - 1, acc + [next.0]);
    }
  }

  /** `generate` returns exactly `length` pairs (none for a negative length),
      and with positive dimensions each pair is inside the grid. */
  lemma CoordinatesShape(g: SequenceGenerator, seed: int)
    ensures |Coordinates(g, seed)| == Iterations(g.length)
    ensures g.width >= 1 && g.height >= 1 ==> forall k :: 0 <= k < |Coordinates(g, seed)| ==>
      && 0 <= Coordinates(g, seed)[k].0 <= g.width - 1
      && 0 <= Coordinates(g, seed)[k].1 <= g.height - 1
  {
    DrawsBounds(Seed(seed), g.width, g.height, Iterations(g.length), []);
  }

  /** A width of 0 (which the request validator accepts) yields x values
      of -1 or 0: `rand(0, -1)` swaps its bounds. */
  lemma ZeroWidthColumns(g: SequenceGenerator, seed: int)
    requires g.width == 0
    ensures forall k :: 0 <= k < |Coordinates(g, seed)| ==> Coordinates(g, seed)[k].0 in {-1, 0}
  {
    DrawsBounds(Seed(seed), g.width, g.height, Iterations(g.length), []);
  }

  /** `generate($seed)`: save `rand()`, `srand($seed)`, draw, `srand` with the
      saved value. The result depends only on the seed and the dimensions,
      never on the state the shared generator was in; afterwards the
      generator is re-seeded from one fresh draw rather than restored. */
  method Generate(g: SequenceGenerator, seed: int, rng: Rng) returns (result: seq<(int, int)>)
    modifies rng
    ensures result == Coordinates(g, seed)
    ensures rng.state == Seed(Next(old(rng.state)).0)
  {
    var oldSeed := rng.Rand();
    rng.Srand(seed);
    result := [];
    var i := 0;
    while i < g.length
      invariant 0 <= i <= Iterations(g.length)
      invariant Draws(rng.state, g.width, g.height, Iterations(g.length) - i, result)
        == Draws(Seed(seed), g.width, g.height, Iterations(g.length), [])
      decreases g.length - i
    {
      var x := rng.RandRange(0, g.width - 1);
      var y := rng.RandRange(0, g.height - 1);
      result := result + [(x, y)];
      i := i + 1;
    }
    rng.Srand(oldSeed);
  }

  /** The string `hash('sha256', ...)` is applied to: `$salt . $seed . $group`. */
  function HashInput(seed: int, group: int): string {
    Salt + IntToString(seed) + IntToString(group)
  }

  /** Within one group, different seeds give different hash inputs. */
  lemma HashInputSeedInjective(s1: int, s2: int, group: int)
    requires HashInput(s1, group) == HashInput(s2, group)
    ensures s1 == s2
  {
    var a, b, c := IntToString(s1), IntToString(s2), IntToString(group);
    assert Salt + a + c == HashInput(s1, group);
    assert |a| == |b|;
    assert a == HashInput(s1, group)[|Salt|..|Salt| + |a|];
    assert b == HashInput(s2, group)[|Salt|..|Salt| + |b|];
    IntToStringInjective(s1, s2);
  }

  /** For one seed, different groups give different hash inputs. */
  lemma HashInputGroupInjective(seed: int, g1: int, g2: int)
    requires HashInput(seed, g1) == HashInput(seed, g2)
    ensures g1 == g2
  {
    var p := Salt + IntToString(seed);
    assert IntToString(g1) == HashInput(seed, g1)[|p|..];
    assert IntToString(g2) == HashInput(seed, g2)[|p|..];
    IntToStringInjective(g1, g2);
  }

  /** Seed and group are concatenated without a separator, so the pair is
      not recoverable from the hashed string: seed 1 in group 23 and seed 12
      in group 3 hash the same text, hence get the same hash. */
  lemma HashInputAmbiguous()
    ensures HashInput(1, 23) == HashInput(12, 3)
  {
    assert IntToString(1) == "1";
    assert IntToString(23) == "23" by {
      assert NatToString(23) == NatToString(2) + [DigitChar(3)];
    }
    assert IntToString(12) == "12" by {
      assert NatToString(12) == NatToString(1) + [DigitChar(2)];
    }
    assert IntToString(3) == "3";
  }

  /** The `generated_sequences` entries `store` inserts, in its key order. */
  function SequenceRow(g: SequenceGenerator, group: int, time: int, seed: int, hash: string): (r: Fields)
    ensures Keys(r) == Columns(GeneratedSequences)
  {
    [("group", Int(group)), ("time", Int(time)), ("seed", Int(seed)), ("hash", Str(hash)),
     ("width", Int(g.width)), ("height", Int(g.height)), ("length", Int(g.length))]
  }

  /** `store($seed)`: with a foreign Referer the hash is null and nothing is
      written; otherwise one row with the hash of salt, seed and group is
      inserted and that hash returned. `time()` and `sha256` are parameters. */
  method Store(g: SequenceGenerator, seed: int, referer: string, time: int,
               sha256: string -> string, db: Database) returns (hash: Option<string>)
    modifies db
    ensures Http.GetGroup(referer).None? ==> hash.None? && db.tables == old(db.tables)
    ensures Http.GetGroup(referer).Some? ==>
      var group := Http.GetGroup(referer).value;
      && hash == Some(sha256(HashInput(seed, group)))
      && db.tables == Insert(old(db.tables), GeneratedSequences,
                             SequenceRow(g, group, time, seed, hash.value)).1
  {
    var group := Http.GetGroup(referer);
    if group.None? {
      hash := None;
    } else {
      var h := sha256(HashInput(seed, group.value));
      FullRow(GeneratedSequences, SequenceRow(g, group.value, time, seed, h));
      var _ := db.Store(GeneratedSequences, SequenceRow(g, group.value, time, seed, h));
      hash := Some(h);
    }
  }

  /** The row `store` appends holds the returned hash, the group, the seed
      and the dimensions the sequence is rebuilt from. */
  lemma SequenceRowValues(g: SequenceGenerator, group: int, time: int, seed: int, hash: string)
    ensures var v := RowValues(GeneratedSequences, SequenceRow(g, group, time, seed, hash));
      && "group" in v && v["group"] == Int(group)
      && "time" in v && v["time"] == Int(time)
      && "seed" in v && v["seed"] == Int(seed)
      && "hash" in v && v["hash"] == Str(hash)
      && "width" in v && v["width"] == Int(g.width)
      && "height" in v && v["height"] == Int(g.height)
      && "length" in v && v["length"] == Int(g.length)
  {
    var data := SequenceRow(g, group, time, seed, hash);
    FullRow(GeneratedSequences, data);
    assert data[0].0 == "group" && data[1].0 == "time" && data[2].0 == "seed" && data[3].0 == "hash";
    assert data[4].0 == "width" && data[5].0 == "height" && data[6].0 == "length";
  }
}
