/** The `get_sequence` endpoint: the dimensions are validated, a seed is
    drawn, and the coordinates generated from it are returned together with
    the hash under which the seed was stored. */
module GetSequence {
  import opened Json
  import opened Prng
  import opened Persistence
  import opened Sequences
  import Http
  import Dashboard

  /** The keys of the validation loop, in the order they are checked. */
  const DimensionKeys: seq<string> := ["width", "height", "length"]

  /** A key passes when it is set to a JSON integer that is not negative
      (`is_int` and `>= 0`); zero passes. */
  predicate Accepted(data: Json, key: string) {
    Isset(data, key) && Member(data, key).value.Int? && Member(data, key).value.i >= 0
  }

  function MissingMessage(key: string): string {
    "Missing parameter \"" + key + "\""
  }

  function InvalidMessage(key: string): string {
    "Parameter \"" + key + "\" must be a positive integer"
  }

  /** The one error the loop body adds for `key`, if any. */
  function KeyError(data: Json, key: string): (r: Option<string>)
    ensures r.None? <==> Accepted(data, key)
  {
    if !Isset(data, key) then Some(MissingMessage(key))
    else if !Member(data, key).value.Int? || Member(data, key).value.i < 0 then Some(InvalidMessage(key))
    else None
  }

  /** On decoded input an accepted value is a PHP integer: a literal
      outside 64 bits decodes as a float, which `is_int` rejects. */
  lemma AcceptedInRange(data: Json, key: string)
    requires WellFormed(data)
    requires KeyError(data, key).None?
    ensures 0 <= Member(data, key).value.i <= IntMax
  {
    MemberWellFormed(data, key);
  }

  /** A number PHP decodes as a float is reported with the integer message. */
  lemma FloatRejected(data: Json, key: string, text: string)
    requires Member(data, key) == Some(Num(text))
    ensures KeyError(data, key) == Some(InvalidMessage(key))
  {
  }

  function Listed(e: Option<string>): seq<string> {
    if e.Some? then [e.value] else []
  }

  /** `$errors` after the loop has checked `keys`, in order. */
  function Errors(data: Json, keys: seq<string>): seq<string> {
    if keys == [] then []
    else Errors(data, keys[..|keys| - 1]) + Listed(KeyError(data, keys[|keys| - 1]))
  }

  /** The three checks of the loop, one after the other. */
  lemma ErrorsOfThree(data: Json, a: string, b: string, c: string)
    ensures Errors(data, [a, b, c]) == Listed(KeyError(data, a)) + Listed(KeyError(data, b)) + Listed(KeyError(data, c))
  {
    assert [a, b, c][..2] == [a, b] && [a, b][..1] == [a] && [a][..0] == [];
    assert Errors(data, [a]) == [] + Listed(KeyError(data, a));
    assert Errors(data, [a, b]) == Errors(data, [a]) + Listed(KeyError(data, b));
    assert Errors(data, [a, b, c]) == Errors(data, [a, b]) + Listed(KeyError(data, c));
  }

  /** The validation loop. */
  method Validate(data: Json, keys: seq<string>) returns (errors: seq<string>)
    ensures errors == Errors(data, keys)
  {
    errors := [];
    var i := 0;
    while i < |keys|
      invariant 0 <= i <= |keys|
      invariant errors == Errors(data, keys[..i])
    {
      var key := keys[i];
      assert keys[..i + 1][..i] == keys[..i];
      if !Isset(data, key) {
        errors := errors + [MissingMessage(key)];
      } else if !Member(data, key).value.Int? || Member(data, key).value.i < 0 {
        errors := errors + [InvalidMessage(key)];
      }
      i := i + 1;
    }
    assert keys[..|keys|] == keys;
  }

  /** At most one error per key. */
  lemma {:induction false} ErrorsBound(data: Json, keys: seq<string>)
    ensures |Errors(data, keys)| <= |keys|
  {
    if keys != [] {
      ErrorsBound(data, keys[..|keys| - 1]);
    }
  }

  /** The errors are exactly the messages of the keys that fail; they
      accumulate rather than stopping at the first. */
  lemma {:induction false} ErrorsReported(data: Json, keys: seq<string>, e: string)
    ensures e in Errors(data, keys) <==> exists i :: 0 <= i < |keys| && KeyError(data, keys[i]) == Some(e)
  {
    if keys != [] {
      var init := keys[..|keys| - 1];
      ErrorsReported(data, init, e);
      if exists i :: 0 <= i < |keys| && KeyError(data, keys[i]) == Some(e) {
        var i :| 0 <= i < |keys| && KeyError(data, keys[i]) == Some(e);
        if i < |init| {
          assert init[i] == keys[i];
        }
      }
      if exists i :: 0 <= i < |init| && KeyError(data, init[i]) == Some(e) {
        var i :| 0 <= i < |init| && KeyError(data, init[i]) == Some(e);
        assert keys[i] == init[i];
      }
    }
  }

  /** No error at all exactly when every key is accepted. */
  lemma {:induction false} NoErrors(data: Json, keys: seq<string>)
    ensures Errors(data, keys) == [] <==> forall i :: 0 <= i < |keys| ==> Accepted(data, keys[i])
  {
    if keys != [] {
      var init, last := keys[..|keys| - 1], keys[|keys| - 1];
      NoErrors(data, init);
      assert Errors(data, keys) == [] <==> Errors(data, init) == [] && Accepted(data, last);
      assert (forall i :: 0 <= i < |keys| ==> Accepted(data, keys[i]))
        <==> (forall i :: 0 <= i < |init| ==> Accepted(data, init[i])) && Accepted(data, last) by {
        assert forall i :: 0 <= i < |init| ==> init[i] == keys[i];
      }
    }
  }

  /** The request `{"width": 0, "height": 0, "length": 0}` passes, although
      the message speaks of positive integers. */
  lemma ZeroAccepted()
    ensures Errors(Obj([("width", Int(0)), ("height", Int(0)), ("length", Int(0))]), DimensionKeys) == []
  {
    ErrorsOfThree(Obj([("width", Int(0)), ("height", Int(0)), ("length", Int(0))]), "width", "height", "length");
  }

  /** The request `{}`: all three keys are reported missing, in order. */
  lemma AllMissing()
    ensures Errors(Obj([]), DimensionKeys) ==
      [MissingMessage("width"), MissingMessage("height"), MissingMessage("length")]
  {
    ErrorsOfThree(Obj([]), "width", "height", "length");
    assert !Isset(Obj([]), "width") && !Isset(Obj([]), "height") && !Isset(Obj([]), "length");
  }

  /** A negative width and no length: both are reported, each with its own
      message; the valid height adds nothing. */
  lemma BadValues()
    ensures Errors(Obj([("width", Int(-1)), ("height", Int(3))]), DimensionKeys) ==
      [InvalidMessage("width"), MissingMessage("length")]
  {
    var data := Obj([("width", Int(-1)), ("height", Int(3))]);
    ErrorsOfThree(data, "width", "height", "length");
    assert KeyError(data, "width") == Some(InvalidMessage("width"));
    assert KeyError(data, "height") == None;
    assert KeyError(data, "length") == Some(MissingMessage("length"));
  }

  /** What the endpoint returns on success. */
  datatype Issued = Issued(coordinates: seq<(int, int)>, hash: Option<string>)

  /** With no error, every dimension key is accepted. */
  predicate NoErrorsHold(data: Json) {
    forall i :: 0 <= i < |DimensionKeys| ==> Accepted(data, DimensionKeys[i])
  }

  /** The generator built from validated values. */
  function GeneratorOf(data: Json): SequenceGenerator
    requires NoErrorsHold(data)
  {
    assert Accepted(data, DimensionKeys[0]) && Accepted(data, DimensionKeys[1]) && Accepted(data, DimensionKeys[2]);
    SequenceGenerator(Member(data, "width").value.i, Member(data, "height").value.i, Member(data, "length").value.i)
  }

  /** The hash `store` returns for the referer's group. */
  function HashFor(seed: int, referer: string, sha256: string -> string): Option<string> {
    match Http.GetGroup(referer)
    case None => None
    case Some(group) => Some(sha256(HashInput(seed, group)))
  }

  /** The whole script after `getJsonPostData`. On an error nothing is drawn,
      generated or stored; otherwise one `rand()` gives the seed that both
      the coordinates and the stored row come from. */
  method Handle(data: Json, referer: string, time: int, sha256: string -> string, db: Database, rng: Rng)
    returns (response: Http.Response<Issued>)
    modifies db, rng
    ensures Errors(data, DimensionKeys) != [] ==>
      && response == Http.Failure(Errors(data, DimensionKeys))
      && db.tables == old(db.tables) && rng.state == old(rng.state)
    ensures Errors(data, DimensionKeys) == [] ==>
      NoErrorsHold(data) &&
      var (seed, drawn) := Next(old(rng.state));
      var g := GeneratorOf(data);
      && response == Http.Success(Issued(Coordinates(g, seed), HashFor(seed, referer, sha256)))
      && rng.state == Seed(Next(drawn).0)
      && db.tables == match Http.GetGroup(referer)
           case None => old(db.tables)
           case Some(group) => Insert(old(db.tables), GeneratedSequences,
                                      SequenceRow(g, group, time, seed, sha256(HashInput(seed, group)))).1
  {
    var errors := Validate(data, DimensionKeys);
    if |errors| > 0 {
      return Http.Failure(errors);
    }
    NoErrors(data, DimensionKeys);
    var seed := rng.Rand();
    var generator := GeneratorOf(data);
    var coordinates := Generate(generator, seed, rng);
    var hash := Store(generator, seed, referer, time, sha256, db);
    response := Http.Success(Issued(coordinates, hash));
  }

  /** The row stored for an issued sequence rebuilds, on the dashboard, the
      very coordinates that were returned with it. */
  lemma IssuedIsRebuilt(data: Json, group: int, time: int, seed: int, hash: string)
    requires NoErrorsHold(data)
    ensures var v := RowValues(GeneratedSequences, SequenceRow(GeneratorOf(data), group, time, seed, hash));
      && "width" in v && "height" in v && "length" in v && "seed" in v
      && Coordinates(SequenceGenerator(Dashboard.AsInt(v["width"]), Dashboard.AsInt(v["height"]),
                                       Dashboard.AsInt(v["length"])), Dashboard.AsInt(v["seed"]))
         == Coordinates(GeneratorOf(data), seed)
  {
    SequenceRowValues(GeneratorOf(data), group, time, seed, hash);
  }
}
