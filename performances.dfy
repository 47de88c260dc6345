/** `Performance`: a participant's submitted result, validated against the
    issued sequences and written as one `performance` row followed by its
    `interactions` rows. */
module Performances {
  import opened Json
  import opened Persistence
  import Http

  /** The parameters the constructor requires first, in the order it checks them. */
  const RequiredKeys: seq<string> := ["age", "successes", "mistakes", "failures", "elapsed", "user_id"]

  /** The required keys are distinct, none is `sequence_id`, and each is a
      column of the `performance` table. */
  lemma RequiredKeysFacts()
    ensures forall i, j :: 0 <= i < j < |RequiredKeys| ==> RequiredKeys[i] != RequiredKeys[j]
    ensures "sequence_id" !in RequiredKeys
    ensures forall i :: 0 <= i < |RequiredKeys| ==> RequiredKeys[i] in Columns(Table.Performance)
    ensures "sequence_id" in Columns(Table.Performance)
  {
  }

  /** The exception the constructor throws. */
  datatype PerfError =
    | MissingParameter(key: string)
    | MissingHash
    | HashNotFound(hash: Json)

  /** PHP's conversion of a value to a string inside `"..."`. */
  function PhpString(j: Json): string {
    match j
    case Null => ""
    case Bool(b) => if b then "1" else ""
    case Int(i) => IntToString(i)
    case Num(text) => text
    case Str(s) => s
    case Arr(_) => "Array"
    case Obj(_) => "Array"
  }

  /** `$e->getMessage()`, including the stray quote of the hash message. */
  function Message(e: PerfError): string {
    match e
    case MissingParameter(key) => "Missing parameter '" + key + "'"
    case MissingHash => "Missing parameter hash'"
    case HashNotFound(hash) => "Cannot find hash " + PhpString(hash)
  }

  /** A validated performance: the `performance` row to insert and the
      submitted `interactions` value, stored as given. */
  datatype Performance = Validated(row: Fields, interactions: Json)

  // ----- getSequenceIdFromHash -----

  /** `WHERE "hash" = :hash`: SQL equality, which a NULL never satisfies. */
  predicate HashMatches(row: Row, hash: Json) {
    "hash" in row.values && row.values["hash"] != Null && row.values["hash"] == hash
  }

  /** The first `generated_sequences` row, in table order, whose hash matches. */
  function FirstMatch(rows: seq<Row>, hash: Json, from: nat): (r: Option<nat>)
    requires from <= |rows|
    ensures r.Some? ==> from <= r.value < |rows| && HashMatches(rows[r.value], hash)
    ensures r.Some? ==> forall j :: from <= j < r.value ==> !HashMatches(rows[j], hash)
    ensures r.None? ==> forall j :: from <= j < |rows| ==> !HashMatches(rows[j], hash)
    decreases |rows| - from
  {
    if from == |rows| then None
    else if HashMatches(rows[from], hash) then Some(from)
    else FirstMatch(rows, hash, from + 1)
  }

  /** `getSequenceIdFromHash($hash)`: the id of the first matching row, or
      the "Cannot find hash" exception. */
  function SequenceIdFromHash(rows: seq<Row>, hash: Json): Result<nat, PerfError> {
    match FirstMatch(rows, hash, 0)
    case Some(i) => Ok(rows[i].id)
    case None => Err(HashNotFound(hash))
  }

  /** The result is the first row whose hash matches, and an error exactly
      when no row does. */
  lemma SequenceIdFromHashSpec(rows: seq<Row>, hash: Json)
    ensures SequenceIdFromHash(rows, hash).Err? <==> forall j :: 0 <= j < |rows| ==> !HashMatches(rows[j], hash)
    ensures SequenceIdFromHash(rows, hash).Err? ==> SequenceIdFromHash(rows, hash).error == HashNotFound(hash)
    ensures SequenceIdFromHash(rows, hash).Ok? ==>
      exists i :: && 0 <= i < |rows| && HashMatches(rows[i], hash)
                  && rows[i].id == SequenceIdFromHash(rows, hash).value
                  && forall j :: 0 <= j < i ==> !HashMatches(rows[j], hash)
  {
    var r := FirstMatch(rows, hash, 0);
    if r.Some? {
      assert !(forall j :: 0 <= j < |rows| ==> !HashMatches(rows[j], hash)) by {
        assert HashMatches(rows[r.value], hash);
      }
    }
  }

  // ----- The constructor -----

  /** Index of the first key of `keys[from..]` that is not set, if any. */
  function FirstMissing(data: Json, keys: seq<string>, from: nat): (r: Option<nat>)
    requires from <= |keys|
    ensures r.Some? ==> from <= r.value < |keys|
    decreases |keys| - from
  {
    if from == |keys| then None
    else if !Isset(data, keys[from]) then Some(from)
    else FirstMissing(data, keys, from + 1)
  }

  /** The key found is not set and every key before it is; when none is
      found, every key from `from` on is set. */
  lemma {:induction false} FirstMissingSpec(data: Json, keys: seq<string>, from: nat)
    requires from <= |keys|
    ensures FirstMissing(data, keys, from).Some? ==>
      && !Isset(data, keys[FirstMissing(data, keys, from).value])
      && forall j :: from <= j < FirstMissing(data, keys, from).value ==> Isset(data, keys[j])
    ensures FirstMissing(data, keys, from).None? ==> forall j :: from <= j < |keys| ==> Isset(data, keys[j])
    decreases |keys| - from
  {
    if from < |keys| && Isset(data, keys[from]) {
      FirstMissingSpec(data, keys, from + 1);
    }
  }

  /** `$this->row` after the loop over `keys`: each key with its value. */
  function Picked(data: Json, keys: seq<string>): (r: Fields)
    ensures Keys(r) == keys
  {
    seq(|keys|, j requires 0 <= j < |keys| => (keys[j], ValueOrNull(Member(data, keys[j]))))
  }

  lemma PickedAppend(data: Json, keys: seq<string>, k: string)
    ensures Picked(data, keys + [k]) == Picked(data, keys) + [(k, ValueOrNull(Member(data, k)))]
  {
    var a, b := Picked(data, keys + [k]), Picked(data, keys) + [(k, ValueOrNull(Member(data, k)))];
    forall j | 0 <= j < |a| ensures a[j] == b[j] {
      if j < |keys| {
        assert (keys + [k])[j] == keys[j];
      }
    }
  }

  /** What `new Performance($performance)` does against the current
      `generated_sequences` rows: the required keys in order, then `hash`,
      which is resolved at once, then `interactions`. The first failure is
      thrown; nothing is accumulated. */
  function Validate(data: Json, sequences: seq<Row>): Result<Performance, PerfError> {
    match FirstMissing(data, RequiredKeys, 0)
    case Some(i) => Err(MissingParameter(RequiredKeys[i]))
    case None =>
      if !Isset(data, "hash") then Err(MissingHash)
      else
        match SequenceIdFromHash(sequences, Member(data, "hash").value)
        case Err(e) => Err(e)
        case Ok(id) =>
          if !Isset(data, "interactions") then Err(MissingParameter("interactions"))
          else Ok(Validated(Picked(data, RequiredKeys) + [("sequence_id", Int(id))],
                              Member(data, "interactions").value))
  }

  /** The constructor: the loop over the required keys, then the hash lookup,
      then the `interactions` check. */
  method New(data: Json, sequences: seq<Row>) returns (r: Result<Performance, PerfError>)
    ensures r == Validate(data, sequences)
  {
    RequiredKeysFacts();
    var missing, row := CopyRequired(data, RequiredKeys);
    if missing.Some? {
      return Err(MissingParameter(RequiredKeys[missing.value]));
    }
    if !Isset(data, "hash") {
      return Err(MissingHash);
    }
    var id := SequenceIdFromHash(sequences, Member(data, "hash").value);
    if id.Err? {
      return Err(id.error);
    }
    SetAppendsNewKey(row, "sequence_id", Int(id.value));
    row := Set(row, "sequence_id", Int(id.value));
    if !Isset(data, "interactions") {
      return Err(MissingParameter("interactions"));
    }
    r := Ok(Validated(row, Member(data, "interactions").value));
  }

  lemma FreshKey(keys: seq<string>, i: nat)
    requires forall i, j :: 0 <= i < j < |keys| ==> keys[i] != keys[j]
    requires i < |keys|
    ensures keys[i] !in keys[..i]
  {
    assert forall j :: 0 <= j < i ==> keys[..i][j] == keys[j] != keys[i];
  }

  /** One iteration of the constructor's loop on a set key extends the row
      by that key. */
  lemma PickedStep(data: Json, prefix: seq<string>, key: string)
    requires key !in prefix && Isset(data, key)
    ensures Set(Picked(data, prefix), key, Member(data, key).value) == Picked(data, prefix + [key])
  {
    SetAppendsNewKey(Picked(data, prefix), key, Member(data, key).value);
    PickedAppend(data, prefix, key);
  }

  /** One pass of the constructor's loop, over the first `i` keys, on a set key. */
  lemma CopyStep(data: Json, keys: seq<string>, i: nat)
    requires forall i, j :: 0 <= i < j < |keys| ==> keys[i] != keys[j]
    requires i < |keys| && Isset(data, keys[i])
    ensures Set(Picked(data, keys[..i]), keys[i], Member(data, keys[i]).value) == Picked(data, keys[..i + 1])
  {
    FreshKey(keys, i);
    PickedStep(data, keys[..i], keys[i]);
    TakeOneMore(keys, i);
  }

  lemma TakeOneMore(keys: seq<string>, i: nat)
    requires i < |keys|
    ensures keys[..i] + [keys[i]] == keys[..i + 1]
  {
  }

  /** The loop of the constructor: `$this->row[$key] = $performance[$key]`
      for each key, stopping at the first one that is not set. */
  method CopyRequired(data: Json, keys: seq<string>) returns (missing: Option<nat>, row: Fields)
    requires forall i, j :: 0 <= i < j < |keys| ==> keys[i] != keys[j]
    ensures missing == FirstMissing(data, keys, 0)
    ensures missing.None? ==> row == Picked(data, keys)
  {
    row := [];
    for i := 0 to |keys|
      invariant row == Picked(data, keys[..i])
      invariant FirstMissing(data, keys, 0) == FirstMissing(data, keys, i)
    {
      if !Isset(data, keys[i]) {
        return Some(i), row;
      }
      CopyStep(data, keys, i);
      row := Set(row, keys[i], Member(data, keys[i]).value);
    }
    assert keys[..|keys|] == keys;
    missing := None;
  }

  /** A missing required key is reported as soon as it is reached, whatever
      the later keys, the hash or the interactions are. */
  lemma FirstMissingKeyReported(data: Json, sequences: seq<Row>, i: nat)
    requires i < |RequiredKeys|
    requires forall j :: 0 <= j < i ==> Isset(data, RequiredKeys[j])
    requires !Isset(data, RequiredKeys[i])
    ensures Validate(data, sequences) == Err(MissingParameter(RequiredKeys[i]))
  {
    FirstMissingSpec(data, RequiredKeys, 0);
  }

  /** The hash is looked up before `interactions` is examined: an unknown
      hash is reported even when `interactions` is missing too. */
  lemma HashResolvedBeforeInteractions(data: Json, sequences: seq<Row>)
    requires forall j :: 0 <= j < |RequiredKeys| ==> Isset(data, RequiredKeys[j])
    requires Isset(data, "hash")
    requires forall j :: 0 <= j < |sequences| ==> !HashMatches(sequences[j], Member(data, "hash").value)
    ensures Validate(data, sequences) == Err(HashNotFound(Member(data, "hash").value))
  {
    FirstMissingSpec(data, RequiredKeys, 0);
    SequenceIdFromHashSpec(sequences, Member(data, "hash").value);
  }

  /** Validation succeeds exactly when every parameter is set and the hash
      names an issued sequence. */
  lemma ValidateAccepts(data: Json, sequences: seq<Row>)
    ensures Validate(data, sequences).Ok? <==>
      && (forall j :: 0 <= j < |RequiredKeys| ==> Isset(data, RequiredKeys[j]))
      && Isset(data, "hash")
      && (exists i :: 0 <= i < |sequences| && HashMatches(sequences[i], Member(data, "hash").value))
      && Isset(data, "interactions")
  {
    var m := FirstMissing(data, RequiredKeys, 0);
    var allSet := forall j :: 0 <= j < |RequiredKeys| ==> Isset(data, RequiredKeys[j]);
    assert m.None? <==> allSet by {
      FirstMissingSpec(data, RequiredKeys, 0);
      if m.Some? {
        assert !Isset(data, RequiredKeys[m.value]);
      }
    }
    if m.None? && Isset(data, "hash") {
      SequenceIdFromHashSpec(sequences, Member(data, "hash").value);
    }
  }

  /** With every key set, the row picked holds each key's value, in order. */
  lemma PickedValues(data: Json, keys: seq<string>)
    requires forall j :: 0 <= j < |keys| ==> Isset(data, keys[j])
    ensures forall j :: 0 <= j < |keys| ==>
      Isset(data, keys[j]) && Picked(data, keys)[j] == (keys[j], Member(data, keys[j]).value)
  {
  }

  /** A validated row holds the six values in order and then the id of the
      first sequence with the submitted hash; the interactions are kept as
      submitted. */
  lemma ValidatedRow(data: Json, sequences: seq<Row>)
    requires Validate(data, sequences).Ok?
    ensures forall j :: 0 <= j < |RequiredKeys| ==> Isset(data, RequiredKeys[j])
    ensures Isset(data, "hash") && Isset(data, "interactions")
    ensures SequenceIdFromHash(sequences, Member(data, "hash").value).Ok?
    ensures var p := Validate(data, sequences).value;
      && Keys(p.row) == RequiredKeys + ["sequence_id"]
      && (forall j :: 0 <= j < |RequiredKeys| ==> p.row[j].1 == Member(data, RequiredKeys[j]).value)
      && p.row[|RequiredKeys|].1 == Int(SequenceIdFromHash(sequences, Member(data, "hash").value).value)
      && p.interactions == Member(data, "interactions").value
  {
    FirstMissingSpec(data, RequiredKeys, 0);
    var picked := Picked(data, RequiredKeys);
    var id := SequenceIdFromHash(sequences, Member(data, "hash").value).value;
    var row := picked + [("sequence_id", Int(id))];
    assert Validate(data, sequences).value == Validated(row, Member(data, "interactions").value);
    KeysAppend(picked, ("sequence_id", Int(id)));
    PickedValues(data, RequiredKeys);
    assert forall j :: 0 <= j < |RequiredKeys| ==> row[j] == picked[j];
  }

  /** The row of a validated performance is accepted by the `performance` table. */
  lemma ValidatedRowInsertable(data: Json, sequences: seq<Row>)
    requires Validate(data, sequences).Ok?
    ensures DistinctKeys(Validate(data, sequences).value.row)
    ensures Insertable(Table.Performance, Validate(data, sequences).value.row)
  {
    ValidatedRow(data, sequences);
    RequiredKeysFacts();
    DistinctColumns(Validate(data, sequences).value.row, RequiredKeys, "sequence_id", Table.Performance);
  }

  lemma DistinctColumns(row: Fields, keys: seq<string>, last: string, t: Table)
    requires Keys(row) == keys + [last]
    requires forall i, j :: 0 <= i < j < |keys| ==> keys[i] != keys[j]
    requires last !in keys
    requires forall i :: 0 <= i < |keys| ==> keys[i] in Columns(t)
    requires last in Columns(t)
    ensures DistinctKeys(row) && Insertable(t, row)
  {
    var ks := keys + [last];
    forall i, j | 0 <= i < j < |row| ensures row[i].0 != row[j].0 {
      assert row[i].0 == ks[i] && row[j].0 == ks[j];
      if j == |keys| {
        assert ks[i] in keys;
      }
    }
    forall i | 0 <= i < |row| ensures row[i].0 in Columns(t) {
      assert row[i].0 == ks[i];
    }
  }

  // ----- store -----

  /** What `foreach ($this->interactions as $interaction)` visits: the items
      of a list, the values of an object in order. Any other value is not
      iterable: PHP warns and the body never runs. */
  function InteractionItems(j: Json): (r: seq<Json>)
  {
    match j
    case Arr(items) => items
    case Obj(ms) => seq(|ms|, i requires 0 <= i < |ms| => ms[i].1)
    case _ => []
  }

  /** A JSON list as a PHP array: its items under the keys 0, 1, ..., which
      become the column names `"0"`, `"1"`, ... in `Database::store`. */
  function Indexed(items: seq<Json>): (r: Fields)
  {
    seq(|items|, i requires 0 <= i < |items| => (NatToString(i), items[i]))
  }

  /** `$interaction['performance_id'] = $id`: an array gets the key set or
      replaced, `null` and `false` become a one-entry array, and any other
      scalar is an error that ends the script. */
  function Tag(item: Json, id: nat): Option<Fields> {
    match item
    case Obj(ms) => Some(Set(ms, "performance_id", Int(id)))
    case Arr(items) => Some(Set(Indexed(items), "performance_id", Int(id)))
    case Null => Some([("performance_id", Int(id))])
    case Bool(b) => if b then None else Some([("performance_id", Int(id))])
    case _ => None
  }

  /** A tagged interaction has distinct keys and carries the performance id. */
  lemma TagSpec(item: Json, id: nat)
    requires WellFormed(item)
    ensures Tag(item, id).Some? <==> item.Obj? || item.Arr? || item == Null || item == Bool(false)
    ensures Tag(item, id).Some? ==> DistinctKeys(Tag(item, id).value)
    ensures Tag(item, id).Some? ==> Lookup(Tag(item, id).value, "performance_id") == Some(Int(id))
  {
    match item
    case Obj(ms) =>
      SetDistinct(ms, "performance_id", Int(id));
      SetLookup(ms, "performance_id", Int(id), "performance_id");
    case Arr(items) =>
      var f := Indexed(items);
      forall i, j | 0 <= i < j < |f| ensures f[i].0 != f[j].0 {
        if f[i].0 == f[j].0 {
          NatToStringInjective(i, j);
        }
      }
      SetDistinct(f, "performance_id", Int(id));
      SetLookup(f, "performance_id", Int(id), "performance_id");
    case _ =>
  }

  lemma ItemsWellFormed(j: Json)
    requires WellFormed(j)
    ensures forall i :: 0 <= i < |InteractionItems(j)| ==> WellFormed(InteractionItems(j)[i])
  {
  }

  /** How a store ends: normally, or with a PHP fatal error part-way. */
  datatype Outcome = Completed | Fatal

  /** The loop of `store` over the remaining interactions: tag, insert, go
      on; the first failure stops the script with the earlier rows kept. */
  function StoreItems(db: Tables, items: seq<Json>, id: nat): (Tables, Outcome)
    decreases |items|
  {
    if items == [] then (db, Completed)
    else
      match Tag(items[0], id)
      case None => (db, Fatal)
      case Some(f) =>
        var (r, db') := Insert(db, Interactions, f);
        if r.None? then (db', Fatal) else StoreItems(db', items[1..], id)
  }

  /** The effect of `$performance->store()`: the `performance` row, then one
      `interactions` row per item. There is no transaction. */
  function StoreEffect(p: Performance, db: Tables): (Tables, Outcome) {
    var (id, db') := Insert(db, Table.Performance, p.row);
    if id.None? then (db', Fatal) else StoreItems(db', InteractionItems(p.interactions), id.value)
  }

  /** `Performance::store()` */
  method Store(p: Performance, db: Database) returns (outcome: Outcome)
    requires DistinctKeys(p.row)
    requires WellFormed(p.interactions)
    modifies db
    ensures (db.tables, outcome) == StoreEffect(p, old(db.tables))
  {
    var id := db.Store(Table.Performance, p.row);
    if id.None? {
      return Fatal;
    }
    var items := InteractionItems(p.interactions);
    ItemsWellFormed(p.interactions);
    for i := 0 to |items|
      invariant StoreItems(db.tables, items[i..], id.value) == StoreEffect(p, old(db.tables))
    {
      assert items[i..][0] == items[i] && items[i..][1..] == items[i + 1..];
      var tagged := Tag(items[i], id.value);
      if tagged.None? {
        return Fatal;
      }
      TagSpec(items[i], id.value);
      var r := db.Store(Interactions, tagged.value);
      if r.None? {
        return Fatal;
      }
    }
    assert items[|items|..] == [];
    outcome := Completed;
  }

  /** Whether every item can be tagged and inserted. */
  predicate AllStorable(items: seq<Json>, id: nat) {
    forall k :: 0 <= k < |items| ==>
      Tag(items[k], id).Some? && Insertable(Interactions, Tag(items[k], id).value)
  }

  /** The loop only appends `interactions` rows, at most one per item, and
      leaves the other tables alone. */
  lemma {:induction false} StoreItemsFrame(db: Tables, items: seq<Json>, id: nat)
    requires Valid(db)
    ensures var db' := StoreItems(db, items, id).0;
      && Valid(db')
      && (forall u :: u != Interactions ==> db'.Get(u) == db.Get(u))
      && |db.Get(Interactions).rows| <= |db'.Get(Interactions).rows| <= |db.Get(Interactions).rows| + |items|
      && db'.Get(Interactions).rows[..|db.Get(Interactions).rows|] == db.Get(Interactions).rows
    decreases |items|
  {
    if items != [] && Tag(items[0], id).Some? && Insertable(Interactions, Tag(items[0], id).value) {
      var db1 := Insert(db, Interactions, Tag(items[0], id).value).1;
      InsertAppendsOneRow(db, Interactions, Tag(items[0], id).value);
      StoreItemsFrame(db1, items[1..], id);
      var db' := StoreItems(db1, items[1..], id).0;
      var rows, mid := db.Get(Interactions).rows, db1.Get(Interactions).rows;
      assert db'.Get(Interactions).rows[..|rows|] == db'.Get(Interactions).rows[..|mid|][..|rows|];
    }
  }

  /** An accepted insert into `interactions` appends exactly one row there. */
  lemma InsertInteraction(db: Tables, f: Fields)
    requires Insertable(Interactions, f)
    ensures Insert(db, Interactions, f).1.Get(Interactions).rows
      == db.Get(Interactions).rows + [Row(db.Get(Interactions).lastId + 1, RowValues(Interactions, f))]
  {
  }

  /** The loop completes exactly when every item can be tagged and inserted,
      and then it has appended one row per item. */
  lemma {:induction false} StoreItemsCompletes(db: Tables, items: seq<Json>, id: nat)
    ensures StoreItems(db, items, id).1 == Completed <==> AllStorable(items, id)
    ensures StoreItems(db, items, id).1 == Completed ==>
      |StoreItems(db, items, id).0.Get(Interactions).rows| == |db.Get(Interactions).rows| + |items|
    decreases |items|
  {
    if items != [] && Tag(items[0], id).Some? && Insertable(Interactions, Tag(items[0], id).value) {
      var db1 := Insert(db, Interactions, Tag(items[0], id).value).1;
      InsertInteraction(db, Tag(items[0], id).value);
      StoreItemsCompletes(db1, items[1..], id);
      if AllStorable(items[1..], id) {
        forall k | 0 <= k < |items|
          ensures Tag(items[k], id).Some? && Insertable(Interactions, Tag(items[k], id).value)
        {
          if k > 0 { assert items[k] == items[1..][k - 1]; }
        }
      }
      if AllStorable(items, id) {
        forall k | 0 <= k < |items| - 1
          ensures Tag(items[1..][k], id).Some? && Insertable(Interactions, Tag(items[1..][k], id).value)
        {
          assert items[1..][k] == items[k + 1];
        }
      }
    }
  }

  /** The items' tags, computed up front. */
  function Tagged(items: seq<Json>, id: nat): (r: seq<Option<Fields>>)
    ensures |r| == |items|
    ensures forall k :: 0 <= k < |items| ==> r[k] == Tag(items[k], id)
  {
    seq(|items|, k requires 0 <= k < |items| => Tag(items[k], id))
  }

  /** The loop over tags already computed: insert each, stop at the first
      missing tag or rejected insert. */
  function StoreTagged(db: Tables, tagged: seq<Option<Fields>>): (Tables, Outcome)
    decreases |tagged|
  {
    if tagged == [] then (db, Completed)
    else
      match tagged[0]
      case None => (db, Fatal)
      case Some(f) =>
        var (r, db') := Insert(db, Interactions, f);
        if r.None? then (db', Fatal) else StoreTagged(db', tagged[1..])
  }

  /** Tagging is pure, so tagging every item first changes nothing. */
  lemma {:induction false} StoreItemsTagged(db: Tables, items: seq<Json>, id: nat)
    ensures StoreItems(db, items, id) == StoreTagged(db, Tagged(items, id))
    decreases |items|
  {
    if items != [] {
      var t := Tagged(items, id);
      assert t[0] == Tag(items[0], id);
      if Tag(items[0], id).Some? {
        var db1 := Insert(db, Interactions, Tag(items[0], id).value).1;
        StoreItemsTagged(db1, items[1..], id);
        assert t[1..] == Tagged(items[1..], id);
      }
    }
  }

  /** The interaction rows before the loop stay in front. */
  lemma {:induction false} StoreTaggedPrefix(db: Tables, tagged: seq<Option<Fields>>)
    ensures var rows, rows' := db.Get(Interactions).rows, StoreTagged(db, tagged).0.Get(Interactions).rows;
      |rows| <= |rows'| && rows'[..|rows|] == rows
    decreases |tagged|
  {
    if tagged != [] && tagged[0].Some? && Insertable(Interactions, tagged[0].value) {
      var db1 := Insert(db, Interactions, tagged[0].value).1;
      InsertInteraction(db, tagged[0].value);
      StoreTaggedPrefix(db1, tagged[1..]);
      var rows, mid := db.Get(Interactions).rows, db1.Get(Interactions).rows;
      var rows' := StoreTagged(db1, tagged[1..]).0.Get(Interactions).rows;
      assert rows'[..|rows|] == rows'[..|mid|][..|rows|];
    }
  }

  /** The `k`-th appended row holds the `k`-th tag's entries. */
  lemma {:induction false} StoreTaggedRow(db: Tables, tagged: seq<Option<Fields>>, k: nat)
    requires k < |tagged|
    requires |db.Get(Interactions).rows| + k < |StoreTagged(db, tagged).0.Get(Interactions).rows|
    ensures tagged[k].Some?
    ensures StoreTagged(db, tagged).0.Get(Interactions).rows[|db.Get(Interactions).rows| + k].values
      == RowValues(Interactions, tagged[k].value)
    decreases k
  {
    if !(tagged[0].Some? && Insertable(Interactions, tagged[0].value)) {
      assert false;
    }
    var rows := db.Get(Interactions).rows;
    var f := tagged[0].value;
    var db1 := Insert(db, Interactions, f).1;
    InsertInteraction(db, f);
    var mid := db1.Get(Interactions).rows;
    if k == 0 {
      StoreTaggedPrefix(db1, tagged[1..]);
      var rows' := StoreTagged(db1, tagged[1..]).0.Get(Interactions).rows;
      assert rows'[|rows|] == rows'[..|mid|][|rows|] == mid[|rows|];
    } else {
      assert |rows| + k == |mid| + (k - 1);
      StoreTaggedRow(db1, tagged[1..], k - 1);
      assert tagged[1..][k - 1] == tagged[k];
    }
  }

  /** The `k`-th appended row holds the `k`-th item, tagged. */
  lemma StoreItemsRow(db: Tables, items: seq<Json>, id: nat, k: nat)
    requires k < |items|
    requires |db.Get(Interactions).rows| + k < |StoreItems(db, items, id).0.Get(Interactions).rows|
    ensures Tag(items[k], id).Some?
    ensures StoreItems(db, items, id).0.Get(Interactions).rows[|db.Get(Interactions).rows| + k].values
      == RowValues(Interactions, Tag(items[k], id).value)
  {
    StoreItemsTagged(db, items, id);
    StoreTaggedRow(db, Tagged(items, id), k);
  }

  /** `store` inserts the `performance` row, which cannot fail for a
      validated row, and then runs the loop from the new state. */
  lemma StoreEffectUnfold(p: Performance, db: Tables)
    requires Valid(db)
    requires Insertable(Table.Performance, p.row)
    ensures var db1 := Insert(db, Table.Performance, p.row).1;
      && StoreEffect(p, db) == StoreItems(db1, InteractionItems(p.interactions), db.Get(Table.Performance).lastId + 1)
      && Valid(db1)
      && db1.Get(Interactions) == db.Get(Interactions)
  {
    InsertAppendsOneRow(db, Table.Performance, p.row);
  }

  /** Storing always leaves the new `performance` row behind, even when a
      later interaction fails; the other rows are only appended to. */
  lemma StoreEffectFrame(p: Performance, db: Tables)
    requires Valid(db)
    requires Insertable(Table.Performance, p.row)
    ensures var db' := StoreEffect(p, db).0;
      var id := db.Get(Table.Performance).lastId + 1;
      var rows, rows' := db.Get(Interactions).rows, db'.Get(Interactions).rows;
      && Valid(db')
      && db'.Get(GeneratedSequences) == db.Get(GeneratedSequences)
      && db'.Get(Table.Performance).rows
         == db.Get(Table.Performance).rows + [Row(id, RowValues(Table.Performance, p.row))]
      && |rows| <= |rows'| <= |rows| + |InteractionItems(p.interactions)|
      && rows'[..|rows|] == rows
  {
    var db1 := Insert(db, Table.Performance, p.row).1;
    InsertAppendsOneRow(db, Table.Performance, p.row);
    StoreItemsFrame(db1, InteractionItems(p.interactions), db.Get(Table.Performance).lastId + 1);
  }

  /** The store completes exactly when every item could be stored, and
      then there is one interaction row per item. */
  lemma StoreEffectCompletes(p: Performance, db: Tables)
    requires Valid(db)
    requires Insertable(Table.Performance, p.row)
    ensures var items := InteractionItems(p.interactions);
      var rows, rows' := db.Get(Interactions).rows, StoreEffect(p, db).0.Get(Interactions).rows;
      && (StoreEffect(p, db).1 == Completed <==> AllStorable(items, db.Get(Table.Performance).lastId + 1))
      && (StoreEffect(p, db).1 == Completed ==> |rows'| == |rows| + |items|)
  {
    StoreEffectUnfold(p, db);
    StoreItemsCompletes(Insert(db, Table.Performance, p.row).1, InteractionItems(p.interactions),
                        db.Get(Table.Performance).lastId + 1);
  }

  /** Every interaction row written carries the new performance's id. */
  lemma StoredRowTagged(item: Json, id: nat)
    requires WellFormed(item)
    requires Tag(item, id).Some?
    ensures "performance_id" in RowValues(Interactions, Tag(item, id).value)
    ensures RowValues(Interactions, Tag(item, id).value)["performance_id"] == Int(id)
  {
    TagSpec(item, id);
    TaggedColumn(Tag(item, id).value, id);
  }

  lemma TaggedColumn(f: Fields, id: nat)
    requires Lookup(f, "performance_id") == Some(Int(id))
    ensures "performance_id" in RowValues(Interactions, f)
    ensures RowValues(Interactions, f)["performance_id"] == Int(id)
  {
    assert Columns(Interactions)[0] == "performance_id";
  }

  /** The store is not atomic: for any request that passes validation and
      whose interactions are a list with a number as its second item, the
      performance row and the first interaction stay written and the
      script dies. */
  lemma StoreNotAtomic(data: Json, db: Tables)
    requires Valid(db)
    requires Validate(data, db.sequences.rows).Ok?
    requires Member(data, "interactions") == Some(Arr([Null, Int(7)]))
    ensures var p := Validate(data, db.sequences.rows).value;
      var (db', o) := StoreEffect(p, db);
      && o == Fatal
      && db'.Get(Table.Performance).rows
         == db.Get(Table.Performance).rows + [Row(db.Get(Table.Performance).lastId + 1, RowValues(Table.Performance, p.row))]
      && |db'.Get(Interactions).rows| == |db.Get(Interactions).rows| + 1
  {
    ValidatedRowInsertable(data, db.sequences.rows);
    ValidatedInteractions(data, db.sequences.rows);
    FailsAtSecondItem(Validate(data, db.sequences.rows).value, db);
  }

  lemma ValidatedInteractions(data: Json, sequences: seq<Row>)
    requires Validate(data, sequences).Ok?
    ensures Isset(data, "interactions")
    ensures Validate(data, sequences).value.interactions == Member(data, "interactions").value
  {
    ValidatedRow(data, sequences);
  }

  lemma FailsAtSecondItem(p: Performance, db: Tables)
    requires Valid(db)
    requires Insertable(Table.Performance, p.row)
    requires p.interactions == Arr([Null, Int(7)])
    ensures var (db', o) := StoreEffect(p, db);
      && o == Fatal
      && db'.Get(Table.Performance).rows
         == db.Get(Table.Performance).rows + [Row(db.Get(Table.Performance).lastId + 1, RowValues(Table.Performance, p.row))]
      && |db'.Get(Interactions).rows| == |db.Get(Interactions).rows| + 1
  {
    StoreEffectUnfold(p, db);
    StoreEffectFrame(p, db);
    var id := db.Get(Table.Performance).lastId + 1;
    var db1 := Insert(db, Table.Performance, p.row).1;
    var f := [("performance_id", Int(id))];
    assert Tag(Null, id) == Some(f);
    assert Insertable(Interactions, f);
    InsertInteraction(db1, f);
    var db2 := Insert(db1, Interactions, f).1;
    assert InteractionItems(p.interactions) == [Null, Int(7)];
    assert StoreItems(db1, [Null, Int(7)], id) == StoreItems(db2, [Int(7)], id);
  }

  // ----- store_results.php -----

  /** How the request ends: a JSON response, or a PHP fatal error. */
  datatype Exit = Responded(body: Http.Response<Json>) | Crashed

  /** `Performance::fromRequest()->store()` inside its `try`: a validation
      exception becomes an error response before anything is written;
      otherwise the rows are stored and an empty success is sent, unless a
      fatal error (which `catch (Exception $e)` does not catch) stops it. */
  method Record(data: Json, db: Database) returns (exit: Exit)
    requires WellFormed(data)
    modifies db
    ensures var v := Validate(data, old(db.tables).sequences.rows);
      && (v.Err? ==> exit == Responded(Http.Failure([Message(v.error)])) && db.tables == old(db.tables))
      && (v.Ok? ==> var (db', o) := StoreEffect(v.value, old(db.tables));
            && db.tables == db'
            && exit == if o == Completed then Responded(Http.Success(Arr([]))) else Crashed)
  {
    var v := New(data, db.tables.sequences.rows);
    if v.Err? {
      return Responded(Http.Failure([Message(v.error)]));
    }
    ValidatedRowInsertable(data, db.tables.sequences.rows);
    ValidatedRow(data, db.tables.sequences.rows);
    MemberWellFormed(data, "interactions");
    var o := Store(v.value, db);
    exit := if o == Completed then Responded(Http.Success(Arr([]))) else Crashed;
  }
}
